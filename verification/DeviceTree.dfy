/**
 The node's view of `/dev`: the listing of `/dev/disk/by-id`, what every path
 resolves to, and the choice of the most stable by-id link of a device.
 */
module DeviceTree {
  import opened PreferenceScan

  const DISK_BY_ID_DIR := "/dev/disk/by-id/"

  // Prefixes of by-id names, most stable first; the last one matches every name.
  const PREFERRED_PATTERNS: seq<string> :=
    ["wwn", "scsi-3", "scsi-2", "scsi-8", "scsi-S", "scsi-1", "scsi-0", "scsi", "nvme-eui", "nvme", ""]

  // What filepath.EvalSymlinks says about a path; a device is known by its kernel name.
  datatype Eval = Resolves(kname: string) | NotExist | EvalFailed

  // `byId` lists the names under /dev/disk/by-id in glob order.
  datatype Tree = Tree(byId: seq<string>, evals: map<string, Eval>, fsUuids: map<string, string>) {

    function EvalSymlinks(path: string): Eval {
      if path in evals then evals[path] else NotExist
    }

    // A missing target is a plain no, other failures are errors.
    function EvalsToDiskLabel(path: string, kname: string): Verdict {
      VerdictOf(EvalSymlinks(path), kname)
    }

    function FsUuid(kname: string): string {
      if kname in fsUuids then fsUuids[kname] else ""
    }

    // Scans succeed: no path fails to evaluate for a reason other than a missing target.
    ghost predicate Readable() {
      forall p :: p in evals ==> evals[p] != EvalFailed
    }
  }

  function VerdictOf(e: Eval, kname: string): Verdict {
    match e
    case Resolves(k) => if k == kname then Yes else No
    case NotExist => No
    case EvalFailed => Error
  }

  function ById(name: string): string {
    DISK_BY_ID_DIR + name
  }

  // ----- Ranking -----

  // Index of the first pattern, from `i` on, that is a prefix of `name`.
  function RankFrom(name: string, i: nat): (r: nat)
    requires i < |PREFERRED_PATTERNS|
    ensures i <= r < |PREFERRED_PATTERNS|
    decreases |PREFERRED_PATTERNS| - i
  {
    if PREFERRED_PATTERNS[i] <= name || i + 1 == |PREFERRED_PATTERNS| then i else RankFrom(name, i + 1)
  }

  // It is the least index whose pattern is a prefix of the name.
  lemma {:induction false} RankFromIsLeast(name: string, i: nat, r: nat)
    requires i <= r < |PREFERRED_PATTERNS|
    ensures RankFrom(name, i) == r <==>
              PREFERRED_PATTERNS[r] <= name && forall j :: i <= j < r ==> !(PREFERRED_PATTERNS[j] <= name)
    decreases |PREFERRED_PATTERNS| - i
  {
    if i < r {
      RankFromIsLeast(name, i + 1, r);
    } else if i + 1 < |PREFERRED_PATTERNS| {
      assert RankFrom(name, i) == i <==> PREFERRED_PATTERNS[i] <= name;
    }
  }

  function Rank(name: string): (r: nat)
    ensures r < |PREFERRED_PATTERNS|
  {
    RankFrom(name, 0)
  }

  // The source's inner loop: the first pattern that is a prefix of the name.
  method FirstPattern(name: string) returns (i: nat)
    ensures i == Rank(name)
  {
    i := 0;
    while !(PREFERRED_PATTERNS[i] <= name)
      invariant i < |PREFERRED_PATTERNS|
      invariant forall j :: 0 <= j < i ==> !(PREFERRED_PATTERNS[j] <= name)
      decreases |PREFERRED_PATTERNS| - i
    {
      i := i + 1;
    }
    RankFromIsLeast(name, 0, i);
  }

  function VerdictFor(t: Tree, kname: string): string -> Verdict {
    name => t.EvalsToDiskLabel(ById(name), kname)
  }

  function FindDevice(t: Tree, kname: string): Lookup<string> {
    Scan(Sorted(t.byId, Rank, 0, |PREFERRED_PATTERNS|), VerdictFor(t, kname))
  }

  // The source's lookup: the bucketed scan over the by-id listing.
  method FindDeviceInSortedSymlink(t: Tree, kname: string) returns (found: Lookup<string>)
    ensures found == FindDevice(t, kname)
  {
    found := BucketedScan(t.byId, Rank, VerdictFor(t, kname), |PREFERRED_PATTERNS|);
  }

  lemma FindDeviceIsLeastRanked(t: Tree, kname: string)
    ensures FindDevice(t, kname).NotFound? <==> forall i :: 0 <= i < |t.byId| ==> VerdictFor(t, kname)(t.byId[i]) == No
    ensures FindDevice(t, kname).Found? ==>
              var n := FindDevice(t, kname).item;
              && t.EvalSymlinks(ById(n)) == Resolves(kname)
              && exists i ::
                   && 0 <= i < |t.byId| && t.byId[i] == n
                   && forall j :: 0 <= j < |t.byId| && VerdictFor(t, kname)(t.byId[j]) != No && j != i ==>
                        Before(t.byId, Rank, i, j)
    ensures t.Readable() ==> !FindDevice(t, kname).Failed?
  {
    ScanIsLeast(t.byId, Rank, VerdictFor(t, kname), |PREFERRED_PATTERNS|);
  }

  // ----- Block devices -----

  // `pathById` is the path remembered from an earlier lookup, possibly empty or out of date.
  datatype BlockDevice = BlockDevice(kname: string, pathById: string)

  datatype PathResult = IdPath(path: string) | NoIdPath(devPath: string) | PathFailed

  datatype LinksResult = Links(paths: seq<string>) | LinksFailed

  // All that the tree says about one device.  `remembered` is the remembered path, when it still
  // resolves to the device; `best` is what the bucketed scan finds.
  datatype Facts = Facts(kname: string, remembered: string, best: PathResult, valid: LinksResult, fsUuid: string)

  predicate RememberedHolds(t: Tree, dev: BlockDevice) {
    DISK_BY_ID_DIR <= dev.pathById && t.EvalsToDiskLabel(dev.pathById, dev.kname) == Yes
  }

  function BestPath(t: Tree, kname: string): PathResult {
    match FindDevice(t, kname)
    case Found(n) => IdPath(ById(n))
    case NotFound => NoIdPath("")
    case Failed => PathFailed
  }

  // By-id links of the device in listing order.
  function ValidFrom(t: Tree, kname: string, names: seq<string>): seq<string> {
    if names == [] then []
    else
      var rest := ValidFrom(t, kname, names[1..]);
      if VerdictFor(t, kname)(names[0]) == Yes then [ById(names[0])] + rest else rest
  }

  lemma {:induction false} ValidFromMembers(t: Tree, kname: string, names: seq<string>, p: string)
    ensures p in ValidFrom(t, kname, names) <==>
              exists i :: 0 <= i < |names| && ById(names[i]) == p && VerdictFor(t, kname)(names[i]) == Yes
  {
    if names != [] {
      ValidFromMembers(t, kname, names[1..], p);
      if i :| 0 <= i < |names| && ById(names[i]) == p && VerdictFor(t, kname)(names[i]) == Yes {
        if i > 0 { assert names[1..][i - 1] == names[i]; }
      }
      if i :| 0 <= i < |names[1..]| && ById(names[1..][i]) == p && VerdictFor(t, kname)(names[1..][i]) == Yes {
        assert names[i + 1] == names[1..][i];
      }
    }
  }

  // Any evaluation error aborts the listing.
  function ValidLinks(t: Tree, kname: string): LinksResult {
    if exists i :: 0 <= i < |t.byId| && VerdictFor(t, kname)(t.byId[i]) == Error then LinksFailed
    else Links(ValidFrom(t, kname, t.byId))
  }

  // GetValidByIDSymlinks, over the by-id listing
  method GetValidByIDSymlinks(t: Tree, kname: string) returns (r: LinksResult)
    ensures r == ValidLinks(t, kname)
  {
    var paths := [];
    for i := 0 to |t.byId|
      invariant forall j :: 0 <= j < i ==> VerdictFor(t, kname)(t.byId[j]) != Error
      invariant ValidFrom(t, kname, t.byId) == paths + ValidFrom(t, kname, t.byId[i..])
    {
      assert t.byId[i..][0] == t.byId[i] && t.byId[i..][1..] == t.byId[i + 1..];
      var v := t.EvalsToDiskLabel(ById(t.byId[i]), kname);
      assert v == VerdictFor(t, kname)(t.byId[i]);
      if v == Error {
        return LinksFailed;
      }
      if v == Yes {
        paths := paths + [ById(t.byId[i])];
      }
    }
    return Links(paths);
  }

  // One by-id name that cannot be evaluated fails the whole listing.
  lemma ListingFailsIff(t: Tree, kname: string)
    ensures ValidLinks(t, kname).LinksFailed? <==>
              exists i :: 0 <= i < |t.byId| && t.EvalSymlinks(ById(t.byId[i])) == EvalFailed
  {
    assert forall i :: 0 <= i < |t.byId| ==>
        (VerdictFor(t, kname)(t.byId[i]) == Error <==> t.EvalSymlinks(ById(t.byId[i])) == EvalFailed);
  }

  function Probe(t: Tree, dev: BlockDevice): Facts {
    Facts(dev.kname, if RememberedHolds(t, dev) then dev.pathById else "",
          BestPath(t, dev.kname), ValidLinks(t, dev.kname), t.FsUuid(dev.kname))
  }

  // GetUncachedPathID
  function UncachedPathID(f: Facts, globOk: bool): PathResult {
    if globOk then f.best else PathFailed
  }

  // GetPathByID: the remembered path while it holds, else the best one.
  function PathByID(f: Facts, globOk: bool): PathResult {
    if f.remembered != "" then IdPath(f.remembered)
    else
      match UncachedPathID(f, globOk)
      case IdPath(p) => IdPath(p)
      case NoIdPath(_) => if f.kname == "" then PathFailed else NoIdPath("/dev/" + f.kname)
      case PathFailed => PathFailed
  }

  // GetValidByIDSymlinks
  function ValidByIDSymlinks(f: Facts, globOk: bool): LinksResult {
    if globOk then f.valid else LinksFailed
  }

  /**
   The path of a device: the remembered by-id path as long as it resolves to the device, else the
   best-ranked one, else the kernel's own path, which is no by-id path.
   */
  lemma PathByIDIs(t: Tree, dev: BlockDevice, globOk: bool)
    ensures var r, found := PathByID(Probe(t, dev), globOk), FindDevice(t, dev.kname);
            if DISK_BY_ID_DIR <= dev.pathById && t.EvalSymlinks(dev.pathById) == Resolves(dev.kname)
            then r == IdPath(dev.pathById)
            else
              && (r.IdPath? <==> globOk && found.Found?)
              && (r.IdPath? ==> r.path == DISK_BY_ID_DIR + found.item)
              && (r.NoIdPath? <==> globOk && found.NotFound? && dev.kname != "")
              && (r.NoIdPath? ==> r.devPath == "/dev/" + dev.kname)
  {
    hide FindDevice;
  }

  // Whatever path the facts name resolves to the device they are about.
  ghost predicate Sound(t: Tree, f: Facts) {
    && (f.remembered != "" ==> t.EvalSymlinks(f.remembered) == Resolves(f.kname))
    && (f.best.IdPath? ==> t.EvalSymlinks(f.best.path) == Resolves(f.kname) && f.best.path != "")
  }

  lemma ProbeIsSound(t: Tree, dev: BlockDevice)
    ensures Sound(t, Probe(t, dev))
  {
    FindDeviceIsLeastRanked(t, dev.kname);
  }
}

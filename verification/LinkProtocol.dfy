/**
 One node's device links: the links under the storage root, the PersistentVolumes that use them
 and the LocalVolumeDeviceLink records that describe them.  Every filesystem or API call has an
 outcome flag, so a function of the state and the flags covers success and every failure.
 */
module LinkProtocol {
  import opened DeviceTree
  import opened PreferenceScan
  import opened Objects
  import opened ClaimRules
  import PvName
  import LinkCache

  const ERROR_KIND := "SymlinkRecreateError"

  // Labels older versions put on volumes.
  const DEPRECATED_LABELS: set<string> := {"storage.openshift.com/device-name", "storage.openshift.com/device-id"}

  // The name of a link's volume, and of its record.
  function LinkName(node: string, l: LinkPath): string {
    PvName.GeneratePVName(PvName.Utf8(l.name), PvName.Utf8(node), PvName.Utf8(l.sc))
  }

  datatype State = State(
    node: string,
    tree: Tree,
    links: map<LinkPath, string>,
    pvs: map<string, Pv>,
    lvdls: map<string, Lvdl>,
    cache: map<string, Lvdl>)
  {
    function NameOf(l: LinkPath): string {
      LinkName(node, l)
    }

    function EvalLink(l: LinkPath): Eval {
      if l in links then tree.EvalSymlinks(links[l]) else NotExist
    }

    predicate Live(l: LinkPath, kname: string) {
      EvalLink(l) == Resolves(kname)
    }

    function Volume(name: string): Option<Pv> {
      if name in pvs then Some(pvs[name]) else None
    }

    function Record(name: string): Option<Lvdl> {
      if name in lvdls then Some(lvdls[name]) else None
    }
  }

  // ----- Outcomes of the calls a step makes -----

  datatype StatusCalls = StatusCalls(idGlobOk: bool, validGlobOk: bool, blkidOk: bool, writeOk: bool)

  datatype RelinkCalls = RelinkCalls(
    globOk: bool, evalOk: bool, listOk: bool,
    rmOk: bool, symlinkOk: bool, renameOk: bool, rmAfterOk: bool,
    now: int, status: StatusCalls)

  datatype ApplyCalls = ApplyCalls(pvGetOk: bool, getOk: bool, createOk: bool, status: StatusCalls)

  datatype SyncCalls = SyncCalls(
    preOk: bool, getOk: bool, matchGlobOk: bool, relink: RelinkCalls,
    readOk: bool, modeOk: bool, pvGetOk: bool, capacityOk: bool, pvWriteOk: bool, apply: ApplyCalls)

  // ----- Record status -----

  datatype StatusResult = NewStatus(st: LvdlStatus) | StatusFailed

  function SetStatus(
    f: Facts, st: LvdlStatus, preferred: string, current: string, path: LinkPath, c: StatusCalls): StatusResult {
    if f.kname == "" then StatusFailed
    else
      var found := if preferred == "" then UncachedPathID(f, c.idGlobOk) else IdPath(preferred);
      if found.PathFailed? then StatusFailed
      else
        var valid := ValidByIDSymlinks(f, c.validGlobOk);
        if valid.LinksFailed? || !c.blkidOk then StatusFailed
        else
          NewStatus(LvdlStatus(
            current, if found.IdPath? then found.path else "", valid.paths, Some(path), f.fsUuid, st.conditions))
  }

  // Index of the last condition of a kind, or -1.
  function LastOfKind(conds: seq<Condition>, kind: string): (i: int)
    ensures -1 <= i < |conds|
    ensures 0 <= i ==> conds[i].kind == kind
    ensures forall j :: i < j < |conds| ==> conds[j].kind != kind
  {
    if conds == [] then -1
    else if conds[|conds| - 1].kind == kind then |conds| - 1
    else LastOfKind(conds[..|conds| - 1], kind)
  }

  // A condition that says the same thing keeps its time stamp.
  function SetCondition(conds: seq<Condition>, c: Condition): seq<Condition> {
    var i := LastOfKind(conds, c.kind);
    if i < 0 then conds + [c]
    else if conds[i].(time := c.time) == c then conds
    else conds[i := c]
  }

  datatype Result = Result(state: State, ok: bool)

  // The schema of the record: a path, once set, is immutable.
  predicate PathRule(stored: Option<LinkPath>, written: Option<LinkPath>) {
    stored.None? || written == stored
  }

  // The API server refuses a write that is based on an older version or moves a set path; a write
  // goes through to the cache.
  function WriteStatus(s: State, l: Lvdl, st: LvdlStatus, ok: bool): Result {
    if !ok || l.name !in s.lvdls || s.lvdls[l.name].version != l.version then Result(s, false)
    else if !PathRule(s.lvdls[l.name].status.pvPath, st.pvPath) then Result(s, false)
    else
      var l' := s.lvdls[l.name].(status := st, version := l.version + 1);
      Result(s.(lvdls := s.lvdls[l.name := l'],
                cache := if l'.node == s.node then s.cache[l.name := l'] else s.cache), true)
  }

  function UpdateDeviceLinks(s: State, l: Lvdl, f: Facts, current: string, path: LinkPath, c: StatusCalls): Result {
    match SetStatus(f, l.status, "", current, path, c)
    case StatusFailed => Result(s, false)
    case NewStatus(st) => if st == l.status then Result(s, true) else WriteStatus(s, l, st, c.writeOk)
  }

  function FreshRecord(s: State, name: string): Lvdl {
    Lvdl(name, name, s.node, NoPolicy, EMPTY_STATUS, 0)
  }

  function ApplyStatus(s: State, name: string, f: Facts, current: string, path: LinkPath, c: ApplyCalls): Result {
    if f.kname == "" || !c.pvGetOk then Result(s, false)
    else if name !in s.pvs then Result(s, true)
    else if !c.getOk then Result(s, false)
    else if name in s.lvdls then UpdateDeviceLinks(s, s.lvdls[name], f, current, path, c.status)
    else if !c.createOk then Result(s, false)
    else
      var l := FreshRecord(s, name);
      UpdateDeviceLinks(s.(lvdls := s.lvdls[name := l]), l, f, current, path, c.status)
  }

  // ----- Relink -----

  predicate HasMismatchingSymlink(l: Option<Lvdl>, f: Facts, globOk: bool) {
    && l.Some?
    && l.value.policy == PreferredLinkTarget
    && PathByID(f, globOk).IdPath?
    && PathByID(f, globOk).path != ""
    && PathByID(f, globOk).path != l.value.status.current
  }

  datatype Exit = NoRelink | Swapped | NotSwapped

  datatype RelinkResult = RelinkResult(state: State, ok: bool, exit: Exit)

  // A failed relink is recorded as a condition; the recorded current target stays.
  function RecordFailure(
    s: State, l: Lvdl, reason: string, preferred: string, f: Facts, path: LinkPath, c: RelinkCalls): RelinkResult {
    match SetStatus(f, l.status, preferred, l.status.current, path, c.status)
    case StatusFailed => RelinkResult(s, false, NotSwapped)
    case NewStatus(st) =>
      var st' := st.(conditions := SetCondition(st.conditions, Condition(ERROR_KIND, true, reason, preferred, c.now)));
      if st' == l.status then RelinkResult(s, true, NotSwapped)
      else
        var w := WriteStatus(s, l, st', c.status.writeOk);
        RelinkResult(w.state, w.ok, NotSwapped)
  }

  // Another link of the same storage class resolves to the device.
  predicate Claimed(s: State, path: LinkPath, kname: string) {
    exists e :: e in s.links && e.sc == path.sc && e != path && s.Live(e, kname)
  }

  datatype SwapResult = SwapResult(links: map<LinkPath, string>, failure: string)

  // Temporary link, then rename over the old one; the temporary link is removed on every exit.
  function Swap(links: map<LinkPath, string>, path: LinkPath, preferred: string, c: RelinkCalls): SwapResult {
    var tmp := TmpPath(path);
    var cleaned := if c.rmOk then links - {tmp} else links;
    if !c.symlinkOk || tmp in cleaned then
      SwapResult(if c.rmAfterOk then cleaned - {tmp} else cleaned, "TempSymlinkCreateFailed")
    else if !c.renameOk then
      SwapResult(if c.rmAfterOk then cleaned - {tmp} else cleaned[tmp := preferred], "RenameSymlinkFailed")
    else
      SwapResult((cleaned - {tmp})[path := preferred], "")
  }

  function Relink(s: State, l: Lvdl, path: LinkPath, f: Facts, c: RelinkCalls): RelinkResult {
    var found := PathByID(f, c.globOk);
    if !found.IdPath? then RecordFailure(s, l, "PreferredTargetNotFound", "", f, path, c)
    else
      var preferred := found.path;
      var resolved := s.tree.EvalSymlinks(preferred);
      if !c.evalOk || !resolved.Resolves? then RecordFailure(s, l, "EvalSymlinkFailed", preferred, f, path, c)
      else if !c.listOk then RecordFailure(s, l, "ListDirFailed", preferred, f, path, c)
      else if Claimed(s, path, resolved.kname) then RecordFailure(s, l, "TargetAlreadyClaimed", preferred, f, path, c)
      else
        var swap := Swap(s.links, path, preferred, c);
        var s1 := s.(links := swap.links);
        if swap.failure != "" then RecordFailure(s1, l, swap.failure, preferred, f, path, c)
        else
          match SetStatus(f, l.status, preferred, preferred, path, c.status)
          case StatusFailed => RelinkResult(s1, false, Swapped)
          case NewStatus(st) =>
            var w := WriteStatus(s1, l, st.(conditions := []), c.status.writeOk);
            RelinkResult(w.state, w.ok, Swapped)
  }

  // ----- Sync of a link, its volume and its record -----

  datatype Outcome = Done | TryAgain | Failure

  datatype SyncResult = SyncResult(state: State, outcome: Outcome, exit: Exit)

  // What the owner contributes to a new volume.
  datatype Owner = Owner(labels: map<string, string>, retain: bool)

  // Existing volumes keep their path and labels; missing labels are added, deprecated ones dropped.
  function PvAfterSync(pv: Option<Pv>, node: string, path: LinkPath, owner: Owner): Pv {
    match pv
    case Some(p) => p.(labels := owner.labels + (p.labels - DEPRECATED_LABELS))
    case None => Pv(node, Some(path), Pending, owner.labels, owner.retain, false, [SYMLINK_FINALIZER], false)
  }

  function SyncAfterRelink(s: State, exit: Exit, path: LinkPath, f: Facts, owner: Owner, c: SyncCalls): SyncResult {
    var name := s.NameOf(path);
    if path !in s.links || !c.readOk || !c.modeOk then SyncResult(s, Failure, exit)
    else if c.pvGetOk && name in s.pvs && s.pvs[name].phase == Released then SyncResult(s, TryAgain, exit)
    else if !c.capacityOk || !c.pvWriteOk then SyncResult(s, Failure, exit)
    else
      var pv := PvAfterSync(s.Volume(name), s.node, path, owner);
      var s1 := s.(pvs := s.pvs[name := pv]);
      if exit != NoRelink then SyncResult(s1, Done, exit)
      else
        var a := ApplyStatus(s1, name, f, s.links[path], path, c.apply);
        SyncResult(a.state, if a.ok then Done else Failure, exit)
  }

  function Sync(s: State, path: LinkPath, f: Facts, owner: Owner, c: SyncCalls): SyncResult {
    if !c.preOk || !c.getOk then SyncResult(s, Failure, NoRelink)
    else
      var l := s.Record(s.NameOf(path));
      if HasMismatchingSymlink(l, f, c.matchGlobOk) then
        var r := Relink(s, l.value, path, f, c.relink);
        if !r.ok then SyncResult(r.state, Failure, r.exit) else SyncAfterRelink(r.state, r.exit, path, f, owner, c)
      else SyncAfterRelink(s, NoRelink, path, f, owner, c)
  }

  // ----- Recovery of a lost link -----

  datatype Recovery = Recovered(path: LinkPath) | PolicyNotPreferred(l: Lvdl, path: LinkPath) | NotRecovered

  // The only record of a device: its own path, or else the path of its volume.
  function RecordedPath(s: State, l: Lvdl, pvGetOk: bool): Option<LinkPath> {
    if l.status.pvPath.Some? then l.status.pvPath
    else if pvGetOk && l.pvName in s.pvs then s.pvs[l.pvName].path
    else None
  }

  lemma OnlyKey(m: map<string, Lvdl>, a: string, b: string)
    requires |m| == 1 && a in m && b in m
    ensures a == b
  {
    if a != b {
      assert {a, b} <= m.Keys;
      assert |{a, b}| <= |m.Keys| by { SubsetSize({a, b}, m.Keys); }
    }
  }

  lemma SubsetSize<T>(a: set<T>, b: set<T>)
    requires a <= b
    ensures |a| <= |b|
  {
    assert b == a + (b - a);
  }

  function TheOnly(m: map<string, Lvdl>): (l: Lvdl)
    requires |m| == 1
    ensures l in m.Values
  {
    assert m.Keys != {} by { assert |m.Keys| == 1; }
    assert forall a, b :: a in m && b in m ==> a == b by {
      forall a, b | a in m && b in m ensures a == b { OnlyKey(m, a, b); }
    }
    var n :| n in m;
    m[n]
  }

  lemma OnlyKeyIs(found: map<string, Lvdl>, n: string)
    requires |found| == 1 && n in found
    ensures TheOnly(found) == found[n]
  {
    var m :| m in found && found[m] == TheOnly(found);
    OnlyKey(found, m, n);
  }

  function Recover(s: State, found: map<string, Lvdl>, sc: string, pvGetOk: bool): Recovery {
    if |found| != 1 then NotRecovered
    else
      var l := TheOnly(found);
      var p := RecordedPath(s, l, pvGetOk);
      if p.None? || p.value.sc != sc then NotRecovered
      else if l.policy != PreferredLinkTarget then PolicyNotPreferred(l, p.value)
      else if s.tree.EvalSymlinks(l.status.current).Resolves? then NotRecovered
      else Recovered(p.value)
  }

  datatype Search = Records(found: map<string, Lvdl>) | SearchFailed

  // The cache lookup, by the linear scan it stands for.
  function FindManaged(s: State, source: string, f: Facts, globOk: bool): Search {
    if LinkCache.Listing(s.cache, source) != map[] then Records(LinkCache.Listing(s.cache, source))
    else
      match ValidByIDSymlinks(f, globOk)
      case LinksFailed => SearchFailed
      case Links(siblings) => Records(LinkCache.Managed(s.cache, source, siblings))
  }

  // ----- New links -----

  // filepath.Base
  function Base(p: string): string {
    if p == "" then ""
    else if p[|p| - 1] == '/' then ""
    else Base(p[..|p| - 1]) + [p[|p| - 1]]
  }

  datatype CreateCalls = CreateCalls(mkdirOk: bool, lockOk: bool, scanOk: bool, precheckOk: bool, symlinkOk: bool)

  datatype CreateResult = CreateResult(state: State, proceed: bool)

  // find -L <storage root> -samefile <device>
  function LinksTo(s: State, kname: string): set<LinkPath> {
    set l | l in s.links && s.Live(l, kname)
  }

  function CreateLocalVolume(s: State, source: string, path: LinkPath, c: CreateCalls): CreateResult {
    var e := s.tree.EvalSymlinks(source);
    if !e.Resolves? then CreateResult(s, false)
    else
      match Decide(LocalVolume, c.lockOk, c.scanOk, LinksTo(s, e.kname), path)
      case AlreadyOurs => CreateResult(s, true)
      case Refuse => CreateResult(s, false)
      case Proceed =>
        if !c.mkdirOk then CreateResult(s, false)
        else if s.EvalLink(path) != NotExist then CreateResult(s, true)
        else if !c.precheckOk || path in s.links || !c.symlinkOk then CreateResult(s, false)
        else CreateResult(s.(links := s.links[path := source]), true)
  }

  function CreateLocalVolumeSet(s: State, f: Facts, source: string, path: LinkPath, c: CreateCalls): CreateResult {
    if f.kname == "" || !c.mkdirOk then CreateResult(s, false)
    else
      match Decide(LocalVolumeSet, c.lockOk, c.scanOk, LinksTo(s, f.kname), path)
      case AlreadyOurs => CreateResult(s, true)
      case Refuse => CreateResult(s, false)
      case Proceed =>
        if path in s.links then CreateResult(s, s.tree.EvalSymlinks(source).Resolves?)
        else if !c.symlinkOk then CreateResult(s, false)
        else CreateResult(s.(links := s.links[path := source]), true)
  }

  function CreateLink(
    s: State, who: Controller, f: Facts, source: string, path: LinkPath, c: CreateCalls): CreateResult {
    if who == LocalVolume then CreateLocalVolume(s, source, path, c) else CreateLocalVolumeSet(s, f, source, path, c)
  }

  datatype NewCalls = NewCalls(
    validGlobOk: bool, recoverPvGetOk: bool, update: StatusCalls, create: CreateCalls, sync: SyncCalls)

  // A device without a live link: recover the link of a known record, or create a new link.
  function ProcessNew(
    s: State, who: Controller, f: Facts, source: string, sc: string, owner: Owner, c: NewCalls): State {
    match FindManaged(s, source, f, c.validGlobOk)
    case SearchFailed => s
    case Records(found) =>
      if found != map[] then
        match Recover(s, found, sc, c.recoverPvGetOk)
        case NotRecovered => s
        case PolicyNotPreferred(l, p) => UpdateDeviceLinks(s, l, f, l.status.current, p, c.update).state
        case Recovered(p) => Sync(s, p, f, owner, c.sync).state
      else
        var path := LinkPath(sc, Base(source));
        var r := CreateLink(s, who, f, source, path, c.create);
        if r.proceed then Sync(r.state, path, f, owner, c.sync).state else r.state
  }

  // The LocalVolumeSet controller links the by-id path, or the kernel path when there is none.
  function LvSetSource(f: Facts, globOk: bool): Option<string> {
    match PathByID(f, globOk)
    case IdPath(p) => Some(p)
    case NoIdPath(d) => Some(d)
    case PathFailed => None
  }

  function ProcessNewLvSet(s: State, f: Facts, sc: string, owner: Owner, globOk: bool, c: NewCalls): State {
    match LvSetSource(f, globOk)
    case None => s
    case Some(source) => ProcessNew(s, LocalVolumeSet, f, source, sc, owner, c)
  }

  // ----- Devices rejected for provisioning but matched by the owner -----

  // What the scan of the storage class directory for a link to the device reported.
  datatype Existing = ExistingLink(l: LinkPath) | NoExisting | ExistingFailed

  datatype RejectedCalls = RejectedCalls(
    globOk: bool, validGlobOk: bool, recoverPvGetOk: bool, update: StatusCalls,
    getOk: bool, matchGlobOk: bool, relink: RelinkCalls, readOk: bool, apply: ApplyCalls)

  function RefreshRecord(s: State, who: Controller, path: LinkPath, f: Facts, c: RejectedCalls): State {
    var name := s.NameOf(path);
    if !c.getOk && who == LocalVolumeSet then s
    else
      var l := if c.getOk then s.Record(name) else None;
      if HasMismatchingSymlink(l, f, c.matchGlobOk) then Relink(s, l.value, path, f, c.relink).state
      else if path !in s.links || !c.readOk then s
      else ApplyStatus(s, name, f, s.links[path], path, c.apply).state
  }

  function ProcessRejected(
    s: State, who: Controller, sc: string, f: Facts, existing: Existing, c: RejectedCalls): State {
    match existing
    case ExistingFailed => s
    case ExistingLink(l) => RefreshRecord(s, who, l, f, c)
    case NoExisting => RecoverRejected(s, who, sc, f, c)
  }

  // No link to the device was found: its record may name one that lost its target.
  function RecoverRejected(s: State, who: Controller, sc: string, f: Facts, c: RejectedCalls): State {
    var source := PathByID(f, c.globOk);
    if !source.IdPath? then s
    else
      match FindManaged(s, source.path, f, c.validGlobOk)
      case SearchFailed => s
      case Records(found) =>
        if found == map[] then s
        else
          match Recover(s, found, sc, c.recoverPvGetOk)
          case NotRecovered => s
          case PolicyNotPreferred(l, p) => UpdateDeviceLinks(s, l, f, l.status.current, p, c.update).state
          case Recovered(p) => RefreshRecord(s, who, p, f, c)
  }

  // The link whose record the pass refreshes: the one found, or the one recovered from the record.
  function RejectedLink(s: State, sc: string, f: Facts, existing: Existing, c: RejectedCalls): Option<LinkPath> {
    match existing
    case ExistingFailed => None
    case ExistingLink(l) => Some(l)
    case NoExisting =>
      var source := PathByID(f, c.globOk);
      if !source.IdPath? then None
      else
        var search := FindManaged(s, source.path, f, c.validGlobOk);
        if search.SearchFailed? || search.found == map[] then None
        else
          var r := Recover(s, search.found, sc, c.recoverPvGetOk);
          if r.Recovered? then Some(r.path) else None
  }

  // ----- Steps of a run -----

  datatype Step =
    // a link to the device was found in the storage class directory
    | SyncExisting(path: LinkPath, dev: BlockDevice, owner: Owner, calls: SyncCalls)
    // no link was found
    | NewLocalVolume(dev: BlockDevice, source: string, sc: string, owner: Owner, provision: NewCalls)
    | NewLocalVolumeSet(dev: BlockDevice, sc: string, owner: Owner, globOk: bool, provision: NewCalls)
    | Rejected(who: Controller, sc: string, dev: BlockDevice, existing: Existing, rejected: RejectedCalls)
    // the environment
    | TreeChanges(tree: Tree)
    | PolicySet(name: string, policy: Policy)
    | VolumeChanges(name: string, phase: Phase, labels: map<string, string>)
    | VolumeDeleted(name: string)
    | RecordDeleted(name: string)
    | LinkRemoved(path: LinkPath)
    | CacheRefreshed(name: string)
    // another node's diskmaker writes a record or a volume of its own
    | OtherNodeRecord(l: Lvdl)
    | OtherNodeVolume(name: string, pv: Pv)

  function Next(s: State, step: Step): State {
    match step
    case SyncExisting(path, dev, owner, c) => Sync(s, path, Probe(s.tree, dev), owner, c).state
    case NewLocalVolume(dev, source, sc, owner, c) =>
      ProcessNew(s, LocalVolume, Probe(s.tree, dev), source, sc, owner, c)
    case NewLocalVolumeSet(dev, sc, owner, globOk, c) => ProcessNewLvSet(s, Probe(s.tree, dev), sc, owner, globOk, c)
    case Rejected(who, sc, dev, existing, c) => ProcessRejected(s, who, sc, Probe(s.tree, dev), existing, c)
    case TreeChanges(t) => s.(tree := t)
    case PolicySet(n, p) =>
      if n !in s.lvdls then s
      else s.(lvdls := s.lvdls[n := s.lvdls[n].(policy := p, version := s.lvdls[n].version + 1)])
    case VolumeChanges(n, phase, labels) =>
      if n !in s.pvs then s else s.(pvs := s.pvs[n := s.pvs[n].(phase := phase, labels := labels)])
    case VolumeDeleted(n) => s.(pvs := s.pvs - {n})
    case RecordDeleted(n) => s.(lvdls := s.lvdls - {n})
    case LinkRemoved(l) => s.(links := s.links - {l})
    case CacheRefreshed(n) =>
      if n !in s.lvdls then s.(cache := s.cache - {n})
      else if s.lvdls[n].node != s.node then s
      else s.(cache := s.cache[n := s.lvdls[n]])
    case OtherNodeRecord(l) => s.(lvdls := s.lvdls[l.name := l])
    case OtherNodeVolume(n, pv) => s.(pvs := s.pvs[n := pv])
  }

  // The state after a sequence of steps.
  function Run(s: State, steps: seq<Step>): State {
    if steps == [] then s else Next(Run(s, steps[..|steps| - 1]), steps[|steps| - 1])
  }
}

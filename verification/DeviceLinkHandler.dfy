/**
 The handler that carries out the link protocol: it changes links, volumes and records one call
 at a time, in the order of the source.  Every method is proved equal to its specification, and
 says what a caller may rely on.
 */
module DeviceLinkHandler {
  import opened DeviceTree
  import opened Objects
  import opened LinkProtocol
  import opened LinkProtocolRuns
  import opened LinkProtocolSync

  // Updates the last condition of the kind, or adds one.
  method SetLvdlCondition(conds: seq<Condition>, c: Condition) returns (r: seq<Condition>)
    ensures r == SetCondition(conds, c)
  {
    var index := -1;
    for i := 0 to |conds|
      invariant index == LastOfKind(conds[..i], c.kind)
    {
      assert conds[..i + 1][..i] == conds[..i];
      if conds[i].kind == c.kind {
        index := i;
      }
    }
    assert conds[..|conds|] == conds;
    if index != -1 {
      var e := conds[index];
      if e.message == c.message && e.reason == c.reason && e.active == c.active {
        return conds;
      }
      return conds[index := c];
    }
    return conds + [c];
  }

  // setStatusSymlinks, on a copy of the status
  method SetStatusSymlinks(f: Facts, st: LvdlStatus, preferred: string, current: string, path: LinkPath, c: StatusCalls)
    returns (r: StatusResult)
    ensures r == SetStatus(f, st, preferred, current, path, c)
  {
    if f.kname == "" {
      return StatusFailed;
    }
    var target := preferred;
    if target == "" {
      var found := UncachedPathID(f, c.idGlobOk);
      if found.PathFailed? {
        return StatusFailed;
      }
      target := if found.IdPath? then found.path else "";
    }
    var valid := ValidByIDSymlinks(f, c.validGlobOk);
    if valid.LinksFailed? {
      return StatusFailed;
    }
    if !c.blkidOk {
      return StatusFailed;
    }
    return NewStatus(
      st.(current := current, preferred := target, valid := valid.paths, pvPath := Some(path), fsUuid := f.fsUuid));
  }

  class Handler {
    const node: string
    var tree: Tree
    var links: map<LinkPath, string>
    var pvs: map<string, Pv>
    var lvdls: map<string, Lvdl>
    var cache: map<string, Lvdl>

    function St(): State
      reads this
    {
      State(node, tree, links, pvs, lvdls, cache)
    }

    constructor (s: State)
      ensures St() == s
    {
      node, tree, links, pvs, lvdls, cache := s.node, s.tree, s.links, s.pvs, s.lvdls, s.cache;
    }

    // The API server's status update, followed by the write-through to the cache.
    method WriteRecord(l: Lvdl, st: LvdlStatus, ok: bool) returns (done: bool)
      modifies this`lvdls, this`cache
      ensures Result(St(), done) == WriteStatus(old(St()), l, st, ok)
    {
      if !ok || l.name !in lvdls || lvdls[l.name].version != l.version {
        return false;
      }
      if !PathRule(lvdls[l.name].status.pvPath, st.pvPath) {
        return false;
      }
      var l' := lvdls[l.name].(status := st, version := l.version + 1);
      lvdls := lvdls[l.name := l'];
      if l'.node == node {
        cache := cache[l.name := l'];
      }
      return true;
    }

    method UpdateLinks(l: Lvdl, f: Facts, current: string, path: LinkPath, c: StatusCalls) returns (done: bool)
      modifies this`lvdls, this`cache
      ensures Result(St(), done) == UpdateDeviceLinks(old(St()), l, f, current, path, c)
      ensures done && old(l.name in lvdls && lvdls[l.name] == l) ==> Recorded(lvdls, l.name, current, path)
      ensures Filed(old(lvdls)) ==> Frame(old(St()), St(), l.name, path)
    {
      if Filed(lvdls) {
        UpdateDeviceLinksFrame(St(), l, f, current, path, c);
      }
      if l.name in lvdls && lvdls[l.name] == l {
        UpdateRecords(St(), l, f, current, path, c);
      }
      var r := SetStatusSymlinks(f, l.status, "", current, path, c);
      if r.StatusFailed? {
        return false;
      }
      if r.st == l.status {
        return true;
      }
      done := WriteRecord(l, r.st, c.writeOk);
    }

    method Apply(name: string, f: Facts, current: string, path: LinkPath, c: ApplyCalls) returns (done: bool)
      modifies this`lvdls, this`cache
      ensures Result(St(), done) == ApplyStatus(old(St()), name, f, current, path, c)
      ensures done && name in pvs && Filed(old(lvdls)) ==> Recorded(lvdls, name, current, path)
      ensures Filed(old(lvdls)) ==> Frame(old(St()), St(), name, path)
    {
      if Filed(lvdls) {
        ApplyStatusFrame(St(), name, f, current, path, c);
      }
      if f.kname == "" || !c.pvGetOk {
        return false;
      }
      if name !in pvs {
        return true;
      }
      if !c.getOk {
        return false;
      }
      if name !in lvdls {
        if !c.createOk {
          return false;
        }
        lvdls := lvdls[name := FreshRecord(St(), name)];
      }
      done := UpdateLinks(lvdls[name], f, current, path, c.status);
    }

    // updateStatus: record why the relink did not happen.
    method UpdateStatus(l: Lvdl, reason: string, preferred: string, f: Facts, path: LinkPath, c: RelinkCalls)
      returns (done: bool)
      modifies this`lvdls, this`cache
      ensures RelinkResult(St(), done, NotSwapped) == RecordFailure(old(St()), l, reason, preferred, f, path, c)
      ensures old(l.name in lvdls && lvdls[l.name] == l) ==>
                && l.name in lvdls && lvdls[l.name].status.current == l.status.current
                && (done ==> Reports(lvdls[l.name].status.conditions, reason, preferred))
    {
      if l.name in lvdls && lvdls[l.name] == l {
        FailureRecords(St(), l, reason, preferred, f, path, c);
      }
      var r := SetStatusSymlinks(f, l.status, preferred, l.status.current, path, c.status);
      if r.StatusFailed? {
        return false;
      }
      var conds := SetLvdlCondition(r.st.conditions, Condition(ERROR_KIND, true, reason, preferred, c.now));
      var st := r.st.(conditions := conds);
      if st == l.status {
        return true;
      }
      done := WriteRecord(l, st, c.status.writeOk);
    }

    // The links of one storage class, in some order.
    method ListDir(sc: string) returns (entries: seq<LinkPath>)
      ensures forall e :: e in entries <==> e in links && e.sc == sc
    {
      entries := [];
      var todo := links.Keys;
      while todo != {}
        invariant todo <= links.Keys
        invariant forall e :: e in entries <==> e in links && e.sc == sc && e !in todo
        decreases |todo|
      {
        var e :| e in todo;
        todo := todo - {e};
        if e.sc == sc {
          entries := entries + [e];
        }
      }
    }

    // Does another entry of the directory resolve to the device?  Broken links are skipped.
    method ScanForClaim(path: LinkPath, kname: string) returns (claimed: bool)
      ensures claimed <==> Claimed(St(), path, kname)
    {
      var entries := ListDir(path.sc);
      for i := 0 to |entries|
        invariant forall j :: 0 <= j < i ==> entries[j] == path || !St().Live(entries[j], kname)
      {
        var e := entries[i];
        if e == path {
          continue;
        }
        var resolved := tree.EvalSymlinks(links[e]);
        if resolved == Resolves(kname) {
          assert St().Live(e, kname);
          return true;
        }
      }
      return false;
    }

    method SwapLink(path: LinkPath, preferred: string, c: RelinkCalls) returns (failure: string)
      modifies this`links
      ensures SwapResult(links, failure) == Swap(old(links), path, preferred, c)
    {
      var tmp := TmpPath(path);
      if c.rmOk {
        links := links - {tmp};
      }
      failure := "";
      if !c.symlinkOk || tmp in links {
        failure := "TempSymlinkCreateFailed";
      } else {
        links := links[tmp := preferred];
        if !c.renameOk {
          failure := "RenameSymlinkFailed";
        } else {
          links := (links - {tmp})[path := preferred];
        }
      }
      // the deferred removal
      if c.rmAfterOk {
        links := links - {tmp};
      }
      ghost var cleaned := if c.rmOk then old(links) - {tmp} else old(links);
      if tmp !in cleaned {
        assert cleaned[tmp := preferred] - {tmp} == cleaned - {tmp};
      }
    }

    method RecreateSymlinkIfNeeded(l: Lvdl, path: LinkPath, f: Facts, c: RelinkCalls) returns (ok: bool, exit: Exit)
      modifies this`links, this`lvdls, this`cache
      ensures RelinkResult(St(), ok, exit) == Relink(old(St()), l, path, f, c)
    {
      exit := NotSwapped;
      var found := PathByID(f, c.globOk);
      if !found.IdPath? {
        ok := UpdateStatus(l, "PreferredTargetNotFound", "", f, path, c);
        return;
      }
      var preferred := found.path;
      var resolved := tree.EvalSymlinks(preferred);
      if !c.evalOk || !resolved.Resolves? {
        ok := UpdateStatus(l, "EvalSymlinkFailed", preferred, f, path, c);
        return;
      }
      if !c.listOk {
        ok := UpdateStatus(l, "ListDirFailed", preferred, f, path, c);
        return;
      }
      var claimed := ScanForClaim(path, resolved.kname);
      if claimed {
        ok := UpdateStatus(l, "TargetAlreadyClaimed", preferred, f, path, c);
        return;
      }
      var failure := SwapLink(path, preferred, c);
      if failure != "" {
        ok := UpdateStatus(l, failure, preferred, f, path, c);
        return;
      }
      exit := Swapped;
      var r := SetStatusSymlinks(f, l.status, preferred, preferred, path, c.status);
      if r.StatusFailed? {
        return false, Swapped;
      }
      ok := WriteRecord(l, r.st.(conditions := []), c.status.writeOk);
    }

    method SyncPVAndLVDL(path: LinkPath, f: Facts, owner: Owner, c: SyncCalls) returns (outcome: Outcome, exit: Exit)
      modifies this`links, this`pvs, this`lvdls, this`cache
      ensures SyncResult(St(), outcome, exit) == Sync(old(St()), path, f, owner, c)
      ensures Filed(old(lvdls)) ==>
                && Frame(old(St()), St(), St().NameOf(path), path)
                && LinkEffect(old(St()), St(), path, f, c.relink)
                && (outcome == Done && exit != NotSwapped ==> RecordMatches(St(), path))
                && SyncedVolumes(old(pvs), pvs, St().NameOf(path), node, path, owner, outcome == Done)
    {
      if Filed(lvdls) {
        SyncProvisions(St(), path, f, owner, c);
        SyncEffect(St(), path, f, owner, c);
        SyncRecordsContent(St(), path, f, owner, c);
      }
      exit := NoRelink;
      if !c.preOk || !c.getOk {
        return Failure, exit;
      }
      var name := St().NameOf(path);
      var l := if name in lvdls then Some(lvdls[name]) else None;
      if HasMismatchingSymlink(l, f, c.matchGlobOk) {
        var ok;
        ok, exit := RecreateSymlinkIfNeeded(l.value, path, f, c.relink);
        if !ok {
          return Failure, exit;
        }
      }
      outcome := ProvisionAndRecord(exit, path, f, owner, c);
    }

    // Read the link, create or update the volume, then bring the record up to date.
    method ProvisionAndRecord(exit: Exit, path: LinkPath, f: Facts, owner: Owner, c: SyncCalls)
      returns (outcome: Outcome)
      modifies this`pvs, this`lvdls, this`cache
      ensures SyncResult(St(), outcome, exit) == SyncAfterRelink(old(St()), exit, path, f, owner, c)
      ensures Filed(old(lvdls)) ==>
                && Frame(old(St()), St(), St().NameOf(path), path)
                && SyncedVolumes(old(pvs), pvs, St().NameOf(path), node, path, owner, outcome == Done)
                && (outcome == Done && exit == NoRelink ==> RecordMatches(St(), path))
    {
      if Filed(lvdls) {
        AfterRelinkProvisions(St(), exit, path, f, owner, c);
        AfterRelinkFrame(St(), exit, path, f, owner, c);
        AfterRelinkRecords(St(), exit, path, f, owner, c);
      }
      var name := St().NameOf(path);
      if path !in links || !c.readOk || !c.modeOk {
        return Failure;
      }
      var current := links[path];
      if c.pvGetOk && name in pvs && pvs[name].phase == Released {
        return TryAgain;
      }
      if !c.capacityOk || !c.pvWriteOk {
        return Failure;
      }
      pvs := pvs[name := PvAfterSync(St().Volume(name), node, path, owner)];
      if exit == NoRelink {
        var ok := Apply(name, f, current, path, c.apply);
        if !ok {
          return Failure;
        }
      }
      return Done;
    }
  }
}

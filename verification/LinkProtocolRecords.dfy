/**
 What the operations achieve: when a device is found again, when a new link is made, and what the
 record of a link says after each of them.
 */
module LinkProtocolRecords {
  import opened DeviceTree
  import opened PreferenceScan
  import opened Objects
  import opened ClaimRules
  import opened LinkProtocol
  import opened LinkProtocolRuns
  import opened LinkProtocolSync
  import LinkCache

  // ----- Finding the records of a device -----

  ghost predicate Lists(cache: map<string, Lvdl>, n: string, t: string) {
    n in cache && t in cache[n].status.valid
  }

  /**
   The records found are those that list the path or, when no record does, those that list any other
   by-id link of the device; the search fails iff it has to look at these and cannot.
   */
  lemma FindManagedIff(s: State, source: string, f: Facts, globOk: bool)
    ensures var r, direct := FindManaged(s, source, f, globOk), exists n :: Lists(s.cache, n, source);
            && (r.SearchFailed? <==> !direct && (!globOk || f.valid.LinksFailed?))
            && (r.Records? ==> forall n ::
                  && (n in r.found ==> n in s.cache && r.found[n] == s.cache[n])
                  && (n in r.found <==>
                        if direct then Lists(s.cache, n, source)
                        else exists t :: t in f.valid.paths && Lists(s.cache, n, t)))
  {
    assert LinkCache.Listing(s.cache, source) != map[] <==> exists n :: Lists(s.cache, n, source) by {
      if n :| Lists(s.cache, n, source) {
        assert n in LinkCache.Listing(s.cache, source);
      }
      if LinkCache.Listing(s.cache, source) != map[] {
        var n :| n in LinkCache.Listing(s.cache, source);
        assert Lists(s.cache, n, source);
      }
    }
  }

  /** Exactly when a lost link is recovered, and when the policy stands in the way. */
  lemma RecoverIff(s: State, n: string, l: Lvdl, sc: string, pvGetOk: bool)
    ensures var r := Recover(s, map[n := l], sc, pvGetOk);
            var p := if l.status.pvPath.Some? then l.status.pvPath
                     else if pvGetOk && l.pvName in s.pvs then s.pvs[l.pvName].path
                     else None;
            var known := p.Some? && p.value.sc == sc;
            && (r.Recovered? <==>
                  known && l.policy == PreferredLinkTarget && !s.tree.EvalSymlinks(l.status.current).Resolves?)
            && (r.PolicyNotPreferred? <==> known && l.policy != PreferredLinkTarget)
            && (!r.NotRecovered? ==> r.path == p.value)
            && (r.PolicyNotPreferred? ==> r.l == l)
  {
    assert map[n := l].Keys == {n};
    OnlyKeyIs(map[n := l], n);
  }

  // ----- Making a new link -----

  // The file name is what follows the last slash.
  lemma {:induction false} BaseIsLastPart(p: string) returns (dir: string)
    ensures p == dir + Base(p) && '/' !in Base(p)
    ensures dir == "" || dir[|dir| - 1] == '/'
  {
    dir := p;
    if p != "" && p[|p| - 1] != '/' {
      var front, last := p[..|p| - 1], p[|p| - 1];
      dir := BaseIsLastPart(front);
      assert p == front + [last] == dir + (Base(front) + [last]);
    }
  }

  ghost predicate Made(s: State, s': State, path: LinkPath) {
    path in s'.links && path !in s.links
  }

  /** A LocalVolume link is made iff the device is locked, seen to be free, and the path is free. */
  lemma LocalVolumeLinkIff(s: State, f: Facts, source: string, path: LinkPath, c: CreateCalls)
    ensures var r, e := CreateLink(s, LocalVolume, f, source, path, c), s.tree.EvalSymlinks(source);
            var free := e.Resolves? && c.lockOk && c.scanOk && LinksTo(s, e.kname) == {} && c.mkdirOk;
            && r.state == (if Made(s, r.state, path) then s.(links := s.links[path := source]) else s)
            && (Made(s, r.state, path) <==>
                  free && c.precheckOk && path !in s.links && c.symlinkOk)
            && (r.proceed <==>
                  || (e.Resolves? && c.scanOk && path in LinksTo(s, e.kname))
                  || (free && s.EvalLink(path) != NotExist)
                  || Made(s, r.state, path))
  {
  }

  /**
   A LocalVolumeSet link is made iff the device is locked, not seen to be taken, and the path is free;
   the sync goes on also when the link is already there.
   */
  lemma LocalVolumeSetLinkIff(s: State, f: Facts, source: string, path: LinkPath, c: CreateCalls)
    ensures var r := CreateLink(s, LocalVolumeSet, f, source, path, c);
            var free := f.kname != "" && c.mkdirOk && c.lockOk && (c.scanOk ==> LinksTo(s, f.kname) == {});
            && r.state == (if Made(s, r.state, path) then s.(links := s.links[path := source]) else s)
            && (Made(s, r.state, path) <==> free && path !in s.links && c.symlinkOk)
            && (r.proceed <==>
                  || (f.kname != "" && c.mkdirOk && c.scanOk && path in LinksTo(s, f.kname))
                  || (free && path in s.links && s.tree.EvalSymlinks(source).Resolves?)
                  || Made(s, r.state, path))
  {
  }

  // The node can describe the device; it may have no by-id link.
  ghost predicate Knowable(f: Facts) {
    f.kname != "" && f.valid.Links? && !f.best.PathFailed?
  }

  // The volume does not wait to be cleaned.
  ghost predicate NotReleased(s: State, path: LinkPath) {
    s.NameOf(path) in s.pvs ==> s.pvs[s.NameOf(path)].phase != Released
  }

  /** A sync without a relink finishes, whatever policy the record has, and leaves the links alone. */
  lemma UnrelinkedSyncFinishes(s: State, path: LinkPath, f: Facts, owner: Owner, c: SyncCalls)
    requires Filed(s.lvdls) && path in s.links && PathFits(s, path) && NotReleased(s, path)
    requires Knowable(f) && AllOk(c) && !HasMismatchingSymlink(s.Record(s.NameOf(path)), f, c.matchGlobOk)
    ensures var r := Sync(s, path, f, owner, c);
            && r.outcome == Done && r.state.links == s.links && r.state.tree == s.tree && RecordMatches(r.state, path)
            && SyncedVolumes(s.pvs, r.state.pvs, s.NameOf(path), s.node, path, owner, true)
  {
    var name := s.NameOf(path);
    var pv := PvAfterSync(s.Volume(name), s.node, path, owner);
    var s1 := s.(pvs := s.pvs[name := pv]);
    ApplySucceeds(s1, name, f, s.links[path], path, c.apply);
    AfterRelinkFrame(s, NoRelink, path, f, owner, c);
    AfterRelinkRecords(s, NoRelink, path, f, owner, c);
    AfterRelinkProvisions(s, NoRelink, path, f, owner, c);
    hide ApplyStatus, LinkName, PvAfterSync, HasMismatchingSymlink, SyncedVolumes;
    assert SyncAfterRelink(s, NoRelink, path, f, owner, c).outcome == Done;
  }

  lemma ApplySucceeds(s: State, name: string, f: Facts, current: string, path: LinkPath, c: ApplyCalls)
    requires name in s.pvs && Knowable(f) && c.pvGetOk && c.getOk && c.createOk && StatusOk(c.status) && Filed(s.lvdls)
    requires name in s.lvdls ==> PathRule(s.lvdls[name].status.pvPath, Some(path))
    ensures ApplyStatus(s, name, f, current, path, c).ok
  {
  }

  predicate CreateOk(c: CreateCalls) {
    c.mkdirOk && c.lockOk && c.scanOk && c.precheckOk && c.symlinkOk
  }

  // Nothing is known of the device and nothing links to it.
  ghost predicate Fresh(s: State, f: Facts, source: string, path: LinkPath, c: NewCalls) {
    && FindManaged(s, source, f, c.validGlobOk) == Records(map[])
    && s.tree.EvalSymlinks(source) == Resolves(f.kname) && LinksTo(s, f.kname) == {} && path !in s.links
  }

  /**
   A fresh device is provisioned by either controller when the calls succeed: the link is made, nothing
   else is linked, the record names its content and the volume is in place.
   */
  lemma FreshDeviceIsProvisioned(
    s: State, who: Controller, f: Facts, source: string, sc: string, owner: Owner, c: NewCalls)
    requires var path := LinkPath(sc, Base(source));
             && Filed(s.lvdls) && Fresh(s, f, source, path, c) && Knowable(f) && CreateOk(c.create) && AllOk(c.sync)
             && PathFits(s, path) && NotReleased(s, path)
             && !HasMismatchingSymlink(s.Record(s.NameOf(path)), f, c.sync.matchGlobOk)
    ensures var path, s' := LinkPath(sc, Base(source)), ProcessNew(s, who, f, source, sc, owner, c);
            && s'.links == s.links[path := source] && s'.tree == s.tree && RecordMatches(s', path)
            && SyncedVolumes(s.pvs, s'.pvs, s.NameOf(path), s.node, path, owner, true)
  {
    var path := LinkPath(sc, Base(source));
    LocalVolumeLinkIff(s, f, source, path, c.create);
    LocalVolumeSetLinkIff(s, f, source, path, c.create);
    hide CreateLink, LinkName, FindManaged, Base, Sync, HasMismatchingSymlink, SyncedVolumes;
    var r := CreateLink(s, who, f, source, path, c.create);
    assert r.proceed && r.state == s.(links := s.links[path := source]);
    UnrelinkedSyncFinishes(r.state, path, f, owner, c.sync);
  }

  /**
   A device whose link lost its target is found again by either controller: with succeeding calls its
   one record leads back to the link, which is relinked to the device, and the record follows.
   */
  lemma LostLinkIsRelinked(
    s: State, who: Controller, f: Facts, source: string, path: LinkPath, owner: Owner, c: NewCalls)
    requires Ready(s, path, f) && AllOk(c.sync)
    requires var n := s.NameOf(path);
             && n in s.cache && s.cache[n] == s.lvdls[n] && s.cache[n].status.pvPath == Some(path)
             && FindManaged(s, source, f, c.validGlobOk) == Records(map[n := s.cache[n]])
             && !s.tree.EvalSymlinks(s.cache[n].status.current).Resolves?
    ensures var s' := ProcessNew(s, who, f, source, path.sc, owner, c);
            s'.links == SwappedLinks(s, path, Target(f)) && s'.Live(path, f.kname) && RecordMatches(s', path)
  {
    var n := s.NameOf(path);
    RecoverIff(s, n, s.cache[n], path.sc, c.recoverPvGetOk);
    assert s.lvdls[n].status.current != Target(f);
    SyncEffect(s, path, f, owner, c.sync);
    RelinkingSync(s, path, f, owner, c.sync);
    ReadySyncFinishes(s, path, f, owner, c.sync);
    hide Sync, FindManaged, Recover, LinkName, LinkEffect;
    assert map[n := s.cache[n]] != map[];
  }

  // ----- The record of a rejected device -----

  // The refresh asks for a relink.
  ghost predicate Relinks(s: State, path: LinkPath, f: Facts, c: RejectedCalls) {
    c.getOk && HasMismatchingSymlink(s.Record(s.NameOf(path)), f, c.matchGlobOk)
  }

  // The relink swapped the link but its status write did not go through.
  ghost predicate LosesWrite(s: State, path: LinkPath, f: Facts, c: RejectedCalls) {
    && Relinks(s, path, f, c)
    && var r := Relink(s, s.lvdls[s.NameOf(path)], path, f, c.relink);
    r.exit == Swapped && !r.ok
  }

  /**
   What a refresh does to the link and its record.  A relink makes them agree or, if it does not swap,
   leaves both as they were.  Otherwise the link stays, and the record agrees with it unless it could
   not be written, and then it is as it was or new and empty.
   */
  ghost predicate Refreshed(s: State, s': State, path: LinkPath, f: Facts, c: RejectedCalls) {
    var name := s.NameOf(path);
    && s'.node == s.node && s'.pvs == s.pvs
    && (RecordMatches(s, path) && !LosesWrite(s, path, f, c) ==> RecordMatches(s', path))
    && if Relinks(s, path, f, c) then
         || LosesWrite(s, path, f, c)
         || RecordMatches(s', path)
         || (&& SameAt(s.links, s'.links, path) && name in s.lvdls && name in s'.lvdls
             && s'.lvdls[name].status.current == s.lvdls[name].status.current)
       else
         && s'.links == s.links
         && (|| RecordMatches(s', path) || SameAt(s.lvdls, s'.lvdls, name)
             || (name !in s.lvdls && name in s'.lvdls && s'.lvdls[name].status == EMPTY_STATUS))
  }

  lemma RefreshTellsTruth(s: State, who: Controller, path: LinkPath, f: Facts, c: RejectedCalls)
    requires Filed(s.lvdls)
    ensures Refreshed(s, RefreshRecord(s, who, path, f, c), path, f, c)
  {
    hide LinkName;
    if Relinks(s, path, f, c) {
      hide Relink;
      RelinkRecords(s, path, f, c.relink);
      RelinkEffect(s, s.lvdls[s.NameOf(path)], path, f, c.relink);
    } else if path in s.links {
      ApplyStatusFrame(s, s.NameOf(path), f, s.links[path], path, c.apply);
      ApplyTellsTruth(s, path, f, c.apply);
      hide ApplyStatus;
    }
  }

  lemma ApplyTellsTruth(s: State, path: LinkPath, f: Facts, c: ApplyCalls)
    requires Filed(s.lvdls) && path in s.links
    ensures var name, r := s.NameOf(path), ApplyStatus(s, s.NameOf(path), f, s.links[path], path, c);
            || RecordMatches(r.state, path) || r.state.lvdls == s.lvdls
            || (name !in s.lvdls && name in r.state.lvdls && r.state.lvdls[name].status == EMPTY_STATUS)
  {
    hide LinkName;
    var name := s.NameOf(path);
    if name in s.pvs {
      ApplyRecords(s, path, f, c);
    }
    hide SetStatus;
  }

  /**
   Whatever the calls return, the treatment of a rejected device tells the truth about the link it
   refreshes; when there is none, no link changes and a record that does keeps the current target it
   had when it was read.
   */
  lemma RejectedTellsTruth(s: State, who: Controller, sc: string, f: Facts, existing: Existing, c: RejectedCalls)
    requires Filed(s.lvdls) && Filed(s.cache)
    ensures var s', link := ProcessRejected(s, who, sc, f, existing, c), RejectedLink(s, sc, f, existing, c);
            if link.Some? then Refreshed(s, s', link.value, f, c)
            else
              && s'.links == s.links && s'.pvs == s.pvs
              && forall n :: n in s'.lvdls && !SameAt(s.lvdls, s'.lvdls, n) ==>
                   && n in s.cache && n in s.lvdls && s.cache[n].version == s.lvdls[n].version
                   && s'.lvdls[n].status.current == s.cache[n].status.current
  {
    hide RefreshRecord, Refreshed, LinkName;
    var link := RejectedLink(s, sc, f, existing, c);
    if link.Some? {
      RefreshTellsTruth(s, who, link.value, f, c);
    } else if existing.NoExisting? && PathByID(f, c.globOk).IdPath? {
      var search := FindManaged(s, PathByID(f, c.globOk).path, f, c.validGlobOk);
      FindManagedFromCache(s, PathByID(f, c.globOk).path, f, c.validGlobOk);
      hide FindManaged;
      if search.Records? && search.found != map[] {
        var r := Recover(s, search.found, sc, c.recoverPvGetOk);
        if r.PolicyNotPreferred? {
          assert r.l in search.found.Values;
          hide Recover;
          UpdateKeepsTarget(s, r.l, f, r.path, c.update);
        }
      }
    }
  }

  // An update with the current target it was read with keeps that target.
  lemma UpdateKeepsTarget(s: State, l: Lvdl, f: Facts, path: LinkPath, c: StatusCalls)
    ensures var s' := UpdateDeviceLinks(s, l, f, l.status.current, path, c).state;
            && s'.links == s.links && s'.pvs == s.pvs
            && forall n :: n in s'.lvdls && !SameAt(s.lvdls, s'.lvdls, n) ==>
                 && n == l.name && n in s.lvdls && s.lvdls[n].version == l.version
                 && s'.lvdls[n].status.current == l.status.current
  {
  }

  /**
   A device without a link whose record cannot be used for recovery, either controller: no link and no
   volume changes, and a record that does keeps the current target it had when it was read.
   */
  lemma RefusalKeepsTarget(
    s: State, who: Controller, f: Facts, source: string, sc: string, owner: Owner, c: NewCalls,
    found: map<string, Lvdl>)
    requires Filed(s.cache) && FindManaged(s, source, f, c.validGlobOk) == Records(found) && found != map[]
    requires !Recover(s, found, sc, c.recoverPvGetOk).Recovered?
    ensures var s' := ProcessNew(s, who, f, source, sc, owner, c);
            && s'.links == s.links && s'.pvs == s.pvs
            && forall n :: n in s'.lvdls && !SameAt(s.lvdls, s'.lvdls, n) ==>
                 && n in s.cache && n in s.lvdls && s.cache[n].version == s.lvdls[n].version
                 && s'.lvdls[n].status.current == s.cache[n].status.current
  {
    FindManagedFromCache(s, source, f, c.validGlobOk);
    var r := Recover(s, found, sc, c.recoverPvGetOk);
    if r.PolicyNotPreferred? {
      assert r.l in found.Values;
      UpdateKeepsTarget(s, r.l, f, r.path, c.update);
    }
    hide FindManaged, Recover, UpdateDeviceLinks, Sync, CreateLink;
  }

  // The status a device gets when its link may not be touched.
  function StatusOf(f: Facts, l: Lvdl, path: LinkPath): LvdlStatus
    requires f.valid.Links?
  {
    var preferred := if f.best.IdPath? then f.best.path else "";
    LvdlStatus(l.status.current, preferred, f.valid.paths, Some(path), f.fsUuid, l.status.conditions)
  }

  lemma UpdateDescribes(s: State, l: Lvdl, f: Facts, path: LinkPath, c: StatusCalls)
    requires l.name in s.lvdls && s.lvdls[l.name] == l && PathRule(l.status.pvPath, Some(path))
    requires Knowable(f) && StatusOk(c)
    ensures var s' := UpdateDeviceLinks(s, l, f, l.status.current, path, c).state;
            l.name in s'.lvdls && s'.lvdls[l.name].status == StatusOf(f, l, path)
  {
  }

  /**
   The policy keeps the link from being touched; with succeeding calls its record still learns the
   device's present by-id links, in the loop over valid devices and in the pass over rejected ones.
   */
  lemma RefusalUpdatesRecord(
    s: State, who: Controller, f: Facts, n: string, path: LinkPath, owner: Owner, c: NewCalls, rc: RejectedCalls)
    requires n in s.lvdls && s.lvdls[n].name == n && PathRule(s.lvdls[n].status.pvPath, Some(path))
    requires Knowable(f) && StatusOk(c.update) && StatusOk(rc.update) && PathByID(f, rc.globOk).IdPath?
    requires var l, source := s.lvdls[n], PathByID(f, rc.globOk).path;
             && FindManaged(s, source, f, c.validGlobOk) == Records(map[n := l])
             && FindManaged(s, source, f, rc.validGlobOk) == Records(map[n := l])
             && Recover(s, map[n := l], path.sc, c.recoverPvGetOk) == PolicyNotPreferred(l, path)
             && Recover(s, map[n := l], path.sc, rc.recoverPvGetOk) == PolicyNotPreferred(l, path)
    ensures var source := PathByID(f, rc.globOk).path;
            var a := ProcessNew(s, who, f, source, path.sc, owner, c);
            var b := ProcessRejected(s, who, path.sc, f, NoExisting, rc);
            && n in a.lvdls && a.lvdls[n].status == StatusOf(f, s.lvdls[n], path)
            && n in b.lvdls && b.lvdls[n].status == StatusOf(f, s.lvdls[n], path)
  {
    var l := s.lvdls[n];
    UpdateDescribes(s, l, f, path, c.update);
    UpdateDescribes(s, l, f, path, rc.update);
    assert n in map[n := l];
    hide FindManaged, Recover, UpdateDeviceLinks, Sync, CreateLink, RefreshRecord, PathByID;
  }

  /** With succeeding calls a refresh that asks for no relink makes the record name the link's content. */
  lemma RefreshRecordsContent(s: State, who: Controller, path: LinkPath, f: Facts, c: RejectedCalls)
    requires Filed(s.lvdls) && path in s.links && s.NameOf(path) in s.pvs && PathFits(s, path) && Knowable(f)
    requires c.getOk && c.readOk && c.apply.pvGetOk && c.apply.getOk && c.apply.createOk && StatusOk(c.apply.status)
    requires !Relinks(s, path, f, c)
    ensures var s' := RefreshRecord(s, who, path, f, c);
            s'.links == s.links && RecordMatches(s', path)
  {
    ApplySucceeds(s, s.NameOf(path), f, s.links[path], path, c.apply);
    ApplyRecords(s, path, f, c.apply);
    ApplyStatusFrame(s, s.NameOf(path), f, s.links[path], path, c.apply);
    hide ApplyStatus, LinkName;
  }

  /** With succeeding calls a refresh that asks for a relink swaps iff no other link of the class holds the device. */
  lemma RefreshRelinks(s: State, who: Controller, path: LinkPath, f: Facts, c: RejectedCalls)
    requires Filed(s.lvdls) && PathFits(s, path) && Described(s.tree, f) && RelinkOk(c.relink) && Relinks(s, path, f, c)
    ensures var s' := RefreshRecord(s, who, path, f, c);
            if Claimed(s, path, f.kname) then SameAt(s.links, s'.links, path)
            else s'.links == SwappedLinks(s, path, Target(f)) && RecordMatches(s', path)
  {
    hide Relink, LinkName;
    RelinkSwapsIff(s, path, f, c.relink);
    RelinkRecords(s, path, f, c.relink);
    RelinkEffect(s, s.lvdls[s.NameOf(path)], path, f, c.relink);
  }

  /** The same for the whole treatment of a rejected device. */
  lemma RejectedRecordsContent(
    s: State, who: Controller, sc: string, f: Facts, existing: Existing, c: RejectedCalls, path: LinkPath)
    requires RejectedLink(s, sc, f, existing, c) == Some(path)
    requires Filed(s.lvdls) && PathFits(s, path)
    ensures var s' := ProcessRejected(s, who, sc, f, existing, c);
            && (!Relinks(s, path, f, c) && path in s.links && s.NameOf(path) in s.pvs && Knowable(f)
                && c.getOk && c.readOk
                && c.apply.pvGetOk && c.apply.getOk && c.apply.createOk && StatusOk(c.apply.status) ==>
                  s'.links == s.links && RecordMatches(s', path))
            && (Relinks(s, path, f, c) && Described(s.tree, f) && RelinkOk(c.relink) && !Claimed(s, path, f.kname) ==>
                  s'.links == SwappedLinks(s, path, Target(f)) && RecordMatches(s', path))
  {
    hide RefreshRecord, FindManaged, Relinks, LinkName, Claimed;
    assert ProcessRejected(s, who, sc, f, existing, c) == RefreshRecord(s, who, path, f, c);
    if Relinks(s, path, f, c) {
      if Described(s.tree, f) && RelinkOk(c.relink) {
        RefreshRelinks(s, who, path, f, c);
      }
    } else if path in s.links && s.NameOf(path) in s.pvs && Knowable(f) && c.getOk && c.readOk
              && c.apply.pvGetOk && c.apply.getOk && c.apply.createOk && StatusOk(c.apply.status) {
      RefreshRecordsContent(s, who, path, f, c);
    }
  }

  // ----- What else stops a write -----

  /** A record read before somebody else wrote it is not written, so nothing is lost. */
  lemma StaleUpdateIsRefused(s: State, l: Lvdl, f: Facts, current: string, path: LinkPath, c: StatusCalls)
    requires l.name in s.lvdls ==> s.lvdls[l.name].version != l.version
    ensures UpdateDeviceLinks(s, l, f, current, path, c).state == s
  {
  }

  /** While a volume waits to be cleaned, no sync finishes or touches a volume. */
  lemma ReleasedVolumeWaits(s: State, path: LinkPath, f: Facts, owner: Owner, c: SyncCalls)
    requires Filed(s.lvdls) && !NotReleased(s, path) && c.pvGetOk
    ensures var r := Sync(s, path, f, owner, c);
            r.outcome != Done && r.state.pvs == s.pvs
  {
    hide Relink, LinkName;
    var l := s.Record(s.NameOf(path));
    if HasMismatchingSymlink(l, f, c.matchGlobOk) {
      RelinkKeepsVolumes(s, l.value, path, f, c.relink);
    }
  }

  // The reason a relink that does not swap gives: the first guard it did not pass.
  ghost function Reason(s: State, path: LinkPath, f: Facts, c: RelinkCalls): string {
    if !PathByID(f, c.globOk).IdPath? then "PreferredTargetNotFound"
    else if !c.evalOk then "EvalSymlinkFailed"
    else if !c.listOk then "ListDirFailed"
    else if Claimed(s, path, f.kname) then "TargetAlreadyClaimed"
    else if !c.symlinkOk || (!c.rmOk && TmpPath(path) in s.links) then "TempSymlinkCreateFailed"
    else "RenameSymlinkFailed"
  }

  /** A relink that did not swap says why in the record, when the record can be written. */
  lemma RelinkReportsWhy(s: State, path: LinkPath, f: Facts, c: RelinkCalls)
    requires Filed(s.lvdls) && s.NameOf(path) in s.lvdls && PathFits(s, path)
    requires Sound(s.tree, f) && Knowable(f) && StatusOk(c.status)
    ensures var name := s.NameOf(path);
            var r := Relink(s, s.lvdls[name], path, f, c);
            r.exit == NotSwapped ==>
              && r.ok && name in r.state.lvdls
              && var found := PathByID(f, c.globOk);
              var message := if found.IdPath? then found.path else "";
              Reports(r.state.lvdls[name].status.conditions, Reason(s, path, f, c), message)
  {
    hide LinkName;
    var l := s.lvdls[s.NameOf(path)];
    var found := PathByID(f, c.globOk);
    if !found.IdPath? {
      FailureReports(s, l, "PreferredTargetNotFound", "", f, path, c);
    } else {
      var p := found.path;
      assert s.tree.EvalSymlinks(p) == Resolves(f.kname);
      FailureReports(s, l, "EvalSymlinkFailed", p, f, path, c);
      FailureReports(s, l, "ListDirFailed", p, f, path, c);
      FailureReports(s, l, "TargetAlreadyClaimed", p, f, path, c);
      var swap := Swap(s.links, path, p, c);
      FailureReports(s.(links := swap.links), l, swap.failure, p, f, path, c);
    }
    hide RecordFailure, SetStatus, WriteStatus, Reports;
  }

  lemma FailureReports(s: State, l: Lvdl, reason: string, preferred: string, f: Facts, path: LinkPath, c: RelinkCalls)
    requires l.name in s.lvdls && s.lvdls[l.name] == l && PathRule(l.status.pvPath, Some(path))
    requires Knowable(f) && StatusOk(c.status)
    ensures var r := RecordFailure(s, l, reason, preferred, f, path, c);
            && r.ok && r.exit == NotSwapped && l.name in r.state.lvdls
            && Reports(r.state.lvdls[l.name].status.conditions, reason, preferred)
  {
    FailureRecords(s, l, reason, preferred, f, path, c);
    hide Reports, SetCondition;
  }

  // ----- Write-through to the cache -----

  // At most one write: the cache holds what was written for the node, or nothing was written but
  // perhaps a new, empty record.
  ghost predicate WrittenThrough(s: State, s': State, name: string) {
    || (s'.cache == s.cache && s'.lvdls == s.lvdls)
    || (s'.cache == s.cache && name !in s.lvdls && name in s'.lvdls && s'.lvdls[name].status == EMPTY_STATUS)
    || (name in s'.lvdls
        && s'.cache == if s'.lvdls[name].node == s.node then s.cache[name := s'.lvdls[name]] else s.cache)
  }

  lemma WriteGoesThrough(s: State, l: Lvdl, st: LvdlStatus, ok: bool)
    ensures WrittenThrough(s, WriteStatus(s, l, st, ok).state, l.name)
  {
  }

  lemma FailureWritesThrough(
    s: State, l: Lvdl, reason: string, preferred: string, f: Facts, path: LinkPath, c: RelinkCalls)
    ensures WrittenThrough(s, RecordFailure(s, l, reason, preferred, f, path, c).state, l.name)
  {
    hide WriteStatus, SetCondition;
    var r := SetStatus(f, l.status, preferred, l.status.current, path, c.status);
    if r.NewStatus? {
      var failure := Condition(ERROR_KIND, true, reason, preferred, c.now);
      WriteGoesThrough(s, l, r.st.(conditions := SetCondition(r.st.conditions, failure)), c.status.writeOk);
    }
  }

  lemma RelinkWritesThrough(s: State, l: Lvdl, path: LinkPath, f: Facts, c: RelinkCalls)
    ensures WrittenThrough(s, Relink(s, l, path, f, c).state, l.name)
  {
    hide RecordFailure, WriteStatus, SetStatus, Claimed, Swap;
    var found := PathByID(f, c.globOk);
    if !found.IdPath? {
      FailureWritesThrough(s, l, "PreferredTargetNotFound", "", f, path, c);
    } else {
      var preferred, resolved := found.path, s.tree.EvalSymlinks(found.path);
      if !c.evalOk || !resolved.Resolves? {
        FailureWritesThrough(s, l, "EvalSymlinkFailed", preferred, f, path, c);
      } else if !c.listOk {
        FailureWritesThrough(s, l, "ListDirFailed", preferred, f, path, c);
      } else if Claimed(s, path, resolved.kname) {
        FailureWritesThrough(s, l, "TargetAlreadyClaimed", preferred, f, path, c);
      } else {
        var swap := Swap(s.links, path, preferred, c);
        var s1 := s.(links := swap.links);
        FailureWritesThrough(s1, l, swap.failure, preferred, f, path, c);
        var r := SetStatus(f, l.status, preferred, preferred, path, c.status);
        if r.NewStatus? {
          WriteGoesThrough(s1, l, r.st.(conditions := []), c.status.writeOk);
        }
      }
    }
  }

  lemma ApplyWritesThrough(s: State, name: string, f: Facts, current: string, path: LinkPath, c: ApplyCalls)
    requires Filed(s.lvdls)
    ensures WrittenThrough(s, ApplyStatus(s, name, f, current, path, c).state, name)
  {
    hide SetStatus;
  }

  /** Whatever a sync writes to a record of the node is in the cache at once. */
  lemma SyncWritesThrough(s: State, path: LinkPath, f: Facts, owner: Owner, c: SyncCalls)
    requires Filed(s.lvdls)
    ensures WrittenThrough(s, Sync(s, path, f, owner, c).state, s.NameOf(path))
  {
    hide Relink, ApplyStatus, LinkName, PvAfterSync;
    var name := s.NameOf(path);
    var l := s.Record(name);
    if HasMismatchingSymlink(l, f, c.matchGlobOk) {
      RelinkWritesThrough(s, l.value, path, f, c.relink);
      RelinkEffect(s, l.value, path, f, c.relink);
    } else if path in s.links {
      var pv := PvAfterSync(s.Volume(name), s.node, path, owner);
      ApplyWritesThrough(s.(pvs := s.pvs[name := pv]), name, f, s.links[path], path, c.apply);
    }
  }
}

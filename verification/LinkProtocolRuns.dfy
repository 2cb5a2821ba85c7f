/**
 What every run of the link protocol keeps.
 */
module LinkProtocolRuns {
  import opened DeviceTree
  import opened PreferenceScan
  import opened Objects
  import opened ClaimRules
  import opened LinkProtocol

  // ----- Frame: what one operation on link `path` and record `name` may touch -----

  ghost predicate SameAt<K, V>(a: map<K, V>, b: map<K, V>, k: K) {
    (k in a <==> k in b) && (k in a ==> a[k] == b[k])
  }

  ghost predicate SameBut<K(!new), V>(a: map<K, V>, b: map<K, V>, k: K) {
    forall j :: j != k ==> (j in a <==> j in b) && (j in a && j in b ==> a[j] == b[j])
  }

  // The record keeps its node, its policy and a path that is set; a new one belongs to the node and has
  // no policy.
  ghost predicate KeepsRecords(a: map<string, Lvdl>, b: map<string, Lvdl>, node: string, name: string, path: LinkPath) {
    && SameBut(a, b, name)
    && (name in a ==> name in b && b[name].policy == a[name].policy && b[name].node == a[name].node)
    && (name in b && name !in a ==> b[name].node == node && b[name].policy == NoPolicy)
    && (name in b && !SameAt(a, b, name) ==>
          && b[name].name == b[name].pvName == name
          && (b[name].status.pvPath == Some(path) || (name !in a && b[name].status.pvPath == None))
          && (name in a ==> PathRule(a[name].status.pvPath, b[name].status.pvPath)))
  }

  // Only a record of the node that was written goes to the cache.
  ghost predicate KeepsCache(a: map<string, Lvdl>, b: map<string, Lvdl>, node: string, name: string, path: LinkPath) {
    && SameBut(a, b, name)
    && (name in a ==> name in b)
    && (name in b && !SameAt(a, b, name) ==>
          b[name].name == b[name].pvName == name && b[name].node == node && b[name].status.pvPath == Some(path))
  }

  // An existing volume keeps everything but labels, and of these all that are not deprecated.
  ghost predicate KeepsVolume(a: Pv, b: Pv) {
    && b == a.(labels := b.labels)
    && forall k :: k in a.labels && k !in DEPRECATED_LABELS ==> k in b.labels && b.labels[k] == a.labels[k]
  }

  // A new volume is unclaimed and held by the finalizer that waits for its link to be removed.
  ghost predicate NewVolume(b: Pv, node: string, path: LinkPath) {
    && b.node == node && b.path == Some(path) && b.phase == Pending
    && !b.claimed && !b.deleting && b.finalizers == [SYMLINK_FINALIZER]
  }

  ghost predicate KeepsVolumes(a: map<string, Pv>, b: map<string, Pv>, node: string, name: string, path: LinkPath) {
    && SameBut(a, b, name)
    && (name in a ==> name in b && KeepsVolume(a[name], b[name]))
    && (name in b && name !in a ==> NewVolume(b[name], node, path))
  }

  ghost predicate Frame(s: State, s': State, name: string, path: LinkPath) {
    && s'.node == s.node && s'.tree == s.tree
    && KeepsVolumes(s.pvs, s'.pvs, s.node, name, path)
    && KeepsRecords(s.lvdls, s'.lvdls, s.node, name, path)
    && KeepsCache(s.cache, s'.cache, s.node, name, path)
  }

  // Records are filed under their own name, which is also the name of their volume.
  ghost predicate Filed(records: map<string, Lvdl>) {
    forall n :: n in records ==> records[n].name == records[n].pvName == n
  }

  // ----- Frames of the operations -----

  lemma WriteStatusFrame(s: State, l: Lvdl, st: LvdlStatus, ok: bool, path: LinkPath)
    requires Filed(s.lvdls) && st.pvPath == Some(path)
    ensures var w := WriteStatus(s, l, st, ok);
            Frame(s, w.state, l.name, path) && w.state.links == s.links && w.state.pvs == s.pvs
  {
  }

  lemma UpdateDeviceLinksFrame(s: State, l: Lvdl, f: Facts, current: string, path: LinkPath, c: StatusCalls)
    requires Filed(s.lvdls)
    ensures var r := UpdateDeviceLinks(s, l, f, current, path, c);
            Frame(s, r.state, l.name, path) && r.state.links == s.links && r.state.pvs == s.pvs
  {
    hide WriteStatus, Filed;
    var st := SetStatus(f, l.status, "", current, path, c);
    if st.NewStatus? {
      WriteStatusFrame(s, l, st.st, c.writeOk, path);
    }
  }

  lemma ApplyStatusFrame(s: State, name: string, f: Facts, current: string, path: LinkPath, c: ApplyCalls)
    requires Filed(s.lvdls)
    ensures var r := ApplyStatus(s, name, f, current, path, c);
            Frame(s, r.state, name, path) && r.state.links == s.links && r.state.pvs == s.pvs
  {
    hide UpdateDeviceLinks;
    if name in s.lvdls {
      UpdateDeviceLinksFrame(s, s.lvdls[name], f, current, path, c.status);
    } else {
      var l := FreshRecord(s, name);
      UpdateDeviceLinksFrame(s.(lvdls := s.lvdls[name := l]), l, f, current, path, c.status);
    }
  }

  lemma RecordFailureFrame(
    s: State, l: Lvdl, reason: string, preferred: string, f: Facts, path: LinkPath, c: RelinkCalls)
    requires Filed(s.lvdls)
    ensures var r := RecordFailure(s, l, reason, preferred, f, path, c);
            && Frame(s, r.state, l.name, path) && r.state.links == s.links && r.state.pvs == s.pvs
            && r.exit == NotSwapped
  {
    var st := SetStatus(f, l.status, preferred, l.status.current, path, c.status);
    if st.NewStatus? {
      var failure := Condition(ERROR_KIND, true, reason, preferred, c.now);
      var st' := st.st.(conditions := SetCondition(st.st.conditions, failure));
      WriteStatusFrame(s, l, st', c.status.writeOk, path);
    }
  }

  // The link after a successful swap; the temporary link is gone.
  function SwappedLinks(s: State, path: LinkPath, target: string): map<LinkPath, string> {
    (s.links - {TmpPath(path)})[path := target]
  }

  // No swap: only the temporary link may have changed, and one is left behind only when
  // neither the rename nor its removal worked.
  ghost predicate LeftAlone(s: State, s': State, path: LinkPath, f: Facts, c: RelinkCalls) {
    var tmp := TmpPath(path);
    && SameBut(s.links, s'.links, tmp)
    && (tmp in s'.links && !SameAt(s.links, s'.links, tmp) ==>
          && !c.renameOk && !c.rmAfterOk && PathByID(f, c.globOk) == IdPath(s'.links[tmp])
          && s.tree.EvalSymlinks(s'.links[tmp]).Resolves?
          && !Claimed(s, path, s.tree.EvalSymlinks(s'.links[tmp]).kname))
  }

  // A relink does not lose both its rename and the clean-up.
  predicate NoLeftover(c: RelinkCalls) {
    c.renameOk || c.rmAfterOk
  }

  /** Everything a relink can do to links. */
  lemma RelinkEffect(s: State, l: Lvdl, path: LinkPath, f: Facts, c: RelinkCalls)
    requires Filed(s.lvdls)
    ensures var r := Relink(s, l, path, f, c);
            && Frame(s, r.state, l.name, path) && r.state.pvs == s.pvs
            && r.exit != NoRelink
            && (r.exit == Swapped ==>
                  var found := PathByID(f, c.globOk);
                  && found.IdPath? && s.tree.EvalSymlinks(found.path).Resolves?
                  && !Claimed(s, path, s.tree.EvalSymlinks(found.path).kname)
                  && r.state.links == SwappedLinks(s, path, found.path))
            && (r.exit == NotSwapped ==> LeftAlone(s, r.state, path, f, c))
  {
    var found := PathByID(f, c.globOk);
    if !found.IdPath? {
      RecordFailureFrame(s, l, "PreferredTargetNotFound", "", f, path, c);
    } else {
      var preferred, resolved := found.path, s.tree.EvalSymlinks(found.path);
      if !c.evalOk || !resolved.Resolves? {
        RecordFailureFrame(s, l, "EvalSymlinkFailed", preferred, f, path, c);
      } else if !c.listOk {
        RecordFailureFrame(s, l, "ListDirFailed", preferred, f, path, c);
      } else if Claimed(s, path, resolved.kname) {
        RecordFailureFrame(s, l, "TargetAlreadyClaimed", preferred, f, path, c);
      } else {
        var swap := Swap(s.links, path, preferred, c);
        var s1 := s.(links := swap.links);
        if swap.failure != "" {
          RecordFailureFrame(s1, l, swap.failure, preferred, f, path, c);
        } else {
          var st := SetStatus(f, l.status, preferred, preferred, path, c.status);
          if st.NewStatus? {
            WriteStatusFrame(s1, l, st.st.(conditions := []), c.status.writeOk, path);
          }
        }
      }
    }
  }

  // The record of the link asks for the preferred target.
  ghost predicate PolicyAllows(s: State, path: LinkPath) {
    s.NameOf(path) in s.lvdls && s.lvdls[s.NameOf(path)].policy == PreferredLinkTarget
  }

  ghost predicate SwapTook(s: State, s': State, path: LinkPath, f: Facts, c: RelinkCalls) {
    var found := PathByID(f, c.globOk);
    && found.IdPath? && s.tree.EvalSymlinks(found.path).Resolves?
    && !Claimed(s, path, s.tree.EvalSymlinks(found.path).kname)
    && s'.links == SwappedLinks(s, path, found.path)
  }

  // Links change only by a relink, and only under the policy that asks for it.
  ghost predicate LinkEffect(s: State, s': State, path: LinkPath, f: Facts, c: RelinkCalls) {
    || s'.links == s.links
    || (PolicyAllows(s, path) && (SwapTook(s, s', path, f, c) || LeftAlone(s, s', path, f, c)))
  }

  lemma FrameTransitive(s: State, s1: State, s2: State, name: string, path: LinkPath)
    requires Frame(s, s1, name, path) && Frame(s1, s2, name, path)
    ensures Frame(s, s2, name, path)
  {
  }

  lemma AfterRelinkFrame(s: State, exit: Exit, path: LinkPath, f: Facts, owner: Owner, c: SyncCalls)
    requires Filed(s.lvdls)
    ensures var r := SyncAfterRelink(s, exit, path, f, owner, c);
            Frame(s, r.state, s.NameOf(path), path) && r.state.links == s.links && r.exit == exit
  {
    var name := s.NameOf(path);
    if path in s.links {
      var pv := PvAfterSync(s.Volume(name), s.node, path, owner);
      ApplyStatusFrame(s.(pvs := s.pvs[name := pv]), name, f, s.links[path], path, c.apply);
    }
  }

  lemma SyncEffect(s: State, path: LinkPath, f: Facts, owner: Owner, c: SyncCalls)
    requires Filed(s.lvdls)
    ensures var r := Sync(s, path, f, owner, c);
            Frame(s, r.state, s.NameOf(path), path) && LinkEffect(s, r.state, path, f, c.relink)
  {
    hide Relink, SyncAfterRelink, LinkName;
    if c.preOk && c.getOk {
      var l := s.Record(s.NameOf(path));
      if HasMismatchingSymlink(l, f, c.matchGlobOk) {
        RelinkEffect(s, l.value, path, f, c.relink);
        var r := Relink(s, l.value, path, f, c.relink);
        AfterRelinkFrame(r.state, r.exit, path, f, owner, c);
        if r.ok {
          FrameTransitive(s, r.state, Sync(s, path, f, owner, c).state, s.NameOf(path), path);
        }
      } else {
        AfterRelinkFrame(s, NoRelink, path, f, owner, c);
      }
    }
  }

  /**
   What a sync makes of the volume.  A new one gets its labels and its reclaim policy from the owner and
   its class, and the finalizer.  An existing one changes in its labels only: kept labels keep their
   value, missing ones are added, deprecated ones go unless the owner sets them.
   */
  ghost predicate Provisioned(before: Option<Pv>, after: Pv, node: string, path: LinkPath, owner: Owner) {
    match before
    case None => NewVolume(after, node, path) && after.labels == owner.labels && after.retain == owner.retain
    case Some(p) =>
      && KeepsVolume(p, after)
      && (forall k :: k in after.labels <==> k in owner.labels || (k in p.labels && k !in DEPRECATED_LABELS))
      && (forall k :: k in owner.labels && (k in DEPRECATED_LABELS || k !in p.labels) ==>
            after.labels[k] == owner.labels[k])
  }

  lemma PvAfterSyncProvisions(before: Option<Pv>, node: string, path: LinkPath, owner: Owner)
    ensures Provisioned(before, PvAfterSync(before, node, path, owner), node, path, owner)
  {
  }

  // The volumes after a sync: nothing changed, or the one volume was provisioned.
  ghost predicate SyncedVolumes(
    a: map<string, Pv>, b: map<string, Pv>, name: string, node: string, path: LinkPath, owner: Owner, finished: bool) {
    || (!finished && b == a)
    || (&& SameBut(a, b, name) && name in b
        && Provisioned(if name in a then Some(a[name]) else None, b[name], node, path, owner))
  }

  /** Whatever the calls return, a sync leaves the volumes alone or provisions its own; if it finishes, it did. */
  lemma SyncProvisions(s: State, path: LinkPath, f: Facts, owner: Owner, c: SyncCalls)
    requires Filed(s.lvdls)
    ensures var r := Sync(s, path, f, owner, c);
            SyncedVolumes(s.pvs, r.state.pvs, s.NameOf(path), s.node, path, owner, r.outcome == Done)
  {
    hide Relink, SyncAfterRelink, LinkName, Filed, Provisioned, SameBut;
    if c.preOk && c.getOk {
      var l := s.Record(s.NameOf(path));
      if HasMismatchingSymlink(l, f, c.matchGlobOk) {
        var r := Relink(s, l.value, path, f, c.relink);
        RelinkKeepsVolumes(s, l.value, path, f, c.relink);
        if r.ok {
          AfterRelinkProvisions(r.state, r.exit, path, f, owner, c);
        }
      } else {
        AfterRelinkProvisions(s, NoRelink, path, f, owner, c);
      }
    }
  }

  lemma RelinkKeepsVolumes(s: State, l: Lvdl, path: LinkPath, f: Facts, c: RelinkCalls)
    requires Filed(s.lvdls)
    ensures var s' := Relink(s, l, path, f, c).state;
            s'.pvs == s.pvs && s'.node == s.node && Filed(s'.lvdls)
  {
    hide Relink, LeftAlone, SwappedLinks, Claimed, KeepsRecords, KeepsVolumes, KeepsCache, Filed;
    RelinkEffect(s, l, path, f, c);
    KeepsFiled(s.lvdls, Relink(s, l, path, f, c).state.lvdls, s.node, l.name, path);
  }

  lemma KeepsFiled(a: map<string, Lvdl>, b: map<string, Lvdl>, node: string, name: string, path: LinkPath)
    requires Filed(a) && KeepsRecords(a, b, node, name, path)
    ensures Filed(b)
  {
    forall n | n in b ensures b[n].name == b[n].pvName == n {
      assert n == name || n in a;
    }
  }

  lemma AfterRelinkProvisions(s: State, exit: Exit, path: LinkPath, f: Facts, owner: Owner, c: SyncCalls)
    requires Filed(s.lvdls)
    ensures var r := SyncAfterRelink(s, exit, path, f, owner, c);
            SyncedVolumes(s.pvs, r.state.pvs, s.NameOf(path), s.node, path, owner, r.outcome == Done)
  {
    var name := s.NameOf(path);
    if path in s.links {
      var pv := PvAfterSync(s.Volume(name), s.node, path, owner);
      PvAfterSyncProvisions(s.Volume(name), s.node, path, owner);
      ApplyStatusFrame(s.(pvs := s.pvs[name := pv]), name, f, s.links[path], path, c.apply);
      hide LinkName, Provisioned, PvAfterSync, ApplyStatus;
    }
  }

  lemma RefreshEffect(s: State, who: Controller, path: LinkPath, f: Facts, c: RejectedCalls)
    requires Filed(s.lvdls)
    ensures var s' := RefreshRecord(s, who, path, f, c);
            Frame(s, s', s.NameOf(path), path) && LinkEffect(s, s', path, f, c.relink)
  {
    var l := if c.getOk then s.Record(s.NameOf(path)) else None;
    if HasMismatchingSymlink(l, f, c.matchGlobOk) {
      RelinkEffect(s, l.value, path, f, c.relink);
    } else if path in s.links {
      ApplyStatusFrame(s, s.NameOf(path), f, s.links[path], path, c.apply);
    }
  }

  // ----- The invariant: records and volumes are filed under the name of their link -----

  ghost predicate NameInUse(node: string, name: string, inUse: iset<LinkPath>) {
    exists l :: l in inUse && LinkName(node, l) == name
  }

  // An object of this node is filed under the name of a link in use, and its path, if set, is such
  // a link; objects of other nodes have other names.
  ghost predicate NamesLink(node: string, name: string, owner: string, path: Option<LinkPath>, inUse: iset<LinkPath>) {
    && (owner == node <==> NameInUse(node, name, inUse))
    && (owner == node && path.Some? ==> path.value in inUse && LinkName(node, path.value) == name)
  }

  ghost predicate RecordsName(node: string, records: map<string, Lvdl>, inUse: iset<LinkPath>) {
    forall n :: n in records ==> NamesLink(node, n, records[n].node, records[n].status.pvPath, inUse)
  }

  ghost predicate VolumesName(node: string, pvs: map<string, Pv>, inUse: iset<LinkPath>) {
    forall n :: n in pvs ==> NamesLink(node, n, pvs[n].node, pvs[n].path, inUse)
  }

  ghost predicate AllOf(node: string, records: map<string, Lvdl>) {
    forall n :: n in records ==> records[n].node == node
  }

  ghost predicate Inv(s: State, inUse: iset<LinkPath>) {
    && Filed(s.lvdls) && RecordsName(s.node, s.lvdls, inUse)
    && Filed(s.cache) && RecordsName(s.node, s.cache, inUse) && AllOf(s.node, s.cache)
    && VolumesName(s.node, s.pvs, inUse)
  }

  lemma FrameKeepsInv(s: State, s': State, name: string, path: LinkPath, inUse: iset<LinkPath>)
    requires Inv(s, inUse) && Frame(s, s', name, path) && path in inUse && s.NameOf(path) == name
    ensures Inv(s', inUse)
  {
    assert LinkName(s.node, path) == name;
    assert NameInUse(s.node, name, inUse);
    hide Filed, RecordsName, VolumesName, AllOf, KeepsRecords, KeepsVolumes, KeepsCache, NameInUse, LinkName;
    RecordsKeepNames(s.lvdls, s'.lvdls, s.node, name, path, inUse);
    CacheKeepsNames(s.cache, s'.cache, s.node, name, path, inUse);
    VolumesKeepNames(s.pvs, s'.pvs, s.node, name, path, inUse);
  }

  lemma CacheKeepsNames(
    a: map<string, Lvdl>, b: map<string, Lvdl>, node: string, name: string, path: LinkPath, inUse: iset<LinkPath>)
    requires Filed(a) && RecordsName(node, a, inUse) && AllOf(node, a) && KeepsCache(a, b, node, name, path)
    requires path in inUse && LinkName(node, path) == name && NameInUse(node, name, inUse)
    ensures Filed(b) && RecordsName(node, b, inUse) && AllOf(node, b)
  {
    hide NameInUse, LinkName;
    forall n | n in b ensures NamesLink(node, n, b[n].node, b[n].status.pvPath, inUse) {
      assert n == name || n in a;
    }
  }

  lemma VolumesKeepNames(
    a: map<string, Pv>, b: map<string, Pv>, node: string, name: string, path: LinkPath, inUse: iset<LinkPath>)
    requires VolumesName(node, a, inUse) && KeepsVolumes(a, b, node, name, path)
    requires path in inUse && LinkName(node, path) == name && NameInUse(node, name, inUse)
    ensures VolumesName(node, b, inUse)
  {
    hide NameInUse, LinkName;
    forall n | n in b ensures NamesLink(node, n, b[n].node, b[n].path, inUse) {
      assert n == name || n in a;
    }
  }

  lemma RecordsKeepNames(
    a: map<string, Lvdl>, b: map<string, Lvdl>, node: string, name: string, path: LinkPath, inUse: iset<LinkPath>)
    requires Filed(a) && RecordsName(node, a, inUse) && KeepsRecords(a, b, node, name, path)
    requires path in inUse && LinkName(node, path) == name && NameInUse(node, name, inUse)
    ensures Filed(b) && RecordsName(node, b, inUse)
  {
    hide NameInUse, LinkName;
    forall n | n in b ensures NamesLink(node, n, b[n].node, b[n].status.pvPath, inUse) {
      assert n == name || n in a;
    }
  }

  /**
   A path is handed back only for the one record of the device, and it is that record's path: to
   relink under policy PreferredLinkTarget when the current target no longer resolves, or with a
   refusal under any other policy.
   */
  lemma RecoverNames(s: State, found: map<string, Lvdl>, sc: string, pvGetOk: bool, inUse: iset<LinkPath>)
    requires Inv(s, inUse) && (forall n :: n in found ==> n in s.cache && found[n] == s.cache[n])
    ensures var r := Recover(s, found, sc, pvGetOk);
            && (!r.NotRecovered? ==> |found| == 1 && r.path in inUse && r.path.sc == sc)
            && (r.Recovered? ==> forall n :: n in found ==>
                  && found[n].policy == PreferredLinkTarget && s.NameOf(r.path) == n
                  && !s.tree.EvalSymlinks(found[n].status.current).Resolves?)
            && (r.PolicyNotPreferred? ==>
                  && r.l in found.Values && s.NameOf(r.path) == r.l.name && r.l.policy != PreferredLinkTarget)
  {
    if |found| == 1 {
      var l := TheOnly(found);
      var n :| n in found && found[n] == l;
      forall m | m in found ensures m == n {
        OnlyKey(found, m, n);
      }
      RecordedPathInUse(s, n, pvGetOk, inUse);
    }
  }

  lemma RecordedPathInUse(s: State, n: string, pvGetOk: bool, inUse: iset<LinkPath>)
    requires Inv(s, inUse) && n in s.cache
    ensures var p := RecordedPath(s, s.cache[n], pvGetOk);
            p.Some? ==> p.value in inUse && s.NameOf(p.value) == n
  {
    hide NameInUse, LinkName;
    assert NamesLink(s.node, n, s.node, s.cache[n].status.pvPath, inUse);
    if n in s.pvs {
      assert NamesLink(s.node, n, s.pvs[n].node, s.pvs[n].path, inUse);
    }
  }

  lemma FindManagedFromCache(s: State, source: string, f: Facts, globOk: bool)
    ensures var r := FindManaged(s, source, f, globOk);
            r.Records? ==> forall n :: n in r.found ==> n in s.cache && r.found[n] == s.cache[n]
  {
  }

  // A new link was created at `path`: nothing was there, and no live link to its device was seen.
  ghost predicate Created(s: State, s1: State, path: LinkPath) {
    && path !in s.links && path in s1.links
    && s1 == s.(links := s.links[path := s1.links[path]])
  }

  ghost predicate UnclaimedAtRoot(s: State, source: string) {
    forall k :: s.tree.EvalSymlinks(source) == Resolves(k) ==> LinksTo(s, k) == {}
  }

  // The scan before creating a link is conclusive.
  ghost predicate ScanCounts(s: State, who: Controller, f: Facts, source: string, c: CreateCalls) {
    who == LocalVolumeSet ==>
      && c.scanOk
      && (s.tree.EvalSymlinks(source).Resolves? ==> s.tree.EvalSymlinks(source) == Resolves(f.kname))
  }

  lemma CreateEffect(s: State, who: Controller, f: Facts, source: string, path: LinkPath, c: CreateCalls)
    ensures var r := CreateLink(s, who, f, source, path, c);
            && (r.state == s || (Created(s, r.state, path) && r.state.links[path] == source))
            && (r.state != s && ScanCounts(s, who, f, source, c) ==> UnclaimedAtRoot(s, source))
  {
  }

  lemma CreateThenSyncEffect(
    s: State, who: Controller, f: Facts, source: string, path: LinkPath, owner: Owner, c: NewCalls)
    returns (s1: State)
    requires Filed(s.lvdls)
    ensures var r := CreateLink(s, who, f, source, path, c.create);
            var s' := if r.proceed then Sync(r.state, path, f, owner, c.sync).state else r.state;
            && (s1 == s || (Created(s, s1, path) && s1.links[path] == source))
            && (s1 != s && ScanCounts(s, who, f, source, c.create) ==> UnclaimedAtRoot(s, source))
            && Frame(s1, s', s1.NameOf(path), path)
            && LinkEffect(s1, s', path, f, c.sync.relink)
  {
    CreateEffect(s, who, f, source, path, c.create);
    s1 := CreateLink(s, who, f, source, path, c.create).state;
    SyncEffect(s1, path, f, owner, c.sync);
  }

  // What a device without a link leads to: an optional new link, then an operation on one link.
  lemma ProcessNewEffect(
    s: State, who: Controller, f: Facts, source: string, sc: string, owner: Owner, c: NewCalls, inUse: iset<LinkPath>)
    returns (path: LinkPath, s1: State)
    requires Inv(s, inUse) && LinkPath(sc, Base(source)) in inUse
    ensures var s' := ProcessNew(s, who, f, source, sc, owner, c);
            && path in inUse && path.sc == sc
            && (s1 == s || (Created(s, s1, path) && s1.links[path] == source))
            && (s1 != s && ScanCounts(s, who, f, source, c.create) ==> UnclaimedAtRoot(s, source))
            && Frame(s1, s', s1.NameOf(path), path)
            && LinkEffect(s1, s', path, f, c.sync.relink)
  {
    path, s1 := LinkPath(sc, Base(source)), s;
    assert Filed(s.lvdls);
    hide Sync, UpdateDeviceLinks, LinkName;
    var search := FindManaged(s, source, f, c.validGlobOk);
    FindManagedFromCache(s, source, f, c.validGlobOk);
    if search.Records? {
      if search.found != map[] {
        RecoverNames(s, search.found, sc, c.recoverPvGetOk, inUse);
        var r := Recover(s, search.found, sc, c.recoverPvGetOk);
        if r.PolicyNotPreferred? {
          path := r.path;
          UpdateDeviceLinksFrame(s, r.l, f, r.l.status.current, r.path, c.update);
        } else if r.Recovered? {
          path := r.path;
          SyncEffect(s, path, f, owner, c.sync);
        }
      } else {
        s1 := CreateThenSyncEffect(s, who, f, source, path, owner, c);
      }
    }
  }

  lemma ProcessRejectedEffect(
    s: State, who: Controller, sc: string, f: Facts, existing: Existing, c: RejectedCalls, inUse: iset<LinkPath>)
    returns (path: LinkPath)
    requires Inv(s, inUse) && inUse != iset{}
    requires existing.ExistingLink? ==> existing.l in inUse
    ensures var s' := ProcessRejected(s, who, sc, f, existing, c);
            path in inUse && Frame(s, s', s.NameOf(path), path) && LinkEffect(s, s', path, f, c.relink)
  {
    hide RefreshRecord, RecoverRejected, LinkName;
    if existing.ExistingLink? {
      path := existing.l;
      RefreshEffect(s, who, path, f, c);
    } else {
      path := RecoverRejectedEffect(s, who, sc, f, c, inUse);
    }
  }

  lemma RecoverRejectedEffect(s: State, who: Controller, sc: string, f: Facts, c: RejectedCalls, inUse: iset<LinkPath>)
    returns (path: LinkPath)
    requires Inv(s, inUse) && inUse != iset{}
    ensures var s' := RecoverRejected(s, who, sc, f, c);
            path in inUse && Frame(s, s', s.NameOf(path), path) && LinkEffect(s, s', path, f, c.relink)
  {
    hide RefreshRecord, UpdateDeviceLinks, LinkName;
    path :| path in inUse;
    if PathByID(f, c.globOk).IdPath? {
      var source := PathByID(f, c.globOk).path;
      var search := FindManaged(s, source, f, c.validGlobOk);
      FindManagedFromCache(s, source, f, c.validGlobOk);
      if search.Records? && search.found != map[] {
        RecoverNames(s, search.found, sc, c.recoverPvGetOk, inUse);
        var r := Recover(s, search.found, sc, c.recoverPvGetOk);
        if r.PolicyNotPreferred? {
          path := r.path;
          UpdateDeviceLinksFrame(s, r.l, f, r.l.status.current, r.path, c.update);
        } else if r.Recovered? {
          path := r.path;
          RefreshEffect(s, who, path, f, c);
        }
      }
    }
  }
}

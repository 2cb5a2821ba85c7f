/**
 What one sync, and two in a row, achieve: records follow links, lost writes are repaired,
 and the preferred target is reached.
 */
module LinkProtocolSync {
  import opened DeviceTree
  import opened PreferenceScan
  import opened Objects
  import opened LinkProtocol
  import opened LinkProtocolRuns

  // The record of the link names the link's content.
  ghost predicate RecordMatches(s: State, path: LinkPath) {
    && path in s.links && s.NameOf(path) in s.lvdls
    && s.lvdls[s.NameOf(path)].status.current == s.links[path]
  }

  // ----- A finished sync leaves record and link in agreement -----

  lemma RelinkRecords(s: State, path: LinkPath, f: Facts, c: RelinkCalls)
    requires Filed(s.lvdls) && s.NameOf(path) in s.lvdls
    ensures var name := s.NameOf(path);
            var l := s.lvdls[name];
            var r := Relink(s, l, path, f, c);
            && name in r.state.lvdls
            && (r.ok && r.exit == Swapped ==>
                  RecordMatches(r.state, path) && PathByID(f, c.globOk) == IdPath(r.state.links[path])
                  && r.state.lvdls[name].status.preferred == r.state.links[path])
            && (r.ok ==> r.state.lvdls[name].status.pvPath == Some(path))
            && (r.exit == NotSwapped ==> r.state.lvdls[name].status.current == l.status.current)
  {
    var l := s.lvdls[s.NameOf(path)];
    var found := PathByID(f, c.globOk);
    if !found.IdPath? {
      FailureRecords(s, l, "PreferredTargetNotFound", "", f, path, c);
    } else {
      var preferred, resolved := found.path, s.tree.EvalSymlinks(found.path);
      if !c.evalOk || !resolved.Resolves? {
        FailureRecords(s, l, "EvalSymlinkFailed", preferred, f, path, c);
      } else if !c.listOk {
        FailureRecords(s, l, "ListDirFailed", preferred, f, path, c);
      } else if Claimed(s, path, resolved.kname) {
        FailureRecords(s, l, "TargetAlreadyClaimed", preferred, f, path, c);
      } else {
        var swap := Swap(s.links, path, preferred, c);
        var s1 := s.(links := swap.links);
        if swap.failure != "" {
          FailureRecords(s1, l, swap.failure, preferred, f, path, c);
        }
      }
    }
  }

  // The conditions report a failed relink.
  ghost predicate Reports(conds: seq<Condition>, reason: string, message: string) {
    exists i :: 0 <= i < |conds| && conds[i].(time := 0) == Condition(ERROR_KIND, true, reason, message, 0)
  }

  lemma SetConditionReports(conds: seq<Condition>, reason: string, message: string, now: int)
    ensures Reports(SetCondition(conds, Condition(ERROR_KIND, true, reason, message, now)), reason, message)
  {
    var c := Condition(ERROR_KIND, true, reason, message, now);
    var r, i := SetCondition(conds, c), LastOfKind(conds, ERROR_KIND);
    assert r[if i < 0 then |conds| else i].(time := 0) == c.(time := 0);
  }

  // A failed relink is reported, and the recorded current target stays.
  lemma FailureRecords(s: State, l: Lvdl, reason: string, preferred: string, f: Facts, path: LinkPath, c: RelinkCalls)
    requires l.name in s.lvdls && s.lvdls[l.name] == l
    ensures var r := RecordFailure(s, l, reason, preferred, f, path, c);
            && r.exit == NotSwapped && l.name in r.state.lvdls
            && r.state.lvdls[l.name].status.current == l.status.current
            && (r.ok ==> r.state.lvdls[l.name].status.pvPath == Some(path))
            && (r.ok ==> Reports(r.state.lvdls[l.name].status.conditions, reason, preferred))
  {
    hide Reports, SetCondition;
    var r := SetStatus(f, l.status, preferred, l.status.current, path, c.status);
    if r.NewStatus? {
      SetConditionReports(r.st.conditions, reason, preferred, c.now);
    }
  }

  // The record holds this target and path.
  ghost predicate Recorded(records: map<string, Lvdl>, name: string, current: string, path: LinkPath) {
    name in records && records[name].status.current == current && records[name].status.pvPath == Some(path)
  }

  lemma UpdateRecords(s: State, l: Lvdl, f: Facts, current: string, path: LinkPath, c: StatusCalls)
    requires l.name in s.lvdls && s.lvdls[l.name] == l
    ensures var r := UpdateDeviceLinks(s, l, f, current, path, c);
            r.ok ==> Recorded(r.state.lvdls, l.name, current, path)
  {
  }

  /**
   What the status says about a device: exactly its by-id links as valid targets and, unless a target
   was chosen by the caller, the best-ranked of them as the preferred one.
   */
  lemma StatusDescribesDevice(
    t: Tree, dev: BlockDevice, st: LvdlStatus, preferred: string, current: string, path: LinkPath, c: StatusCalls)
    requires SetStatus(Probe(t, dev), st, preferred, current, path, c).NewStatus?
    ensures var r := SetStatus(Probe(t, dev), st, preferred, current, path, c).st;
            && r.current == current && r.pvPath == Some(path) && r.conditions == st.conditions
            && (forall p :: p in r.valid <==>
                  exists i :: 0 <= i < |t.byId| && ById(t.byId[i]) == p && t.EvalSymlinks(p) == Resolves(dev.kname))
            && (if preferred != "" then r.preferred == preferred
                else if r.valid == [] then r.preferred == ""
                else exists i ::
                  && 0 <= i < |t.byId| && r.preferred == ById(t.byId[i]) && r.preferred in r.valid
                  && forall j :: 0 <= j < |t.byId| && ById(t.byId[j]) in r.valid && j != i ==>
                       Before(t.byId, Rank, i, j))
  {
    var k := dev.kname;
    var r := SetStatus(Probe(t, dev), st, preferred, current, path, c).st;
    forall p ensures p in r.valid <==>
                       exists i :: 0 <= i < |t.byId| && ById(t.byId[i]) == p && t.EvalSymlinks(p) == Resolves(k)
    {
      ValidFromMembers(t, k, t.byId, p);
      assert forall i :: 0 <= i < |t.byId| && ById(t.byId[i]) == p ==>
          (VerdictFor(t, k)(t.byId[i]) == Yes <==> t.EvalSymlinks(p) == Resolves(k));
    }
    if preferred == "" {
      PreferredIsBest(t, dev, r.valid, r.preferred);
    }
  }

  lemma PreferredIsBest(t: Tree, dev: BlockDevice, valid: seq<string>, preferred: string)
    requires Probe(t, dev).valid == Links(valid) && !Probe(t, dev).best.PathFailed?
    requires preferred == if Probe(t, dev).best.IdPath? then Probe(t, dev).best.path else ""
    ensures if valid == [] then preferred == ""
            else exists i ::
              && 0 <= i < |t.byId| && preferred == ById(t.byId[i]) && preferred in valid
              && forall j :: 0 <= j < |t.byId| && ById(t.byId[j]) in valid && j != i ==> Before(t.byId, Rank, i, j)
  {
    var k := dev.kname;
    FindDeviceIsLeastRanked(t, k);
    forall p
      ensures p in valid <==>
                exists i :: 0 <= i < |t.byId| && ById(t.byId[i]) == p && VerdictFor(t, k)(t.byId[i]) == Yes
    {
      ValidFromMembers(t, k, t.byId, p);
    }
    assert valid != [] ==> valid[0] in valid;
    if FindDevice(t, k).Found? {
      var n := FindDevice(t, k).item;
      var i :|
        && 0 <= i < |t.byId| && t.byId[i] == n
        && forall j :: 0 <= j < |t.byId| && VerdictFor(t, k)(t.byId[j]) != No && j != i ==> Before(t.byId, Rank, i, j);
      assert VerdictFor(t, k)(t.byId[i]) == Yes;
      assert ById(n) in valid;
      forall j | 0 <= j < |t.byId| && ById(t.byId[j]) in valid && j != i ensures Before(t.byId, Rank, i, j) {
        var m :| 0 <= m < |t.byId| && ById(t.byId[m]) == ById(t.byId[j]) && VerdictFor(t, k)(t.byId[m]) == Yes;
        assert t.EvalsToDiskLabel(ById(t.byId[j]), k) == Yes;
        assert VerdictFor(t, k)(t.byId[j]) == Yes;
      }
    }
  }

  lemma ApplyRecords(s: State, path: LinkPath, f: Facts, c: ApplyCalls)
    requires Filed(s.lvdls) && s.NameOf(path) in s.pvs && path in s.links
    ensures var r := ApplyStatus(s, s.NameOf(path), f, s.links[path], path, c);
            r.ok ==> && RecordMatches(r.state, path)
                     && r.state.lvdls[s.NameOf(path)].status.pvPath == Some(path)
  {
    hide UpdateDeviceLinks, LinkName;
    var name := s.NameOf(path);
    var l := if name in s.lvdls then s.lvdls[name] else FreshRecord(s, name);
    var s1 := s.(lvdls := s.lvdls[name := l]);
    assert name in s.lvdls ==> s1 == s;
    UpdateRecords(s1, l, f, s.links[path], path, c.status);
    UpdateDeviceLinksFrame(s1, l, f, s.links[path], path, c.status);
  }

  lemma AfterRelinkRecords(s: State, exit: Exit, path: LinkPath, f: Facts, owner: Owner, c: SyncCalls)
    requires Filed(s.lvdls)
    ensures var name := s.NameOf(path);
            var r := SyncAfterRelink(s, exit, path, f, owner, c);
            && r.exit == exit
            && (r.outcome == Done ==> path in s.links && name in r.state.pvs)
            && (exit != NoRelink ==> r.state.lvdls == s.lvdls && r.state.links == s.links)
            && (exit == NoRelink && r.outcome == Done ==>
                  RecordMatches(r.state, path) && r.state.lvdls[name].status.pvPath == Some(path))
  {
    var name := s.NameOf(path);
    if path in s.links {
      var pv := PvAfterSync(s.Volume(name), s.node, path, owner);
      var s1 := s.(pvs := s.pvs[name := pv]);
      ApplyRecords(s1, path, f, c.apply);
      ApplyStatusFrame(s1, name, f, s.links[path], path, c.apply);
    }
  }

  // The claim below for the branch that relinks.
  lemma RelinkedSyncRecords(s: State, path: LinkPath, f: Facts, owner: Owner, c: SyncCalls)
    requires Filed(s.lvdls) && s.NameOf(path) in s.lvdls
    ensures var name := s.NameOf(path);
            var relinked := Relink(s, s.lvdls[name], path, f, c.relink);
            var r := SyncAfterRelink(relinked.state, relinked.exit, path, f, owner, c);
            && r.exit == relinked.exit != NoRelink && name in r.state.lvdls
            && (relinked.ok ==> r.state.lvdls[name].status.pvPath == Some(path))
            && (r.outcome == Done ==> name in r.state.pvs)
            && (relinked.ok && r.exit == Swapped ==> RecordMatches(r.state, path))
            && (r.exit == NotSwapped ==>
                  && SameAt(s.links, relinked.state.links, path) && SameAt(s.links, r.state.links, path)
                  && relinked.state.lvdls[name].status.current == s.lvdls[name].status.current
                  && r.state.lvdls[name].status.current == s.lvdls[name].status.current)
  {
    var l := s.lvdls[s.NameOf(path)];
    RelinkRecords(s, path, f, c.relink);
    RelinkEffect(s, l, path, f, c.relink);
    var r := Relink(s, l, path, f, c.relink);
    AfterRelinkFrame(r.state, r.exit, path, f, owner, c);
    AfterRelinkRecords(r.state, r.exit, path, f, owner, c);
  }

  /**
   A sync that finishes without a failed relink leaves the recorded current target equal to the
   link's content, whatever the state was before: a status write lost earlier is repaired.
   A failed relink leaves both as they were.
   */
  lemma SyncRecordsContent(s: State, path: LinkPath, f: Facts, owner: Owner, c: SyncCalls)
    requires Filed(s.lvdls)
    ensures var name := s.NameOf(path);
            var r := Sync(s, path, f, owner, c);
            && (r.outcome == Done ==>
                  name in r.state.pvs && name in r.state.lvdls && r.state.lvdls[name].status.pvPath == Some(path))
            && (r.outcome == Done && r.exit != NotSwapped ==> RecordMatches(r.state, path))
            && (r.exit == NotSwapped ==>
                  && name in s.lvdls && name in r.state.lvdls && SameAt(s.links, r.state.links, path)
                  && r.state.lvdls[name].status.current == s.lvdls[name].status.current)
  {
    var name := s.NameOf(path);
    if c.preOk && c.getOk {
      var l := s.Record(name);
      if HasMismatchingSymlink(l, f, c.matchGlobOk) {
        RelinkedSyncRecords(s, path, f, owner, c);
      } else {
        AfterRelinkRecords(s, NoRelink, path, f, owner, c);
      }
    }
  }

  // ----- Reaching the preferred target -----

  predicate StatusOk(c: StatusCalls) {
    c.idGlobOk && c.validGlobOk && c.blkidOk && c.writeOk
  }

  predicate RelinkOk(c: RelinkCalls) {
    c.globOk && c.evalOk && c.listOk && c.rmOk && c.symlinkOk && c.renameOk && StatusOk(c.status)
  }

  predicate AllOk(c: SyncCalls) {
    && c.preOk && c.getOk && c.matchGlobOk && RelinkOk(c.relink)
    && c.readOk && c.modeOk && c.pvGetOk && c.capacityOk && c.pvWriteOk
    && c.apply.pvGetOk && c.apply.getOk && c.apply.createOk && StatusOk(c.apply.status)
  }

  // A device the node can describe: it has a by-id link and its links can be listed.
  ghost predicate Described(t: Tree, f: Facts) {
    Sound(t, f) && f.kname != "" && f.best.IdPath? && f.valid.Links?
  }

  /**
   With every call succeeding, the swap happens iff no other link of the class holds the device, and
   it is recorded iff the record's path is unset or the link's own.
   */
  lemma RelinkSwapsIff(s: State, path: LinkPath, f: Facts, c: RelinkCalls)
    requires Filed(s.lvdls) && s.NameOf(path) in s.lvdls && Described(s.tree, f) && RelinkOk(c)
    ensures var l := s.lvdls[s.NameOf(path)];
            var r := Relink(s, l, path, f, c);
            && (r.ok <==> PathFits(s, path))
            && (r.exit == Swapped <==> !Claimed(s, path, f.kname))
            && (r.exit == Swapped ==> r.state.Live(path, f.kname))
  {
  }

  // The schema lets a sync of this link write the path of its record.
  ghost predicate PathFits(s: State, path: LinkPath) {
    s.NameOf(path) in s.lvdls ==> PathRule(s.lvdls[s.NameOf(path)].status.pvPath, Some(path))
  }

  // Nothing but perhaps the schema stands in the way of a sync of this link.
  ghost predicate Unhindered(s: State, path: LinkPath, f: Facts) {
    && Filed(s.lvdls) && path in s.links && s.NameOf(path) in s.lvdls
    && s.lvdls[s.NameOf(path)].policy == PreferredLinkTarget
    && Described(s.tree, f) && !Claimed(s, path, f.kname)
    && (s.NameOf(path) in s.pvs ==> s.pvs[s.NameOf(path)].phase != Released)
  }

  ghost predicate Ready(s: State, path: LinkPath, f: Facts) {
    Unhindered(s, path, f) && PathFits(s, path)
  }

  function Target(f: Facts): string {
    match PathByID(f, true)
    case IdPath(p) => p
    case _ => ""
  }

  lemma QuietSync(s: State, path: LinkPath, f: Facts, owner: Owner, c: SyncCalls)
    requires Ready(s, path, f) && AllOk(c)
    requires s.lvdls[s.NameOf(path)].status.current == Target(f)
    ensures var name := s.NameOf(path);
            var r := Sync(s, path, f, owner, c);
            && r.outcome == Done && r.exit == NoRelink && r.state.links == s.links
            && name in r.state.lvdls
            && var conditions := s.lvdls[name].status.conditions;
            && r.state.lvdls[name].status ==
               LvdlStatus(s.links[path], f.best.path, f.valid.paths, Some(path), f.fsUuid, conditions)
            && (r.state.lvdls[name].status == s.lvdls[name].status ==> r.state.lvdls == s.lvdls)
  {
    var name := s.NameOf(path);
    var pv := PvAfterSync(s.Volume(name), s.node, path, owner);
    var s1 := s.(pvs := s.pvs[name := pv]);
    assert !HasMismatchingSymlink(s.Record(name), f, c.matchGlobOk);
    var a := ApplyStatus(s1, name, f, s.links[path], path, c.apply);
    assert a == UpdateDeviceLinks(s1, s.lvdls[name], f, s.links[path], path, c.apply.status);
    assert a.ok;
  }

  lemma RelinkingSync(s: State, path: LinkPath, f: Facts, owner: Owner, c: SyncCalls)
    requires Ready(s, path, f) && AllOk(c)
    requires s.lvdls[s.NameOf(path)].status.current != Target(f)
    ensures var name := s.NameOf(path);
            var r := Sync(s, path, f, owner, c);
            && r.outcome == Done && r.exit == Swapped
            && r.state.links == SwappedLinks(s, path, Target(f))
            && name in r.state.lvdls && r.state.lvdls[name].name == name
            && r.state.lvdls[name].policy == PreferredLinkTarget
            && r.state.lvdls[name].status == LvdlStatus(Target(f), Target(f), f.valid.paths, Some(path), f.fsUuid, [])
  {
    var name := s.NameOf(path);
    RelinkSwapsIff(s, path, f, c.relink);
    RelinkEffect(s, s.lvdls[name], path, f, c.relink);
    assert HasMismatchingSymlink(s.Record(name), f, c.matchGlobOk);
  }

  // Removing other links never claims a device.
  lemma SwapStaysUnclaimed(s: State, s': State, path: LinkPath, target: string, kname: string)
    requires s'.tree == s.tree && s'.links == SwappedLinks(s, path, target) && !Claimed(s, path, kname)
    ensures !Claimed(s', path, kname)
  {
    forall e | e in s'.links && e.sc == path.sc && e != path ensures !s'.Live(e, kname) {
      assert e in s.links && s'.links[e] == s.links[e];
    }
  }

  lemma ReadyAfterSync(s: State, path: LinkPath, f: Facts, owner: Owner, c: SyncCalls)
    requires Ready(s, path, f) && AllOk(c)
    ensures Ready(Sync(s, path, f, owner, c).state, path, f)
  {
    var name := s.NameOf(path);
    var s' := Sync(s, path, f, owner, c).state;
    SyncEffect(s, path, f, owner, c);
    if s.lvdls[name].status.current == Target(f) {
      QuietSync(s, path, f, owner, c);
      assert forall e, k :: s'.Live(e, k) <==> s.Live(e, k);
    } else {
      RelinkingSync(s, path, f, owner, c);
      SwapStaysUnclaimed(s, s', path, Target(f), f.kname);
    }
    SyncKeepsPolicyAndPhase(s, path, f, owner, c);
  }

  lemma SyncKeepsPolicyAndPhase(s: State, path: LinkPath, f: Facts, owner: Owner, c: SyncCalls)
    requires Filed(s.lvdls) && s.NameOf(path) in s.lvdls
    ensures var name, s' := s.NameOf(path), Sync(s, path, f, owner, c).state;
            && name in s'.lvdls && s'.lvdls[name].policy == s.lvdls[name].policy
            && (name in s.pvs ==> name in s'.pvs && s'.pvs[name].phase == s.pvs[name].phase)
            && (name in s'.pvs && name !in s.pvs ==> s'.pvs[name].phase == Pending)
  {
    SyncEffect(s, path, f, owner, c);
  }

  /**
   One sync brings link content, current target and preferred target together; the next one does
   no relink and writes no record.  The common target is the best-ranked by-id link iff the
   remembered path is unset, no longer valid or the best one.
   */
  lemma SyncConverges(s: State, path: LinkPath, f: Facts, owner: Owner, c: SyncCalls, c2: SyncCalls)
    requires Ready(s, path, f) && RecordMatches(s, path) && AllOk(c) && AllOk(c2)
    ensures var r := Sync(s, path, f, owner, c);
            var r2 := Sync(r.state, path, f, owner, c2);
            && r.outcome == Done && RecordMatches(r.state, path) && r.state.links[path] == Target(f)
            && (Target(f) == f.best.path <==> f.remembered in {"", f.best.path})
            && (f.remembered in {"", f.best.path} ==>
                  && r.state.lvdls[r.state.NameOf(path)].status.preferred == f.best.path
                  && r2.outcome == Done && r2.exit == NoRelink
                  && r2.state.links == r.state.links && r2.state.lvdls == r.state.lvdls)
  {
    ReadyAfterSync(s, path, f, owner, c);
    var r := Sync(s, path, f, owner, c);
    if s.lvdls[s.NameOf(path)].status.current == Target(f) {
      QuietSync(s, path, f, owner, c);
    } else {
      RelinkingSync(s, path, f, owner, c);
    }
    SyncEffect(s, path, f, owner, c);
    QuietSync(r.state, path, f, owner, c2);
  }

  // From any ready state a sync with succeeding calls finishes with record and link in agreement.
  lemma ReadySyncFinishes(s: State, path: LinkPath, f: Facts, owner: Owner, c: SyncCalls)
    requires Ready(s, path, f) && AllOk(c)
    ensures var r := Sync(s, path, f, owner, c);
            && r.outcome == Done && r.exit != NotSwapped && RecordMatches(r.state, path)
            && (s.links[path] == Target(f) ==> r.state.links[path] == Target(f))
  {
    SyncRecordsContent(s, path, f, owner, c);
    if s.lvdls[s.NameOf(path)].status.current == Target(f) {
      QuietSync(s, path, f, owner, c);
    } else {
      RelinkingSync(s, path, f, owner, c);
    }
  }

  lemma SwappedSync(s: State, path: LinkPath, f: Facts, owner: Owner, c: SyncCalls)
    requires Ready(s, path, f) && Sync(s, path, f, owner, c).exit == Swapped
    ensures Sync(s, path, f, owner, c).state.links == SwappedLinks(s, path, Target(f))
  {
    var l := s.lvdls[s.NameOf(path)];
    var rr := Relink(s, l, path, f, c.relink);
    RelinkEffect(s, l, path, f, c.relink);
    AfterRelinkFrame(rr.state, rr.exit, path, f, owner, c);
    assert HasMismatchingSymlink(Some(l), f, c.matchGlobOk) by { AfterRelinkFrame(s, NoRelink, path, f, owner, c); }
  }

  lemma ReadyAfterSwap(s: State, path: LinkPath, f: Facts, owner: Owner, c: SyncCalls)
    requires Ready(s, path, f) && Sync(s, path, f, owner, c).exit == Swapped
    ensures var s' := Sync(s, path, f, owner, c).state;
            Ready(s', path, f) && s'.links[path] == Target(f)
  {
    var s' := Sync(s, path, f, owner, c).state;
    SwappedSync(s, path, f, owner, c);
    SyncEffect(s, path, f, owner, c);
    SwapStaysUnclaimed(s, s', path, Target(f), f.kname);
    SyncKeepsPolicyAndPhase(s, path, f, owner, c);
  }

  /**
   A swap whose status write was lost leaves the record behind; the next sync with succeeding calls
   finishes and brings the record back in line with the link.
   */
  lemma LostWriteIsRepaired(s: State, path: LinkPath, f: Facts, owner: Owner, c: SyncCalls, c2: SyncCalls)
    requires Ready(s, path, f) && Sync(s, path, f, owner, c).exit == Swapped && AllOk(c2)
    ensures var r2 := Sync(Sync(s, path, f, owner, c).state, path, f, owner, c2);
            && r2.outcome == Done && r2.exit != NotSwapped
            && RecordMatches(r2.state, path) && r2.state.links[path] == Target(f)
  {
    ReadyAfterSwap(s, path, f, owner, c);
    ReadySyncFinishes(Sync(s, path, f, owner, c).state, path, f, owner, c2);
  }
}

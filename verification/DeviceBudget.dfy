/**
 The device loop of a LocalVolumeSet reconcile and its limit, MaxDeviceCount.
 */
module DeviceBudget {
  import opened DeviceTree
  import opened PreferenceScan
  import opened Objects
  import opened ClaimRules
  import opened LinkProtocol
  import opened LinkProtocolRuns
  import opened LinkProtocolSync
  import opened LinkProtocolRecords
  import LinkCache

  // Links of the class that resolve to a listed device.
  function LiveLinks(s: State, sc: string, knames: set<string>): set<LinkPath> {
    set l | l in s.links && l.sc == sc && s.EvalLink(l).Resolves? && s.EvalLink(l).kname in knames
  }

  // The count fails when a link of the class cannot be evaluated.
  predicate CountFails(s: State, sc: string, knames: set<string>) {
    knames != {} && exists l :: l in s.links && l.sc == sc && s.EvalLink(l) == EvalFailed
  }

  function Names(devs: seq<string>): set<string> {
    set k | k in devs
  }

  // One link against the devices, one by one.
  method MatchesAny(e: Eval, devs: seq<string>) returns (v: Verdict)
    ensures v == Error <==> devs != [] && e == EvalFailed
    ensures v == Yes <==> e.Resolves? && e.kname in Names(devs)
  {
    for i := 0 to |devs|
      invariant forall j :: 0 <= j < i ==> e != Resolves(devs[j])
      invariant i > 0 ==> e != EvalFailed
    {
      v := VerdictOf(e, devs[i]);
      if v != No {
        return;
      }
    }
    return No;
  }

  // The entries of the class directory, each once.
  ghost predicate ListsClass(s: State, sc: string, paths: seq<LinkPath>) {
    && (forall l :: l in paths <==> l in s.links && l.sc == sc)
    && forall i, j :: 0 <= i < j < |paths| ==> paths[i] != paths[j]
  }

  // getAlreadySymlinked: the links that resolve to a device are counted, the others listed.
  method GetAlreadySymlinked(s: State, sc: string, paths: seq<LinkPath>, devs: seq<string>)
    returns (count: nat, noMatch: seq<LinkPath>, failed: bool)
    requires ListsClass(s, sc, paths)
    ensures failed <==> CountFails(s, sc, Names(devs))
    ensures !failed ==> count == |LiveLinks(s, sc, Names(devs))|
    ensures !failed ==> forall l :: l in noMatch <==> l in paths && l !in LiveLinks(s, sc, Names(devs))
  {
    count, noMatch, failed := 0, [], false;
    ghost var live := LiveLinks(s, sc, Names(devs));
    ghost var counted: set<LinkPath> := {};
    assert devs != [] ==> devs[0] in Names(devs);
    for i := 0 to |paths|
      invariant count == |counted| && forall l :: l in counted <==> l in paths[..i] && l in live
      invariant forall l :: l in noMatch <==> l in paths[..i] && l !in live
      invariant devs != [] ==> forall l :: l in paths[..i] ==> s.EvalLink(l) != EvalFailed
    {
      var l := paths[i];
      assert paths[..i + 1] == paths[..i] + [l];
      assert l in paths && l !in paths[..i];
      var v := MatchesAny(s.EvalLink(l), devs);
      if v == Error {
        return 0, [], true;
      }
      assert v == Yes <==> l in live;
      if v == Yes {
        count := count + 1;
        counted := counted + {l};
      } else {
        noMatch := noMatch + [l];
      }
    }
    assert paths[..|paths|] == paths;
    assert counted == live;
  }

  // Conversion of a count to the 32-bit integer it is compared as.
  function ToInt32(n: nat): int {
    var m := n % 0x1_0000_0000;
    if m < 0x8000_0000 then m else m - 0x1_0000_0000
  }

  datatype DeviceCalls = DeviceCalls(existing: Existing, sync: SyncCalls, globOk: bool, provision: NewCalls)

  datatype LoopStep = Continue(state: State) | Stop(state: State) | Abort(state: State)

  function ProcessDevice(
    s: State, sc: string, f: Facts, knames: set<string>, max: Option<int>, owner: Owner, c: DeviceCalls): LoopStep {
    match c.existing
    case ExistingFailed => Continue(s)
    case ExistingLink(l) => Continue(Sync(s, l, f, owner, c.sync).state)
    case NoExisting =>
      if LvSetSource(f, c.globOk).None? then Continue(s)
      else if max.Some? && CountFails(s, sc, knames) then Abort(s)
      else if max.Some? && ToInt32(|LiveLinks(s, sc, knames)|) >= max.value then Stop(s)
      else Continue(ProcessNewLvSet(s, f, sc, owner, c.globOk, c.provision))
  }

  datatype Turn = Turn(dev: BlockDevice, calls: DeviceCalls)

  // The state after the device loop.
  function Loop(s: State, sc: string, knames: set<string>, max: Option<int>, owner: Owner, turns: seq<Turn>): State
    decreases turns
  {
    if turns == [] then s
    else
      var r := ProcessDevice(s, sc, Probe(s.tree, turns[0].dev), knames, max, owner, turns[0].calls);
      if r.Continue? then Loop(r.state, sc, knames, max, owner, turns[1..]) else r.state
  }

  method ProcessValidDevices(
    s: State, sc: string, knames: set<string>, max: Option<int>, owner: Owner, turns: seq<Turn>)
    returns (s': State)
    ensures s' == Loop(s, sc, knames, max, owner, turns)
  {
    s' := s;
    for i := 0 to |turns|
      invariant Loop(s, sc, knames, max, owner, turns) == Loop(s', sc, knames, max, owner, turns[i..])
    {
      var r := ProcessDevice(s', sc, Probe(s'.tree, turns[i].dev), knames, max, owner, turns[i].calls);
      assert turns[i..][1..] == turns[i + 1..];
      s' := r.state;
      if !r.Continue? {
        return;
      }
    }
  }

  /**
   The loop breaks off exactly at a device without a link when the limit is reached, and gives up exactly
   when it has to count and cannot; it changes nothing then.
   */
  lemma LoopStopsIff(
    s: State, sc: string, f: Facts, knames: set<string>, max: Option<int>, owner: Owner, c: DeviceCalls)
    requires |LiveLinks(s, sc, knames)| < 0x8000_0000
    ensures var r := ProcessDevice(s, sc, f, knames, max, owner, c);
            var limited := c.existing.NoExisting? && LvSetSource(f, c.globOk).Some? && max.Some?;
            && (r.Stop? <==> limited && !CountFails(s, sc, knames) && |LiveLinks(s, sc, knames)| >= max.value)
            && (r.Abort? <==> limited && CountFails(s, sc, knames))
            && (!r.Continue? ==> r.state == s)
  {
    hide Sync, ProcessNewLvSet, LvSetSource, LiveLinks, CountFails;
  }

  /** Below the limit a fresh device is linked, and counts, when the calls succeed. */
  lemma BelowLimitAddsOne(
    s: State, sc: string, f: Facts, knames: set<string>, max: Option<int>, owner: Owner, c: DeviceCalls, source: string)
    requires var path := LinkPath(sc, Base(source));
             && Filed(s.lvdls) && Fresh(s, f, source, path, c.provision) && Knowable(f)
             && CreateOk(c.provision.create) && AllOk(c.provision.sync) && PathFits(s, path) && NotReleased(s, path)
             && !HasMismatchingSymlink(s.Record(s.NameOf(path)), f, c.provision.sync.matchGlobOk)
    requires c.existing.NoExisting? && LvSetSource(f, c.globOk) == Some(source) && f.kname in knames
    requires |LiveLinks(s, sc, knames)| < 0x8000_0000 && !CountFails(s, sc, knames)
    requires max.Some? ==> |LiveLinks(s, sc, knames)| < max.value
    ensures var r := ProcessDevice(s, sc, f, knames, max, owner, c);
            && r.Continue? && |LiveLinks(r.state, sc, knames)| == |LiveLinks(s, sc, knames)| + 1
  {
    var path := LinkPath(sc, Base(source));
    LoopStopsIff(s, sc, f, knames, max, owner, c);
    FreshDeviceIsProvisioned(s, LocalVolumeSet, f, source, sc, owner, c.provision);
    hide ProcessNew, LinkName, Base, FindManaged, HasMismatchingSymlink, Sync, CountFails, Knowable;
    OneMoreLive(s, ProcessDevice(s, sc, f, knames, max, owner, c).state, path, source, f.kname, knames);
  }

  /** A device with a link is synced: with succeeding calls record and link agree afterwards. */
  lemma ExistingIsSynced(
    s: State, sc: string, f: Facts, knames: set<string>, max: Option<int>, owner: Owner, c: DeviceCalls, l: LinkPath)
    requires c.existing == ExistingLink(l) && Ready(s, l, f) && AllOk(c.sync)
    ensures var r := ProcessDevice(s, sc, f, knames, max, owner, c);
            r.Continue? && RecordMatches(r.state, l)
  {
    ReadySyncFinishes(s, l, f, owner, c.sync);
    hide Sync, RecordMatches;
  }

  lemma OneMoreLive(s: State, s': State, path: LinkPath, target: string, kname: string, knames: set<string>)
    requires s'.tree == s.tree && path !in s.links && s'.links == s.links[path := target]
    requires s.tree.EvalSymlinks(target) == Resolves(kname) && kname in knames
    ensures |LiveLinks(s', path.sc, knames)| == |LiveLinks(s, path.sc, knames)| + 1
  {
    forall l ensures l in LiveLinks(s', path.sc, knames) <==> l == path || l in LiveLinks(s, path.sc, knames) {
      if l != path { assert SameAt(s.links, s'.links, l); }
    }
    assert LiveLinks(s', path.sc, knames) == LiveLinks(s, path.sc, knames) + {path};
  }

  // The directory scan answered truthfully, the link is in use and the relink leaves no temporary link.
  ghost predicate TurnFits(
    s: State, sc: string, f: Facts, knames: set<string>, inUse: iset<LinkPath>, c: DeviceCalls) {
    && f.kname in knames
    && (c.existing.ExistingLink? ==>
          c.existing.l in inUse && c.existing.l.sc == sc && s.Live(c.existing.l, f.kname))
    && UsesSource(sc, LvSetSource(f, c.globOk), inUse)
    && NoLeftover(c.sync.relink) && NoLeftover(c.provision.sync.relink)
  }

  ghost predicate UsesSource(sc: string, source: Option<string>, inUse: iset<LinkPath>) {
    source.Some? ==> LinkPath(sc, Base(source.value)) in inUse
  }

  ghost predicate TurnsFit(
    s: State, sc: string, knames: set<string>, inUse: iset<LinkPath>, max: Option<int>, owner: Owner, turns: seq<Turn>)
    decreases turns
  {
    turns != [] ==>
      && TurnFits(s, sc, Probe(s.tree, turns[0].dev), knames, inUse, turns[0].calls)
      && var r := ProcessDevice(s, sc, Probe(s.tree, turns[0].dev), knames, max, owner, turns[0].calls);
      TurnsFit(r.state, sc, knames, inUse, max, owner, turns[1..])
  }

  // An operation on one link makes at most that link live.
  lemma EffectAddsAtMost(
    s: State, s': State, path: LinkPath, f: Facts, c: RelinkCalls, sc: string, knames: set<string>)
    requires s'.tree == s.tree && LinkEffect(s, s', path, f, c) && NoLeftover(c)
    ensures LiveLinks(s', sc, knames) <= LiveLinks(s, sc, knames) + {path}
  {
    forall l | l in LiveLinks(s', sc, knames) && l != path ensures l in LiveLinks(s, sc, knames) {
      if SwapTook(s, s', path, f, c) {
        assert l in s.links && s'.links[l] == s.links[l];
      } else if s'.links != s.links && l == TmpPath(path) {
        assert SameAt(s.links, s'.links, l);
      }
    }
  }

  lemma CardinalityAtMost<T>(a: set<T>, b: set<T>, x: T)
    requires a <= b + {x}
    ensures |a| <= |b| + 1
    ensures x in b ==> |a| <= |b|
  {
    if x in b {
      assert a <= b;
      SubsetSize(a, b);
    } else {
      SubsetSize(a, b + {x});
    }
  }

  lemma ExistingKeepsCount(
    s: State, sc: string, f: Facts, owner: Owner, c: DeviceCalls, knames: set<string>, inUse: iset<LinkPath>)
    requires Inv(s, inUse) && f.kname in knames && NoLeftover(c.sync.relink)
    requires c.existing.ExistingLink? && c.existing.l in inUse && c.existing.l.sc == sc && s.Live(c.existing.l, f.kname)
    ensures var s' := Sync(s, c.existing.l, f, owner, c.sync).state;
            Inv(s', inUse) && |LiveLinks(s', sc, knames)| <= |LiveLinks(s, sc, knames)|
  {
    var l := c.existing.l;
    SyncEffect(s, l, f, owner, c.sync);
    hide Sync, LinkName;
    var s' := Sync(s, l, f, owner, c.sync).state;
    FrameKeepsInv(s, s', s.NameOf(l), l, inUse);
    EffectAddsAtMost(s, s', l, f, c.sync.relink, sc, knames);
    assert l in LiveLinks(s, sc, knames);
    CardinalityAtMost(LiveLinks(s', sc, knames), LiveLinks(s, sc, knames), l);
  }

  lemma OneLinkAddsOne(
    s: State, s1: State, s': State, path: LinkPath, f: Facts, c: RelinkCalls, sc: string, knames: set<string>)
    requires s1 == s || Created(s, s1, path)
    requires s'.tree == s1.tree && LinkEffect(s1, s', path, f, c) && NoLeftover(c)
    ensures |LiveLinks(s', sc, knames)| <= |LiveLinks(s, sc, knames)| + 1
  {
    EffectAddsAtMost(s1, s', path, f, c, sc, knames);
    forall l | l in LiveLinks(s1, sc, knames) && l != path ensures l in LiveLinks(s, sc, knames) {
      assert l in s.links && s1.links[l] == s.links[l];
    }
    CardinalityAtMost(LiveLinks(s', sc, knames), LiveLinks(s, sc, knames), path);
  }

  lemma NewAddsOne(
    s: State, sc: string, f: Facts, owner: Owner, globOk: bool, c: NewCalls, knames: set<string>, inUse: iset<LinkPath>)
    requires Inv(s, inUse) && NoLeftover(c.sync.relink) && UsesSource(sc, LvSetSource(f, globOk), inUse)
    ensures var s' := ProcessNewLvSet(s, f, sc, owner, globOk, c);
            Inv(s', inUse) && |LiveLinks(s', sc, knames)| <= |LiveLinks(s, sc, knames)| + 1
  {
    hide ProcessNew, LinkName;
    var source := LvSetSource(f, globOk);
    if source.Some? {
      var s' := ProcessNewLvSet(s, f, sc, owner, globOk, c);
      var path, s1 := ProcessNewEffect(s, LocalVolumeSet, f, source.value, sc, owner, c, inUse);
      FrameKeepsInv(s1, s', s1.NameOf(path), path, inUse);
      OneLinkAddsOne(s, s1, s', path, f, c.sync.relink, sc, knames);
    }
  }

  function Larger(a: int, b: int): int {
    if a < b then b else a
  }

  lemma TurnKeepsBudget(
    s: State, sc: string, f: Facts, knames: set<string>, inUse: iset<LinkPath>, max: int, owner: Owner, c: DeviceCalls)
    requires Inv(s, inUse) && TurnFits(s, sc, f, knames, inUse, c) && |LiveLinks(s, sc, knames)| < 0x8000_0000
    ensures var s' := ProcessDevice(s, sc, f, knames, Some(max), owner, c).state;
            Inv(s', inUse) && |LiveLinks(s', sc, knames)| <= Larger(|LiveLinks(s, sc, knames)|, max)
  {
    hide Sync, ProcessNewLvSet, Inv, LiveLinks, CountFails, UsesSource;
    if c.existing.ExistingLink? {
      ExistingKeepsCount(s, sc, f, owner, c, knames, inUse);
    } else if c.existing.NoExisting? {
      NewAddsOne(s, sc, f, owner, c.globOk, c.provision, knames, inUse);
    }
  }

  /**
   The number of live links in the storage class never exceeds the larger of its starting value and
   MaxDeviceCount, after any number of devices and over all branches of the loop.
   */
  lemma {:induction false} LoopKeepsBudget(
    s: State, sc: string, knames: set<string>, inUse: iset<LinkPath>, max: int, owner: Owner, turns: seq<Turn>)
    requires Inv(s, inUse) && TurnsFit(s, sc, knames, inUse, Some(max), owner, turns)
    requires Larger(|LiveLinks(s, sc, knames)|, max) < 0x8000_0000
    ensures var s' := Loop(s, sc, knames, Some(max), owner, turns);
            |LiveLinks(s', sc, knames)| <= Larger(|LiveLinks(s, sc, knames)|, max)
    decreases turns
  {
    hide Inv, ProcessDevice, TurnFits, LiveLinks, Probe;
    if turns != [] {
      var f, c := Probe(s.tree, turns[0].dev), turns[0].calls;
      var r := ProcessDevice(s, sc, f, knames, Some(max), owner, c);
      TurnKeepsBudget(s, sc, f, knames, inUse, max, owner, c);
      if r.Continue? {
        LoopKeepsBudget(r.state, sc, knames, inUse, max, owner, turns[1..]);
      }
    }
  }

  // ----- The pass over rejected devices -----

  // The guards a relink passes before it renames its temporary link.
  ghost predicate ReachesRename(s: State, path: LinkPath, f: Facts, c: RelinkCalls) {
    && PathByID(f, c.globOk).IdPath?
    && c.evalOk && c.listOk && !Claimed(s, path, f.kname)
    && (c.rmOk || TmpPath(path) !in s.links) && c.symlinkOk
  }

  // Exactly when a relink swaps, and when it leaves its temporary link behind.
  lemma RelinkLinks(s: State, l: Lvdl, path: LinkPath, f: Facts, c: RelinkCalls)
    requires Filed(s.lvdls) && Sound(s.tree, f)
    ensures var links, tmp := Relink(s, l, path, f, c).state.links, TmpPath(path);
            if !ReachesRename(s, path, f, c) || (!c.renameOk && c.rmAfterOk)
            then links == s.links || links == s.links - {tmp}
            else if c.renameOk then links == SwappedLinks(s, path, PathByID(f, c.globOk).path)
            else links == s.links[tmp := PathByID(f, c.globOk).path]
  {
    var found := PathByID(f, c.globOk);
    if found.IdPath? {
      assert s.tree.EvalSymlinks(found.path) == Resolves(f.kname);
      SwapLinks(s, path, found.path, c);
      var swap := Swap(s.links, path, found.path, c);
      FailureKeepsLinks(s.(links := swap.links), l, swap.failure, found.path, f, path, c);
      FailureKeepsLinks(s, l, "EvalSymlinkFailed", found.path, f, path, c);
      FailureKeepsLinks(s, l, "ListDirFailed", found.path, f, path, c);
      FailureKeepsLinks(s, l, "TargetAlreadyClaimed", found.path, f, path, c);
      hide RecordFailure, Swap, Claimed, SetStatus;
    } else {
      FailureKeepsLinks(s, l, "PreferredTargetNotFound", "", f, path, c);
      hide RecordFailure;
    }
  }

  lemma FailureKeepsLinks(
    s: State, l: Lvdl, reason: string, preferred: string, f: Facts, path: LinkPath, c: RelinkCalls)
    ensures RecordFailure(s, l, reason, preferred, f, path, c).state.links == s.links
  {
  }

  lemma SwapLinks(s: State, path: LinkPath, target: string, c: RelinkCalls)
    ensures var swap, tmp := Swap(s.links, path, target, c), TmpPath(path);
            && (swap.failure == "" <==> (c.rmOk || tmp !in s.links) && c.symlinkOk && c.renameOk)
            && (if swap.failure == "" then swap.links == SwappedLinks(s, path, target)
                else if (c.rmOk || tmp !in s.links) && c.symlinkOk && !c.rmAfterOk
                then swap.links == s.links[tmp := target]
                else swap.links == s.links || swap.links == s.links - {tmp})
  {
    var tmp := TmpPath(path);
    assert tmp !in s.links ==> s.links - {tmp} == s.links;
    assert (s.links - {tmp})[tmp := target] == s.links[tmp := target];
    assert (s.links - {tmp}) - {tmp} == s.links - {tmp};
  }

  // The refresh of a rejected device's record asks for a relink that gets as far as its rename.
  ghost predicate RefreshRenames(s: State, path: LinkPath, f: Facts, c: RejectedCalls) {
    && c.getOk && HasMismatchingSymlink(s.Record(s.NameOf(path)), f, c.matchGlobOk)
    && ReachesRename(s, path, f, c.relink)
  }

  // It adds a live link: a swap of a link that did not count, or a temporary link left behind.
  ghost predicate AddsLive(s: State, path: LinkPath, f: Facts, c: RejectedCalls, knames: set<string>) {
    var live := LiveLinks(s, path.sc, knames);
    && RefreshRenames(s, path, f, c) && TmpPath(path) !in live
    && if c.relink.renameOk then path !in live else !c.relink.rmAfterOk
  }

  lemma SwapCountIff(s: State, s': State, path: LinkPath, target: string, knames: set<string>)
    requires s'.tree == s.tree && s'.links == SwappedLinks(s, path, target)
    requires s.tree.EvalSymlinks(target).Resolves? && s.tree.EvalSymlinks(target).kname in knames
    ensures var live := LiveLinks(s, path.sc, knames);
            |LiveLinks(s', path.sc, knames)| <= |live| <==> path in live || TmpPath(path) in live
  {
    var live, live', tmp := LiveLinks(s, path.sc, knames), LiveLinks(s', path.sc, knames), TmpPath(path);
    forall l ensures l in live' <==> l == path || (l in live && l != tmp) {
      if l != path && l != tmp { assert SameAt(s.links, s'.links, l); }
    }
    assert live' == (live - {tmp}) + {path};
    if path in live {
      assert live' == live - {tmp};
    } else if tmp in live {
      assert |live - {tmp}| == |live| - 1;
    } else {
      assert live - {tmp} == live;
    }
  }

  lemma LeftoverCountIff(s: State, s': State, path: LinkPath, target: string, knames: set<string>)
    requires s'.tree == s.tree && s'.links == s.links[TmpPath(path) := target]
    requires s.tree.EvalSymlinks(target).Resolves? && s.tree.EvalSymlinks(target).kname in knames
    ensures var live := LiveLinks(s, path.sc, knames);
            |LiveLinks(s', path.sc, knames)| <= |live| <==> TmpPath(path) in live
  {
    var live, live', tmp := LiveLinks(s, path.sc, knames), LiveLinks(s', path.sc, knames), TmpPath(path);
    forall l ensures l in live' <==> l == tmp || l in live {
      if l != tmp { assert SameAt(s.links, s'.links, l); }
    }
    assert live' == live + {tmp};
  }

  /** Refreshing the record of a rejected device raises the count of live links iff it adds one. */
  lemma RefreshCountIff(s: State, who: Controller, path: LinkPath, f: Facts, c: RejectedCalls, knames: set<string>)
    requires Filed(s.lvdls) && Sound(s.tree, f) && f.kname in knames
    ensures var s' := RefreshRecord(s, who, path, f, c);
            |LiveLinks(s', path.sc, knames)| <= |LiveLinks(s, path.sc, knames)| <==> !AddsLive(s, path, f, c, knames)
  {
    hide Relink, LinkName;
    var s' := RefreshRecord(s, who, path, f, c);
    var l := if c.getOk then s.Record(s.NameOf(path)) else None;
    if HasMismatchingSymlink(l, f, c.matchGlobOk) {
      RelinkEffect(s, l.value, path, f, c.relink);
      RelinkLinks(s, l.value, path, f, c.relink);
      if RefreshRenames(s, path, f, c) && c.relink.renameOk {
        SwapCountIff(s, s', path, PathByID(f, c.relink.globOk).path, knames);
      } else if RefreshRenames(s, path, f, c) && !c.relink.rmAfterOk {
        LeftoverCountIff(s, s', path, PathByID(f, c.relink.globOk).path, knames);
      } else {
        FewerLinksFewerLive(s, s', path, knames);
      }
    } else {
      UnrelinkedKeepsLinks(s, who, path, f, c);
      assert LiveLinks(s', path.sc, knames) == LiveLinks(s, path.sc, knames);
    }
  }

  lemma UnrelinkedKeepsLinks(s: State, who: Controller, path: LinkPath, f: Facts, c: RejectedCalls)
    requires Filed(s.lvdls)
    requires !HasMismatchingSymlink(if c.getOk then s.Record(s.NameOf(path)) else None, f, c.matchGlobOk)
    ensures RefreshRecord(s, who, path, f, c).links == s.links && RefreshRecord(s, who, path, f, c).tree == s.tree
  {
    if path in s.links {
      ApplyStatusFrame(s, s.NameOf(path), f, s.links[path], path, c.apply);
    }
  }

  lemma FewerLinksFewerLive(s: State, s': State, path: LinkPath, knames: set<string>)
    requires s'.tree == s.tree && (s'.links == s.links || s'.links == s.links - {TmpPath(path)})
    ensures |LiveLinks(s', path.sc, knames)| <= |LiveLinks(s, path.sc, knames)|
  {
    SubsetSize(LiveLinks(s', path.sc, knames), LiveLinks(s, path.sc, knames));
  }

  /**
   The pass over rejected devices does not look at MaxDeviceCount.  It keeps the count of live links
   iff the device has no link to refresh or refreshing it does not add a live one.
   */
  lemma RejectedCountIff(
    s: State, who: Controller, sc: string, f: Facts, existing: Existing, c: RejectedCalls, knames: set<string>)
    requires Filed(s.lvdls) && Sound(s.tree, f) && f.kname in knames
    requires existing.ExistingLink? ==> existing.l.sc == sc
    ensures var s', link := ProcessRejected(s, who, sc, f, existing, c), RejectedLink(s, sc, f, existing, c);
            |LiveLinks(s', sc, knames)| <= |LiveLinks(s, sc, knames)| <==>
              link.None? || !AddsLive(s, link.value, f, c, knames)
  {
    hide RefreshRecord, FindManaged, AddsLive, UpdateDeviceLinks, Filed;
    var s', link := ProcessRejected(s, who, sc, f, existing, c), RejectedLink(s, sc, f, existing, c);
    if link.Some? {
      assert link.value.sc == sc && s' == RefreshRecord(s, who, link.value, f, c);
      RefreshCountIff(s, who, link.value, f, c, knames);
    } else {
      UnrefreshedKeepsLinks(s, who, sc, f, existing, c);
      assert LiveLinks(s', sc, knames) == LiveLinks(s, sc, knames);
    }
  }

  lemma UnrefreshedKeepsLinks(s: State, who: Controller, sc: string, f: Facts, existing: Existing, c: RejectedCalls)
    requires Filed(s.lvdls) && RejectedLink(s, sc, f, existing, c).None?
    ensures var s' := ProcessRejected(s, who, sc, f, existing, c);
            s'.links == s.links && s'.tree == s.tree
  {
    hide RefreshRecord, FindManaged, UpdateDeviceLinks;
    if existing.NoExisting? && PathByID(f, c.globOk).IdPath? {
      var search := FindManaged(s, PathByID(f, c.globOk).path, f, c.validGlobOk);
      if search.Records? && search.found != map[] {
        var r := Recover(s, search.found, sc, c.recoverPvGetOk);
        if r.PolicyNotPreferred? {
          UpdateDeviceLinksFrame(s, r.l, f, r.l.status.current, r.path, c.update);
        }
      }
    }
  }

  // A link the scan found counts already: it never adds one.
  lemma FoundLinkKeepsCount(
    s: State, who: Controller, f: Facts, l: LinkPath, c: RejectedCalls, knames: set<string>)
    requires Filed(s.lvdls) && Sound(s.tree, f) && f.kname in knames && NoLeftover(c.relink) && s.Live(l, f.kname)
    ensures var s' := ProcessRejected(s, who, l.sc, f, ExistingLink(l), c);
            |LiveLinks(s', l.sc, knames)| <= |LiveLinks(s, l.sc, knames)|
  {
    hide ProcessRejected;
    RejectedCountIff(s, who, l.sc, f, ExistingLink(l), c, knames);
    assert l in LiveLinks(s, l.sc, knames);
  }

  // ----- A concrete input -----

  const LIVE_ID := "/dev/disk/by-id/wwn-1"
  const NEW_ID := "/dev/disk/by-id/wwn-2"
  const OLD_ID := "/dev/disk/by-id/scsi-2"

  const TWO_DISKS := Tree(["wwn-1", "wwn-2"], map[LIVE_ID := Resolves("sda"), NEW_ID := Resolves("sdb")], map[])

  // A live link to sda, and the record of a link to sdb whose target is gone.
  function Dangling(path: LinkPath, other: LinkPath): State {
    var name := LinkName("n", path);
    var st := LvdlStatus(OLD_ID, OLD_ID, [NEW_ID], Some(path), "", []);
    var records := map[name := Lvdl(name, name, "n", PreferredLinkTarget, st, 0)];
    State("n", TWO_DISKS, map[path := OLD_ID, other := LIVE_ID], map[], records, records)
  }

  const SDB := Facts("sdb", "", IdPath(NEW_ID), Links([NEW_ID]), "")
  const BOTH: set<string> := {"sda", "sdb"}

  lemma DanglingFacts(path: LinkPath, other: LinkPath)
    requires path != other && path.sc == other.sc
    ensures var s, name := Dangling(path, other), LinkName("n", path);
            && Filed(s.lvdls) && Sound(s.tree, SDB) && !Claimed(s, path, "sdb")
            && LiveLinks(s, path.sc, BOTH) == {other}
            && name in s.cache && LinkCache.Listing(s.cache, NEW_ID) == map[name := s.cache[name]]
  {
    hide LinkName;
    var s := Dangling(path, other);
    assert forall l :: !s.Live(l, "sdb");
    assert s.EvalLink(other) == Resolves("sda") && s.EvalLink(path) == NotExist;
  }

  /** With one live link, and so a limit of one reached, the pass brings a second one to life. */
  lemma RejectedPassIgnoresBudget(path: LinkPath, other: LinkPath, who: Controller, c: RejectedCalls)
    requires path != other && path.sc == other.sc && TmpPath(path) != other
    requires c.globOk && c.getOk && c.matchGlobOk && RelinkOk(c.relink)
    ensures var s := Dangling(path, other);
            var s' := ProcessRejected(s, who, path.sc, SDB, NoExisting, c);
            |LiveLinks(s, path.sc, BOTH)| == 1 && |LiveLinks(s', path.sc, BOTH)| > 1
  {
    var s, name := Dangling(path, other), LinkName("n", path);
    DanglingFacts(path, other);
    hide LinkName, ProcessRejected;
    var found := LinkCache.Listing(s.cache, NEW_ID);
    assert |found| == 1 && found[name] == s.cache[name];
    OnlyKeyIs(found, name);
    assert RejectedLink(s, path.sc, SDB, NoExisting, c) == Some(path);
    assert AddsLive(s, path, SDB, c, BOTH);
    RejectedCountIff(s, who, path.sc, SDB, NoExisting, c, BOTH);
  }
}

/**
 Main results about the link protocol, over single steps and whole runs.
 */
module LinkProtocolTheorems {
  import opened DeviceTree
  import opened PreferenceScan
  import opened Objects
  import opened ClaimRules
  import opened LinkProtocol
  import opened LinkProtocolRuns

  ghost predicate ByController(step: Step) {
    step.SyncExisting? || step.NewLocalVolume? || step.NewLocalVolumeSet? || step.Rejected?
  }

  // The source the step would link, if it creates a link.
  ghost function SourceOf(s: State, step: Step): Option<string> {
    match step
    case NewLocalVolume(_, source, _, _, _) => Some(source)
    case NewLocalVolumeSet(dev, _, _, globOk, _) => LvSetSource(Probe(s.tree, dev), globOk)
    case _ => None
  }

  // The links a step is asked to work on are among those in use; other nodes use other names.
  ghost predicate Uses(s: State, step: Step, inUse: iset<LinkPath>) {
    match step
    case SyncExisting(path, _, _, _) => path in inUse
    case NewLocalVolume(_, source, sc, _, _) => LinkPath(sc, Base(source)) in inUse
    case NewLocalVolumeSet(_, sc, _, _, _) =>
      inUse != iset{} && (SourceOf(s, step).Some? ==> LinkPath(sc, Base(SourceOf(s, step).value)) in inUse)
    case Rejected(_, _, _, existing, _) => inUse != iset{} && (existing.ExistingLink? ==> existing.l in inUse)
    case OtherNodeRecord(l) => l.node != s.node && l.pvName == l.name && !NameInUse(s.node, l.name, inUse)
    case OtherNodeVolume(n, pv) => pv.node != s.node && !NameInUse(s.node, n, inUse)
    case _ => true
  }

  ghost function RelinkCallsOf(step: Step): RelinkCalls
    requires ByController(step)
  {
    match step
    case SyncExisting(_, _, _, c) => c.relink
    case NewLocalVolume(_, _, _, _, c) => c.sync.relink
    case NewLocalVolumeSet(_, _, _, _, c) => c.sync.relink
    case Rejected(_, _, _, _, c) => c.relink
  }

  // The scan of the storage root before a new link is conclusive.
  ghost predicate StepScanCounts(s: State, step: Step) {
    match step
    case NewLocalVolumeSet(dev, _, _, _, c) =>
      SourceOf(s, step).Some? ==> ScanCounts(s, LocalVolumeSet, Probe(s.tree, dev), SourceOf(s, step).value, c.create)
    case _ => true
  }

  /** Every controller step: at most one new link, then an operation on one link and its record. */
  lemma StepEffect(s: State, step: Step, inUse: iset<LinkPath>) returns (path: LinkPath, s1: State)
    requires Inv(s, inUse) && Uses(s, step, inUse) && ByController(step)
    ensures var s' := Next(s, step);
            && path in inUse
            && (s1 == s || (Created(s, s1, path) && Some(s1.links[path]) == SourceOf(s, step)))
            && (s1 != s && StepScanCounts(s, step) ==> UnclaimedAtRoot(s, s1.links[path]))
            && Frame(s1, s', s1.NameOf(path), path)
            && LinkEffect(s1, s', path, Probe(s.tree, step.dev), RelinkCallsOf(step))
  {
    assert Filed(s.lvdls);
    hide Sync, ProcessNew, ProcessNewLvSet, ProcessRejected, Frame, LinkEffect, Inv, LinkName, ScanCounts;
    match step
    case SyncExisting(p, dev, owner, c) =>
      path, s1 := p, s;
      SyncEffect(s, p, Probe(s.tree, dev), owner, c);
    case NewLocalVolume(dev, source, sc, owner, c) =>
      path, s1 := ProcessNewEffect(s, LocalVolume, Probe(s.tree, dev), source, sc, owner, c, inUse);
    case NewLocalVolumeSet(dev, sc, owner, globOk, c) =>
      path, s1 := NewLvSetEffect(s, Probe(s.tree, dev), sc, owner, globOk, c, inUse);
    case Rejected(who, sc, dev, existing, c) =>
      s1 := s;
      path := ProcessRejectedEffect(s, who, sc, Probe(s.tree, dev), existing, c, inUse);
  }

  lemma NewLvSetEffect(s: State, f: Facts, sc: string, owner: Owner, globOk: bool, c: NewCalls, inUse: iset<LinkPath>)
    returns (path: LinkPath, s1: State)
    requires Inv(s, inUse) && inUse != iset{}
    requires LvSetSource(f, globOk).Some? ==> LinkPath(sc, Base(LvSetSource(f, globOk).value)) in inUse
    ensures var s', source := ProcessNewLvSet(s, f, sc, owner, globOk, c), LvSetSource(f, globOk);
            && path in inUse
            && (s1 == s || (Created(s, s1, path) && Some(s1.links[path]) == source))
            && (s1 != s && (source.Some? ==> ScanCounts(s, LocalVolumeSet, f, source.value, c.create)) ==>
                  UnclaimedAtRoot(s, s1.links[path]))
            && Frame(s1, s', s1.NameOf(path), path)
            && LinkEffect(s1, s', path, f, c.sync.relink)
  {
    var source := LvSetSource(f, globOk);
    if source.Some? {
      path, s1 := ProcessNewEffect(s, LocalVolumeSet, f, source.value, sc, owner, c, inUse);
    } else {
      path :| path in inUse;
      s1 := s;
    }
  }

  // ----- The path of a record never changes and is its volume's path -----

  lemma EnvironmentKeepsInv(s: State, step: Step, inUse: iset<LinkPath>)
    requires Inv(s, inUse) && Uses(s, step, inUse) && !ByController(step)
    ensures Inv(Next(s, step), inUse) && Next(s, step).node == s.node
  {
    hide NameInUse, LinkName, Sync, ProcessNew, ProcessNewLvSet, ProcessRejected;
    EnvironmentKeepsRecords(s, step, inUse);
    EnvironmentKeepsCache(s, step, inUse);
    EnvironmentKeepsVolumes(s, step, inUse);
  }

  lemma EnvironmentKeepsRecords(s: State, step: Step, inUse: iset<LinkPath>)
    requires Inv(s, inUse) && Uses(s, step, inUse) && !ByController(step)
    ensures Filed(Next(s, step).lvdls) && RecordsName(s.node, Next(s, step).lvdls, inUse)
  {
    hide NameInUse, LinkName, Sync, ProcessNew, ProcessNewLvSet, ProcessRejected;
    var l := Next(s, step).lvdls;
    forall n | n in l ensures NamesLink(s.node, n, l[n].node, l[n].status.pvPath, inUse) {
      assert n in s.lvdls || step.OtherNodeRecord?;
    }
  }

  lemma EnvironmentKeepsCache(s: State, step: Step, inUse: iset<LinkPath>)
    requires Inv(s, inUse) && !ByController(step)
    ensures var c := Next(s, step).cache;
            Filed(c) && RecordsName(s.node, c, inUse) && AllOf(s.node, c)
  {
    hide NameInUse, LinkName, Next;
    var c := Next(s, step).cache;
    forall n | n in c
      ensures c[n].name == c[n].pvName == n && c[n].node == s.node
      ensures NamesLink(s.node, n, c[n].node, c[n].status.pvPath, inUse)
    {
      CachedFrom(s, step, n);
    }
  }

  // What the cache holds was there before or is stored for the node.
  lemma CachedFrom(s: State, step: Step, n: string)
    requires !ByController(step) && n in Next(s, step).cache
    ensures var l := Next(s, step).cache[n];
            (n in s.cache && s.cache[n] == l) || (n in s.lvdls && s.lvdls[n] == l && l.node == s.node)
  {
    hide Sync, ProcessNew, ProcessNewLvSet, ProcessRejected;
  }

  lemma EnvironmentKeepsVolumes(s: State, step: Step, inUse: iset<LinkPath>)
    requires Inv(s, inUse) && Uses(s, step, inUse) && !ByController(step)
    ensures VolumesName(s.node, Next(s, step).pvs, inUse)
  {
    hide NameInUse, LinkName, Sync, ProcessNew, ProcessNewLvSet, ProcessRejected;
  }

  lemma StepKeepsInv(s: State, step: Step, inUse: iset<LinkPath>)
    requires Inv(s, inUse) && Uses(s, step, inUse)
    ensures Inv(Next(s, step), inUse) && Next(s, step).node == s.node
  {
    if ByController(step) {
      hide Next, Uses, LinkEffect;
      var path, s1 := StepEffect(s, step, inUse);
      assert Inv(s1, inUse) && s1.node == s.node;
      FrameKeepsInv(s1, Next(s, step), s1.NameOf(path), path, inUse);
    } else {
      hide *;
      EnvironmentKeepsInv(s, step, inUse);
    }
  }

  // Every step of the run works on links in use.
  ghost predicate RunUses(s: State, steps: seq<Step>, inUse: iset<LinkPath>) {
    forall k :: 0 <= k < |steps| ==> Uses(Run(s, steps[..k]), steps[k], inUse)
  }

  lemma RunUsesPrefix(s: State, steps: seq<Step>, inUse: iset<LinkPath>, k: nat)
    requires RunUses(s, steps, inUse) && k <= |steps|
    ensures RunUses(s, steps[..k], inUse)
    ensures k < |steps| ==> Uses(Run(s, steps[..k]), steps[k], inUse)
  {
    forall j | 0 <= j < k ensures Uses(Run(s, steps[..k][..j]), steps[..k][j], inUse) {
      assert steps[..k][..j] == steps[..j];
    }
  }

  lemma {:induction false} RunKeepsInv(s: State, steps: seq<Step>, inUse: iset<LinkPath>)
    requires Inv(s, inUse) && RunUses(s, steps, inUse)
    ensures Inv(Run(s, steps), inUse) && Run(s, steps).node == s.node
  {
    hide Next, Inv, Uses, RunUses;
    if steps != [] {
      var n := |steps| - 1;
      RunUsesPrefix(s, steps, inUse, n);
      RunKeepsInv(s, steps[..n], inUse);
      StepKeepsInv(Run(s, steps[..n]), steps[n], inUse);
    }
  }

  ghost predicate NamesDistinct(node: string, inUse: iset<LinkPath>) {
    forall a, b :: a in inUse && b in inUse && LinkName(node, a) == LinkName(node, b) ==> a == b
  }

  /**
   If the links in use have distinct volume names, a record's path, once set, is the same in every
   state of the run that has it set, and it is the path of the record's volume.
   */
  lemma RecordPathIsForever(s: State, steps: seq<Step>, inUse: iset<LinkPath>, i: nat, j: nat, n: string)
    requires Inv(s, inUse) && RunUses(s, steps, inUse) && NamesDistinct(s.node, inUse)
    requires i <= |steps| && j <= |steps|
    requires n in Run(s, steps[..i]).lvdls && Run(s, steps[..i]).lvdls[n].status.pvPath.Some?
    requires Run(s, steps[..i]).lvdls[n].node == s.node
    ensures var a, b := Run(s, steps[..i]), Run(s, steps[..j]);
            && (n in b.lvdls && b.lvdls[n].status.pvPath.Some? ==> b.lvdls[n].status.pvPath == a.lvdls[n].status.pvPath)
            && (n in b.pvs && b.pvs[n].path.Some? ==> b.pvs[n].path == a.lvdls[n].status.pvPath)
            && (n in b.pvs ==> b.pvs[n].node == s.node)
  {
    hide Next, Run, Inv, Uses, RunUses, NamesDistinct;
    RunUsesPrefix(s, steps, inUse, i);
    RunUsesPrefix(s, steps, inUse, j);
    RunKeepsInv(s, steps[..i], inUse);
    RunKeepsInv(s, steps[..j], inUse);
    OnePathPerName(Run(s, steps[..i]), Run(s, steps[..j]), inUse, n);
  }

  lemma OnePathPerName(a: State, b: State, inUse: iset<LinkPath>, n: string)
    requires Inv(a, inUse) && Inv(b, inUse) && a.node == b.node && NamesDistinct(a.node, inUse)
    requires n in a.lvdls && a.lvdls[n].node == a.node && a.lvdls[n].status.pvPath.Some?
    ensures n in b.lvdls && b.lvdls[n].status.pvPath.Some? ==> b.lvdls[n].status.pvPath == a.lvdls[n].status.pvPath
    ensures n in b.pvs && b.pvs[n].path.Some? ==> b.pvs[n].path == a.lvdls[n].status.pvPath
    ensures n in b.pvs ==> b.pvs[n].node == b.node
  {
    hide NameInUse, LinkName;
    assert NamesLink(a.node, n, a.node, a.lvdls[n].status.pvPath, inUse);
  }

  ghost predicate KeepsPath(a: map<string, Lvdl>, b: map<string, Lvdl>, n: string)
    requires n in a
  {
    n in b && b[n].node == a[n].node && b[n].status.pvPath == a[n].status.pvPath
  }

  // Every step but the deletion of the record keeps a set path as it is, whatever the names.
  lemma StepKeepsPathSet(s: State, step: Step, inUse: iset<LinkPath>, n: string)
    requires Inv(s, inUse) && Uses(s, step, inUse) && step != RecordDeleted(n)
    requires n in s.lvdls && s.lvdls[n].node == s.node && s.lvdls[n].status.pvPath.Some?
    ensures KeepsPath(s.lvdls, Next(s, step).lvdls, n)
  {
    if ByController(step) {
      hide Next, Inv, Uses, LinkEffect, KeepsPath, Frame, LinkName;
      var path, s1 := StepEffect(s, step, inUse);
      FrameKeepsPath(s1, Next(s, step), s1.NameOf(path), path, n);
    } else {
      OtherNodesUseOtherNames(s, step, inUse, n);
      hide *;
      EnvironmentKeepsPathSet(s, step, n);
    }
  }

  lemma FrameKeepsPath(s: State, s': State, name: string, path: LinkPath, n: string)
    requires Frame(s, s', name, path) && n in s.lvdls && s.lvdls[n].status.pvPath.Some?
    ensures KeepsPath(s.lvdls, s'.lvdls, n)
  {
  }

  lemma OtherNodesUseOtherNames(s: State, step: Step, inUse: iset<LinkPath>, n: string)
    requires Inv(s, inUse) && Uses(s, step, inUse) && n in s.lvdls && s.lvdls[n].node == s.node
    ensures step.OtherNodeRecord? ==> step.l.name != n
  {
    hide NameInUse, LinkName;
    assert NamesLink(s.node, n, s.node, s.lvdls[n].status.pvPath, inUse);
  }

  lemma EnvironmentKeepsPathSet(s: State, step: Step, n: string)
    requires !ByController(step) && step != RecordDeleted(n) && n in s.lvdls && s.lvdls[n].status.pvPath.Some?
    requires step.OtherNodeRecord? ==> step.l.name != n
    ensures KeepsPath(s.lvdls, Next(s, step).lvdls, n)
  {
    hide Sync, ProcessNew, ProcessNewLvSet, ProcessRejected;
  }

  /** While a record exists its path, once set, stays as it is. */
  lemma {:induction false} RecordPathStaysSet(s: State, steps: seq<Step>, inUse: iset<LinkPath>, i: nat, n: string)
    requires Inv(s, inUse) && RunUses(s, steps, inUse) && i <= |steps|
    requires forall k :: i <= k < |steps| ==> steps[k] != RecordDeleted(n)
    requires n in Run(s, steps[..i]).lvdls && Run(s, steps[..i]).lvdls[n].status.pvPath.Some?
    requires Run(s, steps[..i]).lvdls[n].node == s.node
    ensures var l := Run(s, steps).lvdls;
            && n in l && l[n].node == s.node
            && l[n].status.pvPath == Run(s, steps[..i]).lvdls[n].status.pvPath
  {
    hide Next, Inv, Uses, RunUses;
    if i == |steps| {
      assert steps[..i] == steps;
    } else {
      var m := |steps| - 1;
      RunUsesPrefix(s, steps, inUse, m);
      assert steps[..m][..i] == steps[..i];
      RecordPathStaysSet(s, steps[..m], inUse, i, n);
      RunKeepsInv(s, steps[..m], inUse);
      StepKeepsPathSet(Run(s, steps[..m]), steps[m], inUse, n);
    }
  }

  // ----- Volumes of the node are held until their link is dealt with -----

  ghost predicate Held(s: State) {
    forall n :: n in s.pvs && s.pvs[n].node == s.node ==> SYMLINK_FINALIZER in s.pvs[n].finalizers
  }

  lemma StepKeepsHeld(s: State, step: Step, inUse: iset<LinkPath>)
    requires Inv(s, inUse) && Uses(s, step, inUse) && Held(s)
    ensures Held(Next(s, step)) && Next(s, step).node == s.node
  {
    if ByController(step) {
      hide Next, Inv, Uses, LinkEffect, LinkName;
      var path, s1 := StepEffect(s, step, inUse);
      FrameKeepsHeld(s1, Next(s, step), s1.NameOf(path), path);
    } else {
      hide Sync, ProcessNew, ProcessNewLvSet, ProcessRejected, NameInUse, Inv;
    }
  }

  lemma FrameKeepsHeld(s: State, s': State, name: string, path: LinkPath)
    requires Frame(s, s', name, path) && Held(s)
    ensures Held(s')
  {
    forall n | n in s'.pvs && s'.pvs[n].node == s'.node ensures SYMLINK_FINALIZER in s'.pvs[n].finalizers {
      assert n == name || n in s.pvs;
    }
  }

  /** No run takes the symlink-deleter finalizer off a volume of the node or provisions one without it. */
  lemma {:induction false} RunKeepsHeld(s: State, steps: seq<Step>, inUse: iset<LinkPath>)
    requires Inv(s, inUse) && RunUses(s, steps, inUse) && Held(s)
    ensures Held(Run(s, steps))
  {
    hide Next, Inv, Uses, RunUses, Held;
    if steps != [] {
      var m := |steps| - 1;
      RunUsesPrefix(s, steps, inUse, m);
      RunKeepsHeld(s, steps[..m], inUse);
      RunKeepsInv(s, steps[..m], inUse);
      StepKeepsHeld(Run(s, steps[..m]), steps[m], inUse);
    }
  }

  // ----- A link's target is replaced only under the policy that asks for it -----

  // A link that is not the temporary link of another one.
  ghost predicate RealLink(l: LinkPath) {
    forall p :: l != TmpPath(p)
  }

  lemma StepReplacesByPolicy(s: State, step: Step, inUse: iset<LinkPath>, l: LinkPath)
    requires Inv(s, inUse) && Uses(s, step, inUse) && RealLink(l)
    requires l in s.links && l in Next(s, step).links && Next(s, step).links[l] != s.links[l]
    ensures ByController(step) && PolicyAllows(s, l)
    ensures Next(s, step).Live(l, step.dev.kname) && !Claimed(s, l, step.dev.kname)
  {
    if ByController(step) {
      var path, s1 := StepEffect(s, step, inUse);
      ProbeIsSound(s.tree, step.dev);
      ReplacedOnPath(s, s1, Next(s, step), path, Probe(s.tree, step.dev), RelinkCallsOf(step), l);
    } else {
      EnvironmentKeepsTargets(s, step, l);
    }
  }

  lemma EnvironmentKeepsTargets(s: State, step: Step, l: LinkPath)
    requires !ByController(step)
    ensures l in s.links && l in Next(s, step).links ==> Next(s, step).links[l] == s.links[l]
  {
    hide Sync, ProcessNew, ProcessNewLvSet, ProcessRejected;
  }

  lemma ReplacedOnPath(s: State, s1: State, s': State, path: LinkPath, f: Facts, c: RelinkCalls, l: LinkPath)
    requires s1 == s || Created(s, s1, path)
    requires LinkEffect(s1, s', path, f, c) && s'.tree == s.tree && Sound(s.tree, f) && RealLink(l)
    requires l in s.links && l in s'.links && s'.links[l] != s.links[l]
    ensures l == path && PolicyAllows(s, l)
    ensures s'.Live(l, f.kname) && !Claimed(s, l, f.kname)
  {
    assert s1.links[l] == s.links[l];
    assert l != TmpPath(path);
    assert s1 == s;
  }

  /**
   In every run, a step that replaces the target of a link in place is a controller step that
   found policy PreferredLinkTarget on the record of that very link; the new target resolves to the
   device the step is about, which no other link of the storage class holds.
   */
  lemma TargetReplacedOnlyByPolicy(s: State, steps: seq<Step>, inUse: iset<LinkPath>, k: nat, l: LinkPath)
    requires Inv(s, inUse) && RunUses(s, steps, inUse) && k < |steps| && RealLink(l)
    requires l in Run(s, steps[..k]).links && l in Run(s, steps[..k + 1]).links
    requires Run(s, steps[..k + 1]).links[l] != Run(s, steps[..k]).links[l]
    ensures ByController(steps[k]) && PolicyAllows(Run(s, steps[..k]), l)
    ensures Run(s, steps[..k + 1]).Live(l, steps[k].dev.kname)
    ensures !Claimed(Run(s, steps[..k]), l, steps[k].dev.kname)
  {
    hide Next, Inv, Uses, RunUses;
    assert steps[..k + 1][..k] == steps[..k];
    RunUsesPrefix(s, steps, inUse, k);
    RunKeepsInv(s, steps[..k], inUse);
    StepReplacesByPolicy(Run(s, steps[..k]), steps[k], inUse, l);
  }

  // ----- No two links of a storage class resolve to one device -----

  ghost predicate Unique(s: State) {
    forall a, b, k :: a in s.links && b in s.links && a.sc == b.sc && s.Live(a, k) && s.Live(b, k) ==> a == b
  }

  // Relinks leave no temporary link, scans of the root are conclusive, the tree stands still.
  ghost predicate Careful(s: State, step: Step) {
    && !step.TreeChanges?
    && StepScanCounts(s, step)
    && (ByController(step) ==> NoLeftover(RelinkCallsOf(step)))
  }

  lemma CreateKeepsUnique(s: State, s1: State, path: LinkPath)
    requires Unique(s) && Created(s, s1, path) && UnclaimedAtRoot(s, s1.links[path])
    ensures Unique(s1)
  {
    forall a, b, k | a in s1.links && b in s1.links && a.sc == b.sc && s1.Live(a, k) && s1.Live(b, k)
      ensures a == b
    {
      if a != path { assert s.Live(a, k) && a in LinksTo(s, k); }
      if b != path { assert s.Live(b, k) && b in LinksTo(s, k); }
    }
  }

  lemma SwapKeepsUnique(s: State, s': State, path: LinkPath, target: string, kname: string)
    requires Unique(s) && s'.tree == s.tree
    requires s'.links == SwappedLinks(s, path, target) && s.tree.EvalSymlinks(target) == Resolves(kname)
    requires !Claimed(s, path, kname)
    ensures Unique(s') && s'.Live(path, kname)
  {
    forall a, b, k | a in s'.links && b in s'.links && a.sc == b.sc && s'.Live(a, k) && s'.Live(b, k)
      ensures a == b
    {
      if a != path { assert s.Live(a, k) && a in s.links; }
      if b != path { assert s.Live(b, k) && b in s.links; }
    }
  }

  lemma LinkEffectKeepsUnique(s: State, s': State, path: LinkPath, f: Facts, c: RelinkCalls)
    requires Unique(s) && s'.tree == s.tree && LinkEffect(s, s', path, f, c) && NoLeftover(c)
    ensures Unique(s')
  {
    if s'.links == s.links {
      assert forall l, k :: s'.Live(l, k) <==> s.Live(l, k);
    } else if SwapTook(s, s', path, f, c) {
      var target := PathByID(f, c.globOk).path;
      SwapKeepsUnique(s, s', path, target, s.tree.EvalSymlinks(target).kname);
    } else {
      forall l, k | l in s'.links && s'.Live(l, k) ensures l in s.links && s.Live(l, k) {
        if l == TmpPath(path) { assert SameAt(s.links, s'.links, l); }
      }
    }
  }

  lemma StepKeepsUnique(s: State, step: Step, inUse: iset<LinkPath>)
    requires Inv(s, inUse) && Uses(s, step, inUse) && Unique(s) && Careful(s, step)
    ensures Unique(Next(s, step))
  {
    if ByController(step) {
      var path, s1 := StepEffect(s, step, inUse);
      if s1 != s {
        CreateKeepsUnique(s, s1, path);
      }
      LinkEffectKeepsUnique(s1, Next(s, step), path, Probe(s.tree, step.dev), RelinkCallsOf(step));
    } else {
      assert forall l, k :: l in Next(s, step).links && Next(s, step).Live(l, k) ==> l in s.links && s.Live(l, k);
    }
  }

  /** Whole runs of create, relink, recover and rejected-device steps keep links of a class apart. */
  lemma {:induction false} RunKeepsUnique(s: State, steps: seq<Step>, inUse: iset<LinkPath>)
    requires Inv(s, inUse) && RunUses(s, steps, inUse) && Unique(s)
    requires forall k :: 0 <= k < |steps| ==> Careful(Run(s, steps[..k]), steps[k])
    ensures Unique(Run(s, steps))
  {
    hide Next, Inv, Uses, RunUses, Careful, Unique;
    if steps != [] {
      var m := |steps| - 1;
      var front := steps[..m];
      assert forall k :: 0 <= k < m ==> front[..k] == steps[..k];
      RunUsesPrefix(s, steps, inUse, m);
      RunKeepsUnique(s, front, inUse);
      RunKeepsInv(s, front, inUse);
      StepKeepsUnique(Run(s, front), steps[m], inUse);
    }
  }
}

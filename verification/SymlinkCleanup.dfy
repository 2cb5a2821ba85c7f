/**
 Removing the links of deleted volumes: for each volume the link goes first, then, if it was the
 last one, its directory, and only then the finalizer that holds the volume.
 */
module SymlinkCleanup {
  import opened Objects
  import opened OwnerDeletion

  // `files` says of every path whether it is a symlink; `dirs` are the existing class directories.
  datatype Node = Node(files: map<LinkPath, bool>, dirs: set<string>, pvs: map<string, Pv>)

  datatype Calls = Calls(lstatOk: bool, removeOk: bool, rmdirOk: bool, updateOk: bool)

  datatype Result = Result(node: Node, ok: bool)

  predicate DirEmpty(n: Node, sc: string) {
    forall l :: l in n.files ==> l.sc != sc
  }

  // A missing or non-empty directory is not an error.
  function DeleteParentDir(n: Node, sc: string, c: Calls): Result {
    if sc !in n.dirs || !DirEmpty(n, sc) then Result(n, true)
    else if !c.rmdirOk then Result(n, false)
    else Result(n.(dirs := n.dirs - {sc}), true)
  }

  function DeleteSymlink(n: Node, pv: Pv, c: Calls): Result {
    if !pv.deleting || pv.path.None? then Result(n, false)
    else
      var l := pv.path.value;
      if !c.lstatOk then Result(n, false)
      else if l !in n.files then DeleteParentDir(n, l.sc, c)
      else if !n.files[l] || !c.removeOk then Result(n, false)
      else DeleteParentDir(n.(files := n.files - {l}), l.sc, c)
  }

  function RemoveSymlinkFinalizer(n: Node, name: string, c: Calls): Result
    requires name in n.pvs
  {
    if !c.updateOk then Result(n, false)
    else Result(n.(pvs := n.pvs[name := Freed(n.pvs[name])]), true)
  }

  // The volume without its finalizer, and otherwise as it was.
  function Freed(pv: Pv): (r: Pv)
    ensures r == pv.(finalizers := r.finalizers)
    ensures forall x :: x in r.finalizers <==> x in pv.finalizers && x != SYMLINK_FINALIZER
  {
    WithoutAll(pv.finalizers, SYMLINK_FINALIZER);
    pv.(finalizers := Without(pv.finalizers, SYMLINK_FINALIZER))
  }

  predicate Due(pv: Pv, labels: map<string, string>) {
    && HasLabels(pv, labels) && pv.deleting
    && (pv.phase == Released || pv.phase == Available)
    && SYMLINK_FINALIZER in pv.finalizers
  }

  // One volume: the state after its link was dealt with, and the state at the end.
  datatype Pass = Pass(middle: Node, end: Node, ok: bool)

  function CleanupOne(n: Node, name: string, labels: map<string, string>, ownerDeleted: bool, c: Calls): Pass {
    if name !in n.pvs || !Due(n.pvs[name], labels) then Pass(n, n, true)
    else
      var d := if ownerDeleted then DeleteSymlink(n, n.pvs[name], c) else Result(n, true);
      if !d.ok then Pass(d.node, d.node, false)
      else
        var r := RemoveSymlinkFinalizer(d.node, name, c);
        Pass(d.node, r.node, r.ok)
  }

  // Every state the pass goes through, one per volume and stage; an error ends it.
  function Trace(
    n: Node, names: seq<string>, labels: map<string, string>, ownerDeleted: bool, calls: seq<Calls>): (t: seq<Node>)
    requires |names| == |calls|
    ensures t != []
    decreases names
  {
    if names == [] then [n]
    else
      var p := CleanupOne(n, names[0], labels, ownerDeleted, calls[0]);
      if !p.ok then [n, p.middle, p.end]
      else [n, p.middle] + Trace(p.end, names[1..], labels, ownerDeleted, calls[1..])
  }

  function CleanupAll(
    n: Node, names: seq<string>, labels: map<string, string>, ownerDeleted: bool, calls: seq<Calls>): Result
    requires |names| == |calls|
    decreases names
  {
    if names == [] then Result(n, true)
    else
      var p := CleanupOne(n, names[0], labels, ownerDeleted, calls[0]);
      if !p.ok then Result(p.end, false) else CleanupAll(p.end, names[1..], labels, ownerDeleted, calls[1..])
  }

  // ----- Which volumes a pass may touch -----

  // A deleted volume of the owner that nobody uses and that still waits for its link to go.
  ghost predicate Waiting(pv: Pv, labels: map<string, string>) {
    && (forall k :: k in labels ==> k in pv.labels && pv.labels[k] == labels[k])
    && pv.deleting && pv.phase in {Released, Available} && SYMLINK_FINALIZER in pv.finalizers
  }

  // What differs between the two states is accounted for by listed volumes that were waiting: they
  // lost their finalizer, and their links went if the owner is being deleted.
  ghost predicate TouchesOnlyWaiting(
    n: Node, n': Node, names: seq<string>, labels: map<string, string>, ownerDeleted: bool) {
    && n'.pvs.Keys == n.pvs.Keys && n'.files.Keys <= n.files.Keys && n'.dirs <= n.dirs
    && (forall l :: l in n'.files ==> n'.files[l] == n.files[l])
    && (forall m :: m in n.pvs && n'.pvs[m] != n.pvs[m] ==>
          m in names && Waiting(n.pvs[m], labels) && n'.pvs[m] == Freed(n.pvs[m]))
    && (forall l :: l in n.files && l !in n'.files ==> n.files[l] && ownerDeleted && OwnedLink(n, names, labels, l))
    && (forall d :: d in n.dirs && d !in n'.dirs ==> ownerDeleted && DirEmpty(n', d))
  }

  // The link belongs to a listed volume that was waiting.
  ghost predicate OwnedLink(n: Node, names: seq<string>, labels: map<string, string>, l: LinkPath) {
    exists m :: m in names && m in n.pvs && n.pvs[m].path == Some(l) && Waiting(n.pvs[m], labels)
  }

  lemma DeleteTouches(n: Node, name: string, labels: map<string, string>, c: Calls)
    requires name in n.pvs && Waiting(n.pvs[name], labels)
    ensures var d := DeleteSymlink(n, n.pvs[name], c);
            TouchesOnlyWaiting(n, d.node, [name], labels, true) && d.node.pvs == n.pvs
  {
    var d := DeleteSymlink(n, n.pvs[name], c);
    assert name in [name];
    assert forall l :: n.pvs[name].path == Some(l) ==> OwnedLink(n, [name], labels, l);
    hide Waiting, OwnedLink;
    assert forall l :: l in n.files && l !in d.node.files ==> n.pvs[name].path == Some(l);
  }

  lemma FreeTouches(n: Node, n1: Node, name: string, labels: map<string, string>, ownerDeleted: bool)
    requires TouchesOnlyWaiting(n, n1, [name], labels, ownerDeleted) && n1.pvs == n.pvs
    requires name in n.pvs && Waiting(n.pvs[name], labels)
    ensures TouchesOnlyWaiting(n, n1.(pvs := n1.pvs[name := Freed(n1.pvs[name])]), [name], labels, ownerDeleted)
  {
    hide Waiting, OwnedLink;
  }

  lemma CleanupOneTouches(n: Node, name: string, labels: map<string, string>, ownerDeleted: bool, c: Calls)
    ensures var p := CleanupOne(n, name, labels, ownerDeleted, c);
            && TouchesOnlyWaiting(n, p.middle, [name], labels, ownerDeleted)
            && TouchesOnlyWaiting(n, p.end, [name], labels, ownerDeleted)
  {
    TouchesNothing(n, [name], labels, ownerDeleted);
    if name in n.pvs && Due(n.pvs[name], labels) {
      assert Waiting(n.pvs[name], labels);
      hide Waiting, OwnedLink, TouchesOnlyWaiting, DeleteSymlink;
      if ownerDeleted {
        DeleteTouches(n, name, labels, c);
        FreeTouches(n, DeleteSymlink(n, n.pvs[name], c).node, name, labels, true);
      } else {
        FreeTouches(n, n, name, labels, false);
      }
    }
  }

  lemma OwnedLinkBefore(
    n: Node, n1: Node, names: seq<string>, all: seq<string>, labels: map<string, string>, l: LinkPath)
    requires OwnedLink(n1, names, labels, l) && (forall m :: m in names ==> m in all) && n1.pvs.Keys == n.pvs.Keys
    requires forall m :: m in n.pvs && n1.pvs[m] != n.pvs[m] ==> n1.pvs[m] == Freed(n.pvs[m])
    ensures OwnedLink(n, all, labels, l)
  {
    var m :| m in names && m in n1.pvs && n1.pvs[m].path == Some(l) && Waiting(n1.pvs[m], labels);
    assert n1.pvs[m] == n.pvs[m];
  }

  lemma TouchesCompose(
    n: Node, n1: Node, n2: Node, first: string, rest: seq<string>, labels: map<string, string>, ownerDeleted: bool)
    requires TouchesOnlyWaiting(n, n1, [first], labels, ownerDeleted)
    requires TouchesOnlyWaiting(n1, n2, rest, labels, ownerDeleted)
    ensures TouchesOnlyWaiting(n, n2, [first] + rest, labels, ownerDeleted)
  {
    hide Waiting, OwnedLink;
    var all := [first] + rest;
    forall m | m in n.pvs && n2.pvs[m] != n.pvs[m]
      ensures m in all && Waiting(n.pvs[m], labels) && n2.pvs[m] == Freed(n.pvs[m])
    {
      if n1.pvs[m] != n.pvs[m] {
        FreedIsNotWaiting(n.pvs[m], labels);
      }
    }
    forall l | l in n.files && l !in n2.files ensures n.files[l] && ownerDeleted && OwnedLink(n, all, labels, l) {
      if l in n1.files {
        OwnedLinkBefore(n, n1, rest, all, labels, l);
      } else {
        OwnedLinkBefore(n, n, [first], all, labels, l);
      }
    }
    forall d | d in n.dirs && d !in n2.dirs ensures ownerDeleted && DirEmpty(n2, d) {
    }
  }

  lemma FreedIsNotWaiting(pv: Pv, labels: map<string, string>)
    ensures !Waiting(Freed(pv), labels)
  {
  }

  /**
   At every point of every pass, whatever the calls return, only listed volumes of the owner that are
   deleted, Released or Available and hold the finalizer have changed, by losing it; only their links
   are gone, and only when the owner is being deleted.
   */
  lemma {:induction false} PassTouchesOnlyWaiting(
    n: Node, names: seq<string>, labels: map<string, string>, ownerDeleted: bool, calls: seq<Calls>, i: nat)
    requires |names| == |calls| && i < |Trace(n, names, labels, ownerDeleted, calls)|
    ensures TouchesOnlyWaiting(n, Trace(n, names, labels, ownerDeleted, calls)[i], names, labels, ownerDeleted)
    decreases names
  {
    if names != [] {
      var p := CleanupOne(n, names[0], labels, ownerDeleted, calls[0]);
      var t := Trace(n, names, labels, ownerDeleted, calls);
      CleanupOneTouches(n, names[0], labels, ownerDeleted, calls[0]);
      assert names == [names[0]] + names[1..];
      if p.ok && i >= 2 {
        PassTouchesOnlyWaiting(p.end, names[1..], labels, ownerDeleted, calls[1..], i - 2);
        TouchesCompose(n, p.end, t[i], names[0], names[1..], labels, ownerDeleted);
      } else {
        TouchesNothing(t[i], names[1..], labels, ownerDeleted);
        assert t[i] in {n, p.middle, p.end};
        if t[i] == n {
          TouchesNothing(n, names, labels, ownerDeleted);
        } else {
          TouchesCompose(n, t[i], t[i], names[0], names[1..], labels, ownerDeleted);
        }
      }
    } else {
      TouchesNothing(n, names, labels, ownerDeleted);
    }
  }

  lemma TouchesNothing(n: Node, names: seq<string>, labels: map<string, string>, ownerDeleted: bool)
    ensures TouchesOnlyWaiting(n, n, names, labels, ownerDeleted)
  {
  }

  // ----- Safety at every point -----

  // Volumes that lost the finalizer since `n` have no link any more; directories that went were empty.
  ghost predicate Safe(n: Node, n': Node) {
    && n'.pvs.Keys == n.pvs.Keys
    && (forall l :: l in n'.files ==> l in n.files && n'.files[l] == n.files[l])
    && (forall d :: d in n.dirs && d !in n'.dirs ==> DirEmpty(n', d))
    && n'.dirs <= n.dirs
    && (forall m :: m in n.pvs ==>
          && n'.pvs[m].path == n.pvs[m].path
          && (SYMLINK_FINALIZER in n.pvs[m].finalizers && SYMLINK_FINALIZER !in n'.pvs[m].finalizers ==>
                n.pvs[m].path.Some? && n.pvs[m].path.value !in n'.files))
  }

  lemma SafeTransitive(a: Node, b: Node, c: Node)
    requires Safe(a, b) && Safe(b, c)
    ensures Safe(a, c)
  {
  }

  lemma DeleteSymlinkSafe(n: Node, pv: Pv, c: Calls)
    ensures var d := DeleteSymlink(n, pv, c);
            Safe(n, d.node) && d.node.pvs == n.pvs && (d.ok ==> pv.path.Some? && pv.path.value !in d.node.files)
  {
  }

  lemma CleanupOneSafe(n: Node, name: string, labels: map<string, string>, c: Calls)
    ensures var p := CleanupOne(n, name, labels, true, c);
            Safe(n, p.middle) && Safe(n, p.end) && p.middle.pvs == n.pvs
  {
    if name in n.pvs && Due(n.pvs[name], labels) {
      DeleteSymlinkSafe(n, n.pvs[name], c);
    }
  }

  /**
   While the owner is being deleted, at every point of the pass: no volume has lost its finalizer
   before its link is gone, and a directory is gone only when it is empty.
   */
  lemma {:induction false} FinalizerOutlivesLink(
    n: Node, names: seq<string>, labels: map<string, string>, calls: seq<Calls>, i: nat)
    requires |names| == |calls| && i < |Trace(n, names, labels, true, calls)|
    ensures Safe(n, Trace(n, names, labels, true, calls)[i])
    decreases names
  {
    if names != [] && i > 0 {
      var p := CleanupOne(n, names[0], labels, true, calls[0]);
      CleanupOneSafe(n, names[0], labels, calls[0]);
      if p.ok && i >= 2 {
        FinalizerOutlivesLink(p.end, names[1..], labels, calls[1..], i - 2);
        SafeTransitive(n, p.end, Trace(n, names, labels, true, calls)[i]);
      }
    }
  }

  // The trace ends where the pass ends.
  lemma {:induction false} TraceEndsAtResult(
    n: Node, names: seq<string>, labels: map<string, string>, ownerDeleted: bool, calls: seq<Calls>)
    requires |names| == |calls|
    ensures var t := Trace(n, names, labels, ownerDeleted, calls);
            t[|t| - 1] == CleanupAll(n, names, labels, ownerDeleted, calls).node
    decreases names
  {
    if names != [] {
      var p := CleanupOne(n, names[0], labels, ownerDeleted, calls[0]);
      if p.ok {
        TraceEndsAtResult(p.end, names[1..], labels, ownerDeleted, calls[1..]);
      }
    }
  }

  // ----- Errors and reruns -----

  /** On an error the failing volume and every later one keep their state. */
  lemma {:induction false} ErrorLeavesRest(
    n: Node, names: seq<string>, labels: map<string, string>, ownerDeleted: bool, calls: seq<Calls>)
    returns (k: nat)
    requires |names| == |calls| && !CleanupAll(n, names, labels, ownerDeleted, calls).ok
    ensures k < |names| && names[k] in n.pvs && Due(n.pvs[names[k]], labels)
    ensures var n' := CleanupAll(n, names, labels, ownerDeleted, calls).node;
            forall m :: m in n.pvs && m !in names[..k] ==> m in n'.pvs && n'.pvs[m] == n.pvs[m]
    ensures names[k] !in names[..k]
    decreases names
  {
    var p := CleanupOne(n, names[0], labels, ownerDeleted, calls[0]);
    CleanupOneTouchesOne(n, names[0], labels, ownerDeleted, calls[0]);
    if !p.ok {
      k := 0;
    } else {
      var j := ErrorLeavesRest(p.end, names[1..], labels, ownerDeleted, calls[1..]);
      k := j + 1;
      assert names[..k] == [names[0]] + names[1..][..j];
      assert Due(p.end.pvs[names[k]], labels);
    }
  }

  lemma CleanupOneTouchesOne(n: Node, name: string, labels: map<string, string>, ownerDeleted: bool, c: Calls)
    ensures var p := CleanupOne(n, name, labels, ownerDeleted, c);
            && p.end.pvs.Keys == n.pvs.Keys
            && (forall m :: m in n.pvs && m != name ==> p.end.pvs[m] == n.pvs[m])
            && (!p.ok ==> p.end.pvs == n.pvs && name in n.pvs && Due(n.pvs[name], labels))
            && (p.ok && name in n.pvs ==>
                  p.end.pvs[name] == if Due(n.pvs[name], labels) then Freed(n.pvs[name]) else n.pvs[name])
  {
    if name in n.pvs && Due(n.pvs[name], labels) {
      DeleteSymlinkSafe(n, n.pvs[name], c);
    }
  }

  predicate AllOk(c: Calls) {
    c.lstatOk && c.removeOk && c.rmdirOk && c.updateOk
  }

  // Every waiting volume has a path, and whatever is at that path is a symlink.
  ghost predicate Cleanable(n: Node, labels: map<string, string>) {
    forall m :: m in n.pvs && Waiting(n.pvs[m], labels) ==>
      n.pvs[m].path.Some? && (n.pvs[m].path.value in n.files ==> n.files[n.pvs[m].path.value])
  }

  // The link is gone, and so is its directory unless another file is in it.
  ghost predicate LinkGone(n: Node, path: Option<LinkPath>) {
    path.Some? && path.value !in n.files && (path.value.sc in n.dirs ==> !DirEmpty(n, path.value.sc))
  }

  lemma LinkStaysGone(n: Node, name: string, labels: map<string, string>, c: Calls, path: Option<LinkPath>)
    requires Cleanable(n, labels) && AllOk(c) && LinkGone(n, path)
    ensures LinkGone(CleanupOne(n, name, labels, true, c).end, path)
  {
  }

  lemma CleanupOneGone(n: Node, name: string, labels: map<string, string>, c: Calls)
    requires Cleanable(n, labels) && AllOk(c) && name in n.pvs && Waiting(n.pvs[name], labels)
    ensures LinkGone(CleanupOne(n, name, labels, true, c).end, n.pvs[name].path)
  {
    assert Due(n.pvs[name], labels);
  }

  lemma {:induction false} LinkStaysGoneToEnd(
    n: Node, names: seq<string>, labels: map<string, string>, calls: seq<Calls>, path: Option<LinkPath>)
    requires |names| == |calls| && Cleanable(n, labels) && forall i :: 0 <= i < |calls| ==> AllOk(calls[i])
    requires LinkGone(n, path)
    ensures LinkGone(CleanupAll(n, names, labels, true, calls).node, path)
    decreases names
  {
    if names != [] {
      CleanupOneSucceeds(n, names[0], labels, calls[0]);
      LinkStaysGone(n, names[0], labels, calls[0], path);
      LinkStaysGoneToEnd(CleanupOne(n, names[0], labels, true, calls[0]).end, names[1..], labels, calls[1..], path);
    }
  }

  lemma CleanupOneSucceeds(n: Node, name: string, labels: map<string, string>, c: Calls)
    requires Cleanable(n, labels) && AllOk(c)
    ensures CleanupOne(n, name, labels, true, c).ok && Cleanable(CleanupOne(n, name, labels, true, c).end, labels)
  {
    CleanupOneSafe(n, name, labels, c);
    CleanupOneTouchesOne(n, name, labels, true, c);
  }

  /**
   A pass with succeeding calls finishes from any state an earlier pass left behind: every listed
   volume that was waiting has lost its finalizer, nothing else, and its link is gone, with its
   directory unless another file is in it; every other volume is as it was.
   */
  lemma {:induction false} RerunFinishes(n: Node, names: seq<string>, labels: map<string, string>, calls: seq<Calls>)
    requires |names| == |calls| && Cleanable(n, labels) && forall i :: 0 <= i < |calls| ==> AllOk(calls[i])
    ensures var r := CleanupAll(n, names, labels, true, calls);
            r.ok && Safe(n, r.node) && Cleaned(n, r.node, names, labels)
    decreases names
  {
    if names != [] {
      var p := CleanupOne(n, names[0], labels, true, calls[0]);
      CleanupOneSucceeds(n, names[0], labels, calls[0]);
      CleanupOneSafe(n, names[0], labels, calls[0]);
      RerunFinishes(p.end, names[1..], labels, calls[1..]);
      var r := CleanupAll(n, names, labels, true, calls);
      SafeTransitive(n, p.end, r.node);
      if names[0] in n.pvs && Waiting(n.pvs[names[0]], labels) {
        CleanupOneGone(n, names[0], labels, calls[0]);
        LinkStaysGoneToEnd(p.end, names[1..], labels, calls[1..], n.pvs[names[0]].path);
      }
      CleanupOneFrees(n, names[0], labels, calls[0]);
      CleanedStep(n, p.end, r.node, names[0], names[1..], labels);
      assert names == [names[0]] + names[1..];
    }
  }

  // Every listed waiting volume lost its finalizer and its link; every other volume is as it was.
  ghost predicate Cleaned(n: Node, n': Node, names: seq<string>, labels: map<string, string>) {
    && n'.pvs.Keys == n.pvs.Keys
    && forall m :: m in n.pvs ==>
         if m in names && Waiting(n.pvs[m], labels)
         then n'.pvs[m] == Freed(n.pvs[m]) && LinkGone(n', n.pvs[m].path)
         else n'.pvs[m] == n.pvs[m]
  }

  // `n1` is `n` after its first volume was dealt with.
  ghost predicate FirstFreed(n: Node, n1: Node, first: string, labels: map<string, string>) {
    && n1.pvs.Keys == n.pvs.Keys
    && forall m :: m in n.pvs ==>
         n1.pvs[m] == if m == first && Waiting(n.pvs[m], labels) then Freed(n.pvs[m]) else n.pvs[m]
  }

  lemma CleanupOneFrees(n: Node, name: string, labels: map<string, string>, c: Calls)
    requires CleanupOne(n, name, labels, true, c).ok
    ensures FirstFreed(n, CleanupOne(n, name, labels, true, c).end, name, labels)
  {
    CleanupOneTouchesOne(n, name, labels, true, c);
    assert name in n.pvs ==> (Due(n.pvs[name], labels) <==> Waiting(n.pvs[name], labels));
  }

  lemma CleanedStep(n: Node, n1: Node, n': Node, first: string, rest: seq<string>, labels: map<string, string>)
    requires FirstFreed(n, n1, first, labels) && Cleaned(n1, n', rest, labels)
    requires first in n.pvs && Waiting(n.pvs[first], labels) ==> LinkGone(n', n.pvs[first].path)
    ensures Cleaned(n, n', [first] + rest, labels)
  {
    if first in n.pvs {
      FreedIsNotWaiting(n.pvs[first], labels);
    }
    hide Waiting, LinkGone;
  }

  /** While the owner stays, a pass takes the finalizers off and leaves every link alone. */
  lemma {:induction false} PassKeepsLinks(n: Node, names: seq<string>, labels: map<string, string>, calls: seq<Calls>)
    requires |names| == |calls| && forall i :: 0 <= i < |calls| ==> AllOk(calls[i])
    ensures var r := CleanupAll(n, names, labels, false, calls);
            && r.ok && r.node.files == n.files && r.node.dirs == n.dirs && r.node.pvs.Keys == n.pvs.Keys
            && forall m :: m in n.pvs ==>
                 r.node.pvs[m] == if m in names && Waiting(n.pvs[m], labels) then Freed(n.pvs[m]) else n.pvs[m]
    decreases names
  {
    if names != [] {
      var first, n1 := names[0], CleanupOne(n, names[0], labels, false, calls[0]).end;
      PassKeepsLinks(n1, names[1..], labels, calls[1..]);
      CleanupOneTouchesOne(n, first, labels, false, calls[0]);
      assert first in n.pvs ==> (Due(n.pvs[first], labels) <==> Waiting(n.pvs[first], labels));
      assert names == [first] + names[1..];
      if first in n.pvs {
        FreedIsNotWaiting(n.pvs[first], labels);
      }
    }
  }

  // An interrupted pass leaves a state from which a rerun can finish.
  lemma {:induction false} InterruptedStaysCleanable(
    n: Node, names: seq<string>, labels: map<string, string>, calls: seq<Calls>)
    requires |names| == |calls| && Cleanable(n, labels)
    ensures Cleanable(CleanupAll(n, names, labels, true, calls).node, labels)
    decreases names
  {
    if names != [] {
      var p := CleanupOne(n, names[0], labels, true, calls[0]);
      CleanupOneSafe(n, names[0], labels, calls[0]);
      CleanupOneTouchesOne(n, names[0], labels, true, calls[0]);
      if p.ok {
        InterruptedStaysCleanable(p.end, names[1..], labels, calls[1..]);
      }
    }
  }

  // ----- The loop -----

  class Cleaner {
    var node: Node

    constructor (n: Node)
      ensures node == n
    {
      node := n;
    }

    method DeleteLink(pv: Pv, c: Calls) returns (ok: bool)
      modifies this
      ensures Result(node, ok) == DeleteSymlink(old(node), pv, c)
      ensures Safe(old(node), node) && node.pvs == old(node.pvs)
      ensures ok ==> pv.path.Some? && pv.path.value !in node.files
    {
      DeleteSymlinkSafe(node, pv, c);
      if !pv.deleting || pv.path.None? {
        return false;
      }
      var l := pv.path.value;
      if !c.lstatOk {
        return false;
      }
      if l in node.files {
        if !node.files[l] || !c.removeOk {
          return false;
        }
        node := node.(files := node.files - {l});
      }
      var r := DeleteParentDir(node, l.sc, c);
      node := r.node;
      return r.ok;
    }

    method CleanupSymlinks(names: seq<string>, labels: map<string, string>, ownerDeleted: bool, calls: seq<Calls>)
      returns (ok: bool)
      requires |names| == |calls|
      modifies this
      ensures Result(node, ok) == CleanupAll(old(node), names, labels, ownerDeleted, calls)
      ensures TouchesOnlyWaiting(old(node), node, names, labels, ownerDeleted)
    {
      TraceEndsAtResult(node, names, labels, ownerDeleted, calls);
      PassTouchesOnlyWaiting(
        node, names, labels, ownerDeleted, calls, |Trace(node, names, labels, ownerDeleted, calls)| - 1);
      hide TouchesOnlyWaiting, Trace;
      for i := 0 to |names|
        invariant CleanupAll(old(node), names, labels, ownerDeleted, calls)
                  == CleanupAll(node, names[i..], labels, ownerDeleted, calls[i..])
      {
        var name, c := names[i], calls[i];
        assert names[i..][1..] == names[i + 1..] && calls[i..][1..] == calls[i + 1..];
        if name in node.pvs && Due(node.pvs[name], labels) {
          if ownerDeleted {
            DeleteSymlinkSafe(node, node.pvs[name], c);
            var done := DeleteLink(node.pvs[name], c);
            if !done {
              return false;
            }
          }
          var r := RemoveSymlinkFinalizer(node, name, c);
          node := r.node;
          if !r.ok {
            return false;
          }
        }
      }
      return true;
    }
  }
}

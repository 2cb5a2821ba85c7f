/**
 Deleting a LocalVolume or LocalVolumeSet: the owner's protection finalizer, the release of its
 unclaimed volumes, and what no run of reconciles can do to its volumes.
 */
module OwnerDeletion {
  import opened Objects
  import opened ClaimRules

  datatype OwnerObject = OwnerObject(
    kind: Controller, labels: map<string, string>, finalizers: seq<string>, deleting: bool)

  // ----- Finalizer lists -----

  function Without(list: seq<string>, s: string): seq<string> {
    if list == [] then []
    else if list[|list| - 1] == s then Without(list[..|list| - 1], s)
    else Without(list[..|list| - 1], s) + [list[|list| - 1]]
  }

  lemma {:induction false} WithoutMembers(list: seq<string>, s: string, x: string)
    ensures x in Without(list, s) <==> x in list && x != s
  {
    if list != [] {
      WithoutMembers(list[..|list| - 1], s, x);
      assert list == list[..|list| - 1] + [list[|list| - 1]];
    }
  }

  ghost predicate AtMostOnce(list: seq<string>, s: string) {
    forall i, j :: 0 <= i < j < |list| && list[i] == s ==> list[j] != s
  }

  function AddOnce(list: seq<string>, s: string): (r: seq<string>)
    ensures s in r
    ensures AtMostOnce(list, s) ==> AtMostOnce(r, s)
  {
    if s in list then list else list + [s]
  }

  lemma {:induction false} WithoutConcat(a: seq<string>, b: seq<string>, s: string)
    ensures Without(a + b, s) == Without(a, s) + Without(b, s)
  {
    if b == [] {
      assert a + b == a;
    } else {
      assert (a + b)[..|a + b| - 1] == a + b[..|b| - 1];
      WithoutConcat(a, b[..|b| - 1], s);
    }
  }

  // The source's in-place removal while ranging over the same backing array.  `n` is the length of
  // the shrunk slice; slicing past it panics.
  method Remove(a: array<string>, s: string) returns (n: nat, panicked: bool)
    modifies a
    ensures n <= a.Length
    ensures panicked <==> Panics(old(a[..]), s)
    ensures !panicked ==> a[..n] == Kept(old(a[..]), s)
  {
    n, panicked := a.Length, false;
    ghost var before := a[..];
    var i := 0;
    RemovingStarts(before, s);
    hide *;
    while i < a.Length && !panicked
      invariant i <= a.Length && n <= a.Length && before == old(a[..])
      invariant if panicked then Panics(before, s) else Removing(before, a[..], s, i, n)
      decreases a.Length - i, !panicked
    {
      n, panicked := RemoveAt(a, s, i, n, before);
      i := i + 1;
    }
    if !panicked {
      RemovingDone(before, a[..], s, n);
      assert a[..n] == a[..][..n];
    }
  }

  // The loop body at index `i` of the backing array.
  method RemoveAt(a: array<string>, s: string, i: nat, n: nat, ghost before: seq<string>)
    returns (m: nat, panicked: bool)
    requires i < a.Length && n <= a.Length && Removing(before, a[..], s, i, n)
    modifies a
    ensures m <= a.Length
    ensures if panicked then Panics(before, s) else Removing(before, a[..], s, i + 1, m)
  {
    hide *;
    m, panicked := n, false;
    if a[i] == s {
      if i + 1 > n {
        RemovingStale(before, a[..], s, i, n);
        panicked := true;
      } else {
        RemovingShift(before, a[..], s, i, n);
        ShiftLeft(a, i, n);
        m := n - 1;
      }
    } else {
      RemovingSkip(before, a[..], s, i, n);
    }
  }

  // What the loop keeps: every hit makes it skip the element after the hit.
  function Kept(list: seq<string>, s: string): seq<string> {
    if list == [] then []
    else if list[0] != s then [list[0]] + Kept(list[1..], s)
    else if |list| == 1 then []
    else [list[1]] + Kept(list[2..], s)
  }

  // After a hit the end of the array holds stale copies of the last element.
  ghost predicate Panics(list: seq<string>, s: string) {
    list != [] && list[|list| - 1] == s && s in list[..|list| - 1]
  }

  // The loop at index `i`, with |before| - n elements taken out so far.
  ghost predicate Removing(before: seq<string>, now: seq<string>, s: string, i: nat, n: nat) {
    var size := |before|;
    var k := size - n;
    && |now| == size && 0 <= k <= i <= size
    && (forall j :: i <= j < size ==> now[j] == before[if j + k < size then j + k else size - 1])
    && (if i <= n then now[..i] + Kept(before[i + k..], s) == Kept(before, s) else now[..n] == Kept(before, s))
    && (k == 0 <==> s !in before[..i])
    && (i == size ==> !Panics(before, s))
  }

  lemma RemovingStarts(before: seq<string>, s: string)
    ensures Removing(before, before, s, 0, |before|)
  {
  }

  lemma RemovingDone(before: seq<string>, now: seq<string>, s: string, n: nat)
    requires Removing(before, now, s, |before|, n)
    ensures n <= |now| && !Panics(before, s) && now[..n] == Kept(before, s)
  {
  }

  lemma RemovingSkip(before: seq<string>, now: seq<string>, s: string, i: nat, n: nat)
    requires Removing(before, now, s, i, n) && i < |now| && now[i] != s
    ensures Removing(before, now, s, i + 1, n)
  {
  }

  lemma RemovingShift(before: seq<string>, now: seq<string>, s: string, i: nat, n: nat)
    requires Removing(before, now, s, i, n) && i < n <= |now| && now[i] == s
    ensures Removing(before, Shifted(now, i, n), s, i + 1, n - 1)
  {
    var next, p := Shifted(now, i, n), i + |before| - n;
    assert before[..i + 1] == before[..i] + [before[i]];
    assert before[p..][0] == s;
    assert next[..i] == now[..i];
    ShiftedTail(before, now, s, i, n);
    if i + 1 < n {
      assert before[p..][1] == before[p + 1] == next[i] && before[p..][2..] == before[p + 2..];
      assert next[..i + 1] == now[..i] + [next[i]];
    } else {
      assert before[p..] == [s];
    }
  }

  lemma ShiftedTail(before: seq<string>, now: seq<string>, s: string, i: nat, n: nat)
    requires Removing(before, now, s, i, n) && i < n <= |now|
    ensures var next, k, size := Shifted(now, i, n), |before| - n + 1, |before|;
            |next| == size && forall j :: i <= j < size ==> next[j] == before[if j + k < size then j + k else size - 1]
  {
  }

  lemma RemovingStale(before: seq<string>, now: seq<string>, s: string, i: nat, n: nat)
    requires Removing(before, now, s, i, n) && n <= i < |now| && now[i] == s
    ensures Panics(before, s)
  {
  }

  // append(list[:i], list[i+1:]...) on the backing array of a slice of length `n`
  ghost function Shifted(list: seq<string>, i: nat, n: nat): seq<string>
    requires i + 1 <= n <= |list|
  {
    list[..i] + list[i + 1..n] + list[n - 1..]
  }

  method ShiftLeft(a: array<string>, i: nat, n: nat)
    requires i + 1 <= n <= a.Length
    modifies a
    ensures a[..] == Shifted(old(a[..]), i, n)
  {
    forall k | i <= k < n - 1 {
      a[k] := a[k + 1];
    }
  }

  ghost predicate NoneAdjacent(list: seq<string>, s: string) {
    forall i :: 0 <= i < |list| - 1 && list[i] == s ==> list[i + 1] != s
  }

  lemma WithoutFront(list: seq<string>, s: string, n: nat)
    requires n <= |list|
    ensures Without(list, s) == Without(list[..n], s) + Without(list[n..], s)
  {
    assert list == list[..n] + list[n..];
    WithoutConcat(list[..n], list[n..], s);
  }

  lemma {:induction false} KeptIsWithoutIff(list: seq<string>, s: string)
    ensures Kept(list, s) == Without(list, s) <==> NoneAdjacent(list, s)
  {
    if list == [] || list == [s] {
      assert list == [s] ==> list[..0] == [];
    } else if list[0] != s {
      WithoutFront(list, s, 1);
      assert list[..1] == [list[0]] && Without([list[0]], s) == [list[0]];
      KeptIsWithoutIff(list[1..], s);
      SameRest(list[0], Kept(list[1..], s), Without(list[1..], s));
      NoneAdjacentTail(list, s, 1);
    } else if list[1] == s {
      WithoutMembers(list, s, s);
      assert Kept(list, s)[0] == s;
    } else {
      WithoutFront(list, s, 2);
      assert list[..2] == [s, list[1]] && [s, list[1]][..1] == [s];
      assert Without([s], s) == [] && Without([s, list[1]], s) == [list[1]];
      KeptIsWithoutIff(list[2..], s);
      SameRest(list[1], Kept(list[2..], s), Without(list[2..], s));
      NoneAdjacentTail(list, s, 2);
    }
  }

  lemma SameRest(x: string, a: seq<string>, b: seq<string>)
    ensures [x] + a == [x] + b <==> a == b
  {
    assert ([x] + a)[1..] == a && ([x] + b)[1..] == b;
  }

  lemma NoneAdjacentTail(list: seq<string>, s: string, n: nat)
    requires 1 <= n <= 2 && n <= |list| && list[n - 1] != s
    ensures NoneAdjacent(list, s) <==> NoneAdjacent(list[n..], s)
  {
    var tail := list[n..];
    assert forall i :: 0 <= i < |tail| ==> tail[i] == list[n + i];
    if NoneAdjacent(tail, s) {
      forall i | 0 <= i < |list| - 1 && list[i] == s ensures list[i + 1] != s {
        if i >= n { assert tail[i - n] == s; }
      }
    } else {
      var i :| 0 <= i < |tail| - 1 && tail[i] == s && tail[i + 1] == s;
      assert list[n + i] == s && list[n + i + 1] == s;
    }
  }

  /**
   The removal is right iff no two occurrences are adjacent and, when the last element is an
   occurrence, it is the only one.  A finalizer that occurs at most once is always removed.
   */
  lemma RemovesAllIff(list: seq<string>, s: string)
    ensures !Panics(list, s) && Kept(list, s) == Without(list, s)
            <==> NoneAdjacent(list, s) && (list != [] && list[|list| - 1] == s ==> s !in list[..|list| - 1])
    ensures AtMostOnce(list, s) ==> !Panics(list, s) && Kept(list, s) == Without(list, s)
  {
    KeptIsWithoutIff(list, s);
  }

  // Of two adjacent occurrences one survives, and two occurrences that end the list panic.
  lemma RemoveFails()
    ensures Kept(["f", "f", "g"], "f") == ["f", "g"] && Panics(["f", "g", "f"], "f")
  {
    assert ["f", "f", "g"][2..] == ["g"] && ["g"][1..] == [];
    assert ["f", "g", "f"][..2] == ["f", "g"] && ["f", "g"][0] == "f";
  }

  // ----- Release pass -----

  // `claimed` stands for the claim reference that makes the control plane release the volume.
  function ReleaseOne(pv: Pv): Pv {
    if !pv.retain && pv.phase == Available && !pv.claimed then pv.(claimed := true) else pv
  }

  datatype ReleaseResult = ReleaseResult(pvs: map<string, Pv>, updateFailed: bool, blocked: bool)

  // Volumes of the owner in listing order; the first failing update ends the pass.
  function Release(pvs: map<string, Pv>, order: seq<string>, failing: set<string>): ReleaseResult {
    if order == [] then ReleaseResult(pvs, false, false)
    else
      var r := Release(pvs, order[..|order| - 1], failing);
      var n := order[|order| - 1];
      if r.updateFailed || n !in r.pvs then r
      else if r.pvs[n].retain then r.(blocked := true)
      else if ReleaseOne(r.pvs[n]) == r.pvs[n] then r
      else if n in failing then r.(updateFailed := true)
      else r.(pvs := r.pvs[n := ReleaseOne(r.pvs[n])])
  }

  class ApiServer {
    var pvs: map<string, Pv>

    constructor (volumes: map<string, Pv>)
      ensures pvs == volumes
    {
      pvs := volumes;
    }

    // Reports whether an update failed and whether a volume with policy Retain blocks the deletion.
    method ReleaseAvailablePVs(order: seq<string>, failing: set<string>) returns (updateFailed: bool, blocked: bool)
      modifies this
      ensures !updateFailed ==> (blocked <==> exists n :: n in order && n in old(pvs) && old(pvs)[n].retain)
      ensures forall n :: n in pvs && n in old(pvs) && pvs[n] != old(pvs)[n] ==>
                n in order && Releasable(old(pvs)[n]) && pvs[n] == old(pvs)[n].(claimed := true)
      ensures !updateFailed ==>
                forall n :: n in order && n in pvs && n in old(pvs) && Releasable(old(pvs)[n]) ==> pvs[n].claimed
      ensures updateFailed == Release(old(pvs), order, failing).updateFailed
      ensures !updateFailed ==> blocked == Release(old(pvs), order, failing).blocked
      ensures pvs == Release(old(pvs), order, failing).pvs
    {
      blocked := false;
      forall n {
        PassClaimsOnly(pvs, order, failing, n);
      }
      if !Release(pvs, order, failing).updateFailed {
        FinishedPassClaimsAll(pvs, order, failing);
      }
      for i := 0 to |order|
        invariant Release(old(pvs), order[..i], failing) == ReleaseResult(pvs, false, blocked)
      {
        var n := order[i];
        assert order[..i + 1][..i] == order[..i];
        ReleaseChangesOnlyAvailable(old(pvs), order[..i], failing, n);
        if n in pvs {
          var pv := pvs[n];
          if pv.retain {
            blocked := true;
          } else if pv.phase == Available && !pv.claimed {
            if n in failing {
              UpdateFailureSticks(old(pvs), order, failing, i + 1);
              return true, blocked;
            }
            pvs := pvs[n := pv.(claimed := true)];
          }
        }
      }
      assert order[..|order|] == order;
      return false, blocked;
    }
  }

  // What a pass is for: volumes nobody uses and the control plane would delete.
  ghost predicate Releasable(pv: Pv) {
    pv.phase == Available && !pv.claimed && !pv.retain
  }

  /**
   A pass changes only listed volumes that are Available, unclaimed and without Retain, and only their
   claim.
   */
  lemma PassClaimsOnly(pvs: map<string, Pv>, order: seq<string>, failing: set<string>, n: string)
    ensures var r := Release(pvs, order, failing);
            && (n in r.pvs <==> n in pvs)
            && (n in pvs && r.pvs[n] != pvs[n] ==>
                  && n in order && pvs[n].phase == Available && !pvs[n].claimed && !pvs[n].retain
                  && r.pvs[n] == pvs[n].(claimed := true))
  {
    ReleaseChangesOnlyAvailable(pvs, order, failing, n);
  }

  /** A pass that finishes has claimed every one of them, and is blocked iff a listed volume has Retain. */
  lemma FinishedPassClaimsAll(pvs: map<string, Pv>, order: seq<string>, failing: set<string>)
    requires !Release(pvs, order, failing).updateFailed
    ensures var r := Release(pvs, order, failing);
            && (forall n :: n in pvs && n in order && pvs[n].phase == Available && !pvs[n].claimed && !pvs[n].retain ==>
                  n in r.pvs && r.pvs[n] == pvs[n].(claimed := true))
            && (r.blocked <==> exists n :: n in order && n in pvs && pvs[n].retain)
  {
    forall n | n in pvs && n in order && Releasable(pvs[n])
      ensures n in Release(pvs, order, failing).pvs
      ensures Release(pvs, order, failing).pvs[n] == pvs[n].(claimed := true)
    {
      FinishedPassReleasesAll(pvs, order, failing, n);
    }
    BlockedIff(pvs, order, failing);
  }

  lemma {:induction false} BlockedIff(pvs: map<string, Pv>, order: seq<string>, failing: set<string>)
    requires !Release(pvs, order, failing).updateFailed
    ensures Release(pvs, order, failing).blocked <==> exists n :: n in order && n in pvs && pvs[n].retain
  {
    if order != [] {
      var front, last := order[..|order| - 1], order[|order| - 1];
      assert order == front + [last];
      BlockedIff(pvs, front, failing);
      PassClaimsOnly(pvs, front, failing, last);
    }
  }

  /** An update fails only for a volume the pass may claim. */
  lemma {:induction false} FailureIsOfReleasable(pvs: map<string, Pv>, order: seq<string>, failing: set<string>)
    requires Release(pvs, order, failing).updateFailed
    ensures exists n :: n in order && n in failing && n in pvs && Releasable(pvs[n])
  {
    var front, last := order[..|order| - 1], order[|order| - 1];
    assert order == front + [last];
    if Release(pvs, front, failing).updateFailed {
      FailureIsOfReleasable(pvs, front, failing);
    } else {
      PassClaimsOnly(pvs, front, failing, last);
      assert last in order && last in failing && last in pvs && Releasable(pvs[last]);
    }
  }

  lemma {:induction false} UpdateFailureSticks(pvs: map<string, Pv>, order: seq<string>, failing: set<string>, i: nat)
    requires i <= |order| && Release(pvs, order[..i], failing).updateFailed
    ensures Release(pvs, order, failing) == Release(pvs, order[..i], failing)
  {
    if i < |order| {
      assert order[..|order| - 1][..i] == order[..i];
      UpdateFailureSticks(pvs, order[..|order| - 1], failing, i);
    } else {
      assert order[..i] == order;
    }
  }

  /** A pass changes nothing but the claim of listed, unclaimed, Available volumes without Retain. */
  lemma {:induction false} ReleaseChangesOnlyAvailable(
    pvs: map<string, Pv>, order: seq<string>, failing: set<string>, n: string)
    ensures var r := Release(pvs, order, failing);
            && (n in r.pvs <==> n in pvs)
            && (n in pvs ==> r.pvs[n] == pvs[n] || (n in order && r.pvs[n] == ReleaseOne(pvs[n])))
  {
    if order != [] {
      ReleaseChangesOnlyAvailable(pvs, order[..|order| - 1], failing, n);
      assert order == order[..|order| - 1] + [order[|order| - 1]];
    }
  }

  lemma {:induction false} FinishedPassReleasesAll(
    pvs: map<string, Pv>, order: seq<string>, failing: set<string>, n: string)
    requires !Release(pvs, order, failing).updateFailed
    ensures n in pvs && n in order ==>
              n in Release(pvs, order, failing).pvs && Release(pvs, order, failing).pvs[n] == ReleaseOne(pvs[n])
  {
    if order != [] {
      var m := |order| - 1;
      assert order == order[..m] + [order[m]];
      ReleaseChangesOnlyAvailable(pvs, order[..m], failing, n);
      if n in order[..m] {
        FinishedPassReleasesAll(pvs, order[..m], failing, n);
      }
    }
  }

  /** After a pass that finished, a second one over the same volumes changes nothing. */
  lemma {:induction false} SecondPassIsIdle(
    pvs: map<string, Pv>, order: seq<string>, failing: set<string>, order2: seq<string>, failing2: set<string>)
    requires !Release(pvs, order, failing).updateFailed && forall n :: n in order2 ==> n in order
    ensures var r := Release(pvs, order, failing);
            Release(r.pvs, order2, failing2).pvs == r.pvs && !Release(r.pvs, order2, failing2).updateFailed
  {
    if order2 != [] {
      var n := order2[|order2| - 1];
      assert order2 == order2[..|order2| - 1] + [n];
      SecondPassIsIdle(pvs, order, failing, order2[..|order2| - 1], failing2);
      FinishedPassReleasesAll(pvs, order, failing, n);
      ReleaseChangesOnlyAvailable(pvs, order, failing, n);
    }
  }

  // ----- Owner reconcile -----

  datatype World = World(owner: Option<OwnerObject>, pvs: map<string, Pv>)

  ghost function Owned(pvs: map<string, Pv>, labels: map<string, string>): set<string> {
    set n | n in pvs && HasLabels(pvs[n], labels)
  }

  datatype ReconcileCalls = ReconcileCalls(
    listOk: bool, order: seq<string>, failing: set<string>, relistOk: bool, classesOk: bool, updateOk: bool)

  // A deleted object goes away when its last finalizer does.
  function Settle(o: OwnerObject): Option<OwnerObject> {
    if o.deleting && o.finalizers == [] then None else Some(o)
  }

  // The API server refuses new finalizers on an object that is being deleted.
  ghost function AddProtection(w: World, o: OwnerObject, ok: bool): World {
    if PROTECTION_FINALIZER in o.finalizers || !ok || o.deleting then w
    else w.(owner := Some(o.(finalizers := AddOnce(o.finalizers, PROTECTION_FINALIZER))))
  }

  // Both controllers: release what can be released, then drop the finalizer iff no volume is owned.
  ghost function Cleanup(w: World, o: OwnerObject, c: ReconcileCalls): World {
    if !c.listOk then w
    else
      var r := Release(w.pvs, c.order, c.failing);
      var w1 := w.(pvs := r.pvs);
      if r.updateFailed || r.blocked || !c.relistOk || Owned(w1.pvs, o.labels) != {} then w1
      else if (o.kind == LocalVolume && !c.classesOk) || !c.updateOk then w1
      else w1.(owner := Settle(o.(finalizers := Without(o.finalizers, PROTECTION_FINALIZER))))
  }

  ghost function Reconcile(w: World, c: ReconcileCalls): World {
    match w.owner
    case None => w
    case Some(o) =>
      if o.kind == LocalVolume && !(o.deleting && PROTECTION_FINALIZER in o.finalizers)
      then AddProtection(w, o, c.updateOk)
      else if o.deleting then Cleanup(w, o, c)
      else AddProtection(w, o, c.updateOk)
  }

  /** A reconcile of an owner that stays puts the protection in place and keeps everything else. */
  lemma ReconcileProtects(w: World, c: ReconcileCalls)
    requires w.owner.Some? && !w.owner.value.deleting && c.updateOk
    ensures var o, w' := w.owner.value, Reconcile(w, c);
            && w'.pvs == w.pvs && w'.owner.Some?
            && w'.owner.value == o.(finalizers := w'.owner.value.finalizers)
            && PROTECTION_FINALIZER in w'.owner.value.finalizers
            && o.finalizers <= w'.owner.value.finalizers
            && (PROTECTION_FINALIZER in o.finalizers ==> w' == w)
  {
  }

  /**
   With succeeding calls, the reconcile of a deleted owner without volumes takes the protection away
   and nothing else; the owner is gone iff it had no other finalizer.
   */
  lemma ReconcileLetsGo(w: World, c: ReconcileCalls)
    requires w.owner.Some? && w.owner.value.deleting && PROTECTION_FINALIZER in w.owner.value.finalizers
    requires Owned(w.pvs, w.owner.value.labels) == {} && Enabled(w, OwnerReconciles(c))
    requires c.listOk && c.relistOk && c.classesOk && c.updateOk
    ensures var o, w' := w.owner.value, Reconcile(w, c);
            && w'.pvs == w.pvs
            && (w'.owner.None? <==> forall x :: x in o.finalizers ==> x == PROTECTION_FINALIZER)
            && (w'.owner.Some? ==>
                  && w'.owner.value == o.(finalizers := w'.owner.value.finalizers)
                  && forall x :: x in w'.owner.value.finalizers <==> x in o.finalizers && x != PROTECTION_FINALIZER)
  {
    var o := w.owner.value;
    if c.order != [] {
      FirstIsIn(c.order);
      assert false;
    }
    WithoutAll(o.finalizers, PROTECTION_FINALIZER);
  }

  /**
   The reconcile of a deleted owner releases its volumes: when no update fails, every volume with its
   labels that is Available, unclaimed and without Retain is claimed.
   */
  lemma ReconcileReleases(w: World, c: ReconcileCalls, n: string)
    requires w.owner.Some? && w.owner.value.deleting && PROTECTION_FINALIZER in w.owner.value.finalizers
    requires Enabled(w, OwnerReconciles(c)) && c.listOk && c.failing == {}
    requires n in w.pvs && HasLabels(w.pvs[n], w.owner.value.labels)
    requires w.pvs[n].phase == Available && !w.pvs[n].claimed && !w.pvs[n].retain
    ensures n in Reconcile(w, c).pvs && Reconcile(w, c).pvs[n] == w.pvs[n].(claimed := true)
  {
    assert n in Owned(w.pvs, w.owner.value.labels);
    if Release(w.pvs, c.order, c.failing).updateFailed {
      FailureIsOfReleasable(w.pvs, c.order, c.failing);
      assert false;
    }
    FinishedPassClaimsAll(w.pvs, c.order, c.failing);
  }

  lemma FirstIsIn(list: seq<string>)
    requires list != []
    ensures list[0] in list
  {
  }

  lemma WithoutAll(list: seq<string>, s: string)
    ensures forall x :: x in Without(list, s) <==> x in list && x != s
    ensures Without(list, s) == [] <==> forall x :: x in list ==> x == s
  {
    forall x ensures x in Without(list, s) <==> x in list && x != s {
      WithoutMembers(list, s, x);
    }
    assert Without(list, s) != [] ==> Without(list, s)[0] in Without(list, s);
  }

  /** Whatever the calls return, no reconcile touches another finalizer, the labels or the request. */
  lemma ReconcileKeepsOwner(w: World, c: ReconcileCalls)
    requires w.owner.Some?
    ensures var o, o' := w.owner.value, Reconcile(w, c).owner;
            && (o'.None? ==> o.deleting && forall x :: x in o.finalizers ==> x == PROTECTION_FINALIZER)
            && (o'.Some? ==>
                  && o'.value == o.(finalizers := o'.value.finalizers)
                  && forall x :: x != PROTECTION_FINALIZER ==> (x in o'.value.finalizers <==> x in o.finalizers))
  {
    WithoutAll(w.owner.value.finalizers, PROTECTION_FINALIZER);
  }

  datatype Step =
    | OwnerReconciles(c: ReconcileCalls)
    | DeletionRequested
    // the diskmaker provisions a volume for an owner that is not being deleted
    | VolumeProvisioned(name: string, pv: Pv)
    | VolumeChanges(name: string, phase: Phase, claimed: bool)
    | VolumeDeleted(name: string)
    // a volume of somebody else
    | ForeignVolume(name: string, pv: Pv)

  ghost predicate Enabled(w: World, step: Step) {
    match step
    case OwnerReconciles(c) => w.owner.Some? ==> forall n :: n in c.order <==> n in Owned(w.pvs, w.owner.value.labels)
    case VolumeProvisioned(n, pv) => w.owner.Some? && !w.owner.value.deleting && HasLabels(pv, w.owner.value.labels)
    case _ => true
  }

  ghost function Next(w: World, step: Step, labels: map<string, string>): World {
    match step
    case OwnerReconciles(c) => Reconcile(w, c)
    case DeletionRequested => if w.owner.None? then w else w.(owner := Settle(w.owner.value.(deleting := true)))
    case VolumeProvisioned(n, pv) => w.(pvs := w.pvs[n := pv])
    case VolumeChanges(n, phase, claimed) =>
      if n in w.pvs then w.(pvs := w.pvs[n := w.pvs[n].(phase := phase, claimed := claimed)]) else w
    case VolumeDeleted(n) => w.(pvs := w.pvs - {n})
    case ForeignVolume(n, pv) => if n in w.pvs || HasLabels(pv, labels) then w else w.(pvs := w.pvs[n := pv])
  }

  ghost predicate Guarded(w: World) {
    w.owner.Some? && PROTECTION_FINALIZER in w.owner.value.finalizers
  }

  lemma ReleaseKeepsOwned(pvs: map<string, Pv>, order: seq<string>, failing: set<string>, labels: map<string, string>)
    ensures Owned(Release(pvs, order, failing).pvs, labels) == Owned(pvs, labels)
  {
    forall n ensures n in Owned(Release(pvs, order, failing).pvs, labels) <==> n in Owned(pvs, labels) {
      ReleaseChangesOnlyAvailable(pvs, order, failing, n);
    }
  }

  /** The protection goes only on request and only when no volume carries the owner's labels. */
  lemma ProtectionGoesOnlyWhenUnowned(w: World, step: Step)
    requires Guarded(w) && !Guarded(Next(w, step, w.owner.value.labels))
    ensures step.OwnerReconciles? && w.owner.value.deleting && Owned(w.pvs, w.owner.value.labels) == {}
  {
    if step.OwnerReconciles? {
      ReleaseKeepsOwned(w.pvs, step.c.order, step.c.failing, w.owner.value.labels);
    }
  }

  // While a volume is owned, its owner exists and is protected.
  ghost predicate Protected(w: World, labels: map<string, string>) {
    && (w.owner.Some? ==> w.owner.value.labels == labels && AtMostOnce(w.owner.value.finalizers, PROTECTION_FINALIZER))
    && (Owned(w.pvs, labels) != {} ==> Guarded(w))
  }

  lemma WithoutAtMostOnce(list: seq<string>, s: string)
    ensures s !in Without(list, s) && AtMostOnce(Without(list, s), s)
  {
    WithoutMembers(list, s, s);
  }

  lemma ReconcileKeepsProtected(w: World, c: ReconcileCalls, labels: map<string, string>)
    requires Protected(w, labels)
    ensures Protected(Reconcile(w, c), labels)
  {
    ReleaseKeepsOwned(w.pvs, c.order, c.failing, labels);
    if w.owner.Some? {
      WithoutAtMostOnce(w.owner.value.finalizers, PROTECTION_FINALIZER);
    }
  }

  // Provisioning before the finalizer is in place is the one step that can break the protection.
  lemma StepKeepsProtectedIff(w: World, step: Step, labels: map<string, string>)
    requires Protected(w, labels) && Enabled(w, step)
    ensures Protected(Next(w, step, labels), labels) <==> (step.VolumeProvisioned? ==> Guarded(w))
  {
    var w' := Next(w, step, labels);
    match step
    case OwnerReconciles(c) => ReconcileKeepsProtected(w, c, labels);
    case DeletionRequested => assert Owned(w'.pvs, labels) == Owned(w.pvs, labels);
    case VolumeProvisioned(n, pv) => assert n in Owned(w'.pvs, labels);
    case VolumeChanges(n, phase, claimed) => assert Owned(w'.pvs, labels) == Owned(w.pvs, labels);
    case VolumeDeleted(n) => assert Owned(w'.pvs, labels) <= Owned(w.pvs, labels);
    case ForeignVolume(n, pv) => assert Owned(w'.pvs, labels) == Owned(w.pvs, labels);
  }

  ghost function Run(w: World, steps: seq<Step>, labels: map<string, string>): World {
    if steps == [] then w else Next(Run(w, steps[..|steps| - 1], labels), steps[|steps| - 1], labels)
  }

  // Volumes are provisioned only once the finalizer is in place.
  ghost predicate GoodRun(w: World, steps: seq<Step>, labels: map<string, string>) {
    forall k :: 0 <= k < |steps| ==>
      && Enabled(Run(w, steps[..k], labels), steps[k])
      && (steps[k].VolumeProvisioned? ==> Guarded(Run(w, steps[..k], labels)))
  }

  /** No volume, whatever its phase and reclaim policy, outlives its owner. */
  lemma {:induction false} NoVolumeOutlivesOwner(w: World, steps: seq<Step>, labels: map<string, string>)
    requires Protected(w, labels) && GoodRun(w, steps, labels)
    ensures Protected(Run(w, steps, labels), labels)
    ensures Run(w, steps, labels).owner.None? ==> Owned(Run(w, steps, labels).pvs, labels) == {}
  {
    if steps != [] {
      var m := |steps| - 1;
      var front := steps[..m];
      assert forall k :: 0 <= k < m ==> front[..k] == steps[..k];
      NoVolumeOutlivesOwner(w, front, labels);
      StepKeepsProtectedIff(Run(w, front, labels), steps[m], labels);
    }
  }

  /** Without that order a volume can outlive its owner: provision, then delete, before any reconcile. */
  lemma EarlyVolumeOutlivesOwner(o: OwnerObject, n: string, pv: Pv)
    requires o.finalizers == [] && !o.deleting && HasLabels(pv, o.labels)
    ensures var w := World(Some(o), map[]);
            var steps := [VolumeProvisioned(n, pv), DeletionRequested];
            && Protected(w, o.labels)
            && Run(w, steps, o.labels).owner.None? && Owned(Run(w, steps, o.labels).pvs, o.labels) == {n}
  {
    var w := World(Some(o), map[]);
    var steps := [VolumeProvisioned(n, pv), DeletionRequested];
    assert steps[..1] == [steps[0]] && steps[..1][..0] == [];
    assert Run(w, steps[..1], o.labels) == w.(pvs := map[n := pv]);
  }
}

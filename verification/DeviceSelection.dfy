/**
 How a LocalVolumeSet reconcile sorts block devices: spec match, provisioning filters, age gate;
 and the orphan scan over the result.
 */
module DeviceSelection {
  import opened PreferenceScan
  import opened DeviceTree

  // lsblk columns of one device
  datatype Disk = Disk(kname: string, columns: map<string, string>)

  type Check = Disk -> Verdict

  // Named checks, as in the source's maps; a map is visited in no particular order.
  datatype Spec = Spec(matchers: map<string, Check>, excluders: map<string, Check>, filters: map<string, Check>)

  const DEVICE_MIN_AGE := 60

  // ----- Visiting a map of checks -----

  ghost predicate Enumerates(order: seq<string>, checks: map<string, Check>) {
    forall n :: n in order <==> n in checks
  }

  ghost predicate AllYes(checks: map<string, Check>, d: Disk) {
    forall n :: n in checks ==> checks[n](d) == Yes
  }

  // Stops at the first error or no.  The answer does not depend on the visiting order.
  method VisitChecks(checks: map<string, Check>, order: seq<string>, d: Disk) returns (ok: bool)
    requires Enumerates(order, checks)
    ensures ok <==> AllYes(checks, d)
  {
    for i := 0 to |order|
      invariant forall j :: 0 <= j < i ==> checks[order[j]](d) == Yes
    {
      if checks[order[i]](d) != Yes {
        return false;
      }
    }
    forall n | n in checks ensures checks[n](d) == Yes {
      assert n in order;
    }
    return true;
  }

  ghost predicate Matched(spec: Spec, d: Disk) {
    AllYes(spec.matchers, d) && AllYes(spec.excluders, d)
  }

  // ----- First observation of a device -----

  class AgeMap {
    var firstSeen: map<string, int>

    constructor ()
      ensures firstSeen == map[]
    {
      firstSeen := map[];
    }

    method StoreDeviceAge(key: string, now: int)
      modifies this
      ensures firstSeen == Stored(old(firstSeen), key, now)
    {
      if key !in firstSeen {
        firstSeen := firstSeen[key := now];
      }
    }

    method IsOlderThan(key: string, now: int) returns (old_: bool)
      ensures old_ <==> OldEnough(firstSeen, key, now)
    {
      if key !in firstSeen {
        return false;
      }
      return now - firstSeen[key] > DEVICE_MIN_AGE;
    }
  }

  function Stored(ages: map<string, int>, key: string, now: int): map<string, int> {
    if key in ages then ages else ages[key := now]
  }

  predicate OldEnough(ages: map<string, int>, key: string, now: int) {
    key in ages && now - ages[key] > DEVICE_MIN_AGE
  }

  // ----- One visit of one device -----

  // The clock is read when the device is stored and again when its age is checked.
  datatype Visit = Visit(dev: Disk, spec: Spec, stored: int, checked: int)

  datatype Label = Unmatched | Valid | Delayed | Rejected

  ghost function AgesAfter(visits: seq<Visit>): map<string, int> {
    if visits == [] then map[]
    else
      var v := visits[|visits| - 1];
      var ages := AgesAfter(visits[..|visits| - 1]);
      if Matched(v.spec, v.dev) then Stored(ages, v.dev.kname, v.stored) else ages
  }

  ghost function LabelOf(v: Visit, ages: map<string, int>): Label {
    if !Matched(v.spec, v.dev) then Unmatched
    else if !AllYes(v.spec.filters, v.dev) then Rejected
    else if OldEnough(ages, v.dev.kname, v.checked) then Valid
    else Delayed
  }

  // The label a visit gets in its history.
  ghost function LabelAt(visits: seq<Visit>, i: nat): Label
    requires i < |visits|
  {
    LabelOf(visits[i], AgesAfter(visits[..i + 1]))
  }

  // ----- The age gate over any history of reconciles -----

  ghost predicate ClockRuns(visits: seq<Visit>) {
    && (forall i :: 0 <= i < |visits| ==> visits[i].stored <= visits[i].checked)
    && (forall i, j :: 0 <= i < j < |visits| ==> visits[i].checked <= visits[j].stored)
  }

  // Visit `j` is the first that spec-matched the kernel name.
  ghost predicate FirstMatch(visits: seq<Visit>, kname: string, j: nat) {
    && j < |visits| && visits[j].dev.kname == kname && Matched(visits[j].spec, visits[j].dev)
    && forall k :: 0 <= k < j && visits[k].dev.kname == kname ==> !Matched(visits[k].spec, visits[k].dev)
  }

  lemma {:induction false} AgesAreFirstMatches(visits: seq<Visit>, kname: string)
    ensures kname in AgesAfter(visits) <==> exists j: nat :: FirstMatch(visits, kname, j)
    ensures forall j: nat :: FirstMatch(visits, kname, j) ==> AgesAfter(visits)[kname] == visits[j].stored
  {
    if visits != [] {
      var n := |visits| - 1;
      var front, v := visits[..n], visits[n];
      AgesAreFirstMatches(front, kname);
      forall j: nat | j < n ensures FirstMatch(front, kname, j) <==> FirstMatch(visits, kname, j) {
        assert forall k :: 0 <= k <= j ==> front[k] == visits[k];
      }
      if kname in AgesAfter(front) {
        var j: nat :| FirstMatch(front, kname, j);
        assert FirstMatch(visits, kname, j);
        assert !FirstMatch(visits, kname, n);
      } else if v.dev.kname == kname && Matched(v.spec, v.dev) {
        NoEarlierMatch(front, kname);
        assert FirstMatch(visits, kname, n);
      } else {
        assert !FirstMatch(visits, kname, n);
      }
    }
  }

  lemma NoEarlierMatch(visits: seq<Visit>, kname: string)
    requires forall j: nat :: !FirstMatch(visits, kname, j)
    ensures forall k :: 0 <= k < |visits| && visits[k].dev.kname == kname ==> !Matched(visits[k].spec, visits[k].dev)
  {
    for k := 0 to |visits|
      invariant forall i :: 0 <= i < k && visits[i].dev.kname == kname ==> !Matched(visits[i].spec, visits[i].dev)
    {
      assert !FirstMatch(visits, kname, k);
    }
  }

  /**
   A device is valid iff it matches, passes the filters and its name was first spec-matched more than
   the minimum age before the check.
   */
  lemma ValidOnlyAfterMinAge(visits: seq<Visit>, i: nat)
    requires i < |visits|
    ensures LabelAt(visits, i) == Valid <==>
              && Matched(visits[i].spec, visits[i].dev) && AllYes(visits[i].spec.filters, visits[i].dev)
              && exists j: nat ::
                   && j <= i && FirstMatch(visits, visits[i].dev.kname, j)
                   && visits[i].checked - visits[j].stored > DEVICE_MIN_AGE
  {
    var upTo, k := visits[..i + 1], visits[i].dev.kname;
    AgesAreFirstMatches(upTo, k);
    forall j: nat | j <= i ensures FirstMatch(upTo, k, j) <==> FirstMatch(visits, k, j) {
      assert forall m :: 0 <= m <= j ==> upTo[m] == visits[m];
    }
    if OldEnough(AgesAfter(upTo), k, visits[i].checked) {
      var j: nat :| FirstMatch(upTo, k, j);
      assert FirstMatch(visits, k, j);
    }
  }

  // The name was first matched more than the minimum age before the check.
  ghost predicate MatchedLongAgo(visits: seq<Visit>, i: nat)
    requires i < |visits|
  {
    exists j: nat ::
      && j <= i && FirstMatch(visits, visits[i].dev.kname, j)
      && visits[i].checked - visits[j].stored > DEVICE_MIN_AGE
  }

  /** Every label has its exact condition: spec match, filters and age, in this order. */
  lemma LabelsExactly(visits: seq<Visit>, i: nat)
    requires i < |visits|
    ensures var l, v := LabelAt(visits, i), visits[i];
            var matched := AllYes(v.spec.matchers, v.dev) && AllYes(v.spec.excluders, v.dev);
            && (l == Unmatched <==> !matched)
            && (l == Rejected <==> matched && !AllYes(v.spec.filters, v.dev))
            && (l == Delayed <==> matched && AllYes(v.spec.filters, v.dev) && !MatchedLongAgo(visits, i))
            && (l == Valid <==> matched && AllYes(v.spec.filters, v.dev) && MatchedLongAgo(visits, i))
  {
    ValidOnlyAfterMinAge(visits, i);
  }

  /** Once a kernel name was old enough it is never delayed again. */
  lemma NeverDelayedAgain(visits: seq<Visit>, i: nat, k: nat)
    requires ClockRuns(visits) && i < k < |visits|
    requires LabelAt(visits, i) == Valid && visits[k].dev.kname == visits[i].dev.kname
    ensures LabelAt(visits, k) != Delayed
  {
    ValidOnlyAfterMinAge(visits, i);
    var j: nat :|
      && j <= i && FirstMatch(visits, visits[i].dev.kname, j)
      && visits[i].checked - visits[j].stored > DEVICE_MIN_AGE;
    assert visits[i].checked <= visits[k].stored <= visits[k].checked;
    ValidOnlyAfterMinAge(visits, k);
  }

  // ----- One reconcile: three lists -----

  // The visits with a label, in input order.
  ghost function Pick(devs: seq<Disk>, labels: seq<Label>, l: Label): seq<Disk>
    requires |devs| == |labels|
  {
    if devs == [] then []
    else
      var n := |devs| - 1;
      Pick(devs[..n], labels[..n], l) + if labels[n] == l then [devs[n]] else []
  }

  ghost function VisitsOf(spec: Spec, devs: seq<Disk>, times: seq<(int, int)>): seq<Visit>
    requires |devs| == |times|
  {
    seq(|devs|, i requires 0 <= i < |devs| => Visit(devs[i], spec, times[i].0, times[i].1))
  }

  // The labels of one reconcile that starts with an age map built by `history`.
  ghost function Labels(history: seq<Visit>, spec: Spec, devs: seq<Disk>, times: seq<(int, int)>): seq<Label>
    requires |devs| == |times|
  {
    var all := history + VisitsOf(spec, devs, times);
    seq(|devs|, i requires 0 <= i < |devs| => LabelAt(all, |history| + i))
  }

  // The age map when `i` devices of the reconcile have been visited.
  ghost function AgesDuring(
    history: seq<Visit>, spec: Spec, devs: seq<Disk>, times: seq<(int, int)>, i: nat): map<string, int>
    requires i <= |devs| == |times|
  {
    AgesAfter((history + VisitsOf(spec, devs, times))[..|history| + i])
  }

  lemma AgesEnds(history: seq<Visit>, spec: Spec, devs: seq<Disk>, times: seq<(int, int)>)
    requires |devs| == |times|
    ensures AgesDuring(history, spec, devs, times, 0) == AgesAfter(history)
    ensures AgesDuring(history, spec, devs, times, |devs|) == AgesAfter(history + VisitsOf(spec, devs, times))
  {
    var all := history + VisitsOf(spec, devs, times);
    assert all[..|history| + 0] == history && all[..|history| + |devs|] == all;
  }

  lemma LabelsAt(history: seq<Visit>, spec: Spec, devs: seq<Disk>, times: seq<(int, int)>, i: nat)
    requires i < |devs| == |times|
    ensures |Labels(history, spec, devs, times)| == |devs|
    ensures var before := AgesDuring(history, spec, devs, times, i);
            var after := AgesDuring(history, spec, devs, times, i + 1);
            && after == (if Matched(spec, devs[i]) then Stored(before, devs[i].kname, times[i].0) else before)
            && Labels(history, spec, devs, times)[i] == LabelOf(Visit(devs[i], spec, times[i].0, times[i].1), after)
  {
    var all, at := history + VisitsOf(spec, devs, times), |history| + i;
    assert all[at] == Visit(devs[i], spec, times[i].0, times[i].1);
    assert all[..at + 1][..at] == all[..at];
    assert Labels(history, spec, devs, times)[i] == LabelAt(all, at);
  }

  /**
   Unless one reconcile alone outlasts the minimum age, a device that is valid in it was first matched
   in an earlier one, more than the minimum age before its check.
   */
  lemma ValidNeedsEarlierReconcile(history: seq<Visit>, spec: Spec, devs: seq<Disk>, times: seq<(int, int)>, i: nat)
    requires i < |devs| == |times|
    requires forall j, k :: 0 <= j <= k < |times| ==> times[k].1 - times[j].0 <= DEVICE_MIN_AGE
    requires Labels(history, spec, devs, times)[i] == Valid
    ensures exists j: nat ::
              j < |history| && FirstMatch(history, devs[i].kname, j) && times[i].1 - history[j].stored > DEVICE_MIN_AGE
  {
    var all, at := history + VisitsOf(spec, devs, times), |history| + i;
    assert all[at] == Visit(devs[i], spec, times[i].0, times[i].1);
    assert Labels(history, spec, devs, times)[i] == LabelAt(all, at);
    ValidOnlyAfterMinAge(all, at);
    var j: nat :| j <= at && FirstMatch(all, devs[i].kname, j) && all[at].checked - all[j].stored > DEVICE_MIN_AGE;
    assert forall k :: 0 <= k <= j ==> history[k] == all[k];
  }

  lemma {:induction false} PickMembers(devs: seq<Disk>, labels: seq<Label>, l: Label, d: Disk)
    requires |devs| == |labels|
    ensures d in Pick(devs, labels, l) <==> exists i :: 0 <= i < |devs| && devs[i] == d && labels[i] == l
  {
    if devs != [] {
      var n := |devs| - 1;
      PickMembers(devs[..n], labels[..n], l, d);
      if d in Pick(devs[..n], labels[..n], l) {
        var i :| 0 <= i < n && devs[..n][i] == d && labels[..n][i] == l;
        assert devs[i] == d && labels[i] == l;
      }
      if i :| 0 <= i < |devs| && devs[i] == d && labels[i] == l {
        if i < n { assert devs[..n][i] == d && labels[..n][i] == l; }
      }
    }
  }

  // How often `d` is picked under a label.
  ghost function Count(devs: seq<Disk>, labels: seq<Label>, l: Label, d: Disk): nat
    requires |devs| == |labels|
  {
    multiset(Pick(devs, labels, l))[d]
  }

  lemma CountLast(devs: seq<Disk>, labels: seq<Label>, l: Label, d: Disk)
    requires |devs| == |labels| > 0
    ensures var n := |devs| - 1;
            Count(devs, labels, l, d)
            == Count(devs[..n], labels[..n], l, d) + if labels[n] == l && devs[n] == d then 1 else 0
  {
  }

  // Every occurrence is counted in exactly one of the four picks.
  lemma {:induction false} PicksPartition(devs: seq<Disk>, labels: seq<Label>, d: Disk)
    requires |devs| == |labels|
    ensures Count(devs, labels, Valid, d) + Count(devs, labels, Delayed, d)
            + Count(devs, labels, Rejected, d) + Count(devs, labels, Unmatched, d)
            == multiset(devs)[d]
  {
    if devs != [] {
      hide Count;
      var n := |devs| - 1;
      PicksPartition(devs[..n], labels[..n], d);
      CountLast(devs, labels, Valid, d);
      CountLast(devs, labels, Delayed, d);
      CountLast(devs, labels, Rejected, d);
      CountLast(devs, labels, Unmatched, d);
      CountAll(devs, d);
    }
  }

  lemma CountAll(devs: seq<Disk>, d: Disk)
    requires devs != []
    ensures var n := |devs| - 1;
            multiset(devs)[d] == multiset(devs[..n])[d] + if devs[n] == d then 1 else 0
  {
    assert devs == devs[..|devs| - 1] + [devs[|devs| - 1]];
  }

  /**
   The three lists together hold exactly the spec-matched devices, whatever the visiting order of
   the maps and the state of the age map.
   */
  lemma ListsHoldMatched(history: seq<Visit>, spec: Spec, devs: seq<Disk>, times: seq<(int, int)>, d: Disk)
    requires |devs| == |times|
    ensures var labels := Labels(history, spec, devs, times);
            d in Pick(devs, labels, Valid) + Pick(devs, labels, Delayed) + Pick(devs, labels, Rejected)
            <==> d in devs && Matched(spec, d)
  {
    var labels := Labels(history, spec, devs, times);
    PickMembers(devs, labels, Valid, d);
    PickMembers(devs, labels, Delayed, d);
    PickMembers(devs, labels, Rejected, d);
    forall i | 0 <= i < |devs| ensures labels[i] == Unmatched <==> !Matched(spec, devs[i]) {
      LabelsAt(history, spec, devs, times, i);
    }
    if d in devs && Matched(spec, d) {
      var i :| 0 <= i < |devs| && devs[i] == d;
      assert labels[i] in {Valid, Delayed, Rejected};
    }
  }

  // getValidDevices; `orders` gives the visiting order of each map for each device.
  datatype Orders = Orders(matchers: seq<string>, excluders: seq<string>, filters: seq<string>)

  ghost predicate OrdersFit(o: Orders, spec: Spec) {
    && Enumerates(o.matchers, spec.matchers)
    && Enumerates(o.excluders, spec.excluders)
    && Enumerates(o.filters, spec.filters)
  }

  // The body of the device loop.
  method VisitDevice(ages: AgeMap, spec: Spec, d: Disk, now: (int, int), o: Orders) returns (tag: Label)
    requires OrdersFit(o, spec)
    modifies ages
    ensures tag == LabelOf(Visit(d, spec, now.0, now.1), ages.firstSeen)
    ensures ages.firstSeen
            == if Matched(spec, d) then Stored(old(ages.firstSeen), d.kname, now.0) else old(ages.firstSeen)
  {
    var matched := VisitChecks(spec.matchers, o.matchers, d);
    if !matched {
      return Unmatched;
    }
    matched := VisitChecks(spec.excluders, o.excluders, d);
    if !matched {
      return Unmatched;
    }
    ages.StoreDeviceAge(d.kname, now.0);
    var passes := VisitChecks(spec.filters, o.filters, d);
    if !passes {
      return Rejected;
    }
    var oldEnough := ages.IsOlderThan(d.kname, now.1);
    return if oldEnough then Valid else Delayed;
  }

  // The three lists after the first `i` devices.
  ghost predicate Filled(
    devs: seq<Disk>, labels: seq<Label>, i: nat, valid: seq<Disk>, delayed: seq<Disk>, rejected: seq<Disk>)
    requires i <= |devs| == |labels|
  {
    && valid == Pick(devs[..i], labels[..i], Valid)
    && delayed == Pick(devs[..i], labels[..i], Delayed)
    && rejected == Pick(devs[..i], labels[..i], Rejected)
  }

  method Append(tag: Label, d: Disk, valid: seq<Disk>, delayed: seq<Disk>, rejected: seq<Disk>)
    returns (v: seq<Disk>, w: seq<Disk>, r: seq<Disk>)
    ensures Appended(tag, d, valid, delayed, rejected, v, w, r)
  {
    v, w, r := valid, delayed, rejected;
    match tag
    case Valid => v := v + [d];
    case Delayed => w := w + [d];
    case Rejected => r := r + [d];
    case Unmatched =>
  }

  ghost predicate Appended(tag: Label, d: Disk, valid: seq<Disk>, delayed: seq<Disk>, rejected: seq<Disk>,
                           v: seq<Disk>, w: seq<Disk>, r: seq<Disk>) {
    && v == (if tag == Valid then valid + [d] else valid)
    && w == (if tag == Delayed then delayed + [d] else delayed)
    && r == (if tag == Rejected then rejected + [d] else rejected)
  }

  lemma FilledStep(
    devs: seq<Disk>, labels: seq<Label>, i: nat, valid: seq<Disk>, delayed: seq<Disk>, rejected: seq<Disk>)
    requires i < |devs| == |labels| && Filled(devs, labels, i, valid, delayed, rejected)
    ensures forall v, w, r ::
              Appended(labels[i], devs[i], valid, delayed, rejected, v, w, r) ==> Filled(devs, labels, i + 1, v, w, r)
  {
    assert devs[..i + 1][..i] == devs[..i] && labels[..i + 1][..i] == labels[..i];
  }

  lemma FilledEnds(devs: seq<Disk>, labels: seq<Label>, valid: seq<Disk>, delayed: seq<Disk>, rejected: seq<Disk>)
    requires |devs| == |labels|
    ensures Filled(devs, labels, 0, [], [], [])
    ensures Filled(devs, labels, |devs|, valid, delayed, rejected) <==>
              && valid == Pick(devs, labels, Valid)
              && delayed == Pick(devs, labels, Delayed)
              && rejected == Pick(devs, labels, Rejected)
  {
    assert devs[..|devs|] == devs && labels[..|devs|] == labels;
  }

  method GetValidDevices(
    ages: AgeMap, spec: Spec, devs: seq<Disk>, times: seq<(int, int)>, orders: seq<Orders>, ghost history: seq<Visit>)
    returns (valid: seq<Disk>, delayed: seq<Disk>, rejected: seq<Disk>)
    requires |devs| == |times| == |orders|
    requires forall i :: 0 <= i < |orders| ==> OrdersFit(orders[i], spec)
    requires ages.firstSeen == AgesAfter(history)
    modifies ages
    ensures var labels := Labels(history, spec, devs, times);
            && valid == Pick(devs, labels, Valid)
            && delayed == Pick(devs, labels, Delayed)
            && rejected == Pick(devs, labels, Rejected)
    ensures ages.firstSeen == AgesAfter(history + VisitsOf(spec, devs, times))
  {
    valid, delayed, rejected := [], [], [];
    ghost var labels := Labels(history, spec, devs, times);
    assert |labels| == |devs|;
    AgesEnds(history, spec, devs, times);
    hide *;
    FilledEnds(devs, labels, valid, delayed, rejected);
    for i := 0 to |devs|
      invariant ages.firstSeen == AgesDuring(history, spec, devs, times, i)
      invariant Filled(devs, labels, i, valid, delayed, rejected)
    {
      LabelsAt(history, spec, devs, times, i);
      FilledStep(devs, labels, i, valid, delayed, rejected);
      var tag := VisitDevice(ages, spec, devs[i], times[i], orders[i]);
      valid, delayed, rejected := Append(tag, devs[i], valid, delayed, rejected);
    }
    FilledEnds(devs, labels, valid, delayed, rejected);
  }

  // ----- Orphaned links -----

  datatype Orphans = Orphans(paths: seq<string>, failed: bool)

  ghost predicate ResolvesToOneOf(e: Eval, devs: seq<Disk>) {
    exists i :: 0 <= i < |devs| && e == Resolves(devs[i].kname)
  }

  // The links that resolve to none of the devices, in listing order.
  ghost function OrphansAmong(t: Tree, paths: seq<string>, devs: seq<Disk>): seq<string> {
    if paths == [] then []
    else
      var p := paths[|paths| - 1];
      OrphansAmong(t, paths[..|paths| - 1], devs) + if ResolvesToOneOf(t.EvalSymlinks(p), devs) then [] else [p]
  }

  ghost predicate Fails(t: Tree, paths: seq<string>, devs: seq<Disk>, k: nat) {
    k < |paths| && devs != [] && t.EvalSymlinks(paths[k]) == EvalFailed
  }

  // One link against the devices, one by one; an evaluation error aborts.
  method MatchesOneOf(t: Tree, p: string, devs: seq<Disk>) returns (v: Verdict)
    ensures v == Error <==> devs != [] && t.EvalSymlinks(p) == EvalFailed
    ensures v != Error ==> (v == Yes <==> ResolvesToOneOf(t.EvalSymlinks(p), devs))
  {
    for i := 0 to |devs|
      invariant forall j :: 0 <= j < i ==> t.EvalSymlinks(p) != Resolves(devs[j].kname)
      invariant i > 0 ==> t.EvalSymlinks(p) != EvalFailed
    {
      v := t.EvalsToDiskLabel(p, devs[i].kname);
      if v != No {
        return;
      }
    }
    return No;
  }

  // The first link that cannot be evaluated ends the scan, with the orphans found so far.
  method GetOrphanedSymlinks(t: Tree, paths: seq<string>, devs: seq<Disk>) returns (r: Orphans)
    ensures !r.failed ==> r.paths == OrphansAmong(t, paths, devs) && forall k: nat :: !Fails(t, paths, devs, k)
    ensures r.failed ==> exists k: nat ::
              && Fails(t, paths, devs, k) && r.paths == OrphansAmong(t, paths[..k], devs)
              && forall j: nat :: j < k ==> !Fails(t, paths, devs, j)
  {
    var orphans := [];
    for k := 0 to |paths|
      invariant forall j: nat :: j < k ==> !Fails(t, paths, devs, j)
      invariant orphans == OrphansAmong(t, paths[..k], devs)
    {
      assert paths[..k + 1][..k] == paths[..k];
      var v := MatchesOneOf(t, paths[k], devs);
      if v == Error {
        assert Fails(t, paths, devs, k);
        return Orphans(orphans, true);
      }
      if v == No {
        orphans := orphans + [paths[k]];
      }
    }
    assert paths[..|paths|] == paths;
    return Orphans(orphans, false);
  }

  lemma {:induction false} OrphanMembers(t: Tree, paths: seq<string>, devs: seq<Disk>, p: string)
    ensures p in OrphansAmong(t, paths, devs) <==> p in paths && !ResolvesToOneOf(t.EvalSymlinks(p), devs)
  {
    if paths != [] {
      OrphanMembers(t, paths[..|paths| - 1], devs, p);
      assert paths == paths[..|paths| - 1] + [paths[|paths| - 1]];
    }
  }

  // What a reconcile hands to the orphan scan.
  ghost function SpecMatched(history: seq<Visit>, spec: Spec, devs: seq<Disk>, times: seq<(int, int)>): seq<Disk>
    requires |devs| == |times|
  {
    var labels := Labels(history, spec, devs, times);
    Pick(devs, labels, Valid) + Pick(devs, labels, Delayed) + Pick(devs, labels, Rejected)
  }

  /** The orphan scan over the three lists flags a link iff it resolves to no spec-matched device. */
  lemma OrphanIffNoMatchedDevice(
    history: seq<Visit>, spec: Spec, devs: seq<Disk>, times: seq<(int, int)>, t: Tree, paths: seq<string>, p: string)
    requires |devs| == |times|
    ensures p in OrphansAmong(t, paths, SpecMatched(history, spec, devs, times)) <==>
              p in paths && !exists d :: d in devs && Matched(spec, d) && t.EvalSymlinks(p) == Resolves(d.kname)
  {
    var all, e := SpecMatched(history, spec, devs, times), t.EvalSymlinks(p);
    OrphanMembers(t, paths, all, p);
    forall d ensures d in all <==> d in devs && Matched(spec, d) {
      ListsHoldMatched(history, spec, devs, times, d);
    }
    hide SpecMatched, OrphansAmong, Matched;
    if ResolvesToOneOf(e, all) {
      var i :| 0 <= i < |all| && e == Resolves(all[i].kname);
      assert all[i] in all;
    }
    if d :| d in devs && Matched(spec, d) && e == Resolves(d.kname) {
      var i :| 0 <= i < |all| && all[i] == d;
      assert e == Resolves(all[i].kname);
    }
  }
}

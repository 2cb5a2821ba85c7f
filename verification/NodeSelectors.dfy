/**
 The node daemon's aggregate of all LocalVolumeSets and LocalVolumes: tolerations, owner references
 and node selector terms, in an order that does not depend on the order of the listing.
 */
module NodeSelectors {
  import opened Objects

  // `key` is the sort key of the kind; a missing selector means every node.
  datatype Obj = Obj(key: string, tolerations: seq<string>, ownerRef: string, selector: Option<seq<string>>)

  // ----- strings.Compare(a, b) == -1 -----

  predicate Less(a: string, b: string) {
    b != "" && (a == "" || a[0] < b[0] || (a[0] == b[0] && Less(a[1..], b[1..])))
  }

  lemma {:induction false} LessTotal(a: string, b: string)
    ensures Less(a, b) || Less(b, a) || a == b
    ensures !(Less(a, b) && Less(b, a))
    ensures a == b ==> !Less(a, b)
  {
    if a != "" && b != "" {
      LessTotal(a[1..], b[1..]);
      assert a == [a[0]] + a[1..] && b == [b[0]] + b[1..];
    }
  }

  lemma {:induction false} LessTransitive(a: string, b: string, c: string)
    requires !Less(b, a) && !Less(c, b)
    ensures !Less(c, a)
  {
    if a != "" && b != "" && c != "" {
      if a[0] == b[0] == c[0] {
        LessTransitive(a[1..], b[1..], c[1..]);
      }
    }
  }

  // At the first place where the strings differ `a` has the smaller character or has ended.
  ghost predicate FirstDifference(a: string, b: string, k: nat) {
    && k <= |a| && k < |b| && a[..k] == b[..k]
    && (k < |a| ==> a[k] < b[k])
  }

  lemma {:induction false} LessIsLexicographic(a: string, b: string)
    ensures Less(a, b) <==> exists k: nat :: FirstDifference(a, b, k)
  {
    if a == "" || b == "" || a[0] != b[0] {
      if Less(a, b) {
        assert FirstDifference(a, b, 0);
      }
      if k: nat :| FirstDifference(a, b, k) {
        assert k > 0 ==> a[..k][0] == b[..k][0];
      }
    } else {
      LessIsLexicographic(a[1..], b[1..]);
      if k: nat :| FirstDifference(a[1..], b[1..], k) {
        assert a[..k + 1] == [a[0]] + a[1..][..k] && b[..k + 1] == [b[0]] + b[1..][..k];
        assert FirstDifference(a, b, k + 1);
      }
      if k: nat :| FirstDifference(a, b, k) {
        assert k > 0;
        assert a[1..][..k - 1] == a[..k][1..] && b[1..][..k - 1] == b[..k][1..];
        assert FirstDifference(a[1..], b[1..], k - 1);
      }
    }
  }

  // ----- sort.SliceStable -----

  function Insert(sorted: seq<Obj>, x: Obj): seq<Obj> {
    if sorted == [] then [x]
    else
      var n := |sorted| - 1;
      if Less(x.key, sorted[n].key) then Insert(sorted[..n], x) + [sorted[n]] else sorted + [x]
  }

  function StableSort(items: seq<Obj>): seq<Obj> {
    if items == [] then [] else Insert(StableSort(items[..|items| - 1]), items[|items| - 1])
  }

  ghost predicate Ordered(s: seq<Obj>) {
    forall i, j :: 0 <= i < j < |s| ==> !Less(s[j].key, s[i].key)
  }

  lemma {:induction false} InsertContents(sorted: seq<Obj>, x: Obj)
    ensures multiset(Insert(sorted, x)) == multiset(sorted) + multiset{x}
  {
    if sorted != [] {
      var n := |sorted| - 1;
      assert sorted == sorted[..n] + [sorted[n]];
      InsertContents(sorted[..n], x);
    }
  }

  lemma {:induction false} InsertOrdered(sorted: seq<Obj>, x: Obj)
    requires Ordered(sorted)
    ensures Ordered(Insert(sorted, x))
  {
    if sorted != [] {
      var n := |sorted| - 1;
      var last := sorted[n];
      if Less(x.key, last.key) {
        var r := Insert(sorted[..n], x);
        InsertOrdered(sorted[..n], x);
        InsertContents(sorted[..n], x);
        forall i | 0 <= i < |r| ensures !Less(last.key, r[i].key) {
          assert r[i] in multiset(r);
          LessTotal(x.key, last.key);
        }
      } else {
        forall i | 0 <= i < |sorted| ensures !Less(x.key, sorted[i].key) {
          if i < n { LessTransitive(sorted[i].key, last.key, x.key); }
        }
      }
    }
  }

  // The objects with a given key, in order.
  function WithKey(s: seq<Obj>, key: string): seq<Obj> {
    if s == [] then []
    else WithKey(s[..|s| - 1], key) + if s[|s| - 1].key == key then [s[|s| - 1]] else []
  }

  lemma {:induction false} InsertStable(sorted: seq<Obj>, x: Obj, key: string)
    requires Ordered(sorted)
    ensures WithKey(Insert(sorted, x), key) == WithKey(sorted, key) + if x.key == key then [x] else []
  {
    if sorted == [] {
      assert [x][..0] == [];
    } else {
      var n := |sorted| - 1;
      if Less(x.key, sorted[n].key) {
        InsertStable(sorted[..n], x, key);
        var r := Insert(sorted[..n], x);
        assert (r + [sorted[n]])[..|r|] == r;
        if x.key == key { LessTotal(x.key, sorted[n].key); }
      } else {
        assert (sorted + [x])[..|sorted|] == sorted;
      }
    }
  }

  /** What a stable sort promises: ordered, a permutation, and equal keys keep their order. */
  lemma {:induction false} StableSortSorts(items: seq<Obj>, key: string)
    ensures Ordered(StableSort(items)) && multiset(StableSort(items)) == multiset(items)
    ensures WithKey(StableSort(items), key) == WithKey(items, key)
  {
    if items != [] {
      var n := |items| - 1;
      assert items == items[..n] + [items[n]];
      StableSortSorts(items[..n], key);
      InsertOrdered(StableSort(items[..n]), items[n]);
      InsertContents(StableSort(items[..n]), items[n]);
      InsertStable(StableSort(items[..n]), items[n], key);
    }
  }

  ghost predicate DistinctKeys(items: multiset<Obj>) {
    forall x, y :: x in items && y in items && (x != y || items[x] > 1) ==> x.key != y.key
  }

  // Two ordered listings of the same objects end in the same object.
  lemma SameLast(a: seq<Obj>, b: seq<Obj>)
    requires Ordered(a) && Ordered(b) && multiset(a) == multiset(b) && DistinctKeys(multiset(a)) && a != []
    ensures b != [] && a[|a| - 1] == b[|b| - 1]
  {
    assert a[|a| - 1] in multiset(b);
    assert b != [];
    var x, y := a[|a| - 1], b[|b| - 1];
    assert y in multiset(b);
    LastIsGreatest(a, y);
    LastIsGreatest(b, x);
    LessTotal(x.key, y.key);
  }

  lemma DropLast(s: seq<Obj>)
    requires s != []
    ensures multiset(s[..|s| - 1]) == multiset(s) - multiset{s[|s| - 1]}
  {
    assert s == s[..|s| - 1] + [s[|s| - 1]];
  }

  lemma FewerKeysDistinct(m: multiset<Obj>, fewer: multiset<Obj>)
    requires DistinctKeys(m) && fewer <= m
    ensures DistinctKeys(fewer)
  {
  }

  // Two orderings of the same objects with distinct keys are equal.
  lemma {:induction false} OrderedIsUnique(a: seq<Obj>, b: seq<Obj>)
    requires Ordered(a) && Ordered(b) && multiset(a) == multiset(b) && DistinctKeys(multiset(a))
    ensures a == b
  {
    hide *;
    assert |a| == |multiset(a)| == |b|;
    if a != [] {
      var n := |a| - 1;
      SameLast(a, b);
      FrontsAgree(a, b);
      OrderedIsUnique(a[..n], b[..n]);
      assert a == a[..n] + [a[n]] == b[..n] + [b[n]] == b;
    }
  }

  lemma FrontsAgree(a: seq<Obj>, b: seq<Obj>)
    requires Ordered(a) && Ordered(b) && multiset(a) == multiset(b) && DistinctKeys(multiset(a))
    requires |a| == |b| > 0 && a[|a| - 1] == b[|b| - 1]
    ensures var n := |a| - 1;
            Ordered(a[..n]) && Ordered(b[..n]) && multiset(a[..n]) == multiset(b[..n]) && DistinctKeys(multiset(a[..n]))
  {
    DropLast(a);
    DropLast(b);
    FewerKeysDistinct(multiset(a), multiset(a[..|a| - 1]));
  }

  lemma LastIsGreatest(s: seq<Obj>, x: Obj)
    requires Ordered(s) && x in multiset(s)
    ensures s != [] && !Less(s[|s| - 1].key, x.key)
  {
    assert x in s;
    var i :| 0 <= i < |s| && s[i] == x;
    if i == |s| - 1 {
      LessTotal(x.key, x.key);
    }
  }

  // ----- Extraction -----

  predicate HasNil(items: seq<Obj>) {
    exists i :: 0 <= i < |items| && items[i].selector.None?
  }

  function AllTerms(items: seq<Obj>): seq<string> {
    if items == [] then []
    else
      var o := items[|items| - 1];
      AllTerms(items[..|items| - 1]) + if o.selector.Some? then o.selector.value else []
  }

  // No terms means every node: one object without a selector empties the list.
  function Terms(items: seq<Obj>): seq<string> {
    if HasNil(items) then [] else AllTerms(items)
  }

  function Tolerations(items: seq<Obj>): seq<string> {
    if items == [] then [] else Tolerations(items[..|items| - 1]) + items[|items| - 1].tolerations
  }

  function OwnerRefs(items: seq<Obj>): seq<string> {
    if items == [] then [] else OwnerRefs(items[..|items| - 1]) + [items[|items| - 1].ownerRef]
  }

  method SortInPlace(a: array<Obj>)
    modifies a
    ensures a[..] == StableSort(old(a[..]))
  {
    var sorted := StableSort(a[..]);
    StableSortSorts(a[..], "");
    assert |sorted| == |multiset(sorted)| == |multiset(a[..])| == a.Length;
    forall i | 0 <= i < a.Length {
      a[i] := sorted[i];
    }
  }

  // extractLVSetInfo and extractLVInfo: sort the slice in place, then collect.
  method Extract(a: array<Obj>) returns (tolerations: seq<string>, ownerRefs: seq<string>, terms: seq<string>)
    modifies a
    ensures a[..] == StableSort(old(a[..]))
    ensures tolerations == Tolerations(StableSort(old(a[..])))
    ensures ownerRefs == OwnerRefs(StableSort(old(a[..])))
    ensures terms == Terms(StableSort(old(a[..])))
  {
    SortInPlace(a);
    tolerations, ownerRefs, terms := [], [], [];
    var matchAll := false;
    for i := 0 to a.Length
      invariant a[..] == StableSort(old(a[..]))
      invariant tolerations == Tolerations(a[..i]) && ownerRefs == OwnerRefs(a[..i])
      invariant terms == AllTerms(a[..i]) && matchAll == HasNil(a[..i])
    {
      assert a[..i + 1][..i] == a[..i];
      tolerations := tolerations + a[i].tolerations;
      ownerRefs := ownerRefs + [a[i].ownerRef];
      if a[i].selector.Some? {
        terms := terms + a[i].selector.value;
      } else {
        matchAll := true;
      }
      assert HasNil(a[..i + 1]) <==> HasNil(a[..i]) || a[i].selector.None? by {
        assert a[..i + 1] == a[..i] + [a[i]];
        if HasNil(a[..i]) {
          var j :| 0 <= j < i && a[..i][j].selector.None?;
          assert a[..i + 1][j].selector.None?;
        }
        if a[i].selector.None? { assert a[..i + 1][i].selector.None?; }
      }
    }
    assert a[..a.Length] == a[..];
    if matchAll {
      terms := [];
    }
  }

  // `block` stands in `all` from position `at` on.
  ghost predicate StandsAt(all: seq<string>, at: nat, block: seq<string>) {
    at + |block| <= |all| && all[at..at + |block|] == block
  }

  lemma {:induction false} TolerationsUpTo(items: seq<Obj>, i: nat)
    requires i <= |items|
    ensures Tolerations(items[..i]) <= Tolerations(items)
  {
    if i < |items| {
      assert items[..|items| - 1][..i] == items[..i];
      TolerationsUpTo(items[..|items| - 1], i);
    } else {
      assert items[..i] == items;
    }
  }

  lemma {:induction false} TermsUpTo(items: seq<Obj>, i: nat)
    requires i <= |items|
    ensures AllTerms(items[..i]) <= AllTerms(items)
  {
    if i < |items| {
      assert items[..|items| - 1][..i] == items[..i];
      TermsUpTo(items[..|items| - 1], i);
    } else {
      assert items[..i] == items;
    }
  }

  /**
   The collected lists hold, object after object and nothing between, each object's tolerations, its
   owner reference and the terms of its selector.
   */
  lemma CollectsInOrder(items: seq<Obj>, i: nat)
    requires i < |items|
    ensures var o, before, after := items[i], items[..i], items[..i + 1];
            && StandsAt(Tolerations(items), |Tolerations(before)|, o.tolerations)
            && |Tolerations(after)| == |Tolerations(before)| + |o.tolerations|
            && |OwnerRefs(items)| == |items| && OwnerRefs(items)[i] == o.ownerRef
            && (o.selector.Some? ==> StandsAt(AllTerms(items), |AllTerms(before)|, o.selector.value))
            && |AllTerms(after)| == |AllTerms(before)| + if o.selector.Some? then |o.selector.value| else 0
  {
    assert items[..i + 1][..i] == items[..i];
    TolerationsUpTo(items, i + 1);
    TermsUpTo(items, i + 1);
    OwnerRefsAt(items, i);
  }

  lemma {:induction false} OwnerRefsAt(items: seq<Obj>, i: nat)
    requires i < |items|
    ensures |OwnerRefs(items)| == |items| && OwnerRefs(items)[i] == items[i].ownerRef
  {
    if |items| > 1 {
      OwnerRefsAt(items[..|items| - 1], if i < |items| - 1 then i else 0);
    }
  }

  /** Every listing order of the same objects with distinct sort keys gives the same output. */
  lemma ListingOrderDoesNotMatter(items: seq<Obj>, items': seq<Obj>)
    requires multiset(items) == multiset(items') && DistinctKeys(multiset(items))
    ensures StableSort(items) == StableSort(items')
  {
    StableSortSorts(items, "");
    StableSortSorts(items', "");
    OrderedIsUnique(StableSort(items), StableSort(items'));
  }

  // ----- Which nodes are accepted -----

  // `accepts(term, node)` is the meaning of one term.
  predicate TermsAccept(accepts: (string, string) -> bool, terms: seq<string>, node: string) {
    terms == [] || exists i :: 0 <= i < |terms| && accepts(terms[i], node)
  }

  predicate ObjAccepts(accepts: (string, string) -> bool, o: Obj, node: string) {
    o.selector.None? || exists i :: 0 <= i < |o.selector.value| && accepts(o.selector.value[i], node)
  }

  predicate SomeAccepts(accepts: (string, string) -> bool, items: seq<Obj>, node: string) {
    exists i :: 0 <= i < |items| && ObjAccepts(accepts, items[i], node)
  }

  predicate AnyTerm(accepts: (string, string) -> bool, terms: seq<string>, node: string) {
    exists i :: 0 <= i < |terms| && accepts(terms[i], node)
  }

  lemma AnyTermConcat(accepts: (string, string) -> bool, a: seq<string>, b: seq<string>, node: string)
    ensures AnyTerm(accepts, a + b, node) <==> AnyTerm(accepts, a, node) || AnyTerm(accepts, b, node)
  {
    if AnyTerm(accepts, a, node) {
      var i :| 0 <= i < |a| && accepts(a[i], node);
      assert (a + b)[i] == a[i];
    }
    if AnyTerm(accepts, b, node) {
      var i :| 0 <= i < |b| && accepts(b[i], node);
      assert (a + b)[|a| + i] == b[i];
    }
  }

  lemma {:induction false} SomeAcceptsIffTerm(accepts: (string, string) -> bool, items: seq<Obj>, node: string)
    ensures SomeAccepts(accepts, items, node) <==> HasNil(items) || AnyTerm(accepts, AllTerms(items), node)
  {
    if items != [] {
      var n := |items| - 1;
      var front, o := items[..n], items[n];
      SomeAcceptsIffTerm(accepts, front, node);
      AnyTermConcat(accepts, AllTerms(front), if o.selector.Some? then o.selector.value else [], node);
      assert SomeAccepts(accepts, items, node) <==>
          SomeAccepts(accepts, front, node) || ObjAccepts(accepts, o, node) by
      {
        if SomeAccepts(accepts, front, node) {
          var i :| 0 <= i < n && ObjAccepts(accepts, front[i], node);
          assert ObjAccepts(accepts, items[i], node);
        }
      }
      assert HasNil(items) <==> HasNil(front) || o.selector.None? by {
        if HasNil(front) {
          var i :| 0 <= i < n && front[i].selector.None?;
          assert items[i].selector.None?;
        }
      }
    }
  }

  /**
   The terms of one kind accept a node iff some object does, exactly when some object has no
   selector or some selector has a term.
   */
  lemma OneKindAcceptsIff(accepts: (string, string) -> bool, items: seq<Obj>, node: string)
    ensures (TermsAccept(accepts, Terms(items), node) <==> SomeAccepts(accepts, items, node))
            <==> HasNil(items) || AllTerms(items) != []
  {
    SomeAcceptsIffTerm(accepts, items, node);
  }

  // A selector without terms selects no node, and the extracted terms then select every node.
  lemma EmptySelectorSelectsAll(accepts: (string, string) -> bool, node: string)
    ensures var items := [Obj("v", [], "v", Some([]))];
            TermsAccept(accepts, Terms(items), node) && !SomeAccepts(accepts, items, node)
  {
    var items := [Obj("v", [], "v", Some([]))];
    assert items[..0] == [] && AllTerms(items) == [];
  }

  /**
   Joining both kinds goes wrong for a node in exactly three cases: nothing was selected at all, or
   one kind, either of the two, has an object for every node while the other kind's terms leave this
   node out.
   */
  lemma UnionWrongIff(accepts: (string, string) -> bool, sets: seq<Obj>, volumes: seq<Obj>, node: string)
    ensures (TermsAccept(accepts, Terms(sets) + Terms(volumes), node)
               != (SomeAccepts(accepts, sets, node) || SomeAccepts(accepts, volumes, node)))
            <==>
            || (!HasNil(sets) && !HasNil(volumes) && AllTerms(sets) == [] && AllTerms(volumes) == [])
            || (HasNil(sets) && !HasNil(volumes)
                && AllTerms(volumes) != [] && !AnyTerm(accepts, AllTerms(volumes), node))
            || (HasNil(volumes) && !HasNil(sets)
                && AllTerms(sets) != [] && !AnyTerm(accepts, AllTerms(sets), node))
  {
    SomeAcceptsIffTerm(accepts, sets, node);
    SomeAcceptsIffTerm(accepts, volumes, node);
    AnyTermConcat(accepts, Terms(sets), Terms(volumes), node);
    assert Terms(sets) + Terms(volumes) == [] <==> Terms(sets) == [] && Terms(volumes) == [];
  }

  // The second case happens: a LocalVolumeSet for every node loses the nodes a LocalVolume leaves out.
  lemma NilSelectorIsLost(node: string)
    ensures var sets, volumes := [Obj("s", [], "s", None)], [Obj("v", [], "v", Some(["other"]))];
            var accepts := (t: string, n: string) => t == n;
            node != "other" ==>
              SomeAccepts(accepts, sets, node) && !TermsAccept(accepts, Terms(sets) + Terms(volumes), node)
  {
    var sets, volumes := [Obj("s", [], "s", None)], [Obj("v", [], "v", Some(["other"]))];
    assert sets[0].selector.None?;
    assert volumes[..0] == [] && AllTerms(volumes) == ["other"];
  }
}

/**
 Scanning a list bucket by bucket.  Items are put in buckets by rank, the buckets are visited
 in rank order, and the first item whose verdict is not a plain no decides.
 */
module PreferenceScan {

  // Does an item match?  Trouble finding out is an error, not a no.
  datatype Verdict = Yes | No | Error

  datatype Lookup<T> = Found(item: T) | NotFound | Failed

  // The items of one rank, in listing order.
  function Bucket<T>(items: seq<T>, rank: T -> nat, r: nat): seq<T> {
    if items == [] then []
    else
      var front := Bucket(items[..|items| - 1], rank, r);
      var last := items[|items| - 1];
      if rank(last) == r then front + [last] else front
  }

  // All items of rank lo..hi, bucket after bucket.
  function Sorted<T>(items: seq<T>, rank: T -> nat, lo: nat, hi: nat): seq<T>
    requires lo <= hi
    decreases hi - lo
  {
    if lo == hi then [] else Bucket(items, rank, lo) + Sorted(items, rank, lo + 1, hi)
  }

  function OutcomeOf<T>(verdict: T -> Verdict, item: T): Lookup<T> {
    match verdict(item)
    case Yes => Found(item)
    case No => NotFound
    case Error => Failed
  }

  function Scan<T>(items: seq<T>, verdict: T -> Verdict): Lookup<T> {
    if items == [] then NotFound
    else
      var o := OutcomeOf(verdict, items[0]);
      if o.NotFound? then Scan(items[1..], verdict) else o
  }

  lemma {:induction false} ScanConcat<T>(a: seq<T>, b: seq<T>, verdict: T -> Verdict)
    ensures Scan(a + b, verdict) == if Scan(a, verdict).NotFound? then Scan(b, verdict) else Scan(a, verdict)
  {
    if a == [] {
      assert a + b == b;
    } else {
      assert (a + b)[1..] == a[1..] + b;
      ScanConcat(a[1..], b, verdict);
    }
  }

  // Listing position `i` comes before `j` in the order of preference.
  ghost predicate Before<T>(items: seq<T>, rank: T -> nat, i: nat, j: nat)
    requires i < |items| && j < |items|
  {
    rank(items[i]) < rank(items[j]) || (rank(items[i]) == rank(items[j]) && i < j)
  }

  ghost predicate AllNo<T>(items: seq<T>, rank: T -> nat, verdict: T -> Verdict, lo: nat, hi: nat) {
    forall j :: 0 <= j < |items| && lo <= rank(items[j]) < hi ==> verdict(items[j]) == No
  }

  // Position `i` is the first, among ranks lo..hi, whose verdict is not a no.
  ghost predicate Decides<T>(items: seq<T>, rank: T -> nat, verdict: T -> Verdict, lo: nat, hi: nat, i: nat) {
    && i < |items| && lo <= rank(items[i]) < hi
    && verdict(items[i]) != No
    && forall j :: 0 <= j < |items| && lo <= rank(items[j]) && Before(items, rank, j, i) ==> verdict(items[j]) == No
  }

  lemma {:induction false} BucketDecides<T>(items: seq<T>, rank: T -> nat, verdict: T -> Verdict, r: nat)
    returns (i: nat)
    ensures var s := Scan(Bucket(items, rank, r), verdict);
            if s.NotFound? then AllNo(items, rank, verdict, r, r + 1)
            else Decides(items, rank, verdict, r, r + 1, i) && s == OutcomeOf(verdict, items[i])
  {
    i := 0;
    if items != [] {
      var n := |items| - 1;
      var front, last := items[..n], items[n];
      i := BucketDecides(front, rank, verdict, r);
      assert forall j :: 0 <= j < n ==> items[j] == front[j];
      if rank(last) == r {
        ScanConcat(Bucket(front, rank, r), [last], verdict);
        if Scan(Bucket(front, rank, r), verdict).NotFound? {
          i := n;
        }
      }
    }
  }

  lemma {:induction false} SortedDecides<T>(items: seq<T>, rank: T -> nat, verdict: T -> Verdict, lo: nat, hi: nat)
    returns (i: nat)
    requires lo <= hi
    ensures var s := Scan(Sorted(items, rank, lo, hi), verdict);
            if s.NotFound? then AllNo(items, rank, verdict, lo, hi)
            else Decides(items, rank, verdict, lo, hi, i) && s == OutcomeOf(verdict, items[i])
    decreases hi - lo
  {
    i := 0;
    if lo < hi {
      ScanConcat(Bucket(items, rank, lo), Sorted(items, rank, lo + 1, hi), verdict);
      i := BucketDecides(items, rank, verdict, lo);
      if Scan(Bucket(items, rank, lo), verdict).NotFound? {
        i := SortedDecides(items, rank, verdict, lo + 1, hi);
      }
    }
  }

  /**
   The bucketed scan refines "least (rank, listing position)": the answer is the verdict of the
   least item that is not a plain no.  So a match is reported iff it comes before every error,
   and the answer is empty iff every item is a no.
   */
  lemma ScanIsLeast<T>(items: seq<T>, rank: T -> nat, verdict: T -> Verdict, hi: nat)
    requires forall j :: 0 <= j < |items| ==> rank(items[j]) < hi
    ensures var s := Scan(Sorted(items, rank, 0, hi), verdict);
            && (s.NotFound? <==> forall j :: 0 <= j < |items| ==> verdict(items[j]) == No)
            && (s.Found? ==> exists i ::
                  && 0 <= i < |items| && items[i] == s.item && verdict(items[i]) == Yes
                  && forall j :: 0 <= j < |items| && verdict(items[j]) != No && j != i ==> Before(items, rank, i, j))
            && (s.Failed? ==> exists i ::
                  && 0 <= i < |items| && verdict(items[i]) == Error
                  && forall j :: 0 <= j < |items| && verdict(items[j]) != No && j != i ==> Before(items, rank, i, j))
  {
    var i := SortedDecides(items, rank, verdict, 0, hi);
    if !Scan(Sorted(items, rank, 0, hi), verdict).NotFound? {
      forall j | 0 <= j < |items| && verdict(items[j]) != No && j != i
        ensures Before(items, rank, i, j)
      {
        assert !Before(items, rank, j, i);
      }
    }
  }

  // Every item lands in exactly one bucket, as often as it is listed.
  lemma {:induction false} BucketsPartition<T>(items: seq<T>, rank: T -> nat, r: nat, x: T)
    ensures multiset(Bucket(items, rank, r))[x] == if rank(x) == r then multiset(items)[x] else 0
  {
    if items != [] {
      var front, last := items[..|items| - 1], items[|items| - 1];
      BucketsPartition(front, rank, r, x);
      assert items == front + [last];
    }
  }

  // First pass: fill the buckets.
  method FillBuckets<T>(items: seq<T>, rank: T -> nat, hi: nat) returns (buckets: seq<seq<T>>)
    requires forall j :: 0 <= j < |items| ==> rank(items[j]) < hi
    ensures |buckets| == hi
    ensures forall r :: 0 <= r < hi ==> buckets[r] == Bucket(items, rank, r)
  {
    buckets := seq(hi, _ => []);
    for k := 0 to |items|
      invariant |buckets| == hi
      invariant forall r :: 0 <= r < hi ==> buckets[r] == Bucket(items[..k], rank, r)
    {
      var i := rank(items[k]);
      assert items[..k + 1][..k] == items[..k];
      buckets := buckets[i := buckets[i] + [items[k]]];
    }
    assert items[..|items|] == items;
  }

  // Second pass, over one bucket: stop at the first item that is not a plain no.
  method ScanBucket<T>(items: seq<T>, verdict: T -> Verdict) returns (found: Lookup<T>)
    ensures found == Scan(items, verdict)
  {
    for p := 0 to |items|
      invariant Scan(items, verdict) == Scan(items[p..], verdict)
    {
      var o := OutcomeOf(verdict, items[p]);
      assert items[p..][1..] == items[p + 1..];
      if !o.NotFound? {
        return o;
      }
    }
    return NotFound;
  }

  method BucketedScan<T>(items: seq<T>, rank: T -> nat, verdict: T -> Verdict, hi: nat) returns (found: Lookup<T>)
    requires forall j :: 0 <= j < |items| ==> rank(items[j]) < hi
    ensures found == Scan(Sorted(items, rank, 0, hi), verdict)
  {
    var buckets := FillBuckets(items, rank, hi);
    found := NotFound;
    for r := 0 to hi
      invariant Scan(Sorted(items, rank, 0, hi), verdict) == Scan(Sorted(items, rank, r, hi), verdict)
      invariant found == NotFound
    {
      ScanConcat(Bucket(items, rank, r), Sorted(items, rank, r + 1, hi), verdict);
      found := ScanBucket(buckets[r], verdict);
      if !found.NotFound? {
        return;
      }
    }
  }
}

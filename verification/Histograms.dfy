/** The latency histogram and its rendering as cumulative Prometheus buckets. */
module Histograms {
  const DEFAULT_BUCKETS: seq<real> := [5.0, 10.0, 25.0, 50.0, 100.0, 250.0, 500.0, 1000.0, 2500.0, 5000.0]

  /** Some bound up to position i reaches x. */
  predicate Reached(bounds: seq<real>, i: int, x: real) {
    exists j :: 0 <= j <= i && j < |bounds| && x <= bounds[j]
  }

  predicate Ascending(bounds: seq<real>) {
    forall i, j :: 0 <= i < j < |bounds| ==> bounds[i] <= bounds[j]
  }

  /** How many of the observations satisfy p. */
  function Count(seen: seq<real>, p: real -> bool): nat {
    if seen == [] then 0 else Count(seen[..|seen| - 1], p) + if p(seen[|seen| - 1]) then 1 else 0
  }

  function Total(counts: seq<nat>): nat {
    if counts == [] then 0 else Total(counts[..|counts| - 1]) + counts[|counts| - 1]
  }

  /** The running total when bucket i is rendered. */
  function Cumulative(counts: seq<nat>, i: nat): nat
    requires i < |counts|
  {
    Total(counts[..i + 1])
  }

  function Sum(seen: seq<real>): real {
    if seen == [] then 0.0 else Sum(seen[..|seen| - 1]) + seen[|seen| - 1]
  }

  /** The sum is the sum: of none 0, of one that one, and of two runs the two together. */
  lemma {:induction false} SumAdds(a: seq<real>, b: seq<real>, x: real)
    ensures Sum([]) == 0.0 && Sum([x]) == x && Sum(a + b) == Sum(a) + Sum(b)
    decreases |b|
  {
    assert [x][..0] == [];
    if b == [] {
      assert a + b == a;
    } else {
      var n := |b| - 1;
      assert (a + b)[..|a| + n] == a + b[..n];
      SumAdds(a, b[..n], x);
    }
  }

  /** The observations that belong to bucket i: reached by bound i, and by none before it. */
  function InBucket(bounds: seq<real>, i: nat): real -> bool {
    x => (i < |bounds| ==> x <= bounds[i]) && !Reached(bounds, i - 1, x)
  }

  /** The observations that the buckets up to i hold together. */
  function UpTo(bounds: seq<real>, i: int): real -> bool {
    x => i >= |bounds| || Reached(bounds, i, x)
  }

  function AtMost(b: real): real -> bool {
    x => x <= b
  }

  /** The bound as `%.0f` prints it: the nearest integer, and of two the even one. */
  function Printed(x: real): (n: int)
    ensures -0.5 <= n as real - x <= 0.5
    ensures x == n as real - 0.5 || x == n as real + 0.5 ==> n % 2 == 0
  {
    var below := x.Floor;
    var rest := x - below as real;
    if rest < 0.5 || (rest == 0.5 && below % 2 == 0) then below else below + 1
  }

  /** The highest of the bounds up to position i. */
  function Highest(bounds: seq<real>, i: nat): real
    requires i < |bounds|
  {
    if i > 0 && Highest(bounds, i - 1) > bounds[i] then Highest(bounds, i - 1) else bounds[i]
  }

  /** Every bound is printed as the highest bound so far. */
  predicate Labelled(bounds: seq<real>) {
    forall i :: 0 <= i < |bounds| ==> Printed(bounds[i]) as real == Highest(bounds, i)
  }

  predicate Tallied(bounds: seq<real>, counts: seq<nat>, seen: seq<real>) {
    |counts| == |bounds| + 1 && forall i :: 0 <= i < |counts| ==> counts[i] == Count(seen, InBucket(bounds, i))
  }

  class Histogram {
    const buckets: seq<real>
    const counts: array<nat>
    var sum: real
    var total: nat
    ghost var seen: seq<real>

    ghost predicate Valid()
      reads this, counts
    {
      Tallied(buckets, counts[..], seen) && total == |seen| && sum == Sum(seen)
    }

    constructor (given: seq<real>)
      ensures Valid() && fresh(counts) && seen == []
      ensures given != [] ==> buckets == given
      ensures given == [] ==> buckets == [5.0, 10.0, 25.0, 50.0, 100.0, 250.0, 500.0, 1000.0, 2500.0, 5000.0]
    {
      buckets := if given == [] then DEFAULT_BUCKETS else given;
      counts := new nat[(if given == [] then |DEFAULT_BUCKETS| else |given|) + 1](_ => 0);
      sum, total, seen := 0.0, 0, [];
    }

    method Observe(ms: real)
      requires Valid()
      modifies this, counts
      ensures Valid() && seen == old(seen) + [ms]
    {
      ghost var before := counts[..];
      sum, total := sum + ms, total + 1;
      seen := seen + [ms];
      assert seen[..|seen| - 1] == old(seen);
      for i := 0 to |buckets|
        invariant !Reached(buckets, i - 1, ms) && counts[..] == before
      {
        if ms <= buckets[i] {
          counts[i] := counts[i] + 1;
          OneMore(buckets, before, counts[..], old(seen), ms, i);
          return;
        }
      }
      counts[|buckets|] := counts[|buckets|] + 1;
      OneMore(buckets, before, counts[..], old(seen), ms, |buckets|);
    }

    /** The rendered text's numbers: one label and cumulative count per bound, then +Inf, the sum and the count. */
    method Render() returns (labels: seq<int>, cumulative: seq<nat>, inf: nat, renderedSum: real, count: nat)
      requires Valid()
      ensures |labels| == |cumulative| == |buckets| && forall i :: 0 <= i < |buckets| ==> labels[i] == Printed(buckets[i])
      ensures Accounts(buckets, seen, cumulative) && Climbs(cumulative, inf)
      ensures inf == count == |seen| && renderedSum == Sum(seen)
      ensures Ascending(buckets) ==> forall i :: 0 <= i < |buckets| ==> cumulative[i] == Count(seen, AtMost(buckets[i]))
    {
      var snapshot := counts[..];
      labels, cumulative, inf := RenderBuckets(buckets, snapshot);
      renderedSum, count := sum, total;
      Rendered(buckets, snapshot, seen, cumulative, inf);
    }
  }

  /** Every bucket is the number of observations at or below the highest bound so far. */
  ghost predicate Accounts(bounds: seq<real>, seen: seq<real>, cumulative: seq<nat>) {
    |cumulative| == |bounds| && forall i :: 0 <= i < |bounds| ==> cumulative[i] == Count(seen, AtMost(Highest(bounds, i)))
  }

  /** Buckets never decrease, up to the one for +Inf. */
  ghost predicate Climbs(cumulative: seq<nat>, inf: nat) {
    && (forall i, j :: 0 <= i < j < |cumulative| ==> cumulative[i] <= cumulative[j])
    && (forall i :: 0 <= i < |cumulative| ==> cumulative[i] <= inf)
  }

  lemma Rendered(bounds: seq<real>, counts: seq<nat>, seen: seq<real>, cumulative: seq<nat>, inf: nat)
    requires Tallied(bounds, counts, seen) && |cumulative| == |bounds| && inf == Cumulative(counts, |bounds|)
    requires forall i :: 0 <= i < |bounds| ==> cumulative[i] == Cumulative(counts, i)
    ensures Accounts(bounds, seen, cumulative) && Climbs(cumulative, inf) && inf == |seen|
    ensures Ascending(bounds) ==> forall i :: 0 <= i < |bounds| ==> cumulative[i] == Count(seen, AtMost(bounds[i]))
  {
    Rendering(bounds, counts, seen);
  }

  /** The loop over a snapshot of the buckets. */
  method RenderBuckets(bounds: seq<real>, counts: seq<nat>) returns (labels: seq<int>, cumulative: seq<nat>, inf: nat)
    requires |counts| == |bounds| + 1
    ensures |labels| == |cumulative| == |bounds| && inf == Cumulative(counts, |bounds|)
    ensures forall i :: 0 <= i < |bounds| ==> labels[i] == Printed(bounds[i]) && cumulative[i] == Cumulative(counts, i)
  {
    var running: nat := 0;
    labels, cumulative := [], [];
    for i := 0 to |bounds|
      invariant |labels| == |cumulative| == i && running == Total(counts[..i])
      invariant forall k :: 0 <= k < i ==> labels[k] == Printed(bounds[k]) && cumulative[k] == Cumulative(counts, k)
    {
      assert counts[..i + 1][..i] == counts[..i];
      running := running + counts[i];
      labels, cumulative := labels + [Printed(bounds[i])], cumulative + [running];
    }
    assert counts[..|bounds| + 1][..|bounds|] == counts[..|bounds|];
    inf := running + counts[|bounds|];
  }

  // ---------------------------------------------------------------- observing

  lemma OneMore(bounds: seq<real>, before: seq<nat>, after: seq<nat>, seen: seq<real>, x: real, i: nat)
    requires Tallied(bounds, before, seen) && i < |before| && InBucket(bounds, i)(x)
    requires after == before[i := before[i] + 1]
    ensures Tallied(bounds, after, seen + [x])
  {
  }

  // ---------------------------------------------------------------- rendering

  lemma {:induction false} CountSplit(seen: seq<real>, p: real -> bool, q: real -> bool, r: real -> bool)
    requires forall x :: (r(x) <==> p(x) || q(x)) && !(p(x) && q(x))
    ensures Count(seen, r) == Count(seen, p) + Count(seen, q)
  {
    if seen != [] {
      CountSplit(seen[..|seen| - 1], p, q, r);
    }
  }

  lemma {:induction false} CountAll(seen: seq<real>, p: real -> bool)
    requires forall x :: p(x)
    ensures Count(seen, p) == |seen|
  {
    if seen != [] {
      CountAll(seen[..|seen| - 1], p);
    }
  }

  lemma {:induction false} CountNone(seen: seq<real>, p: real -> bool)
    requires forall x :: !p(x)
    ensures Count(seen, p) == 0
  {
    if seen != [] {
      CountNone(seen[..|seen| - 1], p);
    }
  }

  lemma CountOne(x: real, p: real -> bool)
    ensures Count([x], p) == if p(x) then 1 else 0
  {
  }

  lemma ReachedNext(bounds: seq<real>, i: nat, x: real)
    requires i < |bounds|
    ensures Reached(bounds, i, x) <==> Reached(bounds, i - 1, x) || x <= bounds[i]
  {
  }

  lemma CumulativeNext(counts: seq<nat>, i: nat)
    requires i < |counts|
    ensures Cumulative(counts, i) == counts[i] + if i == 0 then 0 else Cumulative(counts, i - 1)
  {
    var upTo := counts[..i + 1];
    assert upTo[..|upTo| - 1] == counts[..i] && upTo[|upTo| - 1] == counts[i];
    assert Total(upTo) == Total(counts[..i]) + counts[i];
    assert i > 0 ==> Cumulative(counts, i - 1) == Total(counts[..i]);
  }

  /** The first i + 1 buckets hold exactly what some bound up to i reaches. */
  lemma {:induction false} Accumulated(bounds: seq<real>, counts: seq<nat>, seen: seq<real>, i: nat)
    requires Tallied(bounds, counts, seen) && i < |counts|
    ensures Cumulative(counts, i) == Count(seen, UpTo(bounds, i))
  {
    CumulativeNext(counts, i);
    if i > 0 {
      Accumulated(bounds, counts, seen, i - 1);
    } else {
      CountNone(seen, UpTo(bounds, -1));
    }
    forall x
      ensures UpTo(bounds, i)(x) <==> UpTo(bounds, i - 1)(x) || InBucket(bounds, i)(x)
      ensures !(UpTo(bounds, i - 1)(x) && InBucket(bounds, i)(x))
    {
      if i < |bounds| {
        ReachedNext(bounds, i, x);
      }
    }
    CountSplit(seen, UpTo(bounds, i - 1), InBucket(bounds, i), UpTo(bounds, i));
  }

  lemma UpToMono(bounds: seq<real>, seen: seq<real>, i: int, j: int)
    requires i <= j
    ensures Count(seen, UpTo(bounds, i)) <= Count(seen, UpTo(bounds, j))
  {
  }

  lemma AscendingUpTo(bounds: seq<real>, seen: seq<real>, i: nat)
    requires i < |bounds| && Ascending(bounds)
    ensures Count(seen, UpTo(bounds, i)) == Count(seen, AtMost(bounds[i]))
  {
  }

  lemma Rendering(bounds: seq<real>, counts: seq<nat>, seen: seq<real>)
    requires Tallied(bounds, counts, seen)
    ensures forall i :: 0 <= i < |bounds| ==> Cumulative(counts, i) == Count(seen, AtMost(Highest(bounds, i)))
    ensures Cumulative(counts, |bounds|) == |seen|
    ensures forall i, j :: 0 <= i < j < |counts| ==> Cumulative(counts, i) <= Cumulative(counts, j)
    ensures Ascending(bounds) ==>
        forall i :: 0 <= i < |bounds| ==> Cumulative(counts, i) == Count(seen, AtMost(bounds[i]))
  {
    forall i | 0 <= i < |counts|
      ensures Cumulative(counts, i) == Count(seen, UpTo(bounds, i))
    {
      Accumulated(bounds, counts, seen, i);
    }
    forall i, j | 0 <= i < j < |counts|
      ensures Cumulative(counts, i) <= Cumulative(counts, j)
    {
      UpToMono(bounds, seen, i, j);
    }
    UpToHighest(bounds, seen);
    CountAll(seen, UpTo(bounds, |bounds|));
    assert Cumulative(counts, |bounds|) == |seen|;
    if Ascending(bounds) {
      forall i | 0 <= i < |bounds|
        ensures Cumulative(counts, i) == Count(seen, AtMost(bounds[i]))
      {
        AscendingUpTo(bounds, seen, i);
      }
    }
  }

  lemma {:induction false} ReachedIff(bounds: seq<real>, i: nat, x: real)
    requires i < |bounds|
    ensures Reached(bounds, i, x) <==> x <= Highest(bounds, i)
  {
    ReachedNext(bounds, i, x);
    if i > 0 {
      ReachedIff(bounds, i - 1, x);
    }
  }

  lemma UpToHighest(bounds: seq<real>, seen: seq<real>)
    ensures forall i :: 0 <= i < |bounds| ==> Count(seen, UpTo(bounds, i)) == Count(seen, AtMost(Highest(bounds, i)))
  {
    forall i | 0 <= i < |bounds|
      ensures Count(seen, UpTo(bounds, i)) == Count(seen, AtMost(Highest(bounds, i)))
    {
      forall x
        ensures UpTo(bounds, i)(x) <==> AtMost(Highest(bounds, i))(x)
      {
        ReachedIff(bounds, i, x);
      }
      CountSame(seen, UpTo(bounds, i), AtMost(Highest(bounds, i)));
    }
  }

  lemma {:induction false} CountSame(seen: seq<real>, p: real -> bool, q: real -> bool)
    requires forall x :: p(x) <==> q(x)
    ensures Count(seen, p) == Count(seen, q)
  {
    if seen != [] {
      CountSame(seen[..|seen| - 1], p, q);
    }
  }

  /** On these observations every rendered bucket is the number of observations at or below its bound. */
  predicate Exact(bounds: seq<real>, seen: seq<real>) {
    forall i :: 0 <= i < |bounds| ==> Count(seen, UpTo(bounds, i)) == Count(seen, AtMost(bounds[i]))
  }

  /** Buckets count up to their own bounds, whatever is observed, exactly when the bounds ascend. */
  lemma BucketsAreExactIff(bounds: seq<real>)
    ensures (forall seen: seq<real> :: Exact(bounds, seen)) <==> Ascending(bounds)
  {
    if Ascending(bounds) {
      forall seen: seq<real>
        ensures Exact(bounds, seen)
      {
        forall i | 0 <= i < |bounds|
          ensures Count(seen, UpTo(bounds, i)) == Count(seen, AtMost(bounds[i]))
        {
          AscendingUpTo(bounds, seen, i);
        }
      }
    } else {
      var i, j :| 0 <= i < j < |bounds| && bounds[i] > bounds[j];
      var seen := [bounds[i]];
      assert Reached(bounds, j, seen[0]);
      assert UpTo(bounds, j)(seen[0]) && !AtMost(bounds[j])(seen[0]);
      CountOne(bounds[i], UpTo(bounds, j));
      CountOne(bounds[i], AtMost(bounds[j]));
      assert Count(seen, UpTo(bounds, j)) == 1 && Count(seen, AtMost(bounds[j])) == 0;
      assert !Exact(bounds, seen);
    }
  }

  // ---------------------------------------------------------------- what is printed

  /** On these observations every printed bucket is the number of observations at or below its printed label. */
  predicate ExactAsPrinted(bounds: seq<real>, seen: seq<real>) {
    forall i :: 0 <= i < |bounds| ==> Count(seen, UpTo(bounds, i)) == Count(seen, AtMost(Printed(bounds[i]) as real))
  }

  lemma OneObservation(x: real, a: real, b: real)
    ensures Count([x], AtMost(a)) == Count([x], AtMost(b)) <==> (x <= a <==> x <= b)
  {
    CountOne(x, AtMost(a));
    CountOne(x, AtMost(b));
  }

  /** The printed buckets mean what Prometheus says they mean, whatever is observed, exactly when every bound is
      printed as the highest bound so far. */
  lemma PrintedBucketsAreExactIff(bounds: seq<real>)
    ensures (forall seen: seq<real> :: ExactAsPrinted(bounds, seen)) <==> Labelled(bounds)
  {
    if Labelled(bounds) {
      forall seen: seq<real>
        ensures ExactAsPrinted(bounds, seen)
      {
        UpToHighest(bounds, seen);
      }
    } else {
      var i :| 0 <= i < |bounds| && Printed(bounds[i]) as real != Highest(bounds, i);
      var shown, high := Printed(bounds[i]) as real, Highest(bounds, i);
      var x := if shown < high then high else shown;
      UpToHighest(bounds, [x]);
      OneObservation(x, high, shown);
      assert !ExactAsPrinted(bounds, [x]);
    }
  }

  /** For ascending bounds that means: every bound is an integer. */
  lemma AscendingBoundsAreLabelledIff(bounds: seq<real>)
    requires Ascending(bounds)
    ensures Labelled(bounds) <==> forall i :: 0 <= i < |bounds| ==> Printed(bounds[i]) as real == bounds[i]
  {
    forall i | 0 <= i < |bounds|
      ensures Highest(bounds, i) == bounds[i]
    {
      AscendingHighest(bounds, i);
    }
  }

  lemma {:induction false} AscendingHighest(bounds: seq<real>, i: nat)
    requires Ascending(bounds) && i < |bounds|
    ensures Highest(bounds, i) == bounds[i]
  {
    if i > 0 {
      AscendingHighest(bounds, i - 1);
    }
  }

  /** An ascending bound of one half is printed as 0, and then counts an observation above its label. */
  lemma HalfIsPrintedAsZero()
    ensures Ascending([0.5]) && Printed(0.5) == 0
    ensures Count([0.25], UpTo([0.5], 0)) == 1 && Count([0.25], AtMost(0.0)) == 0
  {
    CountOne(0.25, UpTo([0.5], 0));
    CountOne(0.25, AtMost(0.0));
    assert 0.25 <= [0.5][0] && Reached([0.5], 0, 0.25);
  }

  lemma PrintedInteger(n: int)
    ensures Printed(n as real) == n
  {
  }

  /** The default bounds ascend and are integers, so their buckets are exact as printed. */
  lemma DefaultBucketsAreExact(seen: seq<real>)
    ensures Ascending(DEFAULT_BUCKETS) && ExactAsPrinted(DEFAULT_BUCKETS, seen)
  {
    DefaultBoundsAreIntegers();
    AscendingBoundsAreLabelledIff(DEFAULT_BUCKETS);
    PrintedBucketsAreExactIff(DEFAULT_BUCKETS);
  }

  lemma DefaultBoundsAreIntegers()
    ensures Ascending(DEFAULT_BUCKETS)
    ensures forall i :: 0 <= i < |DEFAULT_BUCKETS| ==> Printed(DEFAULT_BUCKETS[i]) as real == DEFAULT_BUCKETS[i]
  {
    forall i | 0 <= i < |DEFAULT_BUCKETS|
      ensures Printed(DEFAULT_BUCKETS[i]) as real == DEFAULT_BUCKETS[i]
    {
      PrintedInteger(DEFAULT_BUCKETS[i].Floor);
    }
  }
}

/**
 * The A/B allocator (`core/tuning/ab_test.py`). One SHA-256 digest decides both whether a key is in the
 * experiment (`% 10000` against the traffic threshold) and which variant it gets (`% n`). SHA-256 itself is an
 * arbitrary function to the naturals here; the split is stated over runs of consecutive digest values.
 */
module AbTest {
  import opened Basics
  import opened NumberTheory

  /** Python's `int(x)`: truncation toward zero. */
  function Truncate(x: real): (n: int)
    ensures x >= 0.0 ==> n as real <= x < n as real + 1.0
    ensures x <= 0.0 ==> n as real - 1.0 < x <= n as real
  {
    if x >= 0.0 then x.Floor else -((-x).Floor)
  }

  datatype Allocator = Allocator(variants: seq<Variant>, traffic: real) {

    function Threshold(): int {
      Truncate(traffic * 100.0)
    }

    /** The position of the variant that a digest selects, if any. */
    function Slot(digest: nat): Option<nat> {
      if variants == [] then None
      else if digest % 10000 >= Threshold() then None
      else Some(digest % |variants|)
    }

    function Allocate(digest: nat): Option<Variant> {
      match Slot(digest)
      case None => None
      case Some(i) => Some(variants[i])
    }

    /** The number of buckets let through: the threshold, held inside 0..10000. */
    function OpenBuckets(): (t: nat)
      ensures t <= 10000
      ensures 0.0 <= traffic <= 100.0 ==> t as real <= traffic * 100.0 < t as real + 1.0
    {
      if Threshold() < 0 then 0 else if Threshold() > 10000 then 10000 else Threshold()
    }

    function Common(): nat
      requires variants != []
    {
      Gcd(10000, |variants|)
    }

    function Period(): (l: int)
      requires variants != []
    {
      Lcm(10000, |variants|)
    }

    /** The digests in one period starting at `s` that select variant `i`. */
    ghost function Hits(i: nat, s: nat): set<nat>
      requires variants != []
    {
      set h: nat | s <= h < s + Period() && Slot(h) == Some(i)
    }
  }

  /** A whole bucket is let through when it ends at or below the traffic share, counted in hundredths of a percent. */
  lemma {:induction false} ThresholdInBuckets(a: Allocator, bucket: nat)
    ensures bucket < a.Threshold() <==> bucket as real + 1.0 <= a.traffic * 100.0
  {}

  /** A digest is allocated exactly when its bucket is let through, and then to the variant at digest mod n. */
  lemma {:induction false} AllocateExactly(a: Allocator, h: nat)
    ensures a.Allocate(h).Some? <==> a.variants != [] && (h % 10000) as real + 1.0 <= a.traffic * 100.0
    ensures a.Allocate(h).Some? ==> a.Allocate(h).value == a.variants[h % |a.variants|]
  {
    ThresholdInBuckets(a, h % 10000);
  }

  /** The numbers below `t` congruent to `r` modulo `g`. */
  ghost function Residues(t: nat, g: nat, r: nat): set<nat>
    requires g > 0
  {
    set b: nat | b < t && b % g == r
  }

  lemma {:induction false} Successor(t: nat, g: nat)
    requires t > 0 && g > 0
    ensures (t - 1) % g == g - 1 ==> t % g == 0 && t / g == (t - 1) / g + 1
    ensures (t - 1) % g != g - 1 ==> t % g == (t - 1) % g + 1 && t / g == (t - 1) / g
  {
    var q, m := (t - 1) / g, (t - 1) % g;
    if m == g - 1 {
      ModOf(t, g, q + 1, 0);
    } else {
      ModOf(t, g, q, m + 1);
    }
  }

  lemma {:induction false} ResiduesSize(t: nat, g: nat, r: nat)
    requires r < g
    ensures |Residues(t, g, r)| == t / g + (if r < t % g then 1 else 0)
  {
    if t == 0 {
      ModOf(0, g, 0, 0);
      assert Residues(t, g, r) == {};
    } else {
      ResiduesSize(t - 1, g, r);
      Successor(t, g);
      NextResidue(t, g, r);
    }
  }

  lemma {:induction false} NextResidue(t: nat, g: nat, r: nat)
    requires t > 0 && g > 0
    ensures |Residues(t, g, r)| == |Residues(t - 1, g, r)| + (if (t - 1) % g == r then 1 else 0)
  {
    if (t - 1) % g == r {
      assert Residues(t, g, r) == Residues(t - 1, g, r) + {t - 1};
    } else {
      assert Residues(t, g, r) == Residues(t - 1, g, r);
    }
  }

  /** Bucket and variant of one digest agree modulo the common divisor. */
  lemma {:induction false} BucketMatchesSlot(h: nat, a: nat, b: nat)
    requires a > 0 && b > 0
    ensures (h % a) % Gcd(a, b) == (h % b) % Gcd(a, b)
  {
    var p, q := GcdDivides(a, b);
    SameRemainder(h, a, b, p, q, Gcd(a, b));
  }

  lemma {:induction false} SameRemainder(h: nat, a: nat, b: nat, p: int, q: int, g: int)
    requires a > 0 && b > 0 && g > 0
    requires a == p * g && b == q * g
    ensures (h % a) % g == (h % b) % g
  {
    var x, y, i, j := h % a, h % b, h / a, h / b;
    MultipleDifference(h, x, y, i, j, a, b, p, q, g);
    ModEqualIff(x, y, g);
  }

  lemma {:induction false} MultipleDifference(h: int, x: int, y: int, i: int, j: int, a: int, b: int, p: int, q: int,
                                              g: int)
    requires a == p * g && b == q * g
    requires h == i * a + x == j * b + y
    ensures Divides(g, x - y)
  {
    Associate(i, p, g);
    Associate(j, q, g);
    assert x - y == (j * q - i * p) * g;
  }

  /** Digests in one period are told apart by bucket and variant together. */
  lemma {:induction false} SameBucketAndSlot(x: nat, y: nat, s: nat, a: nat, b: nat)
    requires a > 0 && b > 0
    requires s <= x < s + Lcm(a, b) && s <= y < s + Lcm(a, b)
    requires x % a == y % a && x % b == y % b
    ensures x == y
  {
    ModEqualIff(x, y, a);
    ModEqualIff(x, y, b);
    LcmIsLeast(a, b, x - y);
    var k :| x - y == k * Lcm(a, b);
    QuotientRemainderUnique(Lcm(a, b), 0, x - s, k, y - s);
  }

  /**
   * The exact split: over any full period of digests, variant `i` gets one digest for each open bucket that is
   * congruent to `i` modulo the common divisor of 10000 and the number of variants.
   */
  lemma {:induction false} SplitOverOnePeriod(a: Allocator, i: nat, s: nat)
    requires i < |a.variants|
    ensures |a.Hits(i, s)| == |Residues(a.OpenBuckets(), a.Common(), i % a.Common())|
  {
    var n, t := |a.variants|, a.OpenBuckets();
    var hits, buckets := a.Hits(i, s), Residues(t, a.Common(), i % a.Common());
    var bucket := (h: nat) => h % 10000;
    forall h | h in hits ensures bucket(h) in buckets {
      BucketMatchesSlot(h, 10000, n);
    }
    forall x, y | x in hits && y in hits && bucket(x) == bucket(y) ensures x == y {
      SameBucketAndSlot(x, y, s, 10000, n);
    }
    forall b | b in buckets ensures exists h :: h in hits && bucket(h) == b {
      var h := HitInBucket(a, i, s, b);
      assert h in hits && bucket(h) == b;
    }
    SameSize(hits, buckets, bucket);
  }

  ghost predicate AllDifferent(variants: seq<Variant>) {
    forall j, k :: 0 <= j < k < |variants| ==> variants[j] != variants[k]
  }

  /** The digests in one period starting at `s` that are given this variant. */
  ghost function GivenTo(a: Allocator, v: Variant, s: nat): set<nat>
    requires a.variants != []
  {
    set h: nat | s <= h < s + a.Period() && a.Allocate(h) == Some(v)
  }

  /** The split of the variants themselves: in any period so many digests get the `i`-th of distinct variants. */
  lemma {:induction false} AllocationsOverOnePeriod(a: Allocator, i: nat, s: nat)
    requires i < |a.variants| && AllDifferent(a.variants)
    ensures |GivenTo(a, a.variants[i], s)| == |Residues(a.OpenBuckets(), a.Common(), i % a.Common())|
  {
    SplitOverOnePeriod(a, i, s);
    forall h: nat ensures a.Allocate(h) == Some(a.variants[i]) <==> a.Slot(h) == Some(i) { AllocateExactly(a, h); }
    assert a.Hits(i, s) == GivenTo(a, a.variants[i], s);
  }

  lemma {:induction false} HitInBucket(a: Allocator, i: nat, s: nat, b: nat) returns (h: nat)
    requires i < |a.variants|
    requires b < a.OpenBuckets() && b % a.Common() == i % a.Common()
    ensures h in a.Hits(i, s) && h % 10000 == b
  {
    var n := |a.variants|;
    h := SolveBelow(10000, n, b, i, s);
  }

  /** Any two variants differ by at most one digest per period. */
  lemma {:induction false} SplitIsBalanced(a: Allocator, i: nat, j: nat, s: nat, s': nat)
    requires i < |a.variants| && j < |a.variants|
    ensures |a.Hits(i, s)| <= |a.Hits(j, s')| + 1
  {
    SplitOverOnePeriod(a, i, s);
    SplitOverOnePeriod(a, j, s');
    ResiduesSize(a.OpenBuckets(), a.Common(), i % a.Common());
    ResiduesSize(a.OpenBuckets(), a.Common(), j % a.Common());
  }

  /** Do all variants get equally many digests in every period? */
  ghost predicate IsEven(a: Allocator)
    requires a.variants != []
  {
    forall i: nat, j: nat, s: nat, s': nat :: i < |a.variants| && j < |a.variants| ==>
      |a.Hits(i, s)| == |a.Hits(j, s')|
  }

  /** The split is even exactly when the common divisor of 10000 and the number of variants divides the threshold. */
  lemma {:induction false} EvenExactly(a: Allocator)
    requires a.variants != []
    ensures IsEven(a) <==> a.OpenBuckets() % a.Common() == 0
  {
    var g, t := a.Common(), a.OpenBuckets();
    if t % g == 0 {
      forall i: nat, j: nat, s: nat, s': nat | i < |a.variants| && j < |a.variants|
        ensures |a.Hits(i, s)| == |a.Hits(j, s')|
      {
        HitsInClosedForm(a, i, s);
        HitsInClosedForm(a, j, s');
      }
    } else {
      var r := t % g;
      CommonIsAtMost(a);
      HitsInClosedForm(a, 0, 0);
      HitsInClosedForm(a, r, 0);
      ModOf(0, g, 0, 0);
      ModOf(r, g, 0, r);
      assert |a.Hits(0, 0)| != |a.Hits(r, 0)|;
    }
  }

  lemma {:induction false} HitsInClosedForm(a: Allocator, i: nat, s: nat)
    requires i < |a.variants|
    ensures var g, t := a.Common(), a.OpenBuckets();
            |a.Hits(i, s)| == t / g + (if i % g < t % g then 1 else 0)
  {
    SplitOverOnePeriod(a, i, s);
    ResiduesSize(a.OpenBuckets(), a.Common(), i % a.Common());
  }

  lemma {:induction false} CommonIsAtMost(a: Allocator)
    requires a.variants != []
    ensures a.Common() <= |a.variants|
  {
    var p, q := GcdDivides(10000, |a.variants|);
    if a.Common() > |a.variants| {
      assert q > 0 by { if q <= 0 { MulMonotone(q, 0, a.Common()); } }
      MulMonotone(1, q, a.Common());
    }
  }

  /** One hundredth of a percent of the traffic and two variants: the second gets nothing. */
  lemma {:induction false} SecondVariantStarves(a: Allocator, s: nat)
    requires |a.variants| == 2 && a.traffic == 0.01
    ensures a.Hits(1, s) == {} && a.Hits(0, s) != {}
  {
    assert Gcd(10000, 2) == 2 by {
      assert Gcd(2, 0) == 2;
      ModOf(10000, 2, 5000, 0);
    }
    assert a.OpenBuckets() == 1;
    StarvedVariants(a, 1, s);
    StarvedVariants(a, 0, s);
  }

  /** With all traffic let through, every variant gets exactly 10000 / gcd digests per period. */
  lemma {:induction false} FullTrafficIsEven(a: Allocator, i: nat, s: nat)
    requires i < |a.variants|
    requires a.traffic >= 100.0
    ensures |a.Hits(i, s)| * a.Common() == 10000
  {
    var g := a.Common();
    SplitOverOnePeriod(a, i, s);
    ResiduesSize(10000, g, i % g);
    var p, q := GcdDivides(10000, |a.variants|);
    ModOf(10000, g, p, 0);
  }

  /** A variant gets no traffic at all exactly when its residue is not among the open buckets. */
  lemma {:induction false} StarvedVariants(a: Allocator, i: nat, s: nat)
    requires i < |a.variants|
    ensures a.Hits(i, s) == {} <==> i % a.Common() >= a.OpenBuckets()
  {
    var g, t := a.Common(), a.OpenBuckets();
    SplitOverOnePeriod(a, i, s);
    ResiduesSize(t, g, i % g);
    if t < g {
      ModOf(t, g, 0, t);
    } else {
      QuotientIsPositive(t, g);
    }
    assert a.Hits(i, s) == {} <==> |a.Hits(i, s)| == 0;
  }

  lemma {:induction false} QuotientIsPositive(t: nat, g: nat)
    requires 0 < g <= t
    ensures t / g > 0
  {
    if t / g <= 0 {
      MulMonotone(t / g, 0, g);
    }
  }

  /** The digests among `len` successive ones that fall into the first `t` buckets. */
  ghost function Open(t: nat, s: nat, len: nat): set<nat> {
    set h: nat | s <= h < s + len && h % 10000 < t
  }

  lemma {:induction false} OpenMeansAllocated(a: Allocator, h: nat)
    requires a.variants != []
    ensures a.Allocate(h).Some? <==> h % 10000 < a.OpenBuckets()
  {}

  /** The whole experiment receives exactly its share: T of every 10000 digests of the period. */
  lemma {:induction false} TrafficShare(a: Allocator, s: nat)
    requires a.variants != []
    ensures |set h: nat | s <= h < s + a.Period() && a.Allocate(h).Some?| * 10000 == a.OpenBuckets() * a.Period()
  {
    var t, l := a.OpenBuckets(), a.Period();
    var p, q := LcmQuotients(10000, |a.variants|);
    OpenPerBlocks(t, s, q);
    forall h: nat ensures a.Allocate(h).Some? <==> h % 10000 < t { OpenMeansAllocated(a, h); }
    assert Open(t, s, l) == set h: nat | s <= h < s + l && a.Allocate(h).Some?;
    Scale(q, t);
  }

  lemma {:induction false} Scale(q: int, t: int)
    ensures (q * t) * 10000 == t * (10000 * q)
  {}

  /** `q` successive blocks of 10000 digests hold `t` open ones each. */
  lemma {:induction false} OpenPerBlocks(t: nat, s: nat, q: nat)
    requires t <= 10000
    ensures |Open(t, s, 10000 * q)| == q * t
  {
    if q == 0 {
      assert Open(t, s, 0) == {};
    } else {
      var before := 10000 * (q - 1);
      OpenPerBlocks(t, s, q - 1);
      OpenInBlock(t, s + before);
      assert Open(t, s, 10000 * q) == Open(t, s, before) + Open(t, s + before, 10000);
      assert Open(t, s, before) !! Open(t, s + before, 10000);
      assert q * t == (q - 1) * t + t;
    }
  }

  lemma {:induction false} OpenInBlock(t: nat, s: nat)
    requires t <= 10000
    ensures |Open(t, s, 10000)| == t
  {
    ResiduesSize(t, 1, 0);
    var block, buckets := Open(t, s, 10000), Residues(t, 1, 0);
    var bucket := (h: nat) => h % 10000;
    forall b | b in buckets ensures exists h :: h in block && bucket(h) == b {
      var h: nat := s + (b - s) % 10000;
      assert h in block && bucket(h) == b;
    }
    SameSize(block, buckets, bucket);
  }

  /** Allocation repeats with the period, and the period is the least common multiple of 10000 and n. */
  lemma {:induction false} AllocationIsPeriodic(a: Allocator, h: nat)
    requires a.variants != []
    ensures a.Allocate(h + a.Period()) == a.Allocate(h)
  {
    var n, l := |a.variants|, a.Period();
    var p, q := LcmQuotients(10000, n);
    ModEqualIff(h + l, h, n);
    ModEqualIff(h + l, h, 10000);
    assert h + l - h == p * n;
    assert h + l - h == q * 10000;
  }
}

/** The grid as a mixed-radix count: every combination once, in lexicographic order. */
module GridLaws {
  import opened Basics
  import opened ParameterSpace
  import opened NumberTheory
  import opened Rounding

  /** A position in each list. */
  ghost predicate IsChoice(lists: seq<seq<Value>>, digits: seq<nat>) {
    |digits| == |lists| && forall i :: 0 <= i < |lists| ==> digits[i] < |lists[i]|
  }

  function Pick(lists: seq<seq<Value>>, digits: seq<nat>): seq<Value>
    requires IsChoice(lists, digits)
  {
    seq(|lists|, i requires 0 <= i < |lists| => lists[i][digits[i]])
  }

  function Combinations(lists: seq<seq<Value>>): nat {
    if lists == [] then 1 else |lists[0]| * Combinations(lists[1..])
  }

  /** The mixed-radix digits of `k`, most significant first. */
  function Digits(lists: seq<seq<Value>>, k: nat): seq<nat>
    decreases |lists|
  {
    if lists == [] then []
    else
      var t := Combinations(lists[1..]);
      if t == 0 then seq(|lists|, _ => 0) else [k / t] + Digits(lists[1..], k % t)
  }

  /** The number with the given digits. */
  function Encode(lists: seq<seq<Value>>, digits: seq<nat>): nat
    requires |digits| == |lists|
    decreases |lists|
  {
    if lists == [] then 0 else digits[0] * Combinations(lists[1..]) + Encode(lists[1..], digits[1..])
  }

  lemma {:induction false} ProductSize(lists: seq<seq<Value>>)
    ensures |Product(lists)| == Combinations(lists)
  {
    if lists != [] {
      ProductSize(lists[1..]);
    }
  }

  lemma {:induction false} QuotientFits(k: nat, a: nat, t: nat)
    requires k < a * t && t > 0
    ensures k / t < a && k % t < t && (k / t) * t + k % t == k
  {
    if k / t >= a {
      MulMonotone(a, k / t, t);
    }
  }

  lemma {:induction false} NumberFits(i: nat, a: nat, j: nat, t: nat)
    requires i < a && j < t
    ensures i * t + j < a * t
  {
    MulMonotone(i + 1, a, t);
    assert (i + 1) * t == i * t + t;
  }

  lemma {:induction false} PrefixedAt(heads: seq<Value>, tails: seq<seq<Value>>, i: nat, j: nat)
    requires i < |heads| && j < |tails|
    ensures i * |tails| + j < |Prefixed(heads, tails)|
    ensures Prefixed(heads, tails)[i * |tails| + j] == [heads[i]] + tails[j]
  {
    NumberFits(i, |heads|, j, |tails|);
    if i > 0 {
      PrefixedAt(heads[1..], tails, i - 1, j);
      assert i * |tails| + j == |tails| + ((i - 1) * |tails| + j);
    }
  }

  lemma {:induction false} DigitsAreChoice(lists: seq<seq<Value>>, k: nat)
    requires k < Combinations(lists)
    ensures IsChoice(lists, Digits(lists, k))
    decreases |lists|
  {
    if lists != [] {
      var t := Combinations(lists[1..]);
      QuotientFits(k, |lists[0]|, t);
      DigitsAreChoice(lists[1..], k % t);
      var ds := Digits(lists[1..], k % t);
      forall i | 0 <= i < |lists| ensures ([k / t] + ds)[i] < |lists[i]| {
        if i > 0 { assert lists[i] == lists[1..][i - 1]; }
      }
    }
  }

  /** The k-th combination is the mixed-radix decoding of k. */
  lemma {:induction false} KthCombination(lists: seq<seq<Value>>, k: nat)
    requires k < Combinations(lists)
    ensures |Product(lists)| == Combinations(lists)
    ensures IsChoice(lists, Digits(lists, k))
    ensures Product(lists)[k] == Pick(lists, Digits(lists, k))
    decreases |lists|
  {
    ProductSize(lists);
    DigitsAreChoice(lists, k);
    if lists != [] {
      var t := Combinations(lists[1..]);
      QuotientFits(k, |lists[0]|, t);
      KthCombination(lists[1..], k % t);
      PrefixedAt(lists[0], Product(lists[1..]), k / t, k % t);
      assert Pick(lists, Digits(lists, k)) == [lists[0][k / t]] + Pick(lists[1..], Digits(lists[1..], k % t));
    }
  }

  lemma {:induction false} EncodeDigits(lists: seq<seq<Value>>, k: nat)
    requires k < Combinations(lists)
    ensures |Digits(lists, k)| == |lists| && Encode(lists, Digits(lists, k)) == k
    decreases |lists|
  {
    if lists != [] {
      var t := Combinations(lists[1..]);
      QuotientFits(k, |lists[0]|, t);
      EncodeDigits(lists[1..], k % t);
      assert Digits(lists, k)[1..] == Digits(lists[1..], k % t);
    }
  }

  lemma {:induction false} DigitsEncode(lists: seq<seq<Value>>, digits: seq<nat>)
    requires IsChoice(lists, digits)
    ensures Encode(lists, digits) < Combinations(lists)
    ensures Digits(lists, Encode(lists, digits)) == digits
    decreases |lists|
  {
    if lists != [] {
      var t, e := Combinations(lists[1..]), Encode(lists[1..], digits[1..]);
      DigitsEncode(lists[1..], digits[1..]);
      NumberFits(digits[0], |lists[0]|, e, t);
      ModOf(digits[0] * t + e, t, digits[0], e);
    }
  }

  /** Every choice of one value per list occurs at exactly one position. */
  lemma {:induction false} EveryChoiceOnce(lists: seq<seq<Value>>, digits: seq<nat>)
    requires IsChoice(lists, digits)
    ensures var k := Encode(lists, digits);
            && k < |Product(lists)| && Product(lists)[k] == Pick(lists, digits)
            && forall l: nat :: l < |Product(lists)| && Digits(lists, l) == digits ==> l == k
  {
    DigitsEncode(lists, digits);
    KthCombination(lists, Encode(lists, digits));
    forall l: nat | l < |Product(lists)| && Digits(lists, l) == digits ensures l == Encode(lists, digits) {
      EncodeDigits(lists, l);
    }
  }

  predicate LexicographicallyLess(a: seq<nat>, b: seq<nat>)
    requires |a| == |b|
  {
    a != [] && (a[0] < b[0] || (a[0] == b[0] && LexicographicallyLess(a[1..], b[1..])))
  }

  lemma {:induction false} QuotientMonotone(k: nat, l: nat, t: nat)
    requires k < l && t > 0
    ensures k / t < l / t || (k / t == l / t && k % t < l % t)
  {
    if k / t > l / t {
      MulMonotone(l / t + 1, k / t, t);
    }
  }

  /** The combinations come in lexicographic order of positions. */
  lemma {:induction false} GridIsLexicographic(lists: seq<seq<Value>>, k: nat, l: nat)
    requires k < l < Combinations(lists)
    ensures |Digits(lists, k)| == |Digits(lists, l)| && LexicographicallyLess(Digits(lists, k), Digits(lists, l))
    decreases |lists|
  {
    DigitsAreChoice(lists, k);
    DigitsAreChoice(lists, l);
    if lists != [] {
      var t := Combinations(lists[1..]);
      QuotientMonotone(k, l, t);
      QuotientFits(k, |lists[0]|, t);
      QuotientFits(l, |lists[0]|, t);
      if k / t == l / t {
        GridIsLexicographic(lists[1..], k % t, l % t);
      }
      assert Digits(lists, k)[1..] == Digits(lists[1..], k % t) && Digits(lists, l)[1..] == Digits(lists[1..], l % t);
    }
  }

  // ---------------------------------------------------------------- distinct variants

  ghost predicate DistinctNames(names: seq<string>) {
    forall i, j :: 0 <= i < j < |names| ==> names[i] != names[j]
  }

  ghost predicate DistinctValues(list: seq<Value>) {
    forall i, j :: 0 <= i < j < |list| ==> list[i] != list[j]
  }

  /** Of several parameters with one name the last gives the value. */
  lemma {:induction false} LastNameWins(names: seq<string>, combo: seq<Value>, i: nat)
    requires |names| == |combo| && i < |names|
    requires forall j :: i < j < |names| ==> names[j] != names[i]
    ensures names[i] in Zip(names, combo) && Zip(names, combo)[names[i]] == combo[i]
  {
    var n := |names| - 1;
    if i < n {
      LastNameWins(names[..n], combo[..n], i);
    }
  }

  lemma {:induction false} ZipKeys(names: seq<string>, combo: seq<Value>, name: string)
    requires |names| == |combo|
    ensures name in Zip(names, combo) <==> name in names
  {
    if names != [] {
      var n := |names| - 1;
      ZipKeys(names[..n], combo[..n], name);
      assert names == names[..n] + [names[n]];
    }
  }

  lemma {:induction false} ZipAt(names: seq<string>, combo: seq<Value>, i: nat)
    requires |names| == |combo| && i < |names| && DistinctNames(names)
    ensures names[i] in Zip(names, combo) && Zip(names, combo)[names[i]] == combo[i]
  {
    LastNameWins(names, combo, i);
  }

  /** In the k-th variant the i-th parameter's name carries the value that the k-th combination picks for it. */
  lemma {:induction false} VariantValues(space: seq<ParameterRange>, k: nat, i: nat)
    requires AllFinite(space) && k < Combinations(Expansions(space)) && i < |space|
    requires forall j :: i < j < |space| ==> space[j].name != space[i].name
    ensures |Product(Expansions(space))| == Combinations(Expansions(space))
    ensures IsChoice(Expansions(space), Digits(Expansions(space), k))
    ensures var values := Zip(Names(space), Product(Expansions(space))[k]);
            && space[i].name in values
            && Expansions(space)[i] == Expansion(space[i])
            && values[space[i].name] == Expansions(space)[i][Digits(Expansions(space), k)[i]]
            && forall name :: name in values <==> exists j :: 0 <= j < |space| && space[j].name == name
  {
    KthCombination(Expansions(space), k);
    var combo := Product(Expansions(space))[k];
    LastNameWins(Names(space), combo, i);
    forall name ensures name in Zip(Names(space), combo) <==> exists j :: 0 <= j < |space| && space[j].name == name {
      ZipKeys(Names(space), combo, name);
      if name in Names(space) {
        var j :| 0 <= j < |space| && Names(space)[j] == name;
        assert space[j].name == name;
      }
      if j :| 0 <= j < |space| && space[j].name == name {
        assert Names(space)[j] == name;
      }
    }
  }

  /** With distinct names, and distinct values for each, no two variants of the grid have the same dictionary. */
  lemma {:induction false} GridVariantsDiffer(names: seq<string>, lists: seq<seq<Value>>, k: nat, l: nat)
    requires |names| == |lists| && DistinctNames(names)
    requires forall i :: 0 <= i < |lists| ==> DistinctValues(lists[i])
    requires k < l < |Product(lists)|
    ensures Zip(names, Product(lists)[k]) != Zip(names, Product(lists)[l])
  {
    ProductSize(lists);
    KthCombination(lists, k);
    KthCombination(lists, l);
    EncodeDigits(lists, k);
    EncodeDigits(lists, l);
    var i := PicksDiffer(lists, Digits(lists, k), Digits(lists, l));
    ZipAt(names, Product(lists)[k], i);
    ZipAt(names, Product(lists)[l], i);
  }

  lemma {:induction false} PicksDiffer(lists: seq<seq<Value>>, a: seq<nat>, b: seq<nat>) returns (i: nat)
    requires IsChoice(lists, a) && IsChoice(lists, b) && a != b
    requires forall i :: 0 <= i < |lists| ==> DistinctValues(lists[i])
    ensures i < |lists| && Pick(lists, a)[i] != Pick(lists, b)[i]
  {
    i :| 0 <= i < |a| && a[i] != b[i];
    assert DistinctValues(lists[i]);
    var x, y := a[i], b[i];
    assert if x < y then lists[i][x] != lists[i][y] else lists[i][y] != lists[i][x];
  }

  lemma {:induction false} FactorsPositive(lists: seq<seq<Value>>)
    requires Combinations(lists) > 0
    ensures forall i :: 0 <= i < |lists| ==> |lists[i]| > 0
    decreases |lists|
  {
    if lists != [] {
      FactorsPositive(lists[1..]);
      forall i | 0 <= i < |lists| ensures |lists[i]| > 0 {
        if i > 0 { assert lists[i] == lists[1..][i - 1]; }
      }
    }
  }

  /** Two positions of a grid at which a repeated value makes the combinations equal. */
  lemma {:induction false} RepeatedCombination(lists: seq<seq<Value>>, i: nat, x: nat, y: nat)
    returns (k: nat, l: nat)
    requires Combinations(lists) > 0 && i < |lists|
    requires x < y < |lists[i]| && lists[i][x] == lists[i][y]
    ensures k < |Product(lists)| && l < |Product(lists)| && k != l && Product(lists)[k] == Product(lists)[l]
  {
    FactorsPositive(lists);
    var zeros: seq<nat> := seq(|lists|, _ => 0);
    var a, b := zeros[i := x], zeros[i := y];
    k, l := Encode(lists, a), Encode(lists, b);
    EveryChoiceOnce(lists, a);
    EveryChoiceOnce(lists, b);
    DigitsEncode(lists, a);
    DigitsEncode(lists, b);
    assert a[i] != b[i];
    assert Pick(lists, a) == Pick(lists, b);
  }

  ghost predicate AllDiffer(names: seq<string>, lists: seq<seq<Value>>) {
    forall k: nat, l: nat :: k < l < |Product(lists)| ==> Zip(names, Product(lists)[k]) != Zip(names, Product(lists)[l])
  }

  ghost predicate AllDistinct(lists: seq<seq<Value>>) {
    forall i :: 0 <= i < |lists| ==> DistinctValues(lists[i])
  }

  /** With distinct names the dictionaries all differ exactly when no list repeats a value, or some list is empty. */
  lemma {:induction false} GridDiffersExactly(names: seq<string>, lists: seq<seq<Value>>)
    requires |names| == |lists| && DistinctNames(names)
    ensures AllDiffer(names, lists) <==> AllDistinct(lists) || Combinations(lists) == 0
  {
    ProductSize(lists);
    if AllDistinct(lists) {
      forall k: nat, l: nat | k < l < |Product(lists)|
        ensures Zip(names, Product(lists)[k]) != Zip(names, Product(lists)[l])
      {
        GridVariantsDiffer(names, lists, k, l);
      }
    } else if Combinations(lists) > 0 {
      var i :| 0 <= i < |lists| && !DistinctValues(lists[i]);
      var x, y :| 0 <= x < y < |lists[i]| && lists[i][x] == lists[i][y];
      var k, l := RepeatedCombination(lists, i, x, y);
      if k > l { k, l := l, k; }
      assert Zip(names, Product(lists)[k]) == Zip(names, Product(lists)[l]);
    }
  }

  // ---------------------------------------------------------------- whole spaces

  lemma {:induction false} StepsApart(min: real, step: real, i: nat, j: nat)
    requires step > 0.000001 && i < j
    ensures At(min, step, j) - At(min, step, i) > 0.000001
  {}

  /** Values more than a millionth apart stay different when rounded to six decimals. */
  lemma {:induction false} ExpandedValuesDiffer(min: real, step: real, i: nat, j: nat)
    requires step > 0.000001 && i < j
    ensures Round6(At(min, step, i)) < Round6(At(min, step, j))
  {
    StepsApart(min, step, i, j);
  }

  /** Does rounding keep the values apart, wherever the range begins? */
  ghost predicate StepSeparates(step: real) {
    forall min, i: nat, j: nat :: i < j ==> Round6(At(min, step, i)) != Round6(At(min, step, j))
  }

  /** Where a fine step collides: its first two values lie around two millionths. */
  function CollisionAt(step: real): real {
    0.000002 - step / 2.0
  }

  lemma {:induction false} FirstTwoCollide(step: real)
    requires 0.0 < step <= 0.000001
    ensures Round6(At(CollisionAt(step), step, 0)) == Round6(At(CollisionAt(step), step, 1)) == 0.000002
  {
    var y := CollisionAt(step) * 1000000.0;
    assert 1.5 <= y <= 2.0 && 2.0 <= (CollisionAt(step) + step) * 1000000.0 <= 2.5;
    assert At(CollisionAt(step), step, 0) == CollisionAt(step);
    assert At(CollisionAt(step), step, 1) == CollisionAt(step) + step;
  }

  /** The values stay different exactly when the step exceeds one millionth: at one millionth ties to even collide. */
  lemma {:induction false} SeparatesExactly(step: real)
    requires step > 0.0
    ensures StepSeparates(step) <==> step > 0.000001
  {
    if step > 0.000001 {
      forall min, i: nat, j: nat | i < j ensures Round6(At(min, step, i)) != Round6(At(min, step, j)) {
        ExpandedValuesDiffer(min, step, i, j);
      }
    } else {
      FirstTwoCollide(step);
    }
  }

  /** The two-value range on which a fine step collides. */
  function CollidingRange(name: string, step: real): ParameterRange {
    var min := CollisionAt(step);
    ParameterRange(name, Continuous, Some(min), Some(min + step), None, Some(step))
  }

  /** Every step of one millionth or less makes some range expand to the same value twice. */
  lemma {:induction false} FineStepsCollide(name: string, step: real)
    requires 0.0 < step <= 0.000001
    ensures var p := CollidingRange(name, step);
            Finite(p) && StepOf(p) == step && Expansion(p) == [Number(0.000002), Number(0.000002)]
  {
    var p := CollidingRange(name, step);
    assert StepOf(p) == step && Size(p.min.value, p.max.value, step) == 2;
    FirstTwoCollide(step);
  }

  /** The steps for which every continuous range expands to different values. */
  ghost predicate RangesSeparate(step: real) {
    forall p :: NeedsLoop(p) && StepOf(p) == step && Finite(p) ==> DistinctValues(Expansion(p))
  }

  lemma {:induction false} RangesSeparateExactly(step: real)
    requires step > 0.0
    ensures RangesSeparate(step) <==> step > 0.000001
  {
    if step > 0.000001 {
      forall p | NeedsLoop(p) && StepOf(p) == step && Finite(p) ensures DistinctValues(Expansion(p)) {
        ExpansionDiffers(p);
      }
    } else {
      FineStepsCollide("x", step);
      var values := Expansion(CollidingRange("x", step));
      assert values[0] == values[1];
    }
  }

  /** A range that repeats no value: its listed values differ, or its step exceeds the rounding unit. */
  ghost predicate Separated(p: ParameterRange) {
    && (IsListed(p) ==> DistinctValues(p.values.value))
    && (NeedsLoop(p) ==> StepOf(p) > 0.000001 || p.min.value > p.max.value)
  }

  lemma {:induction false} ExpansionDiffers(p: ParameterRange)
    requires Finite(p) && Separated(p)
    ensures DistinctValues(Expansion(p))
  {
    if NeedsLoop(p) {
      forall i, j | 0 <= i < j < |Expansion(p)| ensures Expansion(p)[i] != Expansion(p)[j] {
        ExpandedValuesDiffer(p.min.value, StepOf(p), i, j);
      }
    }
  }

  /** A grid over separated ranges with different names has as many different dictionaries as combinations. */
  lemma {:induction false} SpaceVariantsDiffer(space: seq<ParameterRange>, k: nat, l: nat)
    requires AllFinite(space) && DistinctNames(Names(space))
    requires forall i :: 0 <= i < |space| ==> Separated(space[i])
    requires k < l < |Product(Expansions(space))|
    ensures Zip(Names(space), Product(Expansions(space))[k]) != Zip(Names(space), Product(Expansions(space))[l])
  {
    forall i | 0 <= i < |space| ensures DistinctValues(Expansions(space)[i]) { ExpansionDiffers(space[i]); }
    GridVariantsDiffer(Names(space), Expansions(space), k, l);
  }
}

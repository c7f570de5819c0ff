/** Variant generation from a parameter space (`core/tuning/parameter_space.py`). */
module ParameterSpace {
  import opened Basics
  import opened Rounding

  datatype Kind = Continuous | Discrete | Categorical | Other

  datatype ParameterRange = ParameterRange(
    name: string,
    kind: Kind,
    min: Option<real>,
    max: Option<real>,
    values: Option<seq<Value>>,
    step: Option<real>)

  // ---------------------------------------------------------------- expanding a range

  /** `param.step or (max - min) / 5`: a missing or zero step means a fifth of the range. */
  function EffectiveStep(min: real, max: real, step: Option<real>): real {
    if step.Some? && step.value != 0.0 then step.value else (max - min) / 5.0
  }

  /** The loop variable after `k` rounds. */
  function At(min: real, step: real, k: nat): real {
    min + step * k as real
  }

  /** The loop `while v <= max` is left after `k` rounds. */
  predicate LeavesAfter(min: real, max: real, step: real, k: nat) {
    At(min, step, k) > max
  }

  /** Does the expansion loop terminate? */
  ghost predicate Terminates(min: real, max: real, step: real) {
    exists k :: LeavesAfter(min, max, step, k)
  }

  /** The number of values when the loop terminates: the multiples of the step that fit, and the lower end. */
  function Size(min: real, max: real, step: real): nat
    requires step > 0.0 || min > max
  {
    if min > max then 0 else 1 + ((max - min) / step).Floor
  }

  method ExpandContinuous(min: real, max: real, step: Option<real>) returns (values: seq<Value>)
    requires EffectiveStep(min, max, step) > 0.0 || min > max
    ensures |values| == Size(min, max, EffectiveStep(min, max, step))
    ensures forall k :: 0 <= k < |values| ==> values[k] == Number(Round6(At(min, EffectiveStep(min, max, step), k)))
  {
    var stride := EffectiveStep(min, max, step);
    values := [];
    if min > max {
      return;
    }
    var v := min;
    ghost var n := Size(min, max, stride);
    SizeIsLast(min, max, stride);
    assert At(min, stride, 0) == min;
    while v <= max
      invariant |values| <= n && v == At(min, stride, |values|)
      invariant forall k :: 0 <= k < |values| ==> values[k] == Number(Round6(At(min, stride, k)))
      decreases n - |values|
    {
      Increasing(min, stride, |values|, n);
      values := values + [Number(Round6(v))];
      Advance(min, stride, |values| - 1);
      v := v + stride;
    }
    Increasing(min, stride, n - 1, |values|);
  }

  predicate IsListed(p: ParameterRange) {
    (p.kind == Categorical || p.kind == Discrete) && p.values.Some? && p.values.value != []
  }

  predicate NeedsLoop(p: ParameterRange) {
    p.kind == Continuous && p.min.Some? && p.max.Some?
  }

  function StepOf(p: ParameterRange): real
    requires NeedsLoop(p)
  {
    EffectiveStep(p.min.value, p.max.value, p.step)
  }

  /** The ranges whose expansion comes to an end. */
  predicate Finite(p: ParameterRange) {
    NeedsLoop(p) ==> StepOf(p) > 0.0 || p.min.value > p.max.value
  }

  /** What a range expands to: its listed values, or the rounded multiples of the step that fit, or nothing. */
  function Expansion(p: ParameterRange): seq<Value>
    requires Finite(p)
  {
    if IsListed(p) then p.values.value
    else if NeedsLoop(p) then
      seq(Size(p.min.value, p.max.value, StepOf(p)), k requires 0 <= k => Number(Round6(At(p.min.value, StepOf(p), k))))
    else []
  }

  /** `_expand_range` */
  method ExpandRange(p: ParameterRange) returns (values: seq<Value>)
    requires Finite(p)
    ensures values == Expansion(p)
  {
    if (p.kind == Categorical || p.kind == Discrete) && p.values.Some? && p.values.value != [] {
      return p.values.value;
    }
    if p.kind == Continuous && p.min.Some? && p.max.Some? {
      values := ExpandContinuous(p.min.value, p.max.value, p.step);
      return;
    }
    return [];
  }

  lemma {:induction false} Advance(min: real, step: real, k: nat)
    ensures At(min, step, k + 1) == At(min, step, k) + step
  {}

  lemma {:induction false} Increasing(min: real, step: real, i: nat, j: int)
    requires step >= 0.0
    ensures 0 <= j <= i ==> At(min, step, j) <= At(min, step, i)
  {
    if 0 <= j <= i {
      Times(step, j as real, i as real);
    }
  }

  /** The last value still fits and the next one does not. */
  lemma {:induction false} SizeIsLast(min: real, max: real, step: real)
    requires step > 0.0 && min <= max
    ensures At(min, step, Size(min, max, step) - 1) <= max < At(min, step, Size(min, max, step))
  {
    var q, n := (max - min) / step, Size(min, max, step);
    assert step * q == max - min;
    assert q >= 0.0;
    Straddle(min, max, step, q, n);
  }

  lemma {:induction false} Straddle(min: real, max: real, step: real, q: real, n: nat)
    requires step > 0.0 && step * q == max - min
    requires n > 0 && (n - 1) as real <= q < n as real
    ensures At(min, step, n - 1) <= max < At(min, step, n)
  {
    Times(step, (n - 1) as real, q);
    Times(step, q, n as real);
  }

  lemma {:induction false} Times(step: real, x: real, y: real)
    requires step >= 0.0
    ensures x <= y ==> step * x <= step * y
    ensures x < y && step > 0.0 ==> step * x < step * y
  {
    assert step * y - step * x == step * (y - x);
  }

  /** The expansion loop terminates exactly when the effective step is positive or the range is empty. */
  lemma {:induction false} TerminatesExactly(min: real, max: real, step: real)
    ensures Terminates(min, max, step) <==> step > 0.0 || min > max
  {
    if min > max {
      assert LeavesAfter(min, max, step, 0);
    } else if step > 0.0 {
      SizeIsLast(min, max, step);
      assert LeavesAfter(min, max, step, Size(min, max, step));
    } else {
      forall k: nat ensures !LeavesAfter(min, max, step, k) {}
    }
  }

  /** Without a step of its own a proper range yields six values; a single point never terminates. */
  lemma {:induction false} DefaultStep(min: real, max: real)
    ensures min < max ==> EffectiveStep(min, max, None) > 0.0 && Size(min, max, EffectiveStep(min, max, None)) == 6
    ensures min == max ==> !Terminates(min, max, EffectiveStep(min, max, None))
  {
    if min < max {
      var d := (max - min) / 5.0;
      assert (max - min) / d == 5.0 by { Quotient(max - min, d); }
    } else if min == max {
      TerminatesExactly(min, max, EffectiveStep(min, max, None));
    }
  }

  lemma {:induction false} Quotient(x: real, d: real)
    requires d > 0.0 && x == 5.0 * d
    ensures x / d == 5.0
  {
    assert 5.0 * d / d == 5.0;
  }

  /** Listed values are taken as they are; any other range without both of its ends gives none. */
  lemma {:induction false} ExpansionOfListed(p: ParameterRange)
    requires Finite(p)
    ensures (p.kind == Categorical || p.kind == Discrete) && p.values.Some? && p.values.value != [] ==>
              Expansion(p) == p.values.value
    ensures p.kind == Continuous && (p.min == None || p.max == None) ==> Expansion(p) == []
    ensures p.kind != Continuous && (p.values == None || p.values == Some([])) ==> Expansion(p) == []
    ensures p.kind == Other ==> Expansion(p) == []
  {}

  /** A continuous range comes to an end exactly when its step, or a fifth of the range in its place, is positive. */
  lemma {:induction false} FiniteExactly(p: ParameterRange, min: real, max: real)
    requires p.kind == Continuous && p.min == Some(min) && p.max == Some(max)
    ensures var step := if p.step == None || p.step == Some(0.0) then (max - min) / 5.0 else p.step.value;
            && (Finite(p) <==> step > 0.0 || min > max)
            && (Finite(p) <==> Terminates(min, max, step))
  {
    TerminatesExactly(min, max, StepOf(p));
  }

  /**
   * A continuous range with a step of its own: the values are min, min + step and so on, to six decimals, as far as
   * they do not exceed max. A step of zero counts as none, and then the step is a fifth of the range.
   */
  lemma {:induction false} ExpansionOfSteps(p: ParameterRange, min: real, max: real, k: nat)
    requires Finite(p) && p.kind == Continuous && p.min == Some(min) && p.max == Some(max) && min <= max
    ensures var step := if p.step == None || p.step == Some(0.0) then (max - min) / 5.0 else p.step.value;
            && (k < |Expansion(p)| <==> At(min, step, k) <= max)
            && (k < |Expansion(p)| ==>
                  Expansion(p)[k].Number? && NearestMultiple(At(min, step, k), Expansion(p)[k].n, 1000000.0))
    ensures forall step :: At(min, step, 0) == min && At(min, step, k + 1) == At(min, step, k) + step
  {
    var step := StepOf(p);
    FitsExactly(min, max, step, k);
    RoundedToUnit(At(min, step, k));
    forall step ensures At(min, step, 0) == min && At(min, step, k + 1) == At(min, step, k) + step {
      Advance(min, step, k);
    }
  }

  lemma {:induction false} FitsExactly(min: real, max: real, step: real, k: nat)
    requires step > 0.0 && min <= max
    ensures k < Size(min, max, step) <==> At(min, step, k) <= max
  {
    var n := Size(min, max, step);
    SizeIsLast(min, max, step);
    Increasing(min, step, n - 1, k);
    Increasing(min, step, k, n);
  }

  // ---------------------------------------------------------------- the grid

  /** `itertools.product`: the first list varies slowest. */
  function Product(lists: seq<seq<Value>>): seq<seq<Value>> {
    if lists == [] then [[]] else Prefixed(lists[0], Product(lists[1..]))
  }

  /** Every head in front of every tail, head by head. */
  function Prefixed(heads: seq<Value>, tails: seq<seq<Value>>): (r: seq<seq<Value>>)
    ensures |r| == |heads| * |tails|
  {
    if heads == [] then [] else Under(heads[0], tails) + Prefixed(heads[1..], tails)
  }

  function Under(head: Value, tails: seq<seq<Value>>): seq<seq<Value>> {
    seq(|tails|, i requires 0 <= i < |tails| => [head] + tails[i])
  }

  /** `dict(zip(names, combo))`: a repeated name keeps the last value. */
  function Zip(names: seq<string>, combo: seq<Value>): Parameters {
    if names == [] || combo == [] then map[]
    else
      var n := if |names| <= |combo| then |names| - 1 else |combo| - 1;
      Zip(names[..n], combo[..n])[names[n] := combo[n]]
  }

  function Names(space: seq<ParameterRange>): seq<string> {
    seq(|space|, i requires 0 <= i < |space| => space[i].name)
  }

  ghost predicate AllFinite(space: seq<ParameterRange>) {
    forall i :: 0 <= i < |space| ==> Finite(space[i])
  }

  function Expansions(space: seq<ParameterRange>): seq<seq<Value>>
    requires AllFinite(space)
  {
    seq(|space|, i requires 0 <= i < |space| => Expansion(space[i]))
  }

  /** `generate_grid_variants`; `ids` supplies the generated identifiers. */
  method GenerateGrid(space: seq<ParameterRange>, ids: nat -> string) returns (variants: seq<Variant>)
    requires AllFinite(space)
    ensures |variants| == |Product(Expansions(space))|
    ensures forall k :: 0 <= k < |variants| ==>
              variants[k] == Variant(ids(k), Zip(Names(space), Product(Expansions(space))[k]))
  {
    var lists := ExpandAll(space);
    variants := [];
    var combos := Product(lists);
    for i := 0 to |combos|
      invariant |variants| == i
      invariant forall k :: 0 <= k < i ==> variants[k] == Variant(ids(k), Zip(Names(space), combos[k]))
    {
      variants := variants + [Variant(ids(i), Zip(Names(space), combos[i]))];
    }
  }

  method ExpandAll(space: seq<ParameterRange>) returns (lists: seq<seq<Value>>)
    requires AllFinite(space)
    ensures lists == Expansions(space)
  {
    lists := [];
    for i := 0 to |space|
      invariant lists == Expansions(space)[..i]
    {
      var values := ExpandRange(space[i]);
      lists := lists + [values];
    }
  }
}

/** What scorer trees of any shape guarantee: the score range, and the flat weighted sum behind the nested rounding. */
module ScoringLaws {
  import opened Basics
  import opened Rounding
  import opened Cosine
  import opened Scoring

  // ---------------------------------------------------------------- the leaves

  /** A bare number from a judge is read on a scale of one, ten or a hundred; a JSON score is clamped. */
  lemma {:induction false} JudgeScales(x: real)
    ensures var r := Eval(LlmJudge(BareNumber(x)));
            && r.Ok?
            && (0.0 <= x <= 1.0 ==> r.value == x)
            && (1.0 < x <= 10.0 ==> 10.0 * r.value == x)
            && (10.0 < x <= 100.0 ==> 100.0 * r.value == x)
            && (x > 100.0 ==> r.value == 1.0)
    ensures var r := Eval(LlmJudge(JsonScore(x)));
            && r.Ok?
            && (0.0 <= x <= 1.0 ==> r.value == x)
            && (x < 0.0 ==> r.value == 0.0)
            && (x > 1.0 ==> r.value == 1.0)
  {
    assert x > 100.0 ==> x / 100.0 > 1.0;
  }

  /** A reply without a number counts as one half; no reply, and no registered strategy, raises. */
  lemma {:induction false} JudgeFallback()
    ensures Eval(LlmJudge(Unreadable)) == Ok(0.5)
    ensures Eval(LlmJudge(NoReply)) == Raised && Eval(Unregistered) == Raised
  {}

  /** The positions of the rules that pass. */
  ghost function PassedAt(rules: seq<RuleOutcome>): set<nat> {
    set i: nat | i < |rules| && rules[i] == Pass
  }

  lemma {:induction false} PassedCounts(rules: seq<RuleOutcome>)
    ensures |PassedAt(rules)| == Passed(rules)
  {
    if rules == [] {
      assert PassedAt(rules) == {};
    } else {
      var n := |rules| - 1;
      PassedCounts(rules[..n]);
      assert PassedAt(rules) == PassedAt(rules[..n]) + (if rules[n] == Pass then {n} else {});
    }
  }

  /** A rule score is the share of the rules that pass, to four decimals; it raises exactly when a rule does. */
  lemma {:induction false} RuleScoreIsShare(rules: seq<RuleOutcome>)
    ensures var r := Eval(RuleBased(rules));
            && (r.Ok? <==> Error !in rules)
            && (rules == [] ==> r == Ok(1.0))
            && (r.Ok? && rules != [] ==>
                  NearestMultiple(|PassedAt(rules)| as real / |rules| as real, r.value, 10000.0))
  {
    PassedCounts(rules);
    if rules != [] { RoundedToUnit(Passed(rules) as real / |rules| as real); }
  }

  /** The embedding score is the cosine to four decimals, and zero without a reference. */
  lemma {:induction false} EmbeddingScoreIsCosine(c: Compared)
    ensures Eval(Embedding(None)) == Ok(0.0)
    ensures var r := Eval(Embedding(Some(c)));
            r.Ok? && NearestMultiple(Similarity(c.output, c.reference, c.outputNorm, c.referenceNorm), r.value, 10000.0)
  {
    RoundedToUnit(c.cosine);
  }

  /** An empty composite scores zero; one with an unregistered strategy anywhere at its level raises. */
  lemma {:induction false} CompositeEdges(cs: seq<ScorerConfig>)
    ensures Eval(Composite([])) == Ok(0.0)
    ensures Eval(Composite(cs)) == Raised <==> exists i :: 0 <= i < |cs| && cs[i].strategy == Unregistered
  {
    if i :| 0 <= i < |cs| && cs[i].strategy == Unregistered {
      assert cs[i] in cs;
    }
  }

  /** How many of the outcomes before position `i` are successes. */
  function SuccessesBefore(os: seq<Result<real>>, i: nat): nat
    requires i <= |os|
  {
    if i == 0 then 0 else SuccessesBefore(os, i - 1) + (if os[i - 1].Ok? then 1 else 0)
  }

  /** The individual scores are the successful ones: none missing, none added, in their order. */
  lemma {:induction false} SuccessesInOrder(os: seq<Result<real>>, i: nat)
    requires i < |os| && os[i].Ok?
    ensures |Successes(os)| == SuccessesBefore(os, |os|)
    ensures SuccessesBefore(os, i) < |Successes(os)| && Successes(os)[SuccessesBefore(os, i)] == os[i].value
  {
    var n := |os| - 1;
    SuccessesCount(os);
    SuccessesCount(os[..n]);
    SuccessesOfPrefix(os, n, n);
    if i < n {
      SuccessesInOrder(os[..n], i);
      SuccessesOfPrefix(os, n, i);
    }
  }

  lemma {:induction false} SuccessesOfPrefix(os: seq<Result<real>>, n: nat, i: nat)
    requires i <= n <= |os|
    ensures SuccessesBefore(os[..n], i) == SuccessesBefore(os, i)
  {
    if i > 0 {
      SuccessesOfPrefix(os, n, i - 1);
    }
  }

  lemma {:induction false} SuccessesCount(os: seq<Result<real>>)
    ensures |Successes(os)| == SuccessesBefore(os, |os|)
  {
    if os != [] {
      var n := |os| - 1;
      SuccessesCount(os[..n]);
      SuccessesOfPrefix(os, n, n);
    }
  }

  // ---------------------------------------------------------------- the range

  predicate InUnit(x: real) {
    0.0 <= x <= 1.0
  }

  /** At one level: no negative weight, or a total that normalises every weight to zero. */
  predicate FairWeights(cs: seq<ScorerConfig>) {
    TotalWeight(cs) <= 0.0 || forall c :: c in cs ==> c.weight >= 0.0
  }

  predicate Fair(s: Strategy)
    decreases s
  {
    s.Composite? ==> FairPipeline(s.scorers)
  }

  /** Fair weights at this level and at every nested one. */
  predicate FairPipeline(cs: seq<ScorerConfig>)
    decreases cs
  {
    FairWeights(cs) && forall i :: 0 <= i < |cs| ==> FairConfig(cs[i])
  }

  predicate FairConfig(c: ScorerConfig)
    decreases c
  {
    Fair(c.strategy)
  }

  /** Half a unit of the fourth decimal: the most that one rounding moves a score. */
  const HALF_UNIT := 0.00005

  function Sum(xs: seq<real>): real {
    if xs == [] then 0.0 else Sum(xs[..|xs| - 1]) + xs[|xs| - 1]
  }

  lemma {:induction false} SumOfShares(cs: seq<ScorerConfig>, ws: seq<real>, t: real)
    requires t > 0.0 && |ws| == |cs|
    requires forall i :: 0 <= i < |cs| ==> ws[i] == cs[i].weight / t
    ensures Sum(ws) == TotalWeight(cs) / t
  {
    if cs != [] {
      var n := |cs| - 1;
      SumOfShares(cs[..n], ws[..n], t);
    }
  }

  lemma {:induction false} SumOfZeros(ws: seq<real>)
    requires forall i :: 0 <= i < |ws| ==> ws[i] == 0.0
    ensures Sum(ws) == 0.0
  {
    if ws != [] {
      SumOfZeros(ws[..|ws| - 1]);
    }
  }

  /** Normalised weights add up to one, or are all zero. */
  lemma {:induction false} SharesAddUp(cs: seq<ScorerConfig>)
    ensures Sum(Shares(cs)) == if TotalWeight(cs) > 0.0 then 1.0 else 0.0
  {
    if TotalWeight(cs) > 0.0 {
      SumOfShares(cs, Shares(cs), TotalWeight(cs));
    } else {
      SumOfZeros(Shares(cs));
    }
  }

  lemma {:induction false} FairShares(cs: seq<ScorerConfig>)
    requires FairWeights(cs)
    ensures forall i :: 0 <= i < |cs| ==> Shares(cs)[i] >= 0.0
    ensures Sum(Shares(cs)) <= 1.0
  {
    SharesAddUp(cs);
    forall i | 0 <= i < |cs| ensures Shares(cs)[i] >= 0.0 {
      assert cs[i] in cs;
    }
  }

  lemma {:induction false} Between(v: real, w: real, z: real)
    requires InUnit(v) && w >= 0.0 && z == v * w
    ensures 0.0 <= z <= w
  {
    assert w - z == (1.0 - v) * w;
  }

  /** With non-negative weights the unrounded aggregate is at most the surviving weight. */
  lemma {:induction false} WeightedSumBounds(ws: seq<real>, os: seq<Result<real>>)
    requires |ws| == |os|
    requires forall i :: 0 <= i < |ws| ==> ws[i] >= 0.0
    requires forall i :: 0 <= i < |os| && os[i].Ok? ==> InUnit(os[i].value)
    ensures 0.0 <= WeightedSum(ws, os) <= SurvivingWeight(ws, os) <= Sum(ws)
  {
    if ws != [] {
      var n := |ws| - 1;
      WeightedSumBounds(ws[..n], os[..n]);
      if os[n].Ok? { Between(os[n].value, ws[n], os[n].value * ws[n]); }
    }
  }

  lemma {:induction false} RuleScoreInUnit(rules: seq<RuleOutcome>)
    ensures RuleScore(rules).Ok? ==> InUnit(RuleScore(rules).value)
  {
    if RuleScore(rules).Ok? && rules != [] {
      ShareInUnit(Passed(rules), |rules|);
      Round4KeepsUnitRange(Passed(rules) as real / |rules| as real);
    }
  }

  lemma {:induction false} ShareInUnit(k: nat, n: nat)
    requires k <= n && n > 0
    ensures 0.0 <= k as real / n as real <= 1.0
  {}

  /** At every level the negative shares are too small for rounding to show. */
  predicate Mild(s: Strategy)
    decreases s
  {
    s.Composite? ==> MildPipeline(s.scorers)
  }

  predicate MildPipeline(cs: seq<ScorerConfig>)
    decreases cs
  {
    MildWeights(cs) && forall i :: 0 <= i < |cs| ==> MildConfig(cs[i])
  }

  predicate MildConfig(c: ScorerConfig)
    decreases c
  {
    Mild(c.strategy)
  }

  predicate MildWeights(cs: seq<ScorerConfig>) {
    NegativeSum(Shares(cs)) >= -HALF_UNIT
  }

  /** Non-negative weights are mild. */
  lemma {:induction false} FairIsMild(cs: seq<ScorerConfig>)
    requires FairPipeline(cs)
    ensures MildPipeline(cs)
    decreases cs
  {
    FairShares(cs);
    NoNegatives(Shares(cs));
    forall i | 0 <= i < |cs| ensures MildConfig(cs[i]) { FairConfigIsMild(cs[i]); }
  }

  lemma {:induction false} FairConfigIsMild(c: ScorerConfig)
    requires FairConfig(c)
    ensures MildConfig(c)
    decreases c
  {
    if c.strategy.Composite? { FairIsMild(c.strategy.scorers); }
  }

  lemma {:induction false} NoNegatives(ws: seq<real>)
    requires forall i :: 0 <= i < |ws| ==> ws[i] >= 0.0
    ensures NegativeSum(ws) == 0.0
  {
    if ws != [] {
      NoNegatives(ws[..|ws| - 1]);
    }
  }

  /** Every score of every strategy lies in [0, 1], composites of any depth included. */
  lemma {:induction false} ScoreInUnit(s: Strategy)
    requires Mild(s)
    ensures Eval(s).Ok? ==> InUnit(Eval(s).value)
    decreases s
  {
    match s
    case RuleBased(rules) => RuleScoreInUnit(rules);
    case LlmJudge(reply) =>
    case Embedding(compared) =>
      if compared.Some? {
        var c := compared.value;
        SimilarityInUnitRange(c.output, c.reference, c.outputNorm, c.referenceNorm);
        Round4KeepsUnitRange(c.cosine);
      }
    case Composite(cs) => PipelineInUnit(cs);
    case Unregistered =>
  }

  /** All scores of this pipeline's scorers lie in [0, 1]. */
  predicate ScoresInUnit(cs: seq<ScorerConfig>) {
    forall i :: 0 <= i < |cs| && Outcomes(cs)[i].Ok? ==> InUnit(Outcomes(cs)[i].value)
  }

  /**
   * A pipeline's individual scores and its aggregate lie in [0, 1]. With non-negative weights the aggregate is, before
   * rounding, at most the normalised weight of the scorers that did not fail.
   */
  lemma {:induction false} PipelineInUnit(cs: seq<ScorerConfig>)
    requires MildPipeline(cs)
    ensures ScoresInUnit(cs) && InUnit(Aggregate(cs))
    ensures FairWeights(cs) ==>
              0.0 <= WeightedSum(Shares(cs), Outcomes(cs)) <= SurvivingWeight(Shares(cs), Outcomes(cs)) <= 1.0
    decreases cs
  {
    forall i | 0 <= i < |cs| ensures Outcomes(cs)[i].Ok? ==> InUnit(Outcomes(cs)[i].value) {
      OutcomeAt(cs, i);
      ConfigInUnit(cs[i]);
    }
    MildAggregate(cs);
    if FairWeights(cs) {
      FairShares(cs);
      WeightedSumBounds(Shares(cs), Outcomes(cs));
    }
  }

  lemma {:induction false} ConfigInUnit(c: ScorerConfig)
    requires MildConfig(c)
    ensures Eval(c.strategy).Ok? ==> InUnit(Eval(c.strategy).value)
    decreases c
  {
    ScoreInUnit(c.strategy);
  }

  ghost predicate AlwaysInUnit(ws: seq<real>) {
    forall os: seq<Result<real>> ::
      |os| == |ws| && (forall i :: 0 <= i < |os| && os[i].Ok? ==> InUnit(os[i].value))
      ==> InUnit(WeightedSum(ws, os))
  }

  /** The outcomes in which only scorer `j` succeeds, with score 1. */
  function Only(n: nat, j: nat): seq<Result<real>> {
    seq(n, i => if i == j then Ok(1.0) else Raised)
  }

  lemma {:induction false} OnlyOneSucceeds(ws: seq<real>, os: seq<Result<real>>, j: nat)
    requires |os| == |ws|
    requires forall i :: 0 <= i < |os| ==> os[i] == if i == j then Ok(1.0) else Raised
    ensures WeightedSum(ws, os) == if j < |ws| then ws[j] else 0.0
  {
    if ws != [] {
      OnlyOneSucceeds(ws[..|ws| - 1], os[..|ws| - 1], j);
    }
  }

  /** Weights are not validated: before rounding, the sum stays in [0, 1] for all scores exactly for fair weights. */
  lemma {:induction false} InUnitExactlyWhenFair(cs: seq<ScorerConfig>)
    ensures AlwaysInUnit(Shares(cs)) <==> FairWeights(cs)
  {
    var ws := Shares(cs);
    if FairWeights(cs) {
      FairShares(cs);
      forall os: seq<Result<real>> |
        |os| == |ws| && (forall i :: 0 <= i < |os| && os[i].Ok? ==> InUnit(os[i].value))
        ensures InUnit(WeightedSum(ws, os))
      {
        WeightedSumBounds(ws, os);
      }
    } else {
      var c :| c in cs && c.weight < 0.0;
      var j :| 0 <= j < |cs| && cs[j] == c;
      var os := Only(|ws|, j);
      OnlyOneSucceeds(ws, os, j);
      assert ws[j] < 0.0;
    }
  }

  // ---------------------------------------------------------------- the rounded aggregate

  function NegativePart(w: real): real {
    if w < 0.0 then w else 0.0
  }

  /** The sum of the negative weights. */
  function NegativeSum(ws: seq<real>): real {
    if ws == [] then 0.0 else NegativeSum(ws[..|ws| - 1]) + NegativePart(ws[|ws| - 1])
  }

  lemma {:induction false} SignedPart(v: real, w: real, z: real)
    requires InUnit(v) && z == v * w
    ensures NegativePart(w) <= z <= w - NegativePart(w)
  {
    if w >= 0.0 {
      Between(v, w, z);
    } else {
      Between(v, -w, -z);
    }
  }

  lemma {:induction false} LastTerm(ws: seq<real>, os: seq<Result<real>>)
    requires |ws| == |os| && ws != []
    ensures var n := |ws| - 1;
            WeightedSum(ws, os) == WeightedSum(ws[..n], os[..n]) + Weigh(ZeroIfRaised(os[n]), ws[n])
  {
    var n := |ws| - 1;
    if os[n] == Raised { assert 0.0 * ws[n] == 0.0; }
  }

  /** Whatever the scores, the sum lies between all the negative and all the positive weights. */
  lemma {:induction false} SignedBounds(ws: seq<real>, os: seq<Result<real>>)
    requires |ws| == |os|
    requires forall i :: 0 <= i < |os| && os[i].Ok? ==> InUnit(os[i].value)
    ensures NegativeSum(ws) <= WeightedSum(ws, os) <= Sum(ws) - NegativeSum(ws)
  {
    if ws != [] {
      var n := |ws| - 1;
      SignedBounds(ws[..n], os[..n]);
      SignedPart(ZeroIfRaised(os[n]), ws[n], Weigh(ZeroIfRaised(os[n]), ws[n]));
      LastTerm(ws, os);
    }
  }

  /** The outcomes in which exactly the scorers with negative weights succeed, with score 1. */
  lemma {:induction false} OnlyNegativesSucceed(ws: seq<real>, os: seq<Result<real>>)
    requires |os| == |ws|
    requires forall i :: 0 <= i < |os| ==> os[i] == if ws[i] < 0.0 then Ok(1.0) else Raised
    ensures WeightedSum(ws, os) == NegativeSum(ws)
  {
    if ws != [] {
      OnlyNegativesSucceed(ws[..|ws| - 1], os[..|ws| - 1]);
    }
  }

  lemma {:induction false} MildSum(cs: seq<ScorerConfig>, os: seq<Result<real>>)
    requires MildWeights(cs) && |os| == |cs|
    requires forall i :: 0 <= i < |os| && os[i].Ok? ==> InUnit(os[i].value)
    ensures InUnit(Round4(WeightedSum(Shares(cs), os)))
  {
    SharesAddUp(cs);
    if TotalWeight(cs) <= 0.0 { NoNegatives(Shares(cs)); }
    SignedBounds(Shares(cs), os);
  }

  lemma {:induction false} MildAggregate(cs: seq<ScorerConfig>)
    requires MildWeights(cs) && ScoresInUnit(cs)
    ensures InUnit(Aggregate(cs))
  {
    MildSum(cs, Outcomes(cs));
  }

  /** The same weights, with strategies and replies of any kind. */
  predicate SameWeights(cs: seq<ScorerConfig>, ds: seq<ScorerConfig>) {
    |cs| == |ds| && forall i :: 0 <= i < |cs| ==> cs[i].weight == ds[i].weight
  }

  lemma {:induction false} SameTotal(cs: seq<ScorerConfig>, ds: seq<ScorerConfig>)
    requires SameWeights(cs, ds)
    ensures TotalWeight(cs) == TotalWeight(ds)
  {
    if cs != [] {
      SameTotal(cs[..|cs| - 1], ds[..|ds| - 1]);
    }
  }

  lemma {:induction false} SameShares(cs: seq<ScorerConfig>, ds: seq<ScorerConfig>)
    requires SameWeights(cs, ds)
    ensures Shares(cs) == Shares(ds)
  {
    SameTotal(cs, ds);
  }

  /** Does every pipeline with these weights whose scorers keep to [0, 1] return an aggregate in [0, 1]? */
  ghost predicate PipelinesStayInUnit(cs: seq<ScorerConfig>) {
    forall ds :: SameWeights(cs, ds) && Constructs(ds) && ScoresInUnit(ds) ==> InUnit(Aggregate(ds))
  }

  /** The pipeline of judges of which exactly those with a negative share reply, with score 1. */
  function Spoilers(cs: seq<ScorerConfig>): seq<ScorerConfig> {
    seq(|cs|, i requires 0 <= i < |cs| =>
      ScorerConfig(LlmJudge(if Shares(cs)[i] < 0.0 then JsonScore(1.0) else NoReply), cs[i].weight))
  }

  lemma {:induction false} SpoiledAggregate(cs: seq<ScorerConfig>)
    ensures var ds := Spoilers(cs);
            && SameWeights(cs, ds) && Constructs(ds) && ScoresInUnit(ds)
            && Aggregate(ds) == Round4(NegativeSum(Shares(cs)))
  {
    var ws, ds := Shares(cs), Spoilers(cs);
    SameShares(cs, ds);
    forall i | 0 <= i < |ds| ensures Outcomes(ds)[i] == if ws[i] < 0.0 then Ok(1.0) else Raised { OutcomeAt(ds, i); }
    OnlyNegativesSucceed(ws, Outcomes(ds));
  }

  /**
   * The aggregate that a pipeline returns stays in [0, 1], whatever its strategies answer, exactly when the negative
   * shares add up to no less than minus half a unit of the fourth decimal: rounding hides that much and no more.
   */
  lemma {:induction false} AggregateInUnitExactly(cs: seq<ScorerConfig>)
    ensures PipelinesStayInUnit(cs) <==> NegativeSum(Shares(cs)) >= -HALF_UNIT
  {
    if MildWeights(cs) {
      forall ds | SameWeights(cs, ds) && Constructs(ds) && ScoresInUnit(ds) ensures InUnit(Aggregate(ds)) {
        SameShares(cs, ds);
        MildAggregate(ds);
      }
    } else {
      SpoiledAggregate(cs);
    }
  }

  lemma {:induction false} TwoTerms(v: real, w: real, x: real)
    ensures WeightedSum([w, x], [Ok(v), Raised]) == Weigh(v, w)
  {
    var ws, os := [w, x], [Ok(v), Raised];
    assert ws[..1] == [w] && os[..1] == [Ok(v)] && ws[..1][..0] == [] && os[..1][..0] == [];
    LastTerm([w], [Ok(v)]);
    assert WeightedSum([w], [Ok(v)]) == Weigh(v, w);
  }

  lemma {:induction false} TwoWeights(c: ScorerConfig, d: ScorerConfig)
    ensures TotalWeight([c, d]) == c.weight + d.weight
  {
    assert [c, d][..1] == [c] && [c][..0] == [];
    assert TotalWeight([c]) == c.weight;
  }

  /** Two scorers of weights 2 and -1: the first passes, the second's judge does not answer, and the aggregate is 2. */
  lemma {:induction false} AggregateOfTwo()
    ensures var cs := [ScorerConfig(RuleBased([]), 2.0), ScorerConfig(LlmJudge(NoReply), -1.0)];
            Constructs(cs) && ScoresInUnit(cs) && Aggregate(cs) == 2.0
  {
    var cs := [ScorerConfig(RuleBased([]), 2.0), ScorerConfig(LlmJudge(NoReply), -1.0)];
    TwoWeights(cs[0], cs[1]);
    assert Shares(cs) == [2.0, -1.0];
    OutcomeAt(cs, 0);
    OutcomeAt(cs, 1);
    assert Outcomes(cs) == [Ok(1.0), Raised];
    TwoTerms(1.0, 2.0, -1.0);
  }

  // ---------------------------------------------------------------- the flat sum

  /** A failed scorer keeps its weight and counts as zero. */
  function ZeroIfRaised(r: Result<real>): real {
    if r.Ok? then r.value else 0.0
  }

  function Filled(os: seq<Result<real>>): seq<Result<real>> {
    seq(|os|, i requires 0 <= i < |os| => Ok(ZeroIfRaised(os[i])))
  }

  /** The remaining weights are not renormalised: skipping failed scorers is the same as scoring them zero. */
  lemma {:induction false} FailureCountsAsZero(ws: seq<real>, os: seq<Result<real>>)
    requires |ws| == |os|
    ensures WeightedSum(ws, os) == WeightedSum(ws, Filled(os))
  {
    if ws != [] {
      var n := |ws| - 1;
      FailureCountsAsZero(ws[..n], os[..n]);
      assert Filled(os)[..n] == Filled(os[..n]);
      if os[n] == Raised {
        assert 0.0 * ws[n] == 0.0;
      }
    }
  }

  /** One leaf of a scorer tree: the product of the normalised weights above it, and its value. */
  datatype Leaf = Leaf(weight: real, value: real)

  predicate IsNested(s: Strategy) {
    s.Composite? && s.scorers != [] && Constructs(s.scorers)
  }

  function Leaves(s: Strategy, p: real): seq<Leaf>
    decreases s
  {
    if IsNested(s) then LeavesOf(s.scorers, Shares(s.scorers), |s.scorers|, p)
    else [Leaf(p, ZeroIfRaised(Eval(s)))]
  }

  function LeavesOf(cs: seq<ScorerConfig>, ws: seq<real>, n: nat, p: real): seq<Leaf>
    requires n <= |cs| == |ws|
    decreases cs, n
  {
    if n == 0 then [] else LeavesOf(cs, ws, n - 1, p) + ConfigLeaves(cs[n - 1], Weigh(p, ws[n - 1]))
  }

  function Weigh(p: real, w: real): real {
    p * w
  }

  function ConfigLeaves(c: ScorerConfig, p: real): seq<Leaf>
    decreases c
  {
    Leaves(c.strategy, p)
  }

  function FlatSum(ls: seq<Leaf>): real {
    if ls == [] then 0.0 else FlatSum(ls[..|ls| - 1]) + Weigh(ls[|ls| - 1].weight, ls[|ls| - 1].value)
  }

  /** The number of nested pipelines on the longest path. */
  function Height(s: Strategy): nat
    decreases s
  {
    if IsNested(s) then 1 + MaxHeight(s.scorers, |s.scorers|) else 0
  }

  function MaxHeight(cs: seq<ScorerConfig>, n: nat): (h: nat)
    requires n <= |cs|
    decreases cs, n
  {
    if n == 0 then 0
    else
      var h, k := MaxHeight(cs, n - 1), ConfigHeight(cs[n - 1]);
      if h >= k then h else k
  }

  function ConfigHeight(c: ScorerConfig): nat
    decreases c
  {
    Height(c.strategy)
  }

  /** The value without any rounding at inner nodes. */
  function Exact(s: Strategy): real
    decreases s
  {
    if IsNested(s) then ExactSum(s.scorers, Shares(s.scorers), |s.scorers|) else ZeroIfRaised(Eval(s))
  }

  function ExactSum(cs: seq<ScorerConfig>, ws: seq<real>, n: nat): real
    requires n <= |cs| == |ws|
    decreases cs, n
  {
    if n == 0 then 0.0 else ExactSum(cs, ws, n - 1) + Weigh(ws[n - 1], ConfigExact(cs[n - 1]))
  }

  function ConfigExact(c: ScorerConfig): real
    decreases c
  {
    Exact(c.strategy)
  }

  lemma {:induction false} FlatSumConcat(a: seq<Leaf>, b: seq<Leaf>)
    ensures FlatSum(a + b) == FlatSum(a) + FlatSum(b)
  {
    if b == [] {
      assert a + b == a;
    } else {
      var n := |b| - 1;
      assert (a + b)[..|a| + n] == a + b[..n];
      FlatSumConcat(a, b[..n]);
    }
  }

  /** The exact value is the flat sum over the leaves. */
  lemma {:induction false} ExactIsFlat(s: Strategy, p: real)
    ensures FlatSum(Leaves(s, p)) == Weigh(p, Exact(s))
    decreases s
  {
    if IsNested(s) {
      ExactSumIsFlat(s.scorers, Shares(s.scorers), |s.scorers|, p);
    }
  }

  lemma {:induction false} ExactSumIsFlat(cs: seq<ScorerConfig>, ws: seq<real>, n: nat, p: real)
    requires n <= |cs| == |ws|
    ensures FlatSum(LeavesOf(cs, ws, n, p)) == Weigh(p, ExactSum(cs, ws, n))
    decreases cs, n
  {
    if n > 0 {
      var c, w := cs[n - 1], ws[n - 1];
      var q := Weigh(p, w);
      ExactSumIsFlat(cs, ws, n - 1, p);
      ConfigIsFlat(c, q);
      FlatSumConcat(LeavesOf(cs, ws, n - 1, p), ConfigLeaves(c, q));
    }
  }

  lemma {:induction false} ConfigIsFlat(c: ScorerConfig, p: real)
    ensures FlatSum(ConfigLeaves(c, p)) == Weigh(p, ConfigExact(c))
    decreases c
  {
    ExactIsFlat(c.strategy, p);
  }

  ghost predicate Close(x: real, y: real, e: real) {
    x - e <= y <= x + e
  }

  /** An error of at most `e` in every score is an error of at most `e` times the weight in the weighted sum. */
  lemma {:induction false} ErrorStep(x: real, y: real, e: real, w: real, v: real, u: real, t: real, total: real)
    requires Close(x, y, Weigh(e, t)) && Close(v, u, e) && w >= 0.0 && total == t + w
    ensures Close(x + Weigh(v, w), y + Weigh(w, u), Weigh(e, total))
  {
    ScaledError(v, u, e, w);
    assert e * total == e * t + e * w;
  }

  lemma {:induction false} ScaledError(v: real, u: real, e: real, w: real)
    requires Close(v, u, e) && w >= 0.0
    ensures Close(v * w, w * u, e * w)
  {
    assert (v + e - u) * w >= 0.0 && (u - v + e) * w >= 0.0;
  }

  lemma {:induction false} WeightedError(cs: seq<ScorerConfig>, ws: seq<real>, os: seq<Result<real>>, n: nat, e: real)
    requires n <= |cs| == |ws| == |os|
    requires forall i :: 0 <= i < |ws| ==> ws[i] >= 0.0
    requires forall i :: 0 <= i < n ==> Close(ZeroIfRaised(os[i]), ConfigExact(cs[i]), e)
    ensures Close(WeightedSum(ws[..n], os[..n]), ExactSum(cs, ws, n), Weigh(e, Sum(ws[..n])))
  {
    if n > 0 {
      var k := n - 1;
      WeightedError(cs, ws, os, k, e);
      PrefixSums(ws, os, k);
      ErrorStep(WeightedSum(ws[..k], os[..k]), ExactSum(cs, ws, k), e, ws[k],
                ZeroIfRaised(os[k]), ConfigExact(cs[k]), Sum(ws[..k]), Sum(ws[..n]));
    }
  }

  lemma {:induction false} PrefixSums(ws: seq<real>, os: seq<Result<real>>, k: nat)
    requires k < |ws| == |os|
    ensures WeightedSum(ws[..k + 1], os[..k + 1]) == WeightedSum(ws[..k], os[..k]) + Weigh(ZeroIfRaised(os[k]), ws[k])
    ensures Sum(ws[..k + 1]) == Sum(ws[..k]) + ws[k]
  {
    assert ws[..k + 1][..k] == ws[..k] && os[..k + 1][..k] == os[..k];
    assert ws[..k + 1][k] == ws[k] && os[..k + 1][k] == os[k];
  }

  lemma {:induction false} AtMost(e: real, t: real)
    requires e >= 0.0 && t <= 1.0
    ensures Weigh(e, t) <= e
  {}

  /**
   * A composite tree of any shape evaluates to the flat sum over its leaves of path weight times leaf value, up to
   * half a unit of the fourth decimal for each level of nesting.
   */
  lemma {:induction false} EvalIsNearlyFlat(s: Strategy)
    requires Fair(s)
    ensures Close(FlatSum(Leaves(s, 1.0)), ZeroIfRaised(Eval(s)), HALF_UNIT * Height(s) as real)
  {
    ExactIsFlat(s, 1.0);
    EvalNearExact(s);
  }

  lemma {:induction false} EvalNearExact(s: Strategy)
    requires Fair(s)
    ensures Close(ZeroIfRaised(Eval(s)), Exact(s), HALF_UNIT * Height(s) as real)
    decreases s
  {
    if IsNested(s) {
      var h := MaxHeight(s.scorers, |s.scorers|);
      UnroundedNearExact(s.scorers, h);
      assert HALF_UNIT * (1 + h) as real == HALF_UNIT + HALF_UNIT * h as real;
    }
  }

  lemma {:induction false} UnroundedNearExact(cs: seq<ScorerConfig>, h: nat)
    requires FairPipeline(cs) && h == MaxHeight(cs, |cs|)
    ensures Close(WeightedSum(Shares(cs), Outcomes(cs)), ExactSum(cs, Shares(cs), |cs|), HALF_UNIT * h as real)
    decreases cs
  {
    var os, e := Outcomes(cs), HALF_UNIT * h as real;
    forall i | 0 <= i < |cs| ensures Close(ZeroIfRaised(os[i]), ConfigExact(cs[i]), e) {
      OutcomeAt(cs, i);
      ConfigNearExact(cs[i]);
      HeightBelowMax(cs, i, |cs|);
    }
    FairShares(cs);
    WholeError(cs, Shares(cs), os, e);
  }

  lemma {:induction false} WholeError(cs: seq<ScorerConfig>, ws: seq<real>, os: seq<Result<real>>, e: real)
    requires |cs| == |ws| == |os| && Sum(ws) <= 1.0 && e >= 0.0
    requires forall i :: 0 <= i < |ws| ==> ws[i] >= 0.0
    requires forall i :: 0 <= i < |cs| ==> Close(ZeroIfRaised(os[i]), ConfigExact(cs[i]), e)
    ensures Close(WeightedSum(ws, os), ExactSum(cs, ws, |cs|), e)
  {
    WeightedError(cs, ws, os, |cs|, e);
    assert ws[..|cs|] == ws && os[..|cs|] == os;
    AtMost(e, Sum(ws));
  }

  lemma {:induction false} HeightBelowMax(cs: seq<ScorerConfig>, i: nat, n: nat)
    requires i < n <= |cs|
    ensures ConfigHeight(cs[i]) <= MaxHeight(cs, n)
  {
    if i < n - 1 {
      HeightBelowMax(cs, i, n - 1);
    }
  }

  lemma {:induction false} ConfigNearExact(c: ScorerConfig)
    requires FairConfig(c)
    ensures Close(ZeroIfRaised(Eval(c.strategy)), ConfigExact(c), HALF_UNIT * ConfigHeight(c) as real)
    decreases c
  {
    EvalNearExact(c.strategy);
  }

  /** The whole pipeline: one more rounding on top of the nested ones. */
  lemma {:induction false} AggregateIsNearlyFlat(cs: seq<ScorerConfig>)
    requires FairPipeline(cs) && cs != [] && Constructs(cs)
    ensures Close(FlatSum(Leaves(Composite(cs), 1.0)), Aggregate(cs), HALF_UNIT * Height(Composite(cs)) as real)
  {
    EvalIsNearlyFlat(Composite(cs));
  }
}

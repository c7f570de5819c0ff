/**
 * The scoring pipeline (`core/scoring/pipeline.py`) with the strategies it runs: rule-based, LLM judge, embedding and
 * nested composites. Whatever a strategy asks of foreign code (a regular expression, JSON, the judge model) appears
 * as the outcome of that call.
 */
module Scoring {
  import opened Basics
  import opened Rounding
  import opened Cosine

  // ---------------------------------------------------------------- strategies

  datatype RuleOutcome = Pass | Fail | Error

  /** What the judge's reply holds: nothing (the call raised), a JSON score, a bare number, or neither. */
  datatype JudgeReply = NoReply | JsonScore(score: real) | BareNumber(number: real) | Unreadable

  /** Two word-count vectors, the square roots of their squared norms, and the cosine computed from them. */
  datatype Comparison =
    Comparison(output: Counts, reference: Counts, outputNorm: real, referenceNorm: real, cosine: real)

  ghost predicate IsCosine(c: Comparison) {
    && IsRoot(c.outputNorm, SquareNorm(c.output))
    && IsRoot(c.referenceNorm, SquareNorm(c.reference))
    && c.cosine == Similarity(c.output, c.reference, c.outputNorm, c.referenceNorm)
  }

  type Compared = c: Comparison | IsCosine(c) witness Comparison(map[], map[], 0.0, 0.0, 0.0)

  datatype Strategy =
    | RuleBased(rules: seq<RuleOutcome>)
    | LlmJudge(reply: JudgeReply)
    | Embedding(compared: Option<Compared>)
    | Composite(scorers: seq<ScorerConfig>)
    | Unregistered

  datatype ScorerConfig = ScorerConfig(strategy: Strategy, weight: real)

  // ---------------------------------------------------------------- leaf scores

  function Passed(rules: seq<RuleOutcome>): (n: nat)
    ensures n <= |rules|
  {
    if rules == [] then 0 else Passed(rules[..|rules| - 1]) + (if rules[|rules| - 1] == Pass then 1 else 0)
  }

  /** `RuleBasedScorer.score`: the rounded share of passed rules; a rule that raises makes the scorer raise. */
  function RuleScore(rules: seq<RuleOutcome>): Result<real> {
    if rules == [] then Ok(1.0)
    else if Error in rules then Raised
    else Ok(Round4(Passed(rules) as real / |rules| as real))
  }

  /** The loop of `RuleBasedScorer.score`, which stops at the first rule that raises. */
  method ScoreRules(rules: seq<RuleOutcome>) returns (r: Result<real>, failed: seq<nat>)
    ensures r == RuleScore(rules)
    ensures r.Ok? ==> |failed| + Passed(rules) == |rules|
    ensures r.Ok? ==> forall k :: k in failed <==> 0 <= k < |rules| && rules[k] == Fail
  {
    failed := [];
    if rules == [] {
      return Ok(1.0), [];
    }
    var passed := 0;
    for i := 0 to |rules|
      invariant Error !in rules[..i]
      invariant passed == Passed(rules[..i])
      invariant |failed| + passed == i
      invariant forall k :: k in failed <==> 0 <= k < i && rules[k] == Fail
    {
      assert rules[..i + 1][..i] == rules[..i];
      if rules[i] == Error {
        return Raised, [];
      } else if rules[i] == Pass {
        passed := passed + 1;
      } else {
        failed := failed + [i];
      }
    }
    assert rules[..|rules|] == rules;
    r := Ok(Round4(passed as real / |rules| as real));
  }

  function Clamp(x: real): real {
    if x > 1.0 then 1.0 else if x < 0.0 then 0.0 else x
  }

  /** `_parse_judge_response`: a bare number above one is read on a ten-point scale, above ten as a percentage. */
  function JudgeScore(reply: JudgeReply): Result<real> {
    match reply
    case NoReply => Raised
    case JsonScore(score) => Ok(Clamp(score))
    case BareNumber(x) =>
      Ok(Clamp(if x > 1.0 then (if x <= 10.0 then x / 10.0 else x / 100.0) else x))
    case Unreadable => Ok(0.5)
  }

  /** `EmbeddingSimilarityScorer.score`: zero without a reference, else the rounded cosine. */
  function EmbeddingScore(compared: Option<Compared>): Result<real> {
    match compared
    case None => Ok(0.0)
    case Some(c) => Ok(Round4(c.cosine))
  }

  // ---------------------------------------------------------------- weights

  function TotalWeight(cs: seq<ScorerConfig>): real {
    if cs == [] then 0.0 else TotalWeight(cs[..|cs| - 1]) + cs[|cs| - 1].weight
  }

  function Share(weight: real, total: real): real {
    if total > 0.0 then weight / total else 0.0
  }

  /** The normalised weights. */
  function Shares(cs: seq<ScorerConfig>): seq<real> {
    seq(|cs|, i requires 0 <= i < |cs| => Share(cs[i].weight, TotalWeight(cs)))
  }

  /** Does `ScoringPipeline(cs)` construct? `get_scorer` raises on an unregistered strategy. */
  predicate Constructs(cs: seq<ScorerConfig>) {
    forall c :: c in cs ==> c.strategy != Unregistered
  }

  // ---------------------------------------------------------------- evaluation

  /** The weighted sum of the scorers that did not raise. */
  function WeightedSum(ws: seq<real>, outcomes: seq<Result<real>>): real
    requires |ws| == |outcomes|
  {
    if ws == [] then 0.0
    else
      var n := |ws| - 1;
      WeightedSum(ws[..n], outcomes[..n]) + (if outcomes[n].Ok? then outcomes[n].value * ws[n] else 0.0)
  }

  /** The weight that survives when failed scorers are skipped. */
  function SurvivingWeight(ws: seq<real>, outcomes: seq<Result<real>>): real
    requires |ws| == |outcomes|
  {
    if ws == [] then 0.0
    else
      var n := |ws| - 1;
      SurvivingWeight(ws[..n], outcomes[..n]) + (if outcomes[n].Ok? then ws[n] else 0.0)
  }

  /** The values of the scorers that did not raise, in order. */
  function Successes(outcomes: seq<Result<real>>): seq<real> {
    if outcomes == [] then []
    else
      var n := |outcomes| - 1;
      Successes(outcomes[..n]) + (if outcomes[n].Ok? then [outcomes[n].value] else [])
  }

  /** What `score` of one strategy returns. */
  function Eval(s: Strategy): Result<real>
    decreases s, 0
  {
    match s
    case RuleBased(rules) => RuleScore(rules)
    case LlmJudge(reply) => JudgeScore(reply)
    case Embedding(compared) => EmbeddingScore(compared)
    case Composite(cs) =>
      if cs == [] then Ok(0.0)
      else if Constructs(cs) then Ok(Round4(WeightedSum(Shares(cs), Outcomes(cs))))
      else Raised
    case Unregistered => Raised
  }

  function Outcomes(cs: seq<ScorerConfig>): (os: seq<Result<real>>)
    ensures |os| == |cs|
    decreases cs, 1
  {
    if cs == [] then [] else [EvalConfig(cs[0])] + Outcomes(cs[1..])
  }

  function EvalConfig(c: ScorerConfig): Result<real>
    decreases c
  {
    Eval(c.strategy)
  }

  lemma {:induction false} OutcomeAt(cs: seq<ScorerConfig>, i: nat)
    requires i < |cs|
    ensures Outcomes(cs)[i] == Eval(cs[i].strategy)
  {
    if i > 0 {
      OutcomeAt(cs[1..], i - 1);
    }
  }

  /** What the pipeline returns as its aggregate. */
  function Aggregate(cs: seq<ScorerConfig>): real {
    Round4(WeightedSum(Shares(cs), Outcomes(cs)))
  }

  // ---------------------------------------------------------------- the pipeline object

  class ScoringPipeline {
    const configs: seq<ScorerConfig>
    var scorers: seq<(Strategy, real)>

    ghost predicate Valid()
      reads this
    {
      && Constructs(configs)
      && |scorers| == |configs|
      && forall i :: 0 <= i < |configs| ==> scorers[i] == (configs[i].strategy, Shares(configs)[i])
    }

    /** `scorers` is filled by `Build`. */
    constructor (configs: seq<ScorerConfig>)
      ensures this.configs == configs && scorers == []
    {
      this.configs := configs;
      scorers := [];
    }

    /** `ScoringPipeline.__init__`: raises at the first unregistered strategy, else stores the normalised scorers. */
    static method Build(configs: seq<ScorerConfig>) returns (r: Result<ScoringPipeline>)
      ensures r.Ok? <==> Constructs(configs)
      ensures r.Ok? ==> fresh(r.value) && r.value.configs == configs && r.value.Valid()
    {
      var p := new ScoringPipeline(configs);
      var total := SumWeights(configs);
      for i := 0 to |configs|
        invariant forall j :: 0 <= j < i ==> configs[j].strategy != Unregistered
        invariant |p.scorers| == i
        invariant forall j :: 0 <= j < i ==> p.scorers[j] == (configs[j].strategy, Shares(configs)[j])
      {
        if configs[i].strategy == Unregistered {
          return Raised;
        }
        var share := if total > 0.0 then configs[i].weight / total else 0.0;
        p.scorers := p.scorers + [(configs[i].strategy, share)];
      }
      r := Ok(p);
    }

    /** `run`: every scorer is awaited first; the exceptions among the results are skipped. */
    method Run() returns (individual: seq<real>, aggregate: real)
      requires Valid()
      ensures individual == Successes(Outcomes(configs))
      ensures aggregate == Aggregate(configs)
      decreases configs, 1
    {
      var results: seq<Result<real>> := [];
      for i := 0 to |scorers|
        invariant |results| == i
        invariant forall j :: 0 <= j < i ==> results[j] == Eval(configs[j].strategy)
      {
        var one := ScoreConfig(configs[i], scorers[i].0);
        results := results + [one];
      }
      forall j | 0 <= j < |configs| ensures results[j] == Outcomes(configs)[j] { OutcomeAt(configs, j); }
      assert results == Outcomes(configs);

      var weightedSum;
      individual, weightedSum := Combine(results, Shares(configs));
      aggregate := Round4(weightedSum);
    }

    /** The aggregation loop of `run`. */
    method Combine(results: seq<Result<real>>, ghost ws: seq<real>) returns (individual: seq<real>, weightedSum: real)
      requires |results| == |scorers| == |ws|
      requires forall i :: 0 <= i < |ws| ==> scorers[i].1 == ws[i]
      ensures individual == Successes(results)
      ensures weightedSum == WeightedSum(ws, results)
    {
      individual := [];
      weightedSum := 0.0;
      for i := 0 to |scorers|
        invariant individual == Successes(results[..i])
        invariant weightedSum == WeightedSum(ws[..i], results[..i])
      {
        assert results[..i + 1][..i] == results[..i] && ws[..i + 1][..i] == ws[..i];
        if results[i].Ok? {
          individual := individual + [results[i].value];
          weightedSum := weightedSum + results[i].value * scorers[i].1;
        }
      }
      assert results[..|scorers|] == results && ws[..|scorers|] == ws;
    }
  }

  method SumWeights(cs: seq<ScorerConfig>) returns (total: real)
    ensures total == TotalWeight(cs)
  {
    total := 0.0;
    for i := 0 to |cs|
      invariant total == TotalWeight(cs[..i])
    {
      assert cs[..i + 1][..i] == cs[..i];
      total := total + cs[i].weight;
    }
    assert cs[..|cs|] == cs;
  }

  method ScoreConfig(ghost c: ScorerConfig, s: Strategy) returns (r: Result<real>)
    requires s == c.strategy
    ensures r == Eval(s)
    decreases c
  {
    r := Score(s);
  }

  /** `scorer.score` for each strategy; a composite builds and runs a nested pipeline. */
  method Score(s: Strategy) returns (r: Result<real>)
    ensures r == Eval(s)
    decreases s, 0
  {
    match s
    case RuleBased(rules) =>
      var failed;
      r, failed := ScoreRules(rules);
    case LlmJudge(reply) =>
      r := JudgeScore(reply);
    case Embedding(compared) =>
      r := EmbeddingScore(compared);
    case Composite(cs) =>
      if cs == [] {
        return Ok(0.0);
      }
      var built := ScoringPipeline.Build(cs);
      if built == Raised {
        return Raised;
      }
      var individual, aggregate := built.value.Run();
      r := Ok(aggregate);
    case Unregistered =>
      r := Raised;
  }
}

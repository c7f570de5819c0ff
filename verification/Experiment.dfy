/** The experiment runner (`core/tuning/experiment.py`): lifecycle, allocation, and the ranking of variants. */
module Experiment {
  import opened Basics
  import opened Rounding
  import opened Sorting
  import opened AbTest

  datatype Status = Draft | Running | Completed | Cancelled

  datatype Exp = Exp(
    status: Status,
    variants: seq<Variant>,
    traffic: real,
    winner: Option<string>,
    concludedAt: Option<real>)

  datatype Trial = Trial(experiment: nat, variant: string, parameters: Parameters, score: Option<real>)

  /** A trial that has a score. */
  type Scored = t: Trial | t.score.Some? witness Trial(0, "", map[], Some(0.0))

  datatype VariantResult = VariantResult(
    variant: string,
    parameters: Parameters,
    count: nat,
    avg: real,
    min: real,
    max: real,
    scores: seq<real>)

  // ---------------------------------------------------------------- results

  /** The scored trials of one experiment, in row order. */
  function ScoredTrials(trials: seq<Trial>, experiment: nat): seq<Scored> {
    if trials == [] then []
    else
      var t := trials[|trials| - 1];
      ScoredTrials(trials[..|trials| - 1], experiment) +
      (if t.experiment == experiment && t.score.Some? then [t] else [])
  }

  /** The variants in the order of their first trial. */
  function FirstSeen(ts: seq<Scored>): seq<string> {
    if ts == [] then []
    else
      var seen, v := FirstSeen(ts[..|ts| - 1]), ts[|ts| - 1].variant;
      if v in seen then seen else seen + [v]
  }

  function ScoresOf(ts: seq<Scored>, v: string): seq<real> {
    if ts == [] then []
    else
      var t := ts[|ts| - 1];
      ScoresOf(ts[..|ts| - 1], v) + (if t.variant == v then [t.score.value] else [])
  }

  /** The parameters of a variant's first trial. */
  function ParametersOf(ts: seq<Scored>, v: string): Parameters {
    if ts == [] then map[]
    else if ScoresOf(ts[..|ts| - 1], v) == [] then ts[|ts| - 1].parameters
    else ParametersOf(ts[..|ts| - 1], v)
  }

  function Total(xs: seq<real>): real {
    if xs == [] then 0.0 else Total(xs[..|xs| - 1]) + xs[|xs| - 1]
  }

  /** `statistics.mean` */
  function Mean(xs: seq<real>): real
    requires xs != []
  {
    Total(xs) / |xs| as real
  }

  lemma {:induction false} TotalConcat(xs: seq<real>, ys: seq<real>)
    ensures Total(xs + ys) == Total(xs) + Total(ys)
  {
    if ys == [] {
      assert xs + ys == xs;
    } else {
      var n := |ys| - 1;
      assert (xs + ys)[..|xs| + n] == xs + ys[..n];
      TotalConcat(xs, ys[..n]);
    }
  }

  /** The mean of one score is that score, and means combine in proportion to the numbers of scores. */
  lemma {:induction false} MeanCombines(x: real, xs: seq<real>, ys: seq<real>)
    requires xs != [] && ys != []
    ensures Mean([x]) == x
    ensures xs + ys != [] && Mean(xs + ys) * (|xs| + |ys|) as real == Mean(xs) * |xs| as real + Mean(ys) * |ys| as real
  {
    assert [x][..0] == [] && Total([x]) == x;
    TotalConcat(xs, ys);
    assert |xs + ys| == |xs| + |ys| > 0;
  }

  lemma {:induction false} TotalBetween(xs: seq<real>, low: real, high: real)
    requires forall x :: x in xs ==> low <= x <= high
    ensures low * |xs| as real <= Total(xs) <= high * |xs| as real
  {
    if xs != [] {
      var n := |xs| - 1;
      forall x | x in xs[..n] ensures low <= x <= high { assert x in xs; }
      TotalBetween(xs[..n], low, high);
      assert xs[n] in xs;
      assert low * |xs| as real == low * n as real + low && high * |xs| as real == high * n as real + high;
    }
  }

  /** The mean lies between any bounds of the scores. */
  lemma {:induction false} MeanBetween(xs: seq<real>, low: real, high: real)
    requires xs != [] && forall x :: x in xs ==> low <= x <= high
    ensures low <= Mean(xs) <= high
  {
    TotalBetween(xs, low, high);
  }

  function Least(xs: seq<real>): (m: real)
    requires xs != []
    ensures m in xs && forall x :: x in xs ==> m <= x
  {
    if |xs| == 1 then xs[0]
    else
      var m := Least(xs[1..]);
      assert forall x :: x in xs <==> x == xs[0] || x in xs[1..];
      if xs[0] <= m then xs[0] else m
  }

  function Most(xs: seq<real>): (m: real)
    requires xs != []
    ensures m in xs && forall x :: x in xs ==> x <= m
  {
    if |xs| == 1 then xs[0]
    else
      var m := Most(xs[1..]);
      assert forall x :: x in xs <==> x == xs[0] || x in xs[1..];
      if xs[0] >= m then xs[0] else m
  }

  function Summary(v: string, parameters: Parameters, scores: seq<real>): VariantResult {
    if scores == [] then VariantResult(v, parameters, 0, 0.0, 0.0, 0.0, [])
    else VariantResult(v, parameters, |scores|, Round4(Mean(scores)), Least(scores), Most(scores), scores)
  }

  function Summaries(ts: seq<Scored>, order: seq<string>): seq<VariantResult> {
    seq(|order|, i requires 0 <= i < |order| => Summary(order[i], ParametersOf(ts, order[i]), ScoresOf(ts, order[i])))
  }

  function ByAverage(): VariantResult -> real {
    (r: VariantResult) => r.avg
  }

  /** The ranked results of a list of scored trials. */
  function Ranking(ts: seq<Scored>): seq<VariantResult> {
    SortDescending(Summaries(ts, FirstSeen(ts)), ByAverage())
  }

  // ---------------------------------------------------------------- lifecycle

  datatype State = State(experiments: map<nat, Exp>, trials: seq<Trial>)

  datatype Step =
    | Create(id: nat, variants: seq<Variant>, traffic: real)
    | Start(id: nat)
    | Record(trial: Trial)
    | Conclude(id: nat, choice: Option<string>, now: real)
    | Cancel(id: nat)

  /** Would the call return rather than raise? Ids are fresh when created. */
  predicate Succeeds(s: State, step: Step) {
    match step
    case Create(id, _, _) => id !in s.experiments
    case Start(id) => id in s.experiments && s.experiments[id].status == Draft
    case Record(_) => true
    case Conclude(id, _, _) => id in s.experiments && s.experiments[id].status == Running
    case Cancel(id) => id in s.experiments
  }

  /** Python truth of an optional string. */
  predicate Given(choice: Option<string>) {
    choice.Some? && choice.value != ""
  }

  /** The caller's choice, else the variant ranked first, else whatever empty choice was passed. */
  function Winner(ranking: seq<VariantResult>, choice: Option<string>): Option<string> {
    if Given(choice) || ranking == [] then choice else Some(ranking[0].variant)
  }

  /** One call of the runner as one transaction; a call that raises changes nothing. */
  function Next(s: State, step: Step): State {
    if !Succeeds(s, step) then s
    else
      match step
      case Create(id, variants, traffic) =>
        s.(experiments := s.experiments[id := Exp(Draft, variants, traffic, None, None)])
      case Start(id) =>
        s.(experiments := s.experiments[id := s.experiments[id].(status := Running)])
      case Record(trial) =>
        s.(trials := s.trials + [trial])
      case Conclude(id, choice, now) =>
        var winner := Winner(Ranking(ScoredTrials(s.trials, id)), choice);
        s.(experiments := s.experiments[id :=
          s.experiments[id].(status := Completed, winner := winner, concludedAt := Some(now))])
      case Cancel(id) =>
        s.(experiments := s.experiments[id := s.experiments[id].(status := Cancelled)])
  }

  /** `allocate_variant`: nothing unless running; the digest of the key decides. */
  function Allocate(s: State, id: nat, digest: nat): Result<Option<Variant>> {
    if id !in s.experiments then Raised
    else if s.experiments[id].status != Running then Ok(None)
    else Ok(Allocator(s.experiments[id].variants, s.experiments[id].traffic).Allocate(digest))
  }

  function Run(s: State, steps: seq<Step>): State
    decreases |steps|
  {
    if steps == [] then s else Run(Next(s, steps[0]), steps[1..])
  }

  /** The dictionaries of the grouping loop after some rows, and the order of their keys. */
  ghost predicate Grouping(rows: seq<Scored>, order: seq<string>, scores: map<string, seq<real>>,
                           parameters: map<string, Parameters>)
  {
    && order == FirstSeen(rows)
    && (forall v :: v in order <==> v in scores)
    && parameters.Keys == scores.Keys
    && forall v :: GroupOf(rows, v, scores, parameters)
  }

  /** One variant's entries: its scores and first parameters, or none. */
  predicate GroupOf(rows: seq<Scored>, v: string, scores: map<string, seq<real>>, parameters: map<string, Parameters>) {
    if v in scores then
      v in parameters && scores[v] == ScoresOf(rows, v) && scores[v] != [] && parameters[v] == ParametersOf(rows, v)
    else
      ScoresOf(rows, v) == []
  }

  lemma {:induction false} GroupingStep(rows: seq<Scored>, t: Scored, order: seq<string>,
                                        scores: map<string, seq<real>>, parameters: map<string, Parameters>)
    requires Grouping(rows, order, scores, parameters)
    ensures var v := t.variant;
            var more := (if v in scores then scores[v] else []) + [t.score.value];
            var first := if v in scores then parameters else parameters[v := t.parameters];
            Grouping(rows + [t], if v in scores then order else order + [v], scores[v := more], first)
  {
    var v := t.variant;
    var more := (if v in scores then scores[v] else []) + [t.score.value];
    var first := if v in scores then parameters else parameters[v := t.parameters];
    assert GroupOf(rows, v, scores, parameters);
    var after, rows' := scores[v := more], rows + [t];
    forall w ensures GroupOf(rows', w, after, first) {
      assert GroupOf(rows, w, scores, parameters);
    }
  }

  function Rank(s: Status): nat {
    match s case Draft => 0 case Running => 1 case Completed => 2 case Cancelled => 3
  }

  /** One experiment's later state: its definition unchanged, its status no lower, its conclusion final. */
  predicate Advanced(e: Exp, f: Exp) {
    && f.variants == e.variants && f.traffic == e.traffic
    && Rank(e.status) <= Rank(f.status)
    && (e.concludedAt.Some? ==> f.concludedAt == e.concludedAt && f.winner == e.winner)
  }

  /** Has the experiment been concluded? Then it has its time; otherwise neither time nor winner. */
  predicate Consistent(e: Exp) {
    && (e.concludedAt == None ==> e.winner == None && e.status != Completed)
    && (e.concludedAt.Some? ==> Rank(e.status) >= Rank(Completed))
  }

  // ---------------------------------------------------------------- the runner

  class ExperimentRunner {
    var experiments: map<nat, Exp>
    var trials: seq<Trial>

    function View(): State
      reads this
    {
      State(experiments, trials)
    }

    constructor ()
      ensures View() == State(map[], [])
    {
      experiments, trials := map[], [];
    }

    method CreateExperiment(id: nat, variants: seq<Variant>, traffic: real) returns (r: Result<Exp>)
      modifies this`experiments
      ensures View() == Next(old(View()), Create(id, variants, traffic))
      ensures r.Ok? <==> Succeeds(old(View()), Create(id, variants, traffic))
      ensures r.Ok? ==> experiments[id] == r.value && Consistent(r.value) && r.value.status == Draft
      ensures r.Ok? ==> r.value.variants == variants && r.value.traffic == traffic && r.value.winner == None
    {
      if id in experiments {
        return Raised;
      }
      var exp := Exp(Draft, variants, traffic, None, None);
      experiments := experiments[id := exp];
      r := Ok(exp);
    }

    method StartExperiment(id: nat) returns (r: Result<Exp>)
      modifies this`experiments
      ensures View() == Next(old(View()), Start(id))
      ensures r.Ok? <==> Succeeds(old(View()), Start(id))
      ensures r.Ok? ==> experiments[id] == r.value && r.value.status == Running
      ensures forall other :: other in experiments && other != id ==>
                other in old(experiments) && experiments[other] == old(experiments)[other]
    {
      if id !in experiments || experiments[id].status != Draft {
        return Raised;
      }
      var exp := experiments[id].(status := Running);
      experiments := experiments[id := exp];
      r := Ok(exp);
    }

    method RecordTrial(trial: Trial)
      modifies this`trials
      ensures View() == Next(old(View()), Record(trial))
      ensures forall id :: ScoredTrials(trials, id) ==
                ScoredTrials(old(trials), id) + (if trial.experiment == id && trial.score.Some? then [trial] else [])
    {
      assert (trials + [trial])[..|trials|] == trials;
      trials := trials + [trial];
    }

    method AllocateVariant(id: nat, digest: nat) returns (r: Result<Option<Variant>>)
      ensures r == Allocate(View(), id, digest)
      ensures r.Ok? <==> id in experiments
      ensures r.Ok? ==>
                var e := experiments[id];
                && (r.value.Some? <==> e.status == Running && e.variants != []
                                       && (digest % 10000) as real + 1.0 <= e.traffic * 100.0)
                && (r.value.Some? ==> r.value.value == e.variants[digest % |e.variants|])
    {
      if id !in experiments {
        return Raised;
      }
      if experiments[id].status != Running {
        return Ok(None);
      }
      var allocator := Allocator(experiments[id].variants, experiments[id].traffic);
      AllocateExactly(allocator, digest);
      r := Ok(allocator.Allocate(digest));
    }

    /** The query of `get_results`: this experiment's rows with a score. */
    method SelectScored(id: nat) returns (rows: seq<Scored>)
      ensures rows == ScoredTrials(trials, id)
    {
      rows := [];
      for i := 0 to |trials|
        invariant rows == ScoredTrials(trials[..i], id)
      {
        assert trials[..i + 1][..i] == trials[..i];
        if trials[i].experiment == id && trials[i].score.Some? {
          rows := rows + [trials[i]];
        }
      }
      assert trials[..|trials|] == trials;
    }

    /** The grouping loop: dictionaries keyed by variant, in order of first appearance. */
    static method GroupByVariant(rows: seq<Scored>)
      returns (order: seq<string>, scores: map<string, seq<real>>, parameters: map<string, Parameters>)
      ensures Grouping(rows, order, scores, parameters)
    {
      order, scores, parameters := [], map[], map[];
      for i := 0 to |rows|
        invariant Grouping(rows[..i], order, scores, parameters)
      {
        assert rows[..i + 1] == rows[..i] + [rows[i]];
        GroupingStep(rows[..i], rows[i], order, scores, parameters);
        var v := rows[i].variant;
        ghost var before := scores;
        if v !in scores {
          order := order + [v];
          scores := scores[v := []];
          parameters := parameters[v := rows[i].parameters];
        }
        scores := scores[v := scores[v] + [rows[i].score.value]];
        assert scores == before[v := (if v in before then before[v] else []) + [rows[i].score.value]];
      }
      assert rows[..|rows|] == rows;
    }

    /** One `VariantResult` per dictionary entry. */
    static method Summarize(order: seq<string>, scores: map<string, seq<real>>, parameters: map<string, Parameters>)
      returns (results: seq<VariantResult>)
      requires forall v :: v in order ==> v in scores && v in parameters
      ensures |results| == |order|
      ensures forall i :: 0 <= i < |order| ==> results[i] == Summary(order[i], parameters[order[i]], scores[order[i]])
    {
      results := [];
      for i := 0 to |order|
        invariant |results| == i
        invariant forall j :: 0 <= j < i ==> results[j] == Summary(order[j], parameters[order[j]], scores[order[j]])
      {
        var v := order[i];
        results := results + [Summary(v, parameters[v], scores[v])];
      }
    }

    method GetResults(id: nat) returns (r: Result<(seq<VariantResult>, nat)>)
      ensures r.Ok? <==> id in experiments
      ensures r.Ok? ==> r.value == (Ranking(ScoredTrials(trials, id)), |ScoredTrials(trials, id)|)
    {
      if id !in experiments {
        return Raised;
      }
      var rows := SelectScored(id);
      var order, scores, parameters := GroupByVariant(rows);
      assert forall v :: v in order ==> v in scores && v in parameters;
      var results := Summarize(order, scores, parameters);
      forall i | 0 <= i < |order| ensures results[i] == Summaries(rows, order)[i] {
        assert order[i] in order && GroupOf(rows, order[i], scores, parameters);
      }
      assert results == Summaries(rows, order);
      r := Ok((SortDescending(results, ByAverage()), |rows|));
    }

    method ConcludeExperiment(id: nat, choice: Option<string>, now: real) returns (r: Result<Exp>)
      modifies this`experiments
      ensures View() == Next(old(View()), Conclude(id, choice, now))
      ensures r.Ok? <==> Succeeds(old(View()), Conclude(id, choice, now))
      ensures r.Ok? ==> experiments[id] == r.value && r.value.status == Completed && r.value.concludedAt == Some(now)
      ensures r.Ok? && choice.Some? && choice.value != "" ==> r.value.winner == choice
      ensures r.Ok? && (choice == None || choice == Some("")) && ScoredTrials(trials, id) != [] ==>
                r.value.winner == Some(Ranking(ScoredTrials(trials, id))[0].variant)
    {
      if id !in experiments || experiments[id].status != Running {
        return Raised;
      }
      var winner := choice;
      if !Given(choice) {
        var results := GetResults(id);
        if results.value.0 != [] {
          winner := Some(results.value.0[0].variant);
        }
      }
      var exp := experiments[id].(status := Completed, winner := winner, concludedAt := Some(now));
      experiments := experiments[id := exp];
      r := Ok(exp);
    }

    method CancelExperiment(id: nat) returns (r: Result<Exp>)
      modifies this`experiments
      ensures View() == Next(old(View()), Cancel(id))
      ensures r.Ok? <==> Succeeds(old(View()), Cancel(id))
      ensures r.Ok? ==> experiments[id] == r.value && r.value.status == Cancelled
      ensures r.Ok? ==> Advanced(old(experiments)[id], r.value)
    {
      if id !in experiments {
        return Raised;
      }
      var exp := experiments[id].(status := Cancelled);
      experiments := experiments[id := exp];
      r := Ok(exp);
    }
  }
}

/** What holds of every ranking, and over every run of runner calls. */
module ExperimentLaws {
  import opened Basics
  import opened Rounding
  import opened Sorting
  import opened Experiment

  // ---------------------------------------------------------------- the ranking partitions the trials

  ghost predicate NoRepeats(order: seq<string>) {
    forall i, j :: 0 <= i < j < |order| ==> order[i] != order[j]
  }

  /** The groups hold every variant once, and exactly the variants that occur. */
  lemma {:induction false} FirstSeenCovers(ts: seq<Scored>)
    ensures NoRepeats(FirstSeen(ts))
    ensures forall i :: 0 <= i < |ts| ==> ts[i].variant in FirstSeen(ts)
    ensures forall v :: v in FirstSeen(ts) ==> ScoresOf(ts, v) != []
  {
    if ts != [] {
      var n := |ts| - 1;
      var before, v := FirstSeen(ts[..n]), ts[n].variant;
      FirstSeenCovers(ts[..n]);
      assert FirstSeen(ts) == if v in before then before else before + [v];
      forall i | 0 <= i < |ts| ensures ts[i].variant in FirstSeen(ts) {
        assert i < n ==> ts[i] == ts[..n][i];
      }
      forall u | u in FirstSeen(ts) ensures ScoresOf(ts, u) != [] {
        assert u == v || u in before;
      }
    }
  }

  function AllScores(ts: seq<Scored>): seq<real> {
    if ts == [] then [] else AllScores(ts[..|ts| - 1]) + [ts[|ts| - 1].score.value]
  }

  /** The groups' scores, one group after the other. */
  function Grouped(ts: seq<Scored>, order: seq<string>): seq<real> {
    if order == [] then [] else Grouped(ts, order[..|order| - 1]) + ScoresOf(ts, order[|order| - 1])
  }

  lemma {:induction false} GroupedNone(order: seq<string>)
    ensures Grouped([], order) == []
  {
    if order != [] {
      GroupedNone(order[..|order| - 1]);
    }
  }

  /** One more trial adds its score to its own group, if that group is listed. */
  lemma {:induction false} GroupedAppend(ts: seq<Scored>, t: Scored, order: seq<string>)
    requires NoRepeats(order)
    ensures multiset(Grouped(ts + [t], order)) ==
            multiset(Grouped(ts, order)) + (if t.variant in order then multiset{t.score.value} else multiset{})
  {
    if order != [] {
      var n := |order| - 1;
      GroupedAppend(ts, t, order[..n]);
      assert (ts + [t])[..|ts|] == ts;
      assert order == order[..n] + [order[n]];
    }
  }

  lemma {:induction false} GroupsAreAPartition(ts: seq<Scored>, order: seq<string>)
    requires NoRepeats(order) && forall i :: 0 <= i < |ts| ==> ts[i].variant in order
    ensures multiset(Grouped(ts, order)) == multiset(AllScores(ts))
    ensures |AllScores(ts)| == |ts|
  {
    if ts == [] {
      GroupedNone(order);
    } else {
      var n := |ts| - 1;
      var head, last := ts[..n], ts[n];
      GroupsAreAPartition(head, order);
      GroupedAppend(head, last, order);
      assert ts == head + [last];
    }
  }

  function TotalCount(rs: seq<VariantResult>): nat {
    if rs == [] then 0 else TotalCount(rs[..|rs| - 1]) + rs[|rs| - 1].count
  }

  lemma {:induction false} CountPrepend(r: VariantResult, rs: seq<VariantResult>)
    ensures TotalCount([r] + rs) == r.count + TotalCount(rs)
  {
    if rs == [] {
      assert [r] + rs == [] + [r];
    } else {
      var n := |rs| - 1;
      CountPrepend(r, rs[..n]);
      assert ([r] + rs)[..n + 1] == [r] + rs[..n];
    }
  }

  lemma {:induction false} InsertCount(r: VariantResult, rs: seq<VariantResult>)
    ensures TotalCount(Insert(r, rs, ByAverage())) == r.count + TotalCount(rs)
  {
    if rs == [] || ByAverage()(r) > ByAverage()(rs[0]) {
      CountPrepend(r, rs);
      assert [r] + [] == [r];
    } else {
      InsertCount(r, rs[1..]);
      CountPrepend(rs[0], Insert(r, rs[1..], ByAverage()));
      CountPrepend(rs[0], rs[1..]);
      assert rs == [rs[0]] + rs[1..];
    }
  }

  lemma {:induction false} SortCount(rs: seq<VariantResult>)
    ensures TotalCount(SortDescending(rs, ByAverage())) == TotalCount(rs)
  {
    if rs != [] {
      var n := |rs| - 1;
      SortCount(rs[..n]);
      InsertCount(rs[n], SortDescending(rs[..n], ByAverage()));
    }
  }

  lemma {:induction false} SummariesCount(ts: seq<Scored>, order: seq<string>)
    ensures TotalCount(Summaries(ts, order)) == |Grouped(ts, order)|
  {
    if order != [] {
      var n := |order| - 1;
      SummariesCount(ts, order[..n]);
      assert Summaries(ts, order)[..n] == Summaries(ts, order[..n]);
    }
  }

  /** Sample counts add up to the number of scored trials, and the groups hold exactly their scores. */
  lemma {:induction false} RankingPartitions(ts: seq<Scored>)
    ensures TotalCount(Ranking(ts)) == |ts|
    ensures multiset(Grouped(ts, FirstSeen(ts))) == multiset(AllScores(ts))
  {
    var order := FirstSeen(ts);
    FirstSeenCovers(ts);
    GroupsAreAPartition(ts, order);
    SummariesCount(ts, order);
    SortCount(Summaries(ts, order));
    SameCardinality(Grouped(ts, order), AllScores(ts));
  }

  lemma {:induction false} SameCardinality(xs: seq<real>, ys: seq<real>)
    requires multiset(xs) == multiset(ys)
    ensures |xs| == |ys|
  {
    assert |multiset(xs)| == |xs| && |multiset(ys)| == |ys|;
  }

  // ---------------------------------------------------------------- the winner

  lemma {:induction false} RankingMembers(ts: seq<Scored>, r: VariantResult)
    ensures r in Ranking(ts) <==> r in Summaries(ts, FirstSeen(ts))
  {
    var sums := Summaries(ts, FirstSeen(ts));
    SortMultiset(sums, ByAverage());
    assert r in Ranking(ts) <==> r in multiset(Ranking(ts));
    assert r in sums <==> r in multiset(sums);
  }

  /** Every result is the summary of a non-empty group. */
  lemma {:induction false} ResultIsSummary(ts: seq<Scored>, r: VariantResult)
    requires r in Ranking(ts)
    ensures r.scores == ScoresOf(ts, r.variant) != [] && r.count == |r.scores|
    ensures r.avg == Round4(Mean(r.scores))
    ensures r.min in r.scores && r.max in r.scores && forall x :: x in r.scores ==> r.min <= x <= r.max
    ensures r.min - 0.00005 <= r.avg <= r.max + 0.00005
    ensures r.parameters == ParametersOf(ts, r.variant)
  {
    RankingMembers(ts, r);
    FirstSeenCovers(ts);
    var i :| 0 <= i < |FirstSeen(ts)| && Summaries(ts, FirstSeen(ts))[i] == r;
    assert FirstSeen(ts)[i] in FirstSeen(ts);
    MeanBetween(r.scores, r.min, r.max);
  }

  /** The parameters reported for a variant are those of its first trial. */
  lemma {:induction false} ParametersOfFirst(ts: seq<Scored>, i: nat)
    requires i < |ts| && forall k :: 0 <= k < i ==> ts[k].variant != ts[i].variant
    ensures ParametersOf(ts, ts[i].variant) == ts[i].parameters
  {
    var n := |ts| - 1;
    var v := ts[i].variant;
    if i < n {
      ParametersOfFirst(ts[..n], i);
      HasScores(ts[..n], i);
    } else {
      NoScores(ts[..n], v);
    }
  }

  lemma {:induction false} HasScores(ts: seq<Scored>, i: nat)
    requires i < |ts|
    ensures ScoresOf(ts, ts[i].variant) != []
  {
    if i < |ts| - 1 {
      HasScores(ts[..|ts| - 1], i);
    }
  }

  lemma {:induction false} NoScores(ts: seq<Scored>, v: string)
    requires forall k :: 0 <= k < |ts| ==> ts[k].variant != v
    ensures ScoresOf(ts, v) == []
  {
    if ts != [] {
      NoScores(ts[..|ts| - 1], v);
    }
  }

  /** The results are ordered by descending rounded mean, so the first one's true mean is best up to 0.0001. */
  lemma {:induction false} WinnerIsNearlyBest(ts: seq<Scored>, i: nat)
    requires i < |Ranking(ts)|
    ensures Descending(Ranking(ts), ByAverage())
    ensures Ranking(ts)[0].scores != [] && Ranking(ts)[i].scores != []
    ensures Mean(Ranking(ts)[0].scores) >= Mean(Ranking(ts)[i].scores) - 0.0001
  {
    var ranking := Ranking(ts);
    SortIsStable(Summaries(ts, FirstSeen(ts)), ByAverage(), 0.0);
    ResultIsSummary(ts, ranking[0]);
    ResultIsSummary(ts, ranking[i]);
    if i > 0 {
      assert ByAverage()(ranking[0]) >= ByAverage()(ranking[i]);
    }
  }

  lemma {:induction false} FirstWithKey(rs: seq<VariantResult>, k: real) returns (i: nat)
    requires WithKey(rs, ByAverage(), k) != []
    ensures i < |rs| && rs[i] == WithKey(rs, ByAverage(), k)[0] && rs[i].avg == k
    ensures forall j :: 0 <= j < i ==> rs[j].avg != k
  {
    if rs[0].avg == k {
      i := 0;
    } else {
      var i' := FirstWithKey(rs[1..], k);
      i := i' + 1;
      assert forall j :: 1 <= j < i ==> rs[j] == rs[1..][j - 1];
    }
  }

  lemma {:induction false} NoneAboveFirst(ts: seq<Scored>, r: VariantResult)
    requires r in Summaries(ts, FirstSeen(ts))
    ensures Ranking(ts) != [] && r.avg <= Ranking(ts)[0].avg
  {
    var ranking := Ranking(ts);
    RankingMembers(ts, r);
    SortIsStable(Summaries(ts, FirstSeen(ts)), ByAverage(), 0.0);
    var m :| 0 <= m < |ranking| && ranking[m] == r;
    if m > 0 { assert ByAverage()(ranking[0]) >= ByAverage()(ranking[m]); }
  }

  /** Among equal rounded means the variant seen first wins. */
  lemma {:induction false} TiesGoToFirstSeen(ts: seq<Scored>) returns (i: nat)
    requires Ranking(ts) != []
    ensures i < |FirstSeen(ts)| && Ranking(ts)[0] == Summaries(ts, FirstSeen(ts))[i]
    ensures forall j :: 0 <= j < |FirstSeen(ts)| ==> Summaries(ts, FirstSeen(ts))[j].avg <= Ranking(ts)[0].avg
    ensures forall j :: 0 <= j < i ==> Summaries(ts, FirstSeen(ts))[j].avg < Ranking(ts)[0].avg
  {
    var ranking, sums := Ranking(ts), Summaries(ts, FirstSeen(ts));
    var k := ranking[0].avg;
    SortIsStable(sums, ByAverage(), k);
    assert WithKey(ranking, ByAverage(), k)[0] == ranking[0];
    i := FirstWithKey(sums, k);
    forall j | 0 <= j < |sums| ensures sums[j].avg <= k { NoneAboveFirst(ts, sums[j]); }
  }

  // ---------------------------------------------------------------- lifecycle over whole runs

  ghost predicate AllConsistent(s: State) {
    forall id :: id in s.experiments ==> Consistent(s.experiments[id])
  }

  lemma {:induction false} RunStaysConsistent(s: State, steps: seq<Step>)
    requires AllConsistent(s)
    ensures AllConsistent(Run(s, steps))
    decreases |steps|
  {
    if steps != [] {
      RunStaysConsistent(Next(s, steps[0]), steps[1..]);
    }
  }

  lemma {:induction false} StepAdvances(s: State, step: Step, id: nat)
    requires AllConsistent(s) && id in s.experiments
    ensures AllConsistent(Next(s, step))
    ensures id in Next(s, step).experiments && Advanced(s.experiments[id], Next(s, step).experiments[id])
  {}

  /** Over every run status never goes back, and a conclusion, once there, survives everything, cancelling included. */
  lemma {:induction false} RunAdvances(s: State, steps: seq<Step>, id: nat)
    requires AllConsistent(s) && id in s.experiments
    ensures id in Run(s, steps).experiments && Advanced(s.experiments[id], Run(s, steps).experiments[id])
    decreases |steps|
  {
    if steps != [] {
      StepAdvances(s, steps[0], id);
      RunAdvances(Next(s, steps[0]), steps[1..], id);
    }
  }

  predicate Concludes(s: State, step: Step, id: nat) {
    step.Conclude? && step.id == id && Succeeds(s, step)
  }

  /** How many calls concluded the experiment. */
  function Conclusions(s: State, steps: seq<Step>, id: nat): nat
    decreases |steps|
  {
    if steps == [] then 0
    else (if Concludes(s, steps[0], id) then 1 else 0) + Conclusions(Next(s, steps[0]), steps[1..], id)
  }

  lemma {:induction false} NoSecondConclusion(s: State, steps: seq<Step>, id: nat)
    requires AllConsistent(s) && id in s.experiments && s.experiments[id].concludedAt.Some?
    ensures Conclusions(s, steps, id) == 0
    decreases |steps|
  {
    if steps != [] {
      NoSecondConclusion(Next(s, steps[0]), steps[1..], id);
    }
  }

  predicate IsConcluded(s: State, id: nat) {
    id in s.experiments && s.experiments[id].concludedAt.Some?
  }

  /** `concluded_at` is set exactly when a conclude call has succeeded, and at most one ever does. */
  lemma {:induction false} ConcludedExactlyOnce(s: State, steps: seq<Step>, id: nat)
    requires AllConsistent(s) && !IsConcluded(s, id)
    ensures Conclusions(s, steps, id) == if IsConcluded(Run(s, steps), id) then 1 else 0
    decreases |steps|
  {
    if steps != [] {
      var t := Next(s, steps[0]);
      if Concludes(s, steps[0], id) {
        NoSecondConclusion(t, steps[1..], id);
        RunAdvances(t, steps[1..], id);
      } else {
        ConcludedExactlyOnce(t, steps[1..], id);
      }
    }
  }

  /** Sticky allocation: whenever the same key gets a variant of the same experiment, it is the same variant. */
  lemma {:induction false} AllocationIsSticky(s: State, steps: seq<Step>, id: nat, digest: nat)
    requires AllConsistent(s)
    ensures var first, later := Allocate(s, id, digest), Allocate(Run(s, steps), id, digest);
            first.Ok? && later.Ok? && first.value.Some? && later.value.Some? ==> first == later
  {
    if id in s.experiments {
      RunAdvances(s, steps, id);
    }
  }

  /** Nothing is allocated before the start, nor ever again after a conclusion. */
  lemma {:induction false} ConcludedAllocatesNothing(s: State, steps: seq<Step>, id: nat, digest: nat)
    requires AllConsistent(s) && IsConcluded(s, id)
    ensures Allocate(Run(s, steps), id, digest) == Ok(None)
  {
    RunAdvances(s, steps, id);
  }

  /** The winner of a conclusion without a choice: the first-ranked variant, or none without scored trials. */
  lemma {:induction false} AutomaticWinner(s: State, id: nat, choice: Option<string>, now: real)
    requires Succeeds(s, Conclude(id, choice, now)) && !Given(choice)
    ensures var ts := ScoredTrials(s.trials, id);
            var e := Next(s, Conclude(id, choice, now)).experiments[id];
            && (ts == [] <==> Ranking(ts) == [])
            && (ts != [] ==> e.winner == Some(Ranking(ts)[0].variant) && e.winner.value in FirstSeen(ts))
            && (ts == [] ==> e.winner == choice)
  {
    var ts := ScoredTrials(s.trials, id);
    FirstSeenCovers(ts);
    if ts != [] {
      assert ts[0].variant in FirstSeen(ts);
      var i := TiesGoToFirstSeen(ts);
    }
  }
}

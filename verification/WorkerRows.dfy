/**
 * How many result rows a job leaves. The row is committed before the observability calls, so an attempt that fails
 * or is killed after its commit leaves a row and the next attempt may add another.
 */
module WorkerRows {
  import opened Worker
  import opened WorkerLaws
  import opened WorkerProcess

  function CommittedBy(p: Phase, id: nat): nat {
    if p.Committed? && p.job.id == id then 1 else 0
  }

  /** Is some process past the commit of an attempt at the job? */
  function InCommit(ps: seq<Process>, id: nat): nat {
    if ps == [] then 0 else InCommit(ps[..|ps| - 1], id) + CommittedBy(ps[|ps| - 1].phase, id)
  }

  function RowsOf(s: State, id: nat): nat {
    if id < |s.records| then s.records[id].rows else 0
  }

  /** Does the step end an attempt at the job after its commit, other than by success? */
  predicate IsLateFailure(s: State, step: Step, id: nat) {
    (step.Fail? || step.Kill?) && step.w < |s.processes| && CommittedBy(s.processes[step.w].phase, id) == 1
  }

  function LateFailures(s: State, steps: seq<Step>, id: nat): nat
    requires CanRun(s, steps)
    decreases |steps|
  {
    if steps == [] then 0
    else (if IsLateFailure(s, steps[0], id) then 1 else 0) + LateFailures(Next(s, steps[0]), steps[1..], id)
  }

  lemma {:induction false} InCommitUpdate(ps: seq<Process>, w: nat, p: Process, id: nat)
    requires w < |ps|
    ensures InCommit(ps[w := p], id) == InCommit(ps, id) - CommittedBy(ps[w].phase, id) + CommittedBy(p.phase, id)
  {
    var n := |ps| - 1;
    if w == n {
      assert ps[w := p][..n] == ps[..n];
    } else {
      assert ps[w := p][..n] == ps[..n][w := p];
      InCommitUpdate(ps[..n], w, p, id);
    }
  }

  lemma {:induction false} InCommitAfter(s: State, step: Step, id: nat)
    requires Enabled(s, step)
    ensures InCommit(Next(s, step).processes, id) == InCommit(s.processes, id) +
            (if step.Enqueue? || step.Spawn? then 0
             else CommittedBy(Next(s, step).processes[step.w].phase, id) - CommittedBy(s.processes[step.w].phase, id))
  {
    if step.Spawn? {
      assert (s.processes + [Process(AtTop, false)])[..|s.processes|] == s.processes;
    } else if !step.Enqueue? {
      OneProcessChanges(s, step);
      InCommitUpdate(s.processes, step.w, Next(s, step).processes[step.w], id);
    }
  }

  /** The rows that the current attempt, or the successful one, has stored. */
  function Current(s: State, id: nat): nat {
    InCommit(s.processes, id) + Count(s.succeeded, id)
  }

  /** Every row beyond the current one comes from a late failure, step by step. */
  lemma {:induction false} StepCountsRows(s: State, step: Step, id: nat)
    requires Ledger(s) && Enabled(s, step)
    ensures RowsOf(Next(s, step), id) - Current(Next(s, step), id) ==
            RowsOf(s, id) - Current(s, id) + (if IsLateFailure(s, step, id) then 1 else 0)
  {
    InCommitAfter(s, step, id);
    RowsAfter(s, step, id);
  }

  /** Only a commit adds a row, and only to its own job. */
  lemma {:induction false} RowsAfter(s: State, step: Step, id: nat)
    requires Ledger(s) && Enabled(s, step)
    ensures RowsOf(Next(s, step), id) == RowsOf(s, id) +
            (if step.Commit? then CommittedBy(Next(s, step).processes[step.w].phase, id) else 0)
  {
    if step.Commit? { assert s.processes[step.w].phase.job.id < |s.records|; }
  }

  lemma {:induction false} RunCountsRows(s: State, steps: seq<Step>, id: nat)
    requires Conserved(s) && Ledger(s) && CanRun(s, steps)
    ensures RowsOf(Run(s, steps), id) - Current(Run(s, steps), id) ==
            RowsOf(s, id) - Current(s, id) + LateFailures(s, steps, id)
    decreases |steps|
  {
    if steps != [] {
      StepCountsRows(s, steps[0], id);
      StepConserves(s, steps[0]);
      StepKeepsLedger(s, steps[0]);
      RunCountsRows(Next(s, steps[0]), steps[1..], id);
    }
  }

  lemma {:induction false} NoneInCommit(ps: seq<Process>, id: nat)
    requires forall w :: 0 <= w < |ps| ==> ps[w].phase == AtTop
    ensures InCommit(ps, id) == 0
  {
    if ps != [] {
      NoneInCommit(ps[..|ps| - 1], id);
    }
  }

  lemma {:induction false} InCommitIsHeld(ps: seq<Process>, id: nat)
    ensures InCommit(ps, id) <= Held(ps, id)
  {
    if ps != [] {
      InCommitIsHeld(ps[..|ps| - 1], id);
    }
  }

  /**
   * The exact count over every run: a job's rows are its late failures, plus one while an attempt is past its commit
   * or once one has succeeded.
   */
  lemma {:induction false} RowsExactly(workers: nat, steps: seq<Step>, id: nat)
    requires CanRun(Initial(workers), steps) && id < |Run(Initial(workers), steps).records|
    ensures var t := Run(Initial(workers), steps);
            && t.records[id].rows == LateFailures(Initial(workers), steps, id) + Current(t, id)
            && Current(t, id) <= 1
  {
    var s, t := Initial(workers), Run(Initial(workers), steps);
    InitialConserved(workers);
    RunConserves(s, steps);
    RunCountsRows(s, steps, id);
    NoneInCommit(s.processes, id);
    InCommitIsHeld(t.processes, id);
    assert Places(t, id) == 1;
  }

  /**
   * A job keeps to one row exactly when no attempt at it has failed late, or one has and no other has got past its
   * commit since.
   */
  lemma {:induction false} AtMostOneRow(workers: nat, steps: seq<Step>, id: nat)
    requires CanRun(Initial(workers), steps) && id < |Run(Initial(workers), steps).records|
    ensures var t, late := Run(Initial(workers), steps), LateFailures(Initial(workers), steps, id);
            t.records[id].rows <= 1 <==> late == 0 || (late == 1 && Current(t, id) == 0)
  {
    RowsExactly(workers, steps, id);
  }

  // ---------------------------------------------------------------- a job with four rows

  /** One worker, one job in the queue: an attempt that fails after its commit. */
  lemma {:induction false} LateAttempt(s: State, j: Job)
    requires s.queue == [j] && s.processes == [Process(AtTop, false)] && j.id < |s.records|
    ensures var steps := TurnSteps(0, s, Turn(false, RaisesLate));
            && CanRun(s, steps) && var t := Run(s, steps);
            && t.processes == s.processes && |t.records| == |s.records|
            && t.records[j.id].rows == s.records[j.id].rows + 1
            && t.queue == (if j.retries < MAX_RETRIES then [Job(j.id, j.retries + 1)] else [])
            && t.dlq == (if j.retries < MAX_RETRIES then s.dlq else [j] + s.dlq)
  {
    var await := AwaitSteps(0, false, false);
    var u := Next(Next(s, ReadFlag(0)), Pop(0));
    AwaitRuns(s, 0, false);
    assert u.queue == [] && u.processes == [Process(Scoring(j), false)];
    RunTwo(u, Commit(0), Fail(0));
    var v := Next(Next(u, Commit(0)), Fail(0));
    RunFurther(u, [Commit(0), Fail(0)], v, GiveUp(0, j));
    assert HandleSteps(0, j, RaisesLate) == [Commit(0), Fail(0)] + [GiveUp(0, j)];
    RunConcat(s, await, HandleSteps(0, j, RaisesLate));
    assert Next(v, GiveUp(0, j)).processes == [Process(AtTop, false)];
  }

  /** `n` such turns of the worker's loop, from a job with retry count 4 - n. */
  lemma {:induction false} LateAttempts(s: State, j: Job, n: nat)
    requires 0 < n == 4 - j.retries
    requires s.queue == [j] && s.processes == [Process(AtTop, false)] && j.id < |s.records|
    ensures var steps := LoopSteps(0, s, seq(n, _ => Turn(false, RaisesLate)));
            && CanRun(s, steps) && var t := Run(s, steps);
            && |t.records| == |s.records| && t.records[j.id].rows == s.records[j.id].rows + n
            && t.dlq == [Job(j.id, MAX_RETRIES)] + s.dlq
    decreases n
  {
    var turn := Turn(false, RaisesLate);
    var turns := seq(n, _ => turn);
    var more := TurnSteps(0, s, turn);
    LateAttempt(s, j);
    var t := Run(s, more);
    assert turns[0] == turn && turns[1..] == seq(n - 1, _ => turn);
    if n == 1 {
      assert LoopSteps(0, t, turns[1..]) == [];
    } else {
      LateAttempts(t, Job(j.id, j.retries + 1), n - 1);
    }
    RunConcat(s, more, LoopSteps(0, t, turns[1..]));
  }

  /** The bound of four rows is reached: four turns that fail late put the job into the dead-letter list with four. */
  lemma {:induction false} FourRows()
    ensures var s := Next(Initial(1), Enqueue);
            var steps := [Enqueue] + LoopSteps(0, s, seq(4, _ => Turn(false, RaisesLate)));
            && CanRun(Initial(1), steps) && var t := Run(Initial(1), steps);
            && t.dlq == [Job(0, 3)] && |t.records| == 1 && t.records[0].rows == 4
  {
    var s := Next(Initial(1), Enqueue);
    assert s.queue == [Job(0, 0)] && s.processes == [Process(AtTop, false)];
    LateAttempts(s, Job(0, 0), 4);
    RunConcat(Initial(1), [Enqueue], LoopSteps(0, s, seq(4, _ => Turn(false, RaisesLate))));
  }
}

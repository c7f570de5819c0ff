/**
 * Draining under a hostile scheduler: no choice of interleaving, failures, kills and signals keeps jobs from being
 * settled, as long as the workers that matter are scheduled at all.
 */
module WorkerFairness {
  import opened Worker
  import opened WorkerLaws
  import opened WorkerProcess

  /** A step of the worker's own: reading the flag, timing out, or carrying a job on. */
  predicate IsOwn(step: Step, w: nat) {
    (IsMove(step) || step.ReadFlag? || step.Timeout?) && step.w == w
  }

  function OwnSteps(steps: seq<Step>, w: nat): nat {
    if steps == [] then 0 else (if IsOwn(steps[0], w) then 1 else 0) + OwnSteps(steps[1..], w)
  }

  /** Nobody enqueues, and nobody signals or kills the worker. Everything else may happen. */
  predicate Leaves(step: Step, w: nat) {
    !step.Enqueue? && step != Signal(w) && step != Kill(w)
  }

  ghost predicate Undisturbed(steps: seq<Step>, w: nat) {
    forall i :: 0 <= i < |steps| ==> Leaves(steps[i], w)
  }

  predicate Serving(s: State, w: nat) {
    w < |s.processes| && Alive(s.processes[w]) && !s.processes[w].shutdown
  }

  /** Nothing is left for the worker to do. */
  predicate AtRest(s: State, w: nat) {
    w < |s.processes| && s.queue == [] && !Holds(s.processes[w].phase)
  }

  // ---------------------------------------------------------------- one worker

  /** Two for each unit of work, and one for a flag still to be read. */
  function Patience(s: State, w: nat): int
    requires w < |s.processes|
  {
    2 * WorkLeft(s) + (if s.processes[w].phase == AtTop then 1 else 0)
  }

  /** No step of anybody adds to the patience needed, and each of the worker's own uses some up. */
  lemma {:induction false} StepUsesPatience(s: State, step: Step, w: nat)
    requires Ledger(s) && Enabled(s, step) && Leaves(step, w) && Serving(s, w) && !AtRest(s, w)
    ensures Serving(Next(s, step), w)
    ensures Patience(Next(s, step), w) <= Patience(s, w) - (if IsOwn(step, w) then 1 else 0)
  {
    StepUsesWork(s, step);
  }

  /**
   * Whatever the others do, a worker that is neither signalled nor killed comes to rest, with the queue empty and no
   * job in its hands, before it has taken more than 2 * work + 1 steps of its own.
   */
  lemma {:induction false} WorkerComesToRest(s: State, steps: seq<Step>, w: nat) returns (n: nat)
    requires Conserved(s) && Ledger(s) && CanRun(s, steps)
    requires Serving(s, w) && Undisturbed(steps, w)
    requires OwnSteps(steps, w) > Patience(s, w)
    ensures n <= |steps| && CanRun(s, steps[..n]) && AtRest(Run(s, steps[..n]), w)
    decreases |steps|
  {
    if AtRest(s, w) {
      n := 0;
    } else {
      WorkLeftNonNegative(s);
      StepConserves(s, steps[0]);
      StepKeepsLedger(s, steps[0]);
      StepUsesPatience(s, steps[0], w);
      assert Undisturbed(steps[1..], w);
      var m := WorkerComesToRest(Next(s, steps[0]), steps[1..], w);
      n := m + 1;
      assert steps[..n][0] == steps[0] && steps[..n][1..] == steps[1..][..m];
    }
  }

  // ---------------------------------------------------------------- all workers

  /** How often the process acts: its own steps, and being killed. */
  function Acts(steps: seq<Step>, v: nat): nat {
    if steps == [] then 0
    else (if IsOwn(steps[0], v) || steps[0] == Kill(v) then 1 else 0) + Acts(steps[1..], v)
  }

  predicate NoEnqueue(steps: seq<Step>) {
    forall i :: 0 <= i < |steps| ==> !steps[i].Enqueue?
  }

  lemma {:induction false} WorkNeverGrows(s: State, steps: seq<Step>)
    requires Conserved(s) && Ledger(s) && CanRun(s, steps) && NoEnqueue(steps)
    ensures WorkLeft(Run(s, steps)) <= WorkLeft(s)
    decreases |steps|
  {
    if steps != [] {
      StepConserves(s, steps[0]);
      StepKeepsLedger(s, steps[0]);
      StepUsesWork(s, steps[0]);
      WorkNeverGrows(Next(s, steps[0]), steps[1..]);
    }
  }

  /** Killing a worker takes its job's work away. */
  lemma {:induction false} KillUsesWork(s: State, v: nat)
    requires Ledger(s) && Enabled(s, Kill(v)) && Holds(s.processes[v].phase)
    ensures WorkLeft(Next(s, Kill(v))) < WorkLeft(s)
  {
    HandsChange(s, Kill(v));
    assert PhaseRecord(s.records[s.processes[v].phase.job.id], s.processes[v].phase);
  }

  /** A job holder that acts at all reduces the work, whoever acts first. */
  lemma {:induction false} HolderUsesWork(s: State, steps: seq<Step>, v: nat)
    requires Conserved(s) && Ledger(s) && CanRun(s, steps) && NoEnqueue(steps)
    requires v < |s.processes| && Holds(s.processes[v].phase) && Acts(steps, v) >= 1
    ensures WorkLeft(Run(s, steps)) < WorkLeft(s)
    decreases |steps|
  {
    var step := steps[0];
    StepConserves(s, step);
    StepKeepsLedger(s, step);
    StepUsesWork(s, step);
    if step == Kill(v) { KillUsesWork(s, v); }
    if IsOwn(step, v) || step == Kill(v) {
      WorkNeverGrows(Next(s, step), steps[1..]);
    } else {
      HolderUsesWork(Next(s, step), steps[1..], v);
    }
  }

  /** A serving worker that finds a job queued and acts twice reduces the work, or somebody else does. */
  lemma {:induction false} WaiterUsesWork(s: State, steps: seq<Step>, w: nat)
    requires Conserved(s) && Ledger(s) && CanRun(s, steps) && NoEnqueue(steps) && Undisturbed(steps, w)
    requires Serving(s, w) && !Holds(s.processes[w].phase) && s.queue != []
    requires OwnSteps(steps, w) >= if s.processes[w].phase == AtTop then 2 else 1
    ensures WorkLeft(Run(s, steps)) < WorkLeft(s)
    decreases |steps|
  {
    var step := steps[0];
    StepConserves(s, step);
    StepKeepsLedger(s, step);
    StepUsesWork(s, step);
    assert Leaves(step, w);
    if IsMove(step) {
      WorkNeverGrows(Next(s, step), steps[1..]);
    } else {
      assert Undisturbed(steps[1..], w);
      WaiterUsesWork(Next(s, step), steps[1..], w);
    }
  }

  /**
   * One fair round for the serving worker `w`: it takes two steps of its own, and every process that holds a job when
   * the round begins acts at least once. Anything else may happen in between, except new jobs.
   */
  ghost predicate FairRound(s: State, steps: seq<Step>, w: nat) {
    && CanRun(s, steps) && Undisturbed(steps, w) && OwnSteps(steps, w) >= 2
    && forall v: nat :: v < |s.processes| && Holds(s.processes[v].phase) ==> Acts(steps, v) >= 1
  }

  lemma {:induction false} RoundUsesWork(s: State, steps: seq<Step>, w: nat)
    requires Conserved(s) && Ledger(s) && Serving(s, w) && FairRound(s, steps, w)
    ensures WorkLeft(s) > 0 ==> WorkLeft(Run(s, steps)) < WorkLeft(s)
  {
    assert NoEnqueue(steps) by { assert forall i :: 0 <= i < |steps| ==> Leaves(steps[i], w); }
    if v: nat :| v < |s.processes| && Holds(s.processes[v].phase) {
      HolderUsesWork(s, steps, v);
    } else {
      NoWorkInHands(s.processes);
      if WorkLeft(s) > 0 { WaiterUsesWork(s, steps, w); }
    }
  }

  // ---------------------------------------------------------------- fairness can be had

  lemma {:induction false} ActsAppend(steps: seq<Step>, step: Step, v: nat)
    ensures Acts(steps + [step], v) == Acts(steps, v) + (if IsOwn(step, v) || step == Kill(v) then 1 else 0)
    ensures OwnSteps(steps + [step], v) == OwnSteps(steps, v) + (if IsOwn(step, v) then 1 else 0)
  {
    if steps == [] {
      assert steps + [step] == [step];
    } else {
      ActsAppend(steps[1..], step, v);
      assert (steps + [step])[0] == steps[0] && (steps + [step])[1..] == steps[1..] + [step];
    }
  }

  /** Steps in which each of the first `n` processes that holds a job acts, and only those processes do. */
  lemma {:induction false} HoldersAct(s: State, w: nat, n: nat) returns (steps: seq<Step>)
    requires n <= |s.processes| && Serving(s, w)
    ensures CanRun(s, steps) && Undisturbed(steps, w) && Serving(Run(s, steps), w)
    ensures |Run(s, steps).processes| == |s.processes|
    ensures forall v: nat :: n <= v < |s.processes| ==> Run(s, steps).processes[v] == s.processes[v]
    ensures forall v: nat :: v < n && Holds(s.processes[v].phase) ==> Acts(steps, v) >= 1
  {
    if n == 0 {
      steps := [];
    } else {
      var before := HoldersAct(s, w, n - 1);
      steps := before;
      if Holds(s.processes[n - 1].phase) {
        var t := Run(s, before);
        var step := WorkIsNeverStuck(t, n - 1);
        RunFurther(s, before, t, step);
        steps := before + [step];
        forall v: nat ensures Acts(steps, v) >= Acts(before, v) { ActsAppend(before, step, v); }
        ActsAppend(before, step, n - 1);
        forall i | 0 <= i < |steps| ensures Leaves(steps[i], w) {
          assert i < |before| ==> steps[i] == before[i];
        }
      }
    }
  }

  /** The worker itself can always take a step of its own. */
  lemma {:induction false} OwnStepExists(s: State, w: nat) returns (step: Step)
    requires Serving(s, w)
    ensures Enabled(s, step) && IsOwn(step, w) && Serving(Next(s, step), w)
  {
    if Holds(s.processes[w].phase) || s.queue != [] {
      step := WorkIsNeverStuck(s, w);
    } else {
      step := if s.processes[w].phase == AtTop then ReadFlag(w) else Timeout(w);
    }
  }

  /** The worker itself can always take one more step of its own. */
  lemma {:induction false} ActOnceMore(s: State, w: nat, before: seq<Step>) returns (steps: seq<Step>)
    requires CanRun(s, before) && Undisturbed(before, w) && Serving(Run(s, before), w)
    ensures CanRun(s, steps) && Undisturbed(steps, w) && Serving(Run(s, steps), w)
    ensures OwnSteps(steps, w) == OwnSteps(before, w) + 1
    ensures forall v: nat :: Acts(steps, v) >= Acts(before, v)
  {
    var step := OwnStepExists(Run(s, before), w);
    steps := before + [step];
    RunFurther(s, before, Run(s, before), step);
    ActsAppend(before, step, w);
    forall v: nat ensures Acts(steps, v) >= Acts(before, v) { ActsAppend(before, step, v); }
    forall i | 0 <= i < |steps| ensures Leaves(steps[i], w) {
      assert i < |before| ==> steps[i] == before[i];
    }
  }

  /** From every state with a serving worker a fair round can follow. */
  lemma {:induction false} FairRoundExists(s: State, w: nat) returns (steps: seq<Step>)
    requires Serving(s, w)
    ensures FairRound(s, steps, w) && Serving(Run(s, steps), w)
  {
    var before := HoldersAct(s, w, |s.processes|);
    var more := ActOnceMore(s, w, before);
    steps := ActOnceMore(s, w, more);
  }

  // ---------------------------------------------------------------- whole runs

  lemma {:induction false} KeepsServing(s: State, steps: seq<Step>, w: nat)
    requires CanRun(s, steps) && Serving(s, w) && Undisturbed(steps, w)
    ensures Serving(Run(s, steps), w)
    decreases |steps|
  {
    if steps != [] {
      assert Leaves(steps[0], w) && Undisturbed(steps[1..], w);
      KeepsServing(Next(s, steps[0]), steps[1..], w);
    }
  }

  ghost predicate FairRun(s: State, rounds: seq<seq<Step>>, w: nat)
    decreases |rounds|
  {
    rounds == [] || (FairRound(s, rounds[0], w) && FairRun(Run(s, rounds[0]), rounds[1..], w))
  }

  ghost function After(s: State, rounds: seq<seq<Step>>, w: nat): State
    requires FairRun(s, rounds, w)
    decreases |rounds|
  {
    if rounds == [] then s else After(Run(s, rounds[0]), rounds[1..], w)
  }

  predicate Drained(s: State) {
    s.queue == [] && forall v :: 0 <= v < |s.processes| ==> !Holds(s.processes[v].phase)
  }

  /** Every fair run drains: as many rounds as there is work left empty the queue and everybody's hands. */
  lemma {:induction false} EveryFairRunDrains(s: State, rounds: seq<seq<Step>>, w: nat)
    requires Conserved(s) && Ledger(s) && Serving(s, w)
    requires FairRun(s, rounds, w) && |rounds| >= WorkLeft(s)
    ensures Drained(After(s, rounds, w)) && Conserved(After(s, rounds, w))
    ensures |After(s, rounds, w).records| == |s.records|
    decreases |rounds|
  {
    WorkLeftNonNegative(s);
    if rounds == [] {
      WorkNonNegative(s, s.queue);
      HandsNonNegative(s.processes);
    } else {
      var steps := rounds[0];
      RoundUsesWork(s, steps, w);
      assert NoEnqueue(steps) by { assert forall i :: 0 <= i < |steps| ==> Leaves(steps[i], w); }
      WorkNeverGrows(s, steps);
      RunConserves(s, steps);
      RunKeepsLedger(s, steps);
      KeepsServing(s, steps, w);
      NoNewJobs(s, steps);
      EveryFairRunDrains(Run(s, steps), rounds[1..], w);
    }
  }

  lemma {:induction false} NoNewJobs(s: State, steps: seq<Step>)
    requires CanRun(s, steps) && NoEnqueue(steps)
    ensures |Run(s, steps).records| == |s.records|
    decreases |steps|
  {
    if steps != [] {
      StepKeepsPlaces(s, steps[0], 0);
      NoNewJobs(Next(s, steps[0]), steps[1..]);
    }
  }

  /**
   * Whatever happened before: after n enqueues, 16 n fair rounds settle every job. It has succeeded, is in the
   * dead-letter list, or was lost with a killed worker, and just one of these.
   */
  lemma {:induction false} EveryJobIsSettled(workers: nat, steps: seq<Step>, rounds: seq<seq<Step>>, w: nat, id: nat)
    requires CanRun(Initial(workers), steps)
    requires var s := Run(Initial(workers), steps);
             Serving(s, w) && FairRun(s, rounds, w) && |rounds| >= 16 * Enqueues(steps) && id < |s.records|
    ensures Settled(After(Run(Initial(workers), steps), rounds, w), id) == 1
  {
    var s := Run(Initial(workers), steps);
    InitialConserved(workers);
    RunConserves(Initial(workers), steps);
    RunKeepsLedger(Initial(workers), steps);
    FinitelyManyMoves(workers, steps);
    EveryFairRunDrains(s, rounds, w);
    var t := After(s, rounds, w);
    NobodyHolds(t.processes, id);
    assert Places(t, id) == 1;
  }

  // ---------------------------------------------------------------- the loop of one process

  predicate NoSignal(turns: seq<Turn>) {
    forall i :: 0 <= i < |turns| ==> !turns[i].signalled
  }

  lemma {:induction false} StepsAreNotEnqueues(w: nat, s: State, turn: Turn)
    ensures NoEnqueue(TurnSteps(w, s, turn))
  {}

  lemma {:induction false} RunKeepsBooks(s: State, steps: seq<Step>)
    requires Conserved(s) && Ledger(s) && CanRun(s, steps) && NoEnqueue(steps)
    ensures var t := Run(s, steps); Conserved(t) && Ledger(t) && WorkLeft(t) <= WorkLeft(s)
  {
    RunConserves(s, steps);
    RunKeepsLedger(s, steps);
    WorkNeverGrows(s, steps);
  }

  /** A turn that finds a job uses up work; one that finds none leaves the queue empty. */
  lemma {:induction false} TurnUsesWork(s: State, w: nat, turn: Turn)
    requires Conserved(s) && Ledger(s) && w < |s.processes| && s.processes[w] == Process(AtTop, false)
    ensures CanRun(s, TurnSteps(w, s, turn))
    ensures var t := Run(s, TurnSteps(w, s, turn));
            && Conserved(t) && Ledger(t)
            && (s.queue != [] ==> WorkLeft(t) < WorkLeft(s)) && (s.queue == [] ==> t.queue == [])
  {
    TurnRuns(s, w, turn);
    StepsAreNotEnqueues(w, s, turn);
    RunKeepsBooks(s, TurnSteps(w, s, turn));
    if s.queue != [] {
      PoppingTurn(s, w, turn);
    } else {
      AwaitRuns(s, w, turn.signalled);
    }
  }

  /** With a job queued, waiting leads to the attempt at it, with less work left. */
  lemma {:induction false} AwaitUsesWork(s: State, w: nat, signalled: bool)
    requires Conserved(s) && Ledger(s) && s.queue != []
    requires w < |s.processes| && s.processes[w] == Process(AtTop, false)
    ensures CanRun(s, AwaitSteps(w, signalled, false))
    ensures var t := Run(s, AwaitSteps(w, signalled, false));
            && Conserved(t) && Ledger(t) && WorkLeft(t) < WorkLeft(s)
            && |t.processes| == |s.processes| && t.processes[w].phase == Scoring(s.queue[|s.queue| - 1])
  {
    AwaitRuns(s, w, signalled);
    RunKeepsBooks(s, AwaitSteps(w, signalled, false));
    var t := Next(s, ReadFlag(w));
    BooksStep(s, ReadFlag(w));
    if signalled {
      BooksStep(t, Signal(w));
      PopUsesWork(Next(t, Signal(w)), w);
    } else {
      PopUsesWork(t, w);
    }
  }

  lemma {:induction false} BooksStep(s: State, step: Step)
    requires Conserved(s) && Ledger(s) && Enabled(s, step) && !step.Enqueue?
    ensures Conserved(Next(s, step)) && Ledger(Next(s, step)) && WorkLeft(Next(s, step)) <= WorkLeft(s)
  {
    StepConserves(s, step);
    StepKeepsLedger(s, step);
    StepUsesWork(s, step);
  }

  lemma {:induction false} PopUsesWork(s: State, w: nat)
    requires Ledger(s) && Enabled(s, Pop(w))
    ensures WorkLeft(Next(s, Pop(w))) < WorkLeft(s)
  {
    StepUsesWork(s, Pop(w));
  }

  lemma {:induction false} HandleGrowsNoWork(t: State, w: nat, j: Job, attempt: Attempt)
    requires Conserved(t) && Ledger(t) && w < |t.processes| && t.processes[w].phase == Scoring(j)
    ensures CanRun(t, HandleSteps(w, j, attempt)) && WorkLeft(Run(t, HandleSteps(w, j, attempt))) <= WorkLeft(t)
  {
    HandleRuns(t, w, j, attempt);
    RunKeepsBooks(t, HandleSteps(w, j, attempt));
  }

  lemma {:induction false} PoppingTurn(s: State, w: nat, turn: Turn)
    requires Conserved(s) && Ledger(s) && w < |s.processes| && s.processes[w] == Process(AtTop, false)
    requires s.queue != [] && CanRun(s, TurnSteps(w, s, turn))
    ensures WorkLeft(Run(s, TurnSteps(w, s, turn))) < WorkLeft(s)
  {
    var await, j := AwaitSteps(w, turn.signalled, false), s.queue[|s.queue| - 1];
    AwaitUsesWork(s, w, turn.signalled);
    var t := Run(s, await);
    HandleGrowsNoWork(t, w, j, turn.attempt);
    RunConcat(s, await, HandleSteps(w, j, turn.attempt));
  }

  /** However its attempts end, an unsignalled process's loop empties the queue in one turn per unit of work. */
  lemma {:induction false} LoopDrains(s: State, w: nat, turns: seq<Turn>)
    requires Conserved(s) && Ledger(s) && w < |s.processes| && s.processes[w] == Process(AtTop, false)
    requires NoSignal(turns) && (|turns| >= WorkLeft(s) || s.queue == [])
    ensures CanRun(s, LoopSteps(w, s, turns)) && Run(s, LoopSteps(w, s, turns)).queue == []
    decreases |turns|
  {
    WorkLeftNonNegative(s);
    if turns == [] {
      WorkNonNegative(s, s.queue);
      HandsNonNegative(s.processes);
    } else {
      var steps := TurnSteps(w, s, turns[0]);
      TurnRuns(s, w, turns[0]);
      TurnUsesWork(s, w, turns[0]);
      var t := Run(s, steps);
      WorkLeftNonNegative(t);
      LoopDrains(t, w, turns[1..]);
      RunConcat(s, steps, LoopSteps(w, t, turns[1..]));
    }
  }
}

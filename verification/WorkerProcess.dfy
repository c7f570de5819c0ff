/**
 * One worker process as the code runs it: enqueue, process, retry and the main loop, over the shared lists and the
 * results table. `machine` follows along in the state machine: each method takes exactly the machine's steps.
 */
module WorkerProcess {
  import opened Basics
  import opened Worker

  /** How one call of `process_job` ends: it raises before the commit, raises after it, or returns. */
  datatype Attempt = RaisesEarly | RaisesLate | Returns

  /** One turn of the main loop: has the signal arrived, and how would a popped job's attempt end? */
  datatype Turn = Turn(signalled: bool, attempt: Attempt)

  /** The step that ends a failed attempt. */
  function GiveUp(w: nat, j: Job): Step {
    if j.retries < MAX_RETRIES then Repush(w) else Bury(w)
  }

  /** The machine steps of one handled attempt. */
  function HandleSteps(w: nat, j: Job, attempt: Attempt): seq<Step> {
    var failure := [Fail(w), GiveUp(w, j)];
    match attempt
    case RaisesEarly => failure
    case RaisesLate => [Commit(w)] + failure
    case Returns => [Commit(w), Succeed(w)]
  }

  /** The machine steps of waiting for a job, with the flag down at first. */
  function AwaitSteps(w: nat, signalled: bool, empty: bool): seq<Step> {
    [ReadFlag(w)] + (if signalled then [Signal(w)] else []) + [if empty then Timeout(w) else Pop(w)]
  }

  lemma {:induction false} AwaitRuns(s: State, w: nat, signalled: bool)
    requires w < |s.processes| && s.processes[w] == Process(AtTop, false)
    ensures var t := if signalled then Next(Next(s, ReadFlag(w)), Signal(w)) else Next(s, ReadFlag(w));
            var last := if s.queue == [] then Timeout(w) else Pop(w);
            && Enabled(t, last) && CanRun(s, AwaitSteps(w, signalled, s.queue == []))
            && Run(s, AwaitSteps(w, signalled, s.queue == [])) == Next(t, last)
  {
    var t := Next(s, ReadFlag(w));
    var last := if s.queue == [] then Timeout(w) else Pop(w);
    if signalled {
      RunTwo(s, ReadFlag(w), Signal(w));
      RunFurther(s, [ReadFlag(w), Signal(w)], Next(t, Signal(w)), last);
      assert AwaitSteps(w, signalled, s.queue == []) == [ReadFlag(w), Signal(w)] + [last];
    } else {
      RunFurther(s, [ReadFlag(w)], t, last);
      assert AwaitSteps(w, signalled, s.queue == []) == [ReadFlag(w)] + [last];
    }
  }

  lemma {:induction false} HandleRuns(s: State, w: nat, j: Job, attempt: Attempt)
    requires w < |s.processes| && s.processes[w].phase == Scoring(j)
    ensures CanRun(s, HandleSteps(w, j, attempt))
    ensures |Run(s, HandleSteps(w, j, attempt)).processes| == |s.processes|
    ensures Run(s, HandleSteps(w, j, attempt)).processes[w] == Process(AtTop, s.processes[w].shutdown)
  {
    if attempt == Returns {
      RunTwo(s, Commit(w), Succeed(w));
    } else if attempt == RaisesEarly {
      RunTwo(s, Fail(w), GiveUp(w, j));
    } else {
      RunTwo(s, Commit(w), Fail(w));
      RunFurther(s, [Commit(w), Fail(w)], Next(Next(s, Commit(w)), Fail(w)), GiveUp(w, j));
      assert HandleSteps(w, j, attempt) == [Commit(w), Fail(w)] + [GiveUp(w, j)];
    }
  }

  /** One pass through the loop body: a job is taken and handled exactly when the queue holds one. */
  function TurnSteps(w: nat, s: State, turn: Turn): seq<Step> {
    var await := AwaitSteps(w, turn.signalled, s.queue == []);
    if s.queue == [] then await else await + HandleSteps(w, s.queue[|s.queue| - 1], turn.attempt)
  }

  lemma {:induction false} TurnRuns(s: State, w: nat, turn: Turn)
    requires w < |s.processes| && s.processes[w] == Process(AtTop, false)
    ensures CanRun(s, TurnSteps(w, s, turn))
    ensures |Run(s, TurnSteps(w, s, turn)).processes| == |s.processes|
    ensures Run(s, TurnSteps(w, s, turn)).processes[w] == Process(AtTop, turn.signalled)
  {
    var await := AwaitSteps(w, turn.signalled, s.queue == []);
    AwaitRuns(s, w, turn.signalled);
    if s.queue != [] {
      var j := s.queue[|s.queue| - 1];
      HandleRuns(Run(s, await), w, j, turn.attempt);
      RunConcat(s, await, HandleSteps(w, j, turn.attempt));
    }
  }

  /** The whole loop: one turn after the other until the flag is found up. */
  function LoopSteps(w: nat, s: State, turns: seq<Turn>): seq<Step>
    requires w < |s.processes| && s.processes[w].phase == AtTop
    decreases |turns|
  {
    if s.processes[w].shutdown then [ReadFlag(w)]
    else if turns == [] then []
    else
      var steps := TurnSteps(w, s, turns[0]);
      TurnRuns(s, w, turns[0]);
      steps + LoopSteps(w, Run(s, steps), turns[1..])
  }

  /** After `i` turns from `first`, `steps` have led to `s`, and the rest of the loop is still to come. */
  ghost predicate Progress(w: nat, first: State, turns: seq<Turn>, steps: seq<Step>, s: State, i: nat) {
    && i <= |turns|
    && w < |first.processes| && first.processes[w].phase == AtTop
    && w < |s.processes| && s.processes[w].phase == AtTop
    && CanRun(first, steps) && Run(first, steps) == s
    && LoopSteps(w, first, turns) == steps + LoopSteps(w, s, turns[i..])
  }

  lemma {:induction false} NoProgressYet(w: nat, s: State, turns: seq<Turn>)
    requires w < |s.processes| && s.processes[w].phase == AtTop
    ensures Progress(w, s, turns, [], s, 0)
  {
    assert turns[0..] == turns;
  }

  lemma {:induction false} OneMoreTurn(w: nat, first: State, turns: seq<Turn>, steps: seq<Step>, s: State, i: nat)
    requires Progress(w, first, turns, steps, s, i) && i < |turns| && !s.processes[w].shutdown
    ensures CanRun(s, TurnSteps(w, s, turns[i]))
    ensures Progress(w, first, turns, steps + TurnSteps(w, s, turns[i]), Run(s, TurnSteps(w, s, turns[i])), i + 1)
  {
    var more := TurnSteps(w, s, turns[i]);
    FirstTurn(w, s, turns, i);
    RunConcat(first, steps, more);
    Regroup(steps, more, LoopSteps(w, Run(s, more), turns[i + 1..]));
  }

  lemma {:induction false} FirstTurn(w: nat, s: State, turns: seq<Turn>, i: nat)
    requires i < |turns| && w < |s.processes| && s.processes[w] == Process(AtTop, false)
    ensures var more := TurnSteps(w, s, turns[i]);
            && CanRun(s, more) && var t := Run(s, more);
            && w < |t.processes| && t.processes[w].phase == AtTop
            && LoopSteps(w, s, turns[i..]) == more + LoopSteps(w, t, turns[i + 1..])
  {
    TurnRuns(s, w, turns[i]);
    assert turns[i..][0] == turns[i] && turns[i..][1..] == turns[i + 1..];
  }

  lemma {:induction false} Regroup(a: seq<Step>, b: seq<Step>, c: seq<Step>)
    ensures a + (b + c) == (a + b) + c
  {}

  lemma {:induction false} LastTurn(w: nat, first: State, turns: seq<Turn>, steps: seq<Step>, s: State, i: nat)
    requires Progress(w, first, turns, steps, s, i) && (s.processes[w].shutdown || i == |turns|)
    ensures LoopSteps(w, first, turns) == steps + (if s.processes[w].shutdown then [ReadFlag(w)] else [])
  {}

  class ScoringWorker {
    const w: nat
    var queue: seq<Job>
    var dlq: seq<Job>
    var rows: seq<nat>
    var slept: nat
    var shutdown: bool
    ghost var machine: State

    ghost predicate Valid()
      reads this
    {
      && queue == machine.queue && dlq == machine.dlq
      && w < |machine.processes| && machine.processes[w].shutdown == shutdown
      && (forall i :: 0 <= i < |queue| ==> queue[i].id < |machine.records|)
      && (forall id :: id in rows ==> id < |machine.records|)
      && forall id: nat :: id < |machine.records| ==> multiset(rows)[id] == machine.records[id].rows
    }

    constructor ()
      ensures Valid() && machine == Initial(1)
    {
      w := 0;
      queue, dlq, rows, slept, shutdown := [], [], [], 0, false;
      machine := Initial(1);
    }

    /** `enqueue_scoring_job`: a fresh job with retry count zero goes to the left end. */
    method EnqueueScoringJob(id: nat)
      requires Valid() && id == |machine.records|
      modifies this`queue, this`machine
      ensures Valid() && machine == Next(old(machine), Enqueue)
      ensures queue == [Job(id, 0)] + old(queue)
    {
      assert id !in rows;
      queue := [Job(id, 0)] + queue;
      machine := Next(machine, Enqueue);
    }

    /** `process_job`: the row is committed before anything is sent to observability. */
    method ProcessJob(j: Job, attempt: Attempt) returns (raised: bool)
      requires Valid() && machine.processes[w].phase == Scoring(j) && j.id < |machine.records|
      modifies this`rows, this`machine
      ensures Valid()
      ensures raised == (attempt != Returns)
      ensures attempt == RaisesEarly ==> machine == old(machine) && rows == old(rows)
      ensures attempt != RaisesEarly ==> machine == Next(old(machine), Commit(w)) && rows == old(rows) + [j.id]
    {
      if attempt == RaisesEarly {
        return true;
      }
      rows := rows + [j.id];
      machine := Next(machine, Commit(w));
      raised := attempt == RaisesLate;
    }

    /** `_handle_job_with_retry` */
    method HandleJobWithRetry(j: Job, attempt: Attempt)
      requires Valid() && machine.processes[w].phase == Scoring(j) && j.id < |machine.records|
      modifies this`queue, this`dlq, this`rows, this`slept, this`machine
      ensures Valid() && machine.processes[w] == Process(AtTop, shutdown)
      ensures CanRun(old(machine), HandleSteps(w, j, attempt))
      ensures machine == Run(old(machine), HandleSteps(w, j, attempt))
      ensures attempt != Returns && j.retries < MAX_RETRIES ==> queue == [Job(j.id, j.retries + 1)] + old(queue)
      ensures attempt != Returns && j.retries < MAX_RETRIES ==>
                slept - old(slept) == if j.retries == 0 then 2 else if j.retries == 1 then 4 else 8
      ensures attempt != Returns && j.retries >= MAX_RETRIES ==> dlq == [j] + old(dlq)
      ensures attempt == Returns || j.retries >= MAX_RETRIES ==> queue == old(queue) && slept == old(slept)
      ensures attempt == Returns || j.retries < MAX_RETRIES ==> dlq == old(dlq)
    {
      ghost var before := machine;
      var raised := ProcessJob(j, attempt);
      ghost var started := machine;
      ghost var first := if attempt == RaisesEarly then [] else [Commit(w)];
      if raised {
        RetryOrBury(j);
        RunTwo(started, Fail(w), GiveUp(w, j));
        RunConcat(before, first, [Fail(w), GiveUp(w, j)]);
        assert HandleSteps(w, j, attempt) == first + [Fail(w), GiveUp(w, j)];
      } else {
        machine := Next(machine, Succeed(w));
        RunConcat(before, first, [Succeed(w)]);
        assert HandleSteps(w, j, attempt) == first + [Succeed(w)];
      }
    }

    /** The `except` branch: sleep and push again with a higher retry count, or push to the dead-letter list. */
    method RetryOrBury(j: Job)
      requires Valid() && j.id < |machine.records|
      requires machine.processes[w].phase == Scoring(j) || machine.processes[w].phase == Committed(j)
      modifies this`queue, this`dlq, this`slept, this`machine
      ensures Valid() && machine.processes[w] == Process(AtTop, shutdown)
      ensures Enabled(old(machine), Fail(w)) && Enabled(Next(old(machine), Fail(w)), GiveUp(w, j))
      ensures machine == Next(Next(old(machine), Fail(w)), GiveUp(w, j))
      ensures j.retries < MAX_RETRIES ==> queue == [Job(j.id, j.retries + 1)] + old(queue) && dlq == old(dlq)
      ensures j.retries < MAX_RETRIES ==>
                slept - old(slept) == if j.retries == 0 then 2 else if j.retries == 1 then 4 else 8
      ensures j.retries >= MAX_RETRIES ==> queue == old(queue) && dlq == [j] + old(dlq) && slept == old(slept)
    {
      machine := Next(machine, Fail(w));
      if j.retries < MAX_RETRIES {
        var retries := j.retries + 1;
        BackoffSeconds();
        slept := slept + Backoff(retries);
        queue := [Job(j.id, retries)] + queue;
      } else {
        dlq := [j] + dlq;
      }
      machine := Next(machine, GiveUp(w, j));
    }

    /**
     * `run_worker`: the flag is read between jobs only. The turns fix what the environment does; the loop leaves when
     * the flag is up or the turns are used up. It takes exactly the steps of its turns: every turn that finds a job
     * pops it and handles it.
     */
    method RunWorker(turns: seq<Turn>) returns (ghost steps: seq<Step>)
      requires Valid() && machine.processes[w] == Process(AtTop, shutdown)
      modifies this
      ensures steps == LoopSteps(w, old(machine), turns)
      ensures Valid() && CanRun(old(machine), steps) && machine == Run(old(machine), steps)
      ensures machine.processes[w].phase == if shutdown then Stopped else AtTop
      ensures shutdown == (old(shutdown) || exists i :: 0 <= i < |turns| && turns[i].signalled)
    {
      ghost var first := machine;
      steps := [];
      var i := 0;
      NoProgressYet(w, machine, turns);
      while i < |turns| && !shutdown
        invariant i <= |turns| && Valid()
        invariant machine.processes[w] == Process(AtTop, shutdown)
        invariant Progress(w, first, turns, steps, machine, i)
        invariant shutdown == (old(shutdown) || exists k :: 0 <= k < i && turns[k].signalled)
      {
        OneMoreTurn(w, first, turns, steps, machine, i);
        ghost var more := OneTurn(turns[i]);
        steps := steps + more;
        i := i + 1;
      }
      LastTurn(w, first, turns, steps, machine, i);
      if shutdown {
        RunFurther(first, steps, machine, ReadFlag(w));
        machine := Next(machine, ReadFlag(w));
        steps := steps + [ReadFlag(w)];
      }
    }

    /** One pass through the loop body, entered with the flag down: BRPOP, handle, and perhaps a signal meanwhile. */
    method OneTurn(turn: Turn) returns (ghost steps: seq<Step>)
      requires Valid() && machine.processes[w] == Process(AtTop, false)
      modifies this
      ensures Valid() && machine.processes[w] == Process(AtTop, shutdown)
      ensures shutdown == turn.signalled && steps == TurnSteps(w, old(machine), turn)
      ensures CanRun(old(machine), steps) && machine == Run(old(machine), steps)
    {
      ghost var start := machine;
      var job;
      job, steps := AwaitJob(turn.signalled);
      if job.Some? {
        HandleJobWithRetry(job.value, turn.attempt);
        RunConcat(start, steps, HandleSteps(w, job.value, turn.attempt));
        steps := steps + HandleSteps(w, job.value, turn.attempt);
      }
    }

    /** The loop condition, entered with the flag down, and BRPOP; a signal may arrive in between. */
    method AwaitJob(signalled: bool) returns (job: Option<Job>, ghost steps: seq<Step>)
      requires Valid() && machine.processes[w] == Process(AtTop, false)
      modifies this`queue, this`shutdown, this`machine
      ensures Valid() && shutdown == signalled
      ensures steps == AwaitSteps(w, signalled, old(queue) == [])
      ensures CanRun(old(machine), steps) && machine == Run(old(machine), steps)
      ensures job == if old(queue) == [] then None else Some(old(queue)[|old(queue)| - 1])
      ensures queue == if old(queue) == [] then [] else old(queue)[..|old(queue)| - 1]
      ensures machine.processes[w].phase == if job.Some? then Scoring(job.value) else AtTop
      ensures job.Some? ==> job.value.id < |machine.records|
    {
      AwaitRuns(machine, w, signalled);
      steps := AwaitSteps(w, signalled, queue == []);
      machine := Next(machine, ReadFlag(w));
      if signalled {
        RequestShutdown();
      }
      job := BlockingPop();
    }

    /** `_request_shutdown`, the signal handler. */
    method RequestShutdown()
      requires Valid() && Enabled(machine, Signal(w))
      modifies this`shutdown, this`machine
      ensures Valid() && shutdown && machine == Next(old(machine), Signal(w))
    {
      shutdown := true;
      machine := Next(machine, Signal(w));
    }

    /** BRPOP: the right end of the queue, or nothing after the timeout. */
    method BlockingPop() returns (job: Option<Job>)
      requires Valid() && machine.processes[w].phase == Waiting
      modifies this`queue, this`machine
      ensures Valid() && machine == Next(old(machine), if old(queue) == [] then Timeout(w) else Pop(w))
      ensures job == if old(queue) == [] then None else Some(old(queue)[|old(queue)| - 1])
      ensures queue == if old(queue) == [] then [] else old(queue)[..|old(queue)| - 1]
    {
      if queue == [] {
        machine := Next(machine, Timeout(w));
        return None;
      }
      machine := Next(machine, Pop(w));
      job := Some(queue[|queue| - 1]);
      queue := queue[..|queue| - 1];
    }
  }
}

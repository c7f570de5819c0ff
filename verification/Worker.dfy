/**
 * The scoring queue (`workers/scoring_worker.py`) as a state machine: any number of enqueuers and workers share a
 * Redis list, a dead-letter list and the results table, and every Redis or database call is one atomic step.
 */
module Worker {
  const MAX_RETRIES: nat := 3

  /** A queued job: its identity and its `_retry_count`. */
  datatype Job = Job(id: nat, retries: nat)

  /**
   * Where a worker process stands. `AtTop` is about to read the shutdown flag; `Waiting` is blocked in BRPOP;
   * `Scoring` runs the pipeline; `Committed` has stored the row and is submitting to observability; `BackingOff`
   * sleeps before the re-push; `Burying` is about to push to the dead-letter list.
   */
  datatype Phase =
    | AtTop
    | Waiting
    | Scoring(job: Job)
    | Committed(job: Job)
    | BackingOff(job: Job)
    | Burying(job: Job)
    | Stopped
    | Killed

  datatype Process = Process(phase: Phase, shutdown: bool)

  /** What has happened to one job so far. */
  datatype Record = Record(attempts: nat, rows: nat, slept: nat)

  /** The left end of a Redis list is index 0: LPUSH prepends, BRPOP takes the last element. */
  datatype State = State(
    queue: seq<Job>,
    processes: seq<Process>,
    dlq: seq<Job>,
    succeeded: seq<Job>,
    lost: seq<Job>,
    records: seq<Record>,
    kills: nat,
    pushed: seq<Job>,
    popped: seq<Job>)

  datatype Step =
    | Enqueue
    | Spawn
    | ReadFlag(w: nat)
    | Timeout(w: nat)
    | Pop(w: nat)
    | Commit(w: nat)
    | Succeed(w: nat)
    | Fail(w: nat)
    | Repush(w: nat)
    | Bury(w: nat)
    | Signal(w: nat)
    | Kill(w: nat)

  function Initial(workers: nat): State {
    State([], seq(workers, _ => Process(AtTop, false)), [], [], [], [], 0, [], [])
  }

  /** The seconds slept before the re-push that raises the retry count to `retries`: 2 * 2 ** (retries - 1). */
  function Backoff(retries: nat): nat
    requires retries > 0
  {
    if retries == 1 then 2 else 2 * Backoff(retries - 1)
  }

  /** The back-offs that occur: 2, 4 and 8 seconds before the first, second and third retry. */
  lemma {:induction false} BackoffSeconds()
    ensures Backoff(1) == 2 && Backoff(2) == 4 && Backoff(3) == 8
  {
    assert Backoff(2) == 2 * Backoff(1);
  }

  predicate Holds(p: Phase) {
    p.Scoring? || p.Committed? || p.BackingOff? || p.Burying?
  }

  predicate Enabled(s: State, step: Step) {
    step.Enqueue? || step.Spawn? ||
    (step.w < |s.processes| &&
     var phase := s.processes[step.w].phase;
     match step
     case ReadFlag(_) => phase == AtTop
     case Timeout(_) => phase == Waiting && s.queue == []
     case Pop(_) => phase == Waiting && s.queue != []
     case Commit(_) => phase.Scoring?
     case Succeed(_) => phase.Committed?
     case Fail(_) => phase.Scoring? || phase.Committed?
     case Repush(_) => phase.BackingOff?
     case Bury(_) => phase.Burying?
     case Signal(_) => phase != Killed && phase != Stopped
     case Kill(_) => phase != Killed && phase != Stopped)
  }

  function SetPhase(s: State, w: nat, p: Phase): State
    requires w < |s.processes|
  {
    s.(processes := s.processes[w := s.processes[w].(phase := p)])
  }

  /** Job ids index `records`; a step that does not find its record changes none. */
  function Note(s: State, id: nat, attempts: nat, rows: nat, slept: nat): State {
    if id < |s.records| then
      var r := s.records[id];
      s.(records := s.records[id := Record(r.attempts + attempts, r.rows + rows, r.slept + slept)])
    else s
  }

  function Push(s: State, j: Job): State {
    s.(queue := [j] + s.queue, pushed := s.pushed + [j])
  }

  function Next(s: State, step: Step): State
    requires Enabled(s, step)
  {
    match step
    case Enqueue =>
      Push(s.(records := s.records + [Record(0, 0, 0)]), Job(|s.records|, 0))
    case Spawn =>
      s.(processes := s.processes + [Process(AtTop, false)])
    case ReadFlag(w) =>
      SetPhase(s, w, if s.processes[w].shutdown then Stopped else Waiting)
    case Timeout(w) =>
      SetPhase(s, w, AtTop)
    case Pop(w) =>
      var n := |s.queue| - 1;
      var j := s.queue[n];
      Note(SetPhase(s.(queue := s.queue[..n], popped := s.popped + [j]), w, Scoring(j)), j.id, 1, 0, 0)
    case Commit(w) =>
      var j := s.processes[w].phase.job;
      Note(SetPhase(s, w, Committed(j)), j.id, 0, 1, 0)
    case Succeed(w) =>
      var j := s.processes[w].phase.job;
      SetPhase(s.(succeeded := s.succeeded + [j]), w, AtTop)
    case Fail(w) =>
      var j := s.processes[w].phase.job;
      SetPhase(s, w, if j.retries < MAX_RETRIES then BackingOff(j) else Burying(j))
    case Repush(w) =>
      var j := s.processes[w].phase.job;
      var again := Job(j.id, j.retries + 1);
      Push(Note(SetPhase(s, w, AtTop), j.id, 0, 0, Backoff(again.retries)), again)
    case Bury(w) =>
      var j := s.processes[w].phase.job;
      SetPhase(s.(dlq := [j] + s.dlq), w, AtTop)
    case Signal(w) =>
      s.(processes := s.processes[w := s.processes[w].(shutdown := true)])
    case Kill(w) =>
      var phase := s.processes[w].phase;
      SetPhase(s.(kills := s.kills + 1, lost := if Holds(phase) then s.lost + [phase.job] else s.lost), w, Killed)
  }

  /** Can the steps be taken one after the other? */
  predicate CanRun(s: State, steps: seq<Step>)
    decreases |steps|
  {
    steps == [] || (Enabled(s, steps[0]) && CanRun(Next(s, steps[0]), steps[1..]))
  }

  function Run(s: State, steps: seq<Step>): State
    requires CanRun(s, steps)
    decreases |steps|
  {
    if steps == [] then s else Run(Next(s, steps[0]), steps[1..])
  }

  // ---------------------------------------------------------------- runs compose

  lemma {:induction false} RunConcat(s: State, a: seq<Step>, b: seq<Step>)
    requires CanRun(s, a) && CanRun(Run(s, a), b)
    ensures CanRun(s, a + b) && Run(s, a + b) == Run(Run(s, a), b)
    decreases |a|
  {
    if a == [] {
      assert a + b == b;
    } else {
      assert (a + b)[0] == a[0] && (a + b)[1..] == a[1..] + b;
      RunConcat(Next(s, a[0]), a[1..], b);
    }
  }

  lemma {:induction false} RunTwo(s: State, a: Step, b: Step)
    requires Enabled(s, a) && Enabled(Next(s, a), b)
    ensures CanRun(s, [a, b]) && Run(s, [a, b]) == Next(Next(s, a), b)
  {
    RunConcat(s, [a], [b]);
    assert [a, b] == [a] + [b];
  }

  lemma {:induction false} RunFurther(s: State, steps: seq<Step>, t: State, a: Step)
    requires CanRun(s, steps) && Run(s, steps) == t && Enabled(t, a)
    ensures CanRun(s, steps + [a]) && Run(s, steps + [a]) == Next(t, a)
  {
    RunConcat(s, steps, [a]);
  }
}

/** What every interleaving of enqueuers and workers guarantees. */
module WorkerLaws {
  import opened Worker

  // ---------------------------------------------------------------- one place per job

  /** How often a job id occurs in a list. */
  function Count(q: seq<Job>, id: nat): nat {
    if q == [] then 0 else Count(q[..|q| - 1], id) + (if q[|q| - 1].id == id then 1 else 0)
  }

  function HeldBy(p: Phase, id: nat): nat {
    if Holds(p) && p.job.id == id then 1 else 0
  }

  /** How many workers hold the job, sleeping in back-off included. */
  function Held(ps: seq<Process>, id: nat): nat {
    if ps == [] then 0 else Held(ps[..|ps| - 1], id) + HeldBy(ps[|ps| - 1].phase, id)
  }

  /** The places where a job stays for good. */
  function Settled(s: State, id: nat): nat {
    Count(s.succeeded, id) + Count(s.dlq, id) + Count(s.lost, id)
  }

  /** The number of places a job is in: the queue, workers' hands, succeeded, dead-lettered, lost. */
  function Places(s: State, id: nat): nat {
    Count(s.queue, id) + Held(s.processes, id) + Settled(s, id)
  }

  lemma {:induction false} CountAppend(q: seq<Job>, j: Job, id: nat)
    ensures Count(q + [j], id) == Count(q, id) + (if j.id == id then 1 else 0)
  {
    assert (q + [j])[..|q|] == q;
  }

  lemma {:induction false} CountPrepend(j: Job, q: seq<Job>, id: nat)
    ensures Count([j] + q, id) == Count(q, id) + (if j.id == id then 1 else 0)
  {
    if q == [] {
      CountAppend([], j, id);
      assert [j] + q == [] + [j];
    } else {
      var n := |q| - 1;
      CountPrepend(j, q[..n], id);
      assert ([j] + q)[..n + 1] == [j] + q[..n];
    }
  }

  lemma {:induction false} CountMember(q: seq<Job>, i: nat, id: nat)
    requires i < |q| && q[i].id == id
    ensures Count(q, id) > 0
  {
    if i < |q| - 1 {
      CountMember(q[..|q| - 1], i, id);
    }
  }

  lemma {:induction false} HeldUpdate(ps: seq<Process>, w: nat, p: Process, id: nat)
    requires w < |ps|
    ensures Held(ps[w := p], id) == Held(ps, id) - HeldBy(ps[w].phase, id) + HeldBy(p.phase, id)
  {
    var n := |ps| - 1;
    if w == n {
      assert ps[w := p][..n] == ps[..n];
    } else {
      assert ps[w := p][..n] == ps[..n][w := p];
      HeldUpdate(ps[..n], w, p, id);
    }
  }

  /** Does the step put the job into its worker's hands? */
  function Taken(s: State, step: Step, id: nat): nat
    requires Enabled(s, step)
  {
    if step.Pop? && s.queue[|s.queue| - 1].id == id then 1 else 0
  }

  /** Does the step take the job out of its worker's hands? */
  function Released(s: State, step: Step, id: nat): nat
    requires Enabled(s, step)
  {
    if step.Succeed? || step.Repush? || step.Bury? || step.Kill? then HeldBy(s.processes[step.w].phase, id) else 0
  }

  lemma {:induction false} HeldAfter(s: State, step: Step, id: nat)
    requires Enabled(s, step)
    ensures Held(Next(s, step).processes, id) == Held(s.processes, id) + Taken(s, step, id) - Released(s, step, id)
  {
    if step.Spawn? {
      assert (s.processes + [Process(AtTop, false)])[..|s.processes|] == s.processes;
    } else if !step.Enqueue? {
      OneProcessChanges(s, step);
      HeldUpdate(s.processes, step.w, Next(s, step).processes[step.w], id);
    }
  }

  lemma {:induction false} OneProcessChanges(s: State, step: Step)
    requires Enabled(s, step) && !step.Enqueue? && !step.Spawn?
    ensures |Next(s, step).processes| == |s.processes|
    ensures Next(s, step).processes == s.processes[step.w := Next(s, step).processes[step.w]]
  {}

  lemma {:induction false} QueueAfter(s: State, step: Step, id: nat)
    requires Enabled(s, step)
    ensures Count(Next(s, step).queue, id) == Count(s.queue, id) - Taken(s, step, id) +
            (if step.Repush? then Released(s, step, id) else if step.Enqueue? && id == |s.records| then 1 else 0)
  {
    if step.Enqueue? || step.Repush? {
      CountPrepend(Next(s, step).queue[0], s.queue, id);
    }
  }

  lemma {:induction false} SettledAfter(s: State, step: Step, id: nat)
    requires Enabled(s, step)
    ensures Settled(Next(s, step), id) == Settled(s, id) +
            (if step.Repush? then 0 else Released(s, step, id))
  {
    match step
    case Succeed(w) => CountAppend(s.succeeded, s.processes[w].phase.job, id);
    case Bury(w) => CountPrepend(s.processes[w].phase.job, s.dlq, id);
    case Kill(w) => if Holds(s.processes[w].phase) { CountAppend(s.lost, s.processes[w].phase.job, id); }
    case _ =>
  }

  /** A step moves at most one job and creates or removes none, except that an enqueue issues the next id. */
  lemma {:induction false} StepKeepsPlaces(s: State, step: Step, id: nat)
    requires Enabled(s, step)
    ensures Places(Next(s, step), id) == Places(s, id) + (if step.Enqueue? && id == |s.records| then 1 else 0)
    ensures |Next(s, step).records| == |s.records| + (if step.Enqueue? then 1 else 0)
  {
    HeldAfter(s, step, id);
    QueueAfter(s, step, id);
    SettledAfter(s, step, id);
  }

  /** Every issued job is in exactly one place, and the lost ones number at most the hard kills. */
  ghost predicate Conserved(s: State) {
    && (forall id: nat :: Places(s, id) == if id < |s.records| then 1 else 0)
    && |s.lost| <= s.kills
  }

  lemma {:induction false} StepConserves(s: State, step: Step)
    requires Conserved(s) && Enabled(s, step)
    ensures Conserved(Next(s, step))
  {
    forall id: nat ensures Places(Next(s, step), id) == if id < |Next(s, step).records| then 1 else 0 {
      StepKeepsPlaces(s, step, id);
    }
  }

  lemma {:induction false} NobodyHolds(ps: seq<Process>, id: nat)
    requires forall w :: 0 <= w < |ps| ==> !Holds(ps[w].phase)
    ensures Held(ps, id) == 0
  {
    if ps != [] {
      NobodyHolds(ps[..|ps| - 1], id);
    }
  }

  lemma {:induction false} InitialConserved(workers: nat)
    ensures Conserved(Initial(workers))
  {
    forall id: nat ensures Places(Initial(workers), id) == 0 {
      NobodyHolds(Initial(workers).processes, id);
    }
  }

  /** Conservation over every interleaving. */
  lemma {:induction false} RunConserves(s: State, steps: seq<Step>)
    requires Conserved(s) && CanRun(s, steps)
    ensures Conserved(Run(s, steps))
    decreases |steps|
  {
    if steps != [] {
      StepConserves(s, steps[0]);
      RunConserves(Next(s, steps[0]), steps[1..]);
    }
  }

  predicate IsKill(step: Step) {
    step.Kill?
  }

  lemma {:induction false} KillsAreCounted(s: State, steps: seq<Step>)
    requires CanRun(s, steps) && forall i :: 0 <= i < |steps| ==> !IsKill(steps[i])
    ensures Run(s, steps).kills == s.kills
    decreases |steps|
  {
    if steps != [] {
      KillsAreCounted(Next(s, steps[0]), steps[1..]);
    }
  }

  predicate AllStopped(s: State) {
    forall w :: 0 <= w < |s.processes| ==> s.processes[w].phase == Stopped
  }

  /**
   * Graceful shutdown loses nothing: without hard kills no job is ever lost, and once all workers have stopped every
   * job is in the queue, succeeded or dead-lettered.
   */
  lemma {:induction false} GracefulShutdownLosesNothing(workers: nat, steps: seq<Step>, id: nat)
    requires CanRun(Initial(workers), steps) && forall i :: 0 <= i < |steps| ==> !IsKill(steps[i])
    ensures Run(Initial(workers), steps).lost == []
    ensures var t := Run(Initial(workers), steps);
            AllStopped(t) && id < |t.records| ==> Count(t.queue, id) + Count(t.succeeded, id) + Count(t.dlq, id) == 1
  {
    var t := Run(Initial(workers), steps);
    InitialConserved(workers);
    RunConserves(Initial(workers), steps);
    KillsAreCounted(Initial(workers), steps);
    if AllStopped(t) {
      NobodyHolds(t.processes, id);
      assert Places(t, id) == if id < |t.records| then 1 else 0;
    }
  }

  function PopsOf(w: nat, steps: seq<Step>): nat {
    if steps == [] then 0 else (if steps[0] == Pop(w) then 1 else 0) + PopsOf(w, steps[1..])
  }

  /** After its signal a worker takes at most one more job, and only if it was already waiting for one. */
  lemma {:induction false} OneMoreJobAtMost(s: State, steps: seq<Step>, w: nat)
    requires CanRun(s, steps) && w < |s.processes| && s.processes[w].shutdown
    ensures PopsOf(w, steps) <= if s.processes[w].phase == Waiting then 1 else 0
    decreases |steps|
  {
    if steps != [] {
      OneMoreJobAtMost(Next(s, steps[0]), steps[1..], w);
    }
  }

  /**
   * The environment is not restrained: jobs and processes may come at any time, a live process may be signalled or
   * killed wherever it stands, a kill loses just the job in its hands, and an attempt may fail before its commit,
   * after it, or not at all.
   */
  lemma {:induction false} EnvironmentIsFree(s: State, w: nat)
    requires w < |s.processes|
    ensures Enabled(s, Enqueue) && Enabled(s, Spawn)
    ensures var p := s.processes[w].phase;
            && (Enabled(s, Signal(w)) <==> Alive(s.processes[w])) && (Enabled(s, Kill(w)) <==> Alive(s.processes[w]))
            && (Alive(s.processes[w]) && Holds(p) ==> Next(s, Kill(w)).lost == s.lost + [p.job])
            && (Alive(s.processes[w]) && !Holds(p) ==> Next(s, Kill(w)).lost == s.lost)
            && (p.Scoring? ==> Enabled(s, Commit(w)) && Enabled(s, Fail(w)))
            && (p.Committed? ==> Enabled(s, Succeed(w)) && Enabled(s, Fail(w)))
  {}

  // ---------------------------------------------------------------- attempts, rows and back-off

  function Slept(retries: nat): nat {
    if retries == 0 then 0 else Slept(retries - 1) + Backoff(retries)
  }

  predicate QueuedRecord(r: Record, j: Job) {
    r.attempts == j.retries <= MAX_RETRIES && r.rows <= r.attempts && r.slept == Slept(j.retries)
  }

  /** During an attempt; `rows` have been stored by it and its predecessors. */
  predicate AttemptRecord(r: Record, j: Job) {
    r.attempts == j.retries + 1 <= MAX_RETRIES + 1 && r.rows <= r.attempts && r.slept == Slept(j.retries)
  }

  predicate PhaseRecord(r: Record, p: Phase)
    requires Holds(p)
  {
    && AttemptRecord(r, p.job)
    && (p.Scoring? ==> r.rows < r.attempts)
    && (p.Committed? ==> r.rows > 0)
    && (p.BackingOff? ==> p.job.retries < MAX_RETRIES)
    && (p.Burying? ==> p.job.retries == MAX_RETRIES)
  }

  predicate SucceededRecord(r: Record, j: Job) {
    AttemptRecord(r, j) && r.rows > 0
  }

  predicate DeadRecord(r: Record, j: Job) {
    AttemptRecord(r, j) && j.retries == MAX_RETRIES
  }

  ghost predicate Known(s: State, q: seq<Job>, record: (Record, Job) -> bool) {
    forall i :: 0 <= i < |q| ==> q[i].id < |s.records| && record(s.records[q[i].id], q[i])
  }

  ghost predicate HandsKnown(s: State) {
    forall w :: 0 <= w < |s.processes| && Holds(s.processes[w].phase) ==>
      var p := s.processes[w].phase; p.job.id < |s.records| && PhaseRecord(s.records[p.job.id], p)
  }

  /** The books: every job's history fits the place it is in. */
  ghost predicate Ledger(s: State) {
    && Known(s, s.queue, QueuedRecord)
    && HandsKnown(s)
    && Known(s, s.succeeded, SucceededRecord)
    && Known(s, s.dlq, DeadRecord)
    && Known(s, s.lost, AttemptRecord)
  }

  ghost predicate NotIn(q: seq<Job>, id: nat) {
    forall i :: 0 <= i < |q| ==> q[i].id != id
  }

  lemma {:induction false} AbsentWhenZero(q: seq<Job>, id: nat)
    requires Count(q, id) == 0
    ensures NotIn(q, id)
  {
    forall i | 0 <= i < |q| ensures q[i].id != id {
      if q[i].id == id { CountMember(q, i, id); }
    }
  }

  lemma {:induction false} HeldMember(ps: seq<Process>, w: nat, id: nat)
    requires w < |ps| && HeldBy(ps[w].phase, id) == 1
    ensures Held(ps, id) > 0
  {
    if w < |ps| - 1 {
      HeldMember(ps[..|ps| - 1], w, id);
    }
  }

  ghost predicate NoHolder(ps: seq<Process>, id: nat) {
    forall w :: 0 <= w < |ps| ==> HeldBy(ps[w].phase, id) == 0
  }

  lemma {:induction false} NoHolderWhenZero(ps: seq<Process>, id: nat)
    requires Held(ps, id) == 0
    ensures NoHolder(ps, id)
  {
    forall w | 0 <= w < |ps| ensures HeldBy(ps[w].phase, id) == 0 {
      if HeldBy(ps[w].phase, id) == 1 { HeldMember(ps, w, id); }
    }
  }

  /** The job in a worker's hands is nowhere else. */
  lemma {:induction false} HeldJobIsAlone(s: State, w: nat)
    requires Conserved(s) && w < |s.processes| && Holds(s.processes[w].phase)
    ensures var id := s.processes[w].phase.job.id;
            && NotIn(s.queue, id) && NotIn(s.succeeded, id) && NotIn(s.dlq, id) && NotIn(s.lost, id)
            && NoHolder(s.processes[w := Process(AtTop, false)], id)
  {
    var id := s.processes[w].phase.job.id;
    var others := s.processes[w := Process(AtTop, false)];
    HeldMember(s.processes, w, id);
    HeldUpdate(s.processes, w, Process(AtTop, false), id);
    assert Places(s, id) <= 1;
    AbsentWhenZero(s.queue, id);
    AbsentWhenZero(s.succeeded, id);
    AbsentWhenZero(s.dlq, id);
    AbsentWhenZero(s.lost, id);
    NoHolderWhenZero(others, id);
  }

  /** The job about to be popped is nowhere else. */
  lemma {:induction false} LastJobIsAlone(s: State)
    requires Conserved(s) && s.queue != []
    ensures var n := |s.queue| - 1; var id := s.queue[n].id;
            && NotIn(s.queue[..n], id) && NotIn(s.succeeded, id) && NotIn(s.dlq, id) && NotIn(s.lost, id)
            && NoHolder(s.processes, id)
  {
    var n := |s.queue| - 1;
    var id := s.queue[n].id;
    assert Places(s, id) <= 1;
    AbsentWhenZero(s.queue[..n], id);
    AbsentWhenZero(s.succeeded, id);
    AbsentWhenZero(s.dlq, id);
    AbsentWhenZero(s.lost, id);
    NoHolderWhenZero(s.processes, id);
  }

  lemma {:induction false} PopKeepsLedger(s: State, w: nat)
    requires Conserved(s) && Ledger(s) && Enabled(s, Pop(w))
    ensures Ledger(Next(s, Pop(w)))
  {
    var t, n := Next(s, Pop(w)), |s.queue| - 1;
    var j := s.queue[n];
    LastJobIsAlone(s);
    forall v | 0 <= v < |t.processes| && Holds(t.processes[v].phase)
      ensures var p := t.processes[v].phase; p.job.id < |t.records| && PhaseRecord(t.records[p.job.id], p)
    {
      if v != w { assert HeldBy(s.processes[v].phase, j.id) == 0; }
    }
  }

  lemma {:induction false} HeldStepKeepsLedger(s: State, step: Step)
    requires Conserved(s) && Ledger(s) && Enabled(s, step) && (step.Commit? || step.Repush?)
    ensures Ledger(Next(s, step))
  {
    var t, w := Next(s, step), step.w;
    var id := s.processes[w].phase.job.id;
    HeldJobIsAlone(s, w);
    forall v | 0 <= v < |t.processes| && Holds(t.processes[v].phase)
      ensures var p := t.processes[v].phase; p.job.id < |t.records| && PhaseRecord(t.records[p.job.id], p)
    {
      if v != w { assert HeldBy(s.processes[w := Process(AtTop, false)][v].phase, id) == 0; }
    }
  }

  /** These steps change no record: the job moves on with its history. */
  lemma {:induction false} HandOverKeepsLedger(s: State, step: Step)
    requires Ledger(s) && Enabled(s, step) && (step.Succeed? || step.Fail? || step.Bury? || step.Kill?)
    ensures Ledger(Next(s, step))
  {
    var t := Next(s, step);
    var p := s.processes[step.w].phase;
    assert Holds(p) ==> p.job.id < |s.records| && PhaseRecord(s.records[p.job.id], p);
    assert t.records == s.records && t.queue == s.queue;
    assert HandsKnown(t);
  }

  lemma {:induction false} StepKeepsLedger(s: State, step: Step)
    requires Conserved(s) && Ledger(s) && Enabled(s, step)
    ensures Ledger(Next(s, step))
  {
    match step
    case Pop(w) => PopKeepsLedger(s, w);
    case Commit(w) => HeldStepKeepsLedger(s, step);
    case Repush(w) => HeldStepKeepsLedger(s, step);
    case Succeed(w) => HandOverKeepsLedger(s, step);
    case Fail(w) => HandOverKeepsLedger(s, step);
    case Bury(w) => HandOverKeepsLedger(s, step);
    case Kill(w) => HandOverKeepsLedger(s, step);
    case _ =>
  }

  /** The books balance over every interleaving. */
  lemma {:induction false} RunKeepsLedger(s: State, steps: seq<Step>)
    requires Conserved(s) && Ledger(s) && CanRun(s, steps)
    ensures Ledger(Run(s, steps))
    decreases |steps|
  {
    if steps != [] {
      StepConserves(s, steps[0]);
      StepKeepsLedger(s, steps[0]);
      RunKeepsLedger(Next(s, steps[0]), steps[1..]);
    }
  }

  lemma {:induction false} FindInList(q: seq<Job>, id: nat) returns (i: nat)
    requires Count(q, id) > 0
    ensures i < |q| && q[i].id == id
  {
    var n := |q| - 1;
    if q[n].id == id {
      i := n;
    } else {
      i := FindInList(q[..n], id);
    }
  }

  lemma {:induction false} FindHolder(ps: seq<Process>, id: nat) returns (w: nat)
    requires Held(ps, id) > 0
    ensures w < |ps| && HeldBy(ps[w].phase, id) == 1
  {
    var n := |ps| - 1;
    if HeldBy(ps[n].phase, id) == 1 {
      w := n;
    } else {
      w := FindHolder(ps[..n], id);
    }
  }

  predicate WithinBounds(r: Record) {
    r.attempts <= 4 && r.rows <= r.attempts && r.slept <= 2 + 4 + 8
  }

  /** The seconds slept before the attempt with this retry count. */
  function SecondsSlept(retries: nat): nat {
    if retries == 0 then 0 else if retries == 1 then 2 else if retries == 2 then 6 else 14
  }

  lemma {:induction false} SleptBound(retries: nat)
    requires retries <= MAX_RETRIES
    ensures Slept(retries) == SecondsSlept(retries) <= 14
  {
    BackoffSeconds();
    assert Slept(0) == 0 && Slept(1) == 2 && Slept(2) == 6 && Slept(3) == 14;
  }

  lemma {:induction false} RecordBounds(s: State, id: nat)
    requires Conserved(s) && Ledger(s) && id < |s.records|
    ensures WithinBounds(s.records[id])
  {
    assert Places(s, id) == 1;
    if Count(s.queue, id) > 0 {
      var i := FindInList(s.queue, id);
      SleptBound(s.queue[i].retries);
    } else if Held(s.processes, id) > 0 {
      var w := FindHolder(s.processes, id);
      SleptBound(s.processes[w].phase.job.retries);
    } else if Count(s.succeeded, id) > 0 {
      var i := FindInList(s.succeeded, id);
      SleptBound(s.succeeded[i].retries);
    } else if Count(s.dlq, id) > 0 {
      var i := FindInList(s.dlq, id);
      SleptBound(s.dlq[i].retries);
    } else {
      var i := FindInList(s.lost, id);
      SleptBound(s.lost[i].retries);
    }
  }

  /**
   * In every reachable state each job has had at most 4 attempts, at most as many stored rows, and at most 2 + 4 + 8
   * seconds of back-off; a queued job's retry count is its number of past attempts, and 0, 1, 2 or 3 of them have
   * cost it 0, 2, 6 or 14 seconds; a succeeded job has at least one row; a dead-lettered one has retry count 3 and has
   * used all attempts and the whole back-off.
   */
  lemma {:induction false} AttemptsAndRows(workers: nat, steps: seq<Step>)
    requires CanRun(Initial(workers), steps)
    ensures var t := Run(Initial(workers), steps);
            && (forall id: nat :: id < |t.records| ==> WithinBounds(t.records[id]))
            && (forall j :: j in t.queue ==>
                  j.id < |t.records| && j.retries <= 3 && t.records[j.id].attempts == j.retries
                  && t.records[j.id].slept == SecondsSlept(j.retries))
            && (forall j :: j in t.succeeded ==>
                  j.id < |t.records| && j.retries <= 3 && 1 <= t.records[j.id].rows <= 4
                  && t.records[j.id].slept == SecondsSlept(j.retries))
            && (forall j :: j in t.dlq ==>
                  j.id < |t.records| && j.retries == 3 && t.records[j.id].attempts == 4 && t.records[j.id].slept == 14)
  {
    var t := Run(Initial(workers), steps);
    InitialConserved(workers);
    RunConserves(Initial(workers), steps);
    RunKeepsLedger(Initial(workers), steps);
    forall k: nat | k <= MAX_RETRIES ensures Slept(k) == SecondsSlept(k) { SleptBound(k); }
    forall id: nat | id < |t.records| ensures WithinBounds(t.records[id]) { RecordBounds(t, id); }
  }

  // ---------------------------------------------------------------- every run drains

  function Work(q: seq<Job>): int {
    if q == [] then 0 else Work(q[..|q| - 1]) + 4 * (4 - q[|q| - 1].retries)
  }

  /** The work left on a held job: four units per attempt still open, less the steps this attempt has taken. */
  function PhaseWork(p: Phase): int {
    match p
    case Scoring(j) => 4 * (4 - j.retries) - 1
    case Committed(j) => 4 * (4 - j.retries) - 2
    case BackingOff(j) => 4 * (4 - j.retries) - 3
    case Burying(j) => 4 * (4 - j.retries) - 3
    case _ => 0
  }

  function WorkInHands(ps: seq<Process>): int {
    if ps == [] then 0 else WorkInHands(ps[..|ps| - 1]) + PhaseWork(ps[|ps| - 1].phase)
  }

  function WorkLeft(s: State): int {
    Work(s.queue) + WorkInHands(s.processes)
  }

  lemma {:induction false} WorkPrepend(j: Job, q: seq<Job>)
    ensures Work([j] + q) == Work(q) + 4 * (4 - j.retries)
  {
    if q == [] {
      assert ([j] + q)[..0] == [];
    } else {
      var n := |q| - 1;
      WorkPrepend(j, q[..n]);
      assert ([j] + q)[..n + 1] == [j] + q[..n];
    }
  }

  lemma {:induction false} WorkUpdate(ps: seq<Process>, w: nat, p: Process)
    requires w < |ps|
    ensures WorkInHands(ps[w := p]) == WorkInHands(ps) - PhaseWork(ps[w].phase) + PhaseWork(p.phase)
  {
    var n := |ps| - 1;
    if w == n {
      assert ps[w := p][..n] == ps[..n];
    } else {
      assert ps[w := p][..n] == ps[..n][w := p];
      WorkUpdate(ps[..n], w, p);
    }
  }

  /** The steps that carry a job on; reading the flag, timing out, spawning and signalling do not. */
  predicate IsMove(step: Step) {
    step.Pop? || step.Commit? || step.Succeed? || step.Fail? || step.Repush? || step.Bury?
  }

  /** Every move uses up work; only an enqueue adds any. */
  lemma {:induction false} StepUsesWork(s: State, step: Step)
    requires Ledger(s) && Enabled(s, step)
    ensures var left := WorkLeft(Next(s, step));
            && (step.Enqueue? ==> left == WorkLeft(s) + 16)
            && (!step.Enqueue? ==> left <= WorkLeft(s))
            && (IsMove(step) ==> left < WorkLeft(s))
  {
    var t := Next(s, step);
    if step.Enqueue? {
      WorkPrepend(t.queue[0], s.queue);
    } else if step.Spawn? {
      assert t.processes[..|s.processes|] == s.processes;
    } else {
      HandsChange(s, step);
      HeldWork(s, step);
      QueueWork(s, step);
    }
  }

  /** Only the step's own worker changes what it holds. */
  lemma {:induction false} HandsChange(s: State, step: Step)
    requires Enabled(s, step) && !step.Enqueue? && !step.Spawn?
    ensures var t := Next(s, step);
            WorkInHands(t.processes) ==
            WorkInHands(s.processes) - PhaseWork(s.processes[step.w].phase) + PhaseWork(t.processes[step.w].phase)
  {
    OneProcessChanges(s, step);
    WorkUpdate(s.processes, step.w, Next(s, step).processes[step.w]);
  }

  /** What one step does to the work in the queue. */
  lemma {:induction false} QueueWork(s: State, step: Step)
    requires Enabled(s, step) && !step.Enqueue? && !step.Spawn?
    ensures var left := Work(Next(s, step).queue);
            left == if step.Pop? then Work(s.queue) - 4 * (4 - s.queue[|s.queue| - 1].retries)
                    else if step.Repush? then Work(s.queue) + 4 * (3 - s.processes[step.w].phase.job.retries)
                    else Work(s.queue)
  {
    if step.Repush? { WorkPrepend(Next(s, step).queue[0], s.queue); }
  }

  /** What one step does to the work in the hands of its worker. */
  lemma {:induction false} HeldWork(s: State, step: Step)
    requires Ledger(s) && Enabled(s, step) && !step.Enqueue? && !step.Spawn?
    ensures var (p, q) := (s.processes[step.w].phase, Next(s, step).processes[step.w].phase);
            && (step.Pop? ==> PhaseWork(q) == 4 * (4 - s.queue[|s.queue| - 1].retries) - 1 && PhaseWork(p) == 0)
            && (step.Repush? ==> PhaseWork(p) == 4 * (4 - p.job.retries) - 3 && q == AtTop)
            && (IsMove(step) && !step.Pop? && !step.Repush? ==> PhaseWork(q) < PhaseWork(p))
            && (!IsMove(step) ==> PhaseWork(q) <= PhaseWork(p))
  {}

  lemma {:induction false} WorkNonNegative(s: State, q: seq<Job>)
    requires Known(s, q, QueuedRecord)
    ensures Work(q) >= |q|
  {
    if q != [] {
      var n := |q| - 1;
      assert Known(s, q[..n], QueuedRecord) by {
        forall i | 0 <= i < n ensures q[..n][i].id < |s.records| && QueuedRecord(s.records[q[..n][i].id], q[..n][i]) {
          assert q[..n][i] == q[i];
        }
      }
      WorkNonNegative(s, q[..n]);
    }
  }

  lemma {:induction false} HandsNonNegative(ps: seq<Process>)
    requires forall w :: 0 <= w < |ps| && Holds(ps[w].phase) ==> ps[w].phase.job.retries <= MAX_RETRIES
    ensures WorkInHands(ps) >= 0
    ensures WorkInHands(ps) == 0 ==> forall w :: 0 <= w < |ps| ==> !Holds(ps[w].phase)
  {
    if ps != [] {
      HandsNonNegative(ps[..|ps| - 1]);
    }
  }

  function Moves(steps: seq<Step>): nat {
    if steps == [] then 0 else (if IsMove(steps[0]) then 1 else 0) + Moves(steps[1..])
  }

  function Enqueues(steps: seq<Step>): nat {
    if steps == [] then 0 else (if steps[0].Enqueue? then 1 else 0) + Enqueues(steps[1..])
  }

  lemma {:induction false} MovesBounded(s: State, steps: seq<Step>)
    requires Conserved(s) && Ledger(s) && CanRun(s, steps)
    ensures Moves(steps) + WorkLeft(Run(s, steps)) <= WorkLeft(s) + 16 * Enqueues(steps)
    decreases |steps|
  {
    if steps != [] {
      StepConserves(s, steps[0]);
      StepKeepsLedger(s, steps[0]);
      StepUsesWork(s, steps[0]);
      MovesBounded(Next(s, steps[0]), steps[1..]);
    }
  }

  lemma {:induction false} NoWorkInHands(ps: seq<Process>)
    requires forall w :: 0 <= w < |ps| ==> !Holds(ps[w].phase)
    ensures WorkInHands(ps) == 0
  {
    if ps != [] {
      NoWorkInHands(ps[..|ps| - 1]);
    }
  }

  /**
   * n enqueued jobs allow at most 16 n moves, whatever the interleaving, and the work left at any time is non-negative
   * and zero only when the queue and all hands are empty.
   */
  lemma {:induction false} FinitelyManyMoves(workers: nat, steps: seq<Step>)
    requires CanRun(Initial(workers), steps)
    ensures var t := Run(Initial(workers), steps);
            && Moves(steps) + WorkLeft(t) <= 16 * Enqueues(steps)
            && 0 <= WorkLeft(t)
            && (WorkLeft(t) == 0 ==>
                  t.queue == [] && forall w :: 0 <= w < |t.processes| ==> !Holds(t.processes[w].phase))
  {
    var s, t := Initial(workers), Run(Initial(workers), steps);
    InitialConserved(workers);
    RunConserves(s, steps);
    RunKeepsLedger(s, steps);
    MovesBounded(s, steps);
    NoWorkInHands(s.processes);
    WorkNonNegative(t, t.queue);
    HandsNonNegative(t.processes);
  }

  predicate Alive(p: Process) {
    p.phase != Stopped && p.phase != Killed
  }

  /** A live worker that holds a job, or is not told to stop while one is queued, can take a step towards the work. */
  lemma {:induction false} WorkIsNeverStuck(s: State, w: nat) returns (step: Step)
    requires w < |s.processes| && Alive(s.processes[w])
    requires Holds(s.processes[w].phase) || (!s.processes[w].shutdown && s.queue != [])
    ensures Enabled(s, step) && !step.Enqueue? && !step.Spawn? && step.w == w
    ensures IsMove(step) || (step == ReadFlag(w) && Enabled(Next(s, step), Pop(w)))
  {
    match s.processes[w].phase
    case AtTop => step := ReadFlag(w);
    case Waiting => step := Pop(w);
    case Scoring(_) => step := Commit(w);
    case Committed(_) => step := Succeed(w);
    case BackingOff(_) => step := Repush(w);
    case Burying(_) => step := Bury(w);
  }

  lemma {:induction false} WorkLeftNonNegative(s: State)
    requires Ledger(s)
    ensures WorkLeft(s) >= 0
  {
    WorkNonNegative(s, s.queue);
    HandsNonNegative(s.processes);
  }

  /** From every reachable state a single live worker without a signal can empty the queue and its hands on its own. */
  lemma {:induction false} OneWorkerCanDrain(s: State, w: nat) returns (steps: seq<Step>)
    requires Conserved(s) && Ledger(s)
    requires w < |s.processes| && Alive(s.processes[w]) && !s.processes[w].shutdown
    ensures CanRun(s, steps) && w < |Run(s, steps).processes|
    ensures Run(s, steps).queue == [] && !Holds(Run(s, steps).processes[w].phase)
    ensures forall i :: 0 <= i < |steps| ==> !steps[i].Enqueue? && !steps[i].Spawn? && steps[i].w == w
    decreases WorkLeft(s), if s.processes[w].phase == AtTop then 1 else 0
  {
    if s.queue == [] && !Holds(s.processes[w].phase) {
      steps := [];
    } else {
      var step := WorkIsNeverStuck(s, w);
      StepConserves(s, step);
      StepKeepsLedger(s, step);
      StepUsesWork(s, step);
      WorkLeftNonNegative(s);
      var rest := OneWorkerCanDrain(Next(s, step), w);
      steps := [step] + rest;
      assert steps[1..] == rest;
    }
  }

  // ---------------------------------------------------------------- first in, first out

  function Reverse(q: seq<Job>): (r: seq<Job>)
    ensures |r| == |q|
  {
    if q == [] then [] else [q[|q| - 1]] + Reverse(q[..|q| - 1])
  }

  lemma {:induction false} ReversePrepend(j: Job, q: seq<Job>)
    ensures Reverse([j] + q) == Reverse(q) + [j]
  {
    if q == [] {
      assert [j] + q == [j];
    } else {
      var n := |q| - 1;
      ReversePrepend(j, q[..n]);
      assert ([j] + q)[..n + 1] == [j] + q[..n];
    }
  }

  lemma {:induction false} ReverseElements(q: seq<Job>)
    ensures forall k :: 0 <= k < |q| ==> Reverse(q)[k] == q[|q| - 1 - k]
  {
    if q != [] {
      ReverseElements(q[..|q| - 1]);
    }
  }

  /** What has been pushed is what has been popped, followed by the queue from its right end. */
  ghost predicate Fifo(s: State) {
    s.pushed == s.popped + Reverse(s.queue)
  }

  lemma {:induction false} StepKeepsFifo(s: State, step: Step)
    requires Fifo(s) && Enabled(s, step)
    ensures Fifo(Next(s, step))
    ensures s.pushed <= Next(s, step).pushed && s.popped <= Next(s, step).popped
  {
    var t := Next(s, step);
    match step
    case Enqueue => PushKeepsFifo(s, t, t.queue[0]);
    case Repush(_) => PushKeepsFifo(s, t, t.queue[0]);
    case Pop(_) => assert t.popped + Reverse(t.queue) == s.popped + Reverse(s.queue);
    case _ =>
  }

  lemma {:induction false} PushKeepsFifo(s: State, t: State, j: Job)
    requires Fifo(s)
    requires t.queue == [j] + s.queue && t.pushed == s.pushed + [j] && t.popped == s.popped
    ensures Fifo(t)
  {
    ReversePrepend(j, s.queue);
  }

  lemma {:induction false} RunKeepsFifo(s: State, steps: seq<Step>)
    requires Fifo(s) && CanRun(s, steps)
    ensures Fifo(Run(s, steps))
    ensures s.pushed <= Run(s, steps).pushed && s.popped <= Run(s, steps).popped
    decreases |steps|
  {
    if steps != [] {
      StepKeepsFifo(s, steps[0]);
      RunKeepsFifo(Next(s, steps[0]), steps[1..]);
    }
  }

  /**
   * Fair retries: after a re-push the next pops, by whichever workers, take the jobs that were queued at that moment,
   * in their order, and only then the re-pushed job.
   */
  lemma {:induction false} RepushedJobWaitsItsTurn(s: State, w: nat, steps: seq<Step>, k: nat)
    requires Conserved(s) && Fifo(s) && Enabled(s, Repush(w)) && CanRun(Next(s, Repush(w)), steps)
    ensures var t := Run(Next(s, Repush(w)), steps);
            |s.popped| <= k < |t.popped| ==>
              && (k < |s.popped| + |s.queue| ==>
                    t.popped[k] == Reverse(s.queue)[k - |s.popped|] && t.popped[k].id != s.processes[w].phase.job.id)
              && (k == |s.popped| + |s.queue| ==>
                    t.popped[k] == Job(s.processes[w].phase.job.id, s.processes[w].phase.job.retries + 1))
  {
    var u := Next(s, Repush(w));
    var t := Run(u, steps);
    var j := u.queue[0];
    StepKeepsFifo(s, Repush(w));
    RunKeepsFifo(u, steps);
    ReversePrepend(j, s.queue);
    ReverseElements(s.queue);
    HeldJobIsAlone(s, w);
    assert u.pushed == s.popped + Reverse(s.queue) + [j];
    if |s.popped| <= k < |t.popped| && k < |u.pushed| {
      assert t.popped[k] == t.pushed[k] == u.pushed[k];
    }
  }
}

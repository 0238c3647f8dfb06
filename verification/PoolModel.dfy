/** The worker pool as a transition system: any number of worker threads, one
    mutex, one condition variable, a FIFO of work units, a termination flag and
    a destructor, interleaved in every possible order. */
module PoolModel {
  import opened Counting
  import opened Options

  /** A work unit. Its body is a finite sequence of atomic steps on shared
      memory, which other threads may interleave with; `task` is the bound call
      of a packaged task, whose value goes into the future of `schedule`. */
  datatype Job<A, R> = Job(steps: seq<A>, task: Option<() -> R>)

  /** Where a worker stands in the main loop. */
  datatype Pc =
    | Entering                          // about to take the lock
    | Checking                          // holds the lock, evaluates the wait predicate
    | Parked                            // in the wait set of the condition variable
    | Woken                             // must take the lock again before re-checking
    | Draining                          // holds the lock, at the head of the drain loop
    | Running(ticket: nat, done: nat)   // unlocked, `done` steps of the job executed
    | Relocking                         // job done, must take the lock again
    | Deciding                          // holds the lock, about to test for termination
    | Exited

  datatype Destructor = Alive | Joining(next: nat) | Returned

  /** `jobs` holds tickets: positions in `accepted`. The fields after
      `destructor` are the history of the run. */
  datatype Pool<A, R> = Pool(
    workers: seq<Pc>,
    mutex: Option<nat>,
    jobs: seq<nat>,
    terminated: bool,
    destructor: Destructor,
    accepted: seq<Job<A, R>>,     // in order of submission
    started: seq<nat>,            // in order of dequeuing
    completed: seq<nat>,          // in order of completion
    progress: seq<nat>,           // steps executed so far, by ticket
    effects: seq<A>,              // every step executed, in order
    futures: map<nat, R>)         // values stored by packaged tasks, by ticket

  datatype Action<A, R> =
    | Work(worker: nat)
    | Spurious(worker: nat)
    | Submit(job: Job<A, R>, wake: Option<nat>)
    | Terminate
    | Join

  predicate WellFormed<A, R>(s: Pool<A, R>) {
    && |s.progress| == |s.accepted|
    && (forall t | t in s.jobs :: t < |s.accepted|)
    && (forall i | 0 <= i < |s.workers| && s.workers[i].Running? :: s.workers[i].ticket < |s.accepted|)
  }

  function Init<A, R>(n: nat): (s: Pool<A, R>)
    ensures WellFormed(s)
  {
    Pool(seq(n, _ => Entering), None, [], false, Alive, [], [], [], [], [], map[])
  }

  predicate SomeParked(workers: seq<Pc>) {
    exists i | 0 <= i < |workers| :: workers[i] == Parked
  }

  /** `notify_one` wakes a waiting worker if there is one, any one. */
  predicate NotifyOne(workers: seq<Pc>, wake: Option<nat>) {
    match wake
    case None => !SomeParked(workers)
    case Some(i) => i < |workers| && workers[i] == Parked
  }

  predicate CanMove(pc: Pc, mutexFree: bool) {
    match pc
    case Parked => false
    case Exited => false
    case Entering => mutexFree
    case Woken => mutexFree
    case Relocking => mutexFree
    case _ => true
  }

  predicate Enabled<A, R>(s: Pool<A, R>, a: Action<A, R>) {
    match a
    case Work(i) => i < |s.workers| && CanMove(s.workers[i], s.mutex.None?)
    case Spurious(i) => i < |s.workers| && s.workers[i] == Parked
    case Submit(job, wake) => s.destructor != Returned && s.mutex.None? && NotifyOne(s.workers, wake)
    case Terminate => s.destructor == Alive && s.mutex.None?
    case Join => s.destructor.Joining? &&
                 (s.destructor.next < |s.workers| ==> s.workers[s.destructor.next] == Exited)
  }

  function Fulfil<A, R>(futures: map<nat, R>, t: nat, job: Job<A, R>): map<nat, R> {
    if job.task.Some? then futures[t := job.task.value()] else futures
  }

  /** One atomic step of worker `i`. */
  function WorkStep<A, R>(s: Pool<A, R>, i: nat): (s': Pool<A, R>)
    requires WellFormed(s) && i < |s.workers|
    ensures WellFormed(s')
  {
    var ws := s.workers;
    match ws[i]
    case Entering => s.(workers := ws[i := Checking], mutex := Some(i))
    case Woken => s.(workers := ws[i := Checking], mutex := Some(i))
    case Checking =>
      if s.terminated || s.jobs != []
      then s.(workers := ws[i := Draining])
      else s.(workers := ws[i := Parked], mutex := None)
    case Draining =>
      if s.jobs == [] then s.(workers := ws[i := Deciding])
      else
        var t := s.jobs[0];
        assert t in s.jobs && forall u | u in s.jobs[1..] :: u in s.jobs;
        s.(workers := ws[i := Running(t, 0)], mutex := None, jobs := s.jobs[1..], started := s.started + [t])
    case Running(t, k) =>
      var job := s.accepted[t];
      if k < |job.steps| then
        s.(workers := ws[i := Running(t, k + 1)],
           progress := s.progress[t := k + 1],
           effects := s.effects + [job.steps[k]])
      else
        s.(workers := ws[i := Relocking],
           completed := s.completed + [t],
           futures := Fulfil(s.futures, t, job))
    case Relocking => s.(workers := ws[i := Draining], mutex := Some(i))
    case Deciding => s.(workers := ws[i := if s.terminated then Exited else Entering], mutex := None)
    case Parked => s
    case Exited => s
  }

  /** `scheduleWork`: refused after termination; run on the spot, under the
      lock, when there are no workers; queued otherwise. */
  function SubmitStep<A, R>(s: Pool<A, R>, job: Job<A, R>, wake: Option<nat>): (s': Pool<A, R>)
    requires WellFormed(s) && NotifyOne(s.workers, wake)
    ensures WellFormed(s')
  {
    var t := |s.accepted|;
    if s.terminated then s
    else if s.workers == [] then
      s.(accepted := s.accepted + [job],
         started := s.started + [t],
         completed := s.completed + [t],
         progress := s.progress + [|job.steps|],
         effects := s.effects + job.steps,
         futures := Fulfil(s.futures, t, job))
    else
      s.(accepted := s.accepted + [job],
         progress := s.progress + [0],
         jobs := s.jobs + [t],
         workers := if wake.Some? then s.workers[wake.value := Woken] else s.workers)
  }

  function Unpark(pc: Pc): Pc { if pc == Parked then Woken else pc }

  /** `notify_all`. */
  function UnparkAll(workers: seq<Pc>): (ws: seq<Pc>)
    ensures |ws| == |workers|
    ensures forall i | 0 <= i < |ws| :: ws[i] == Unpark(workers[i])
  {
    seq(|workers|, i requires 0 <= i < |workers| => Unpark(workers[i]))
  }

  /** The critical section of the destructor; without workers it does nothing. */
  function TerminateStep<A, R>(s: Pool<A, R>): (s': Pool<A, R>)
    requires WellFormed(s)
    ensures WellFormed(s')
  {
    if s.workers == [] then s.(destructor := Returned)
    else s.(terminated := true, workers := UnparkAll(s.workers), destructor := Joining(0))
  }

  function JoinStep<A, R>(s: Pool<A, R>): (s': Pool<A, R>)
    requires WellFormed(s) && s.destructor.Joining?
    ensures WellFormed(s')
  {
    s.(destructor := if s.destructor.next < |s.workers| then Joining(s.destructor.next + 1) else Returned)
  }

  function Next<A, R>(s: Pool<A, R>, a: Action<A, R>): (s': Pool<A, R>)
    requires WellFormed(s) && Enabled(s, a)
    ensures WellFormed(s')
  {
    match a
    case Work(i) => WorkStep(s, i)
    case Spurious(i) => s.(workers := s.workers[i := Woken])
    case Submit(job, wake) => SubmitStep(s, job, wake)
    case Terminate => TerminateStep(s)
    case Join => JoinStep(s)
  }

  predicate ValidRun<A, R>(s: Pool<A, R>, run: seq<Action<A, R>>)
    requires WellFormed(s)
    decreases |run|
  {
    run == [] || (Enabled(s, run[0]) && ValidRun(Next(s, run[0]), run[1..]))
  }

  function Execute<A, R>(s: Pool<A, R>, run: seq<Action<A, R>>): (s': Pool<A, R>)
    requires WellFormed(s) && ValidRun(s, run)
    ensures WellFormed(s')
    decreases |run|
  {
    if run == [] then s else Execute(Next(s, run[0]), run[1..])
  }

  lemma Prepend<A, R>(s: Pool<A, R>, a: Action<A, R>, run: seq<Action<A, R>>)
    requires WellFormed(s) && Enabled(s, a) && ValidRun(Next(s, a), run)
    ensures ValidRun(s, [a] + run) && Execute(s, [a] + run) == Execute(Next(s, a), run)
  {
  }

  lemma {:induction false} ExecuteAppend<A, R>(s: Pool<A, R>, a: seq<Action<A, R>>, b: seq<Action<A, R>>)
    requires WellFormed(s) && ValidRun(s, a) && ValidRun(Execute(s, a), b)
    ensures ValidRun(s, a + b) && Execute(s, a + b) == Execute(Execute(s, a), b)
    decreases |a|
  {
    if a == [] {
      assert a + b == b;
    } else {
      assert (a + b)[1..] == a[1..] + b;
      ExecuteAppend(Next(s, a[0]), a[1..], b);
    }
  }

  // -------------------------------------------------------------- vocabulary

  predicate HoldsLock(pc: Pc) { pc.Checking? || pc.Draining? || pc.Deciding? }

  function Range(n: nat): (r: seq<nat>)
    ensures |r| == n && forall i | 0 <= i < n :: r[i] == i
  {
    if n == 0 then [] else Range(n - 1) + [n - 1]
  }

  predicate Runs(pc: Pc, t: nat) { pc.Running? && pc.ticket == t }

  /** How many workers are running job `t`. */
  function RunningOn(workers: seq<Pc>, t: nat): nat {
    if workers == [] then 0 else One(Runs(workers[0], t)) + RunningOn(workers[1..], t)
  }

  /** How many workers are running some job. */
  function BusyCount(workers: seq<Pc>): nat {
    if workers == [] then 0 else One(workers[0].Running?) + BusyCount(workers[1..])
  }

  function ParkedCount(workers: seq<Pc>): nat {
    if workers == [] then 0 else One(workers[0] == Parked) + ParkedCount(workers[1..])
  }

  /** The earlier-accepted tickets still incomplete when the `p`-th job completed. */
  function Overtaken(completed: seq<nat>, p: nat): set<nat>
    requires p < |completed|
  {
    set u | 0 <= u < completed[p] && u !in completed[..p]
  }
}

/** What every reachable state of the worker pool satisfies. */
module PoolInvariant {
  import opened Counting
  import opened Options
  import opened PoolModel

  /** Mutual exclusion: the lock is held by whoever is inside a locked region. */
  ghost predicate MutexInv<A, R>(s: Pool<A, R>) {
    && (s.mutex.Some? ==> s.mutex.value < |s.workers| && HoldsLock(s.workers[s.mutex.value]))
    && (forall i | 0 <= i < |s.workers| && HoldsLock(s.workers[i]) :: s.mutex == Some(i))
  }

  /** FIFO and exactly-once: jobs are dequeued in the order they were accepted,
      and every dequeued job is either completed once or running on one worker. */
  ghost predicate TicketInv<A, R>(s: Pool<A, R>) {
    && s.started + s.jobs == Range(|s.accepted|)
    && (forall t: nat :: multiset(s.completed)[t] + RunningOn(s.workers, t) == One(t < |s.started|))
  }

  /** How far the body of each job has got. */
  ghost predicate ProgressInv<A, R>(s: Pool<A, R>) {
    && |s.progress| == |s.accepted|
    && (forall t | |s.started| <= t < |s.accepted| :: s.progress[t] == 0)
    && (forall t | t in s.completed :: t < |s.accepted| && s.progress[t] == |s.accepted[t].steps|)
    && (forall i | 0 <= i < |s.workers| && s.workers[i].Running? ::
          && s.workers[i].ticket < |s.started|
          && s.workers[i].ticket < |s.accepted|
          && s.workers[i].done == s.progress[s.workers[i].ticket]
          && s.workers[i].done <= |s.accepted[s.workers[i].ticket].steps|)
  }

  /** A future is set exactly when its job is complete, to that job's own value. */
  ghost predicate FutureInv<A, R>(s: Pool<A, R>) {
    && (forall t | t in s.completed :: t < |s.accepted|)
    && (forall t: nat :: t in s.futures <==> t in s.completed && s.accepted[t].task.Some?)
    && (forall t: nat | t in s.futures :: s.futures[t] == s.accepted[t].task.value())
  }

  /** Termination, and the queue at the end of a worker's life. */
  ghost predicate ShutdownInv<A, R>(s: Pool<A, R>) {
    && (s.terminated ==> forall i | 0 <= i < |s.workers| :: s.workers[i] != Parked)
    && (forall i | 0 <= i < |s.workers| && s.workers[i].Deciding? :: s.jobs == [])
    && (forall i | 0 <= i < |s.workers| && s.workers[i].Exited? :: s.terminated && s.jobs == [])
    && (s.workers == [] ==> s.jobs == [] && !s.terminated && !s.destructor.Joining?)
    && (s.workers != [] ==> (s.terminated <==> s.destructor != Alive))
    && (s.destructor.Joining? ==>
          && s.destructor.next <= |s.workers|
          && forall i | 0 <= i < s.destructor.next :: s.workers[i] == Exited)
    && (s.destructor == Returned ==> forall i | 0 <= i < |s.workers| :: s.workers[i] == Exited)
  }

  /** Work conservation: until termination, either no worker sleeps or the
      workers awake are at least as many as the jobs queued and running. */
  ghost predicate AwakeInv<A, R>(s: Pool<A, R>) {
    !s.terminated && ParkedCount(s.workers) > 0 ==>
      |s.workers| - ParkedCount(s.workers) >= |s.jobs| + BusyCount(s.workers)
  }

  /** Bounded overtaking: a job completes ahead of at most N - 1 earlier ones. */
  ghost predicate OvertakingInv<A, R>(s: Pool<A, R>) {
    forall p | 0 <= p < |s.completed| ::
      |Overtaken(s.completed, p)| <= (if s.workers == [] then 0 else |s.workers| - 1)
  }

  ghost predicate Inv<A, R>(s: Pool<A, R>) {
    && WellFormed(s) && MutexInv(s) && TicketInv(s) && ProgressInv(s) && FutureInv(s)
    && ShutdownInv(s) && AwakeInv(s) && OvertakingInv(s)
  }

  // ---------------------------------------------------------------- counting

  /** The three counts when worker `i` moves to `pc`. */
  lemma {:induction false} CountsUpdate(ws: seq<Pc>, i: nat, pc: Pc)
    requires i < |ws|
    ensures forall t: nat :: RunningOn(ws[i := pc], t) + One(Runs(ws[i], t)) == RunningOn(ws, t) + One(Runs(pc, t))
    ensures BusyCount(ws[i := pc]) + One(ws[i].Running?) == BusyCount(ws) + One(pc.Running?)
    ensures ParkedCount(ws[i := pc]) + One(ws[i] == Parked) == ParkedCount(ws) + One(pc == Parked)
    decreases |ws|
  {
    if i == 0 {
      assert ws[0 := pc][1..] == ws[1..];
    } else {
      assert ws[i := pc][1..] == ws[1..][i - 1 := pc];
      CountsUpdate(ws[1..], i - 1, pc);
      forall t: nat
        ensures RunningOn(ws[i := pc], t) + One(Runs(ws[i], t)) == RunningOn(ws, t) + One(Runs(pc, t))
      {
        assert RunningOn(ws[1..][i - 1 := pc], t) + One(Runs(ws[1..][i - 1], t)) ==
               RunningOn(ws[1..], t) + One(Runs(pc, t));
      }
    }
  }

  lemma {:induction false} CountBounds(ws: seq<Pc>)
    ensures BusyCount(ws) + ParkedCount(ws) <= |ws|
    ensures ParkedCount(ws) == 0 <==> !SomeParked(ws)
    decreases |ws|
  {
    if ws != [] {
      CountBounds(ws[1..]);
      if SomeParked(ws) && ws[0] != Parked {
        var i :| 0 <= i < |ws| && ws[i] == Parked;
        assert ws[1..][i - 1] == Parked;
      }
      if SomeParked(ws[1..]) {
        var i :| 0 <= i < |ws[1..]| && ws[1..][i] == Parked;
        assert ws[i + 1] == Parked;
      }
    }
  }

  lemma {:induction false} RunningSomewhere(ws: seq<Pc>, i: nat)
    requires i < |ws| && ws[i].Running?
    ensures RunningOn(ws, ws[i].ticket) >= 1
    decreases |ws|
  {
    if i > 0 { RunningSomewhere(ws[1..], i - 1); }
  }

  lemma {:induction false} RunningWitness(ws: seq<Pc>, t: nat) returns (i: nat)
    requires RunningOn(ws, t) >= 1
    ensures i < |ws| && Runs(ws[i], t)
    decreases |ws|
  {
    if Runs(ws[0], t) {
      i := 0;
    } else {
      i := RunningWitness(ws[1..], t);
      i := i + 1;
    }
  }

  lemma {:induction false} NoneRunning(ws: seq<Pc>)
    requires forall i | 0 <= i < |ws| :: !ws[i].Running?
    ensures forall t: nat :: RunningOn(ws, t) == 0
    decreases |ws|
  {
    if ws != [] { NoneRunning(ws[1..]); }
  }

  /** Distinct running tickets occupy distinct workers. */
  lemma {:induction false} TicketsFit(u: set<nat>, ws: seq<Pc>)
    requires forall t | t in u :: RunningOn(ws, t) >= 1
    ensures |u| <= BusyCount(ws)
    decreases |ws|
  {
    if ws == [] {
      assert u == {};
    } else if ws[0].Running? {
      TicketsFit(u - {ws[0].ticket}, ws[1..]);
    } else {
      TicketsFit(u, ws[1..]);
    }
  }

  lemma AppendOnce(a: seq<nat>, x: nat, t: nat)
    ensures multiset(a + [x])[t] == multiset(a)[t] + One(x == t)
  {
  }

  lemma {:induction false} RangeOnce(n: nat, t: nat)
    ensures multiset(Range(n))[t] == if t < n then 1 else 0
  {
    if n > 0 {
      RangeOnce(n - 1, t);
      AppendOnce(Range(n - 1), n - 1, t);
    }
  }

  /** A prefix of the tickets, whatever follows it. */
  lemma PrefixOfRange(a: seq<nat>, b: seq<nat>, n: nat)
    requires a + b == Range(n)
    ensures |a| + |b| == n && a == Range(|a|)
    ensures forall k | 0 <= k < |b| :: b[k] == |a| + k
  {
    assert |a + b| == n;
    forall k | 0 <= k < |a| ensures a[k] == k { assert (a + b)[k] == k; }
    forall k | 0 <= k < |b| ensures b[k] == |a| + k { assert (a + b)[|a| + k] == |a| + k; }
  }

  /** Each accepted job is in exactly one place, exactly once. */
  lemma TicketPlace<A, R>(s: Pool<A, R>, t: nat)
    requires TicketInv(s)
    ensures multiset(s.completed)[t] + RunningOn(s.workers, t) + multiset(s.jobs)[t] == One(t < |s.accepted|)
    ensures t in s.jobs <==> |s.started| <= t < |s.accepted|
    ensures t in s.completed <==> t < |s.started| && RunningOn(s.workers, t) == 0
  {
    PrefixOfRange(s.started, s.jobs, |s.accepted|);
    RangeOnce(|s.started|, t);
    RangeOnce(|s.accepted|, t);
    assert multiset(s.started + s.jobs) == multiset(s.started) + multiset(s.jobs);
    assert t in s.completed <==> multiset(s.completed)[t] > 0;
    assert t in s.jobs <==> multiset(s.jobs)[t] > 0;
  }

  // ------------------------------------------------------ one step, clause by clause

  /** A step that neither queues, dequeues nor runs a job. */
  predicate Quiet<A, R>(s: Pool<A, R>, a: Action<A, R>)
    requires WellFormed(s) && Enabled(s, a)
  {
    match a
    case Work(i) => !s.workers[i].Running? && !(s.workers[i].Draining? && s.jobs != [])
    case Submit(job, wake) => s.terminated
    case _ => true
  }

  ghost predicate SameRecords<A, R>(s: Pool<A, R>, s': Pool<A, R>) {
    && s'.jobs == s.jobs && s'.accepted == s.accepted && s'.started == s.started
    && s'.completed == s.completed && s'.progress == s.progress
    && s'.effects == s.effects && s'.futures == s.futures
  }

  lemma QuietStep<A, R>(s: Pool<A, R>, a: Action<A, R>)
    requires WellFormed(s) && Enabled(s, a) && Quiet(s, a)
    ensures SameRecords(s, Next(s, a))
    ensures |Next(s, a).workers| == |s.workers|
    ensures forall i | 0 <= i < |s.workers| ::
              Next(s, a).workers[i] == s.workers[i] || (!Next(s, a).workers[i].Running? && !s.workers[i].Running?)
  {
  }

  lemma {:induction false} SameRunning(ws: seq<Pc>, ws': seq<Pc>, t: nat)
    requires |ws'| == |ws|
    requires forall i | 0 <= i < |ws| :: ws'[i] == ws[i] || (!ws'[i].Running? && !ws[i].Running?)
    ensures RunningOn(ws', t) == RunningOn(ws, t)
    decreases |ws|
  {
    if ws != [] { SameRunning(ws[1..], ws'[1..], t); }
  }

  lemma MutexStep<A, R>(s: Pool<A, R>, a: Action<A, R>)
    requires WellFormed(s) && MutexInv(s) && Enabled(s, a)
    ensures MutexInv(Next(s, a))
  {
  }

  lemma DequeueTickets<A, R>(s: Pool<A, R>, i: nat)
    requires WellFormed(s) && TicketInv(s) && i < |s.workers|
    requires s.workers[i].Draining? && s.jobs != []
    ensures TicketInv(WorkStep(s, i))
  {
    var s' := WorkStep(s, i);
    var t := s.jobs[0];
    PrefixOfRange(s.started, s.jobs, |s.accepted|);
    assert s'.started + s'.jobs == s.started + s.jobs;
    CountsUpdate(s.workers, i, Running(t, 0));
    forall u: nat ensures multiset(s'.completed)[u] + RunningOn(s'.workers, u) == One(u < |s'.started|) {
      assert multiset(s.completed)[u] + RunningOn(s.workers, u) == One(u < |s.started|);
    }
  }

  lemma RunTickets<A, R>(s: Pool<A, R>, i: nat)
    requires WellFormed(s) && TicketInv(s) && i < |s.workers| && s.workers[i].Running?
    ensures TicketInv(WorkStep(s, i))
  {
    var s' := WorkStep(s, i);
    var t := s.workers[i].ticket;
    CountsUpdate(s.workers, i, s'.workers[i]);
    assert s'.completed == s.completed || multiset(s'.completed) == multiset(s.completed) + multiset{t};
    forall u: nat ensures multiset(s'.completed)[u] + RunningOn(s'.workers, u) == One(u < |s'.started|) {
      assert multiset(s.completed)[u] + RunningOn(s.workers, u) == One(u < |s.started|);
    }
  }

  lemma TicketStep<A, R>(s: Pool<A, R>, a: Action<A, R>)
    requires WellFormed(s) && TicketInv(s) && ShutdownInv(s) && Enabled(s, a)
    ensures TicketInv(Next(s, a))
  {
    if Quiet(s, a) {
      QuietStep(s, a);
      var s' := Next(s, a);
      forall t: nat ensures multiset(s'.completed)[t] + RunningOn(s'.workers, t) == One(t < |s'.started|) {
        SameRunning(s.workers, s'.workers, t);
      }
    } else if a.Submit? {
      SubmitTickets(s, a.job, a.wake);
    } else if s.workers[a.worker].Draining? {
      DequeueTickets(s, a.worker);
    } else {
      RunTickets(s, a.worker);
    }
  }

  lemma SubmitTickets<A, R>(s: Pool<A, R>, job: Job<A, R>, wake: Option<nat>)
    requires WellFormed(s) && TicketInv(s) && ShutdownInv(s) && Enabled(s, Submit(job, wake))
    ensures TicketInv(SubmitStep(s, job, wake))
  {
    var s' := SubmitStep(s, job, wake);
    var t := |s.accepted|;
    PrefixOfRange(s.started, s.jobs, t);
    if wake.Some? { CountsUpdate(s.workers, wake.value, Woken); }
    if s.terminated {
    } else if s.workers == [] {
      assert s.started + s.jobs == s.started;
      assert s'.started + s'.jobs == s.started + [t];
      assert multiset(s'.completed) == multiset(s.completed) + multiset{t};
    } else {
      assert s'.started + s'.jobs == (s.started + s.jobs) + [t];
    }
  }

  lemma DistinctTickets<A, R>(s: Pool<A, R>, i: nat, j: nat)
    requires TicketInv(s)
    requires i < |s.workers| && j < |s.workers| && i != j
    requires s.workers[i].Running? && s.workers[j].Running?
    ensures s.workers[i].ticket != s.workers[j].ticket
  {
    var t := s.workers[j].ticket;
    var ws' := s.workers[i := Exited];
    CountsUpdate(s.workers, i, Exited);
    assert ws'[j] == s.workers[j];
    RunningSomewhere(ws', j);
    assert RunningOn(s.workers, t) == RunningOn(ws', t) + One(Runs(s.workers[i], t));
    assert multiset(s.completed)[t] + RunningOn(s.workers, t) == One(t < |s.started|);
  }

  lemma RunProgress<A, R>(s: Pool<A, R>, i: nat)
    requires WellFormed(s) && TicketInv(s) && ProgressInv(s) && i < |s.workers| && s.workers[i].Running?
    ensures ProgressInv(WorkStep(s, i))
  {
    var s' := WorkStep(s, i);
    var t := s.workers[i].ticket;
    RunningSomewhere(s.workers, i);
    TicketPlace(s, t);
    forall j | 0 <= j < |s.workers| && j != i && s.workers[j].Running?
      ensures s.workers[j].ticket != t
    {
      DistinctTickets(s, i, j);
    }
    forall u | u in s'.completed
      ensures u < |s'.accepted| && s'.progress[u] == |s'.accepted[u].steps|
    {
      assert u in s.completed || u == t;
    }
  }

  lemma QuietProgress<A, R>(s: Pool<A, R>, s': Pool<A, R>)
    requires ProgressInv(s) && SameRecords(s, s') && |s'.workers| == |s.workers|
    requires forall i | 0 <= i < |s.workers| ::
               s'.workers[i] == s.workers[i] || (!s'.workers[i].Running? && !s.workers[i].Running?)
    ensures ProgressInv(s')
  {
  }

  lemma SubmitProgress<A, R>(s: Pool<A, R>, job: Job<A, R>, wake: Option<nat>)
    requires WellFormed(s) && TicketInv(s) && ProgressInv(s) && ShutdownInv(s) && Enabled(s, Submit(job, wake))
    ensures ProgressInv(SubmitStep(s, job, wake))
  {
  }

  lemma DequeueProgress<A, R>(s: Pool<A, R>, i: nat)
    requires WellFormed(s) && TicketInv(s) && ProgressInv(s) && i < |s.workers|
    requires s.workers[i].Draining? && s.jobs != []
    ensures ProgressInv(WorkStep(s, i))
  {
    PrefixOfRange(s.started, s.jobs, |s.accepted|);
  }

  lemma ProgressStep<A, R>(s: Pool<A, R>, a: Action<A, R>)
    requires WellFormed(s) && TicketInv(s) && ProgressInv(s) && ShutdownInv(s) && Enabled(s, a)
    ensures ProgressInv(Next(s, a))
  {
    if Quiet(s, a) {
      QuietStep(s, a);
      QuietProgress(s, Next(s, a));
    } else if a.Submit? {
      SubmitProgress(s, a.job, a.wake);
    } else if s.workers[a.worker].Draining? {
      DequeueProgress(s, a.worker);
    } else {
      RunProgress(s, a.worker);
    }
  }

  lemma SubmitFutures<A, R>(s: Pool<A, R>, job: Job<A, R>, wake: Option<nat>)
    requires WellFormed(s) && FutureInv(s) && NotifyOne(s.workers, wake)
    ensures FutureInv(SubmitStep(s, job, wake))
  {
  }

  lemma RunFutures<A, R>(s: Pool<A, R>, i: nat)
    requires WellFormed(s) && FutureInv(s) && i < |s.workers| && s.workers[i].Running?
    ensures FutureInv(WorkStep(s, i))
  {
  }

  lemma FutureStep<A, R>(s: Pool<A, R>, a: Action<A, R>)
    requires WellFormed(s) && FutureInv(s) && Enabled(s, a)
    ensures FutureInv(Next(s, a))
  {
    if Quiet(s, a) {
      QuietStep(s, a);
    } else if a.Submit? {
      SubmitFutures(s, a.job, a.wake);
    } else if s.workers[a.worker].Running? {
      RunFutures(s, a.worker);
    }
  }

  /** What a worker's move has to respect. */
  lemma ShutdownMove<A, R>(s: Pool<A, R>, s': Pool<A, R>, i: nat, pc: Pc)
    requires ShutdownInv(s) && i < |s.workers| && s.workers[i] != Exited
    requires s'.workers == s.workers[i := pc] && s'.terminated == s.terminated && s'.destructor == s.destructor
    requires s.jobs == [] ==> s'.jobs == []
    requires pc == Parked ==> !s.terminated
    requires pc.Deciding? ==> s'.jobs == []
    requires pc.Exited? ==> s.terminated && s'.jobs == []
    ensures ShutdownInv(s')
  {
  }

  lemma ShutdownWork<A, R>(s: Pool<A, R>, i: nat)
    requires WellFormed(s) && ShutdownInv(s) && Enabled(s, Work(i))
    ensures ShutdownInv(WorkStep(s, i))
  {
    var s' := WorkStep(s, i);
    ShutdownMove(s, s', i, s'.workers[i]);
  }

  lemma ShutdownStep<A, R>(s: Pool<A, R>, a: Action<A, R>)
    requires WellFormed(s) && ShutdownInv(s) && MutexInv(s) && Enabled(s, a)
    ensures ShutdownInv(Next(s, a))
  {
    var s' := Next(s, a);
    match a
    case Work(i) => ShutdownWork(s, i);
    case Spurious(i) => assert ShutdownInv(s');
    case Submit(job, wake) => assert ShutdownInv(s');
    case Terminate => assert ShutdownInv(s');
    case Join => assert ShutdownInv(s');
  }

  predicate EnoughAwake(ws: seq<Pc>, queued: nat) {
    ParkedCount(ws) > 0 ==> |ws| - ParkedCount(ws) >= queued + BusyCount(ws)
  }

  /** A worker that moves keeps the balance if it starts a job only by taking
      one from the queue, and goes to sleep only when the queue is empty. */
  lemma AwakeMove(ws: seq<Pc>, i: nat, pc: Pc, queued: nat, queued': nat)
    requires i < |ws| && EnoughAwake(ws, queued) && ws[i] != Parked
    requires queued' + One(pc.Running?) <= queued + One(ws[i].Running?)
    requires pc == Parked ==> queued' == 0
    ensures EnoughAwake(ws[i := pc], queued')
  {
    CountBounds(ws[i := pc]);
    CountsUpdate(ws, i, pc);
  }

  lemma AwakeWork<A, R>(s: Pool<A, R>, i: nat)
    requires WellFormed(s) && AwakeInv(s) && Enabled(s, Work(i))
    ensures AwakeInv(WorkStep(s, i))
  {
    var s' := WorkStep(s, i);
    if !s.terminated {
      assert EnoughAwake(s.workers, |s.jobs|);
      AwakeMove(s.workers, i, s'.workers[i], |s.jobs|, |s'.jobs|);
      assert s'.workers == s.workers[i := s'.workers[i]];
    }
  }

  lemma AwakeSubmit<A, R>(s: Pool<A, R>, job: Job<A, R>, wake: Option<nat>)
    requires WellFormed(s) && AwakeInv(s) && NotifyOne(s.workers, wake)
    ensures AwakeInv(SubmitStep(s, job, wake))
  {
    CountBounds(s.workers);
    if wake.Some? { CountsUpdate(s.workers, wake.value, Woken); }
  }

  lemma AwakeStep<A, R>(s: Pool<A, R>, a: Action<A, R>)
    requires WellFormed(s) && AwakeInv(s) && Enabled(s, a)
    ensures AwakeInv(Next(s, a))
  {
    match a
    case Work(i) => AwakeWork(s, i);
    case Spurious(i) => CountsUpdate(s.workers, i, Woken);
    case Submit(job, wake) => AwakeSubmit(s, job, wake);
    case Terminate =>
    case Join =>
  }

  /** The jobs overtaken by a completing job are running on other workers. */
  lemma OvertakenAreRunning<A, R>(s: Pool<A, R>, t: nat, late: set<nat>)
    requires TicketInv(s) && t < |s.started| && t !in late
    requires forall u | u in late :: u < t && u !in s.completed
    ensures |late| + One(t !in s.completed) <= |s.workers|
  {
    var u := if t in s.completed then late else late + {t};
    forall x | x in u ensures RunningOn(s.workers, x) >= 1 { TicketPlace(s, x); }
    TicketsFit(u, s.workers);
    CountBounds(s.workers);
  }

  lemma CompletionLogStep<A, R>(s: Pool<A, R>, a: Action<A, R>) returns (t: Option<nat>)
    requires WellFormed(s) && TicketInv(s) && ProgressInv(s) && Enabled(s, a)
    ensures Next(s, a).completed == s.completed + if t.Some? then [t.value] else []
    ensures |Next(s, a).workers| == |s.workers|
    ensures t.Some? && s.workers != [] ==> t.value < |s.started| && t.value !in s.completed
    ensures t.Some? && s.workers == [] ==> t.value == |s.accepted|
  {
    t := None;
    if Quiet(s, a) {
      QuietStep(s, a);
    } else if a.Submit? {
      t := if s.workers == [] then Some(|s.accepted|) else None;
    } else if s.workers[a.worker].Running? {
      var ticket := s.workers[a.worker].ticket;
      RunningSomewhere(s.workers, a.worker);
      TicketPlace(s, ticket);
      t := if s.workers[a.worker].done < |s.accepted[ticket].steps| then None else Some(ticket);
    }
  }

  lemma OvertakingStep<A, R>(s: Pool<A, R>, a: Action<A, R>)
    requires WellFormed(s) && TicketInv(s) && ProgressInv(s) && ShutdownInv(s) && OvertakingInv(s) && Enabled(s, a)
    ensures OvertakingInv(Next(s, a))
  {
    var s' := Next(s, a);
    var n := |s.completed|;
    var t := CompletionLogStep(s, a);
    forall p | 0 <= p < n ensures Overtaken(s'.completed, p) == Overtaken(s.completed, p) {
      assert s'.completed[..p] == s.completed[..p];
    }
    if t.Some? {
      var late := Overtaken(s'.completed, n);
      assert s'.completed[..n] == s.completed;
      if s.workers == [] {
        PrefixOfRange(s.started, s.jobs, |s.accepted|);
        forall u | 0 <= u < t.value ensures u in s.completed { TicketPlace(s, u); }
        assert late == {};
      } else {
        OvertakenAreRunning(s, t.value, late);
      }
    }
  }

  lemma InvInit<A, R>(n: nat)
    ensures Inv(Init<A, R>(n))
  {
    var s := Init<A, R>(n);
    NoneRunning(s.workers);
    CountBounds(s.workers);
  }

  lemma InvStep<A, R>(s: Pool<A, R>, a: Action<A, R>)
    requires Inv(s) && Enabled(s, a)
    ensures Inv(Next(s, a))
  {
    MutexStep(s, a);
    TicketStep(s, a);
    ProgressStep(s, a);
    FutureStep(s, a);
    ShutdownStep(s, a);
    AwakeStep(s, a);
    OvertakingStep(s, a);
  }

  /** The invariant holds after every run, for any number of workers. */
  lemma {:induction false} InvRun<A, R>(s: Pool<A, R>, run: seq<Action<A, R>>)
    requires Inv(s) && ValidRun(s, run)
    ensures Inv(Execute(s, run))
    decreases |run|
  {
    if run != [] {
      InvStep(s, run[0]);
      InvRun(Next(s, run[0]), run[1..]);
    }
  }
}

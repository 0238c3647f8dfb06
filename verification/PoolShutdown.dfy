/** Shutdown: after the termination flag is set, the pool runs down by itself. */
module PoolShutdown {
  import opened Counting
  import opened Options
  import opened PoolModel
  import opened PoolInvariant
  import opened PoolSafety

  /** Upper bound on the steps a worker at `pc` still takes on its own account. */
  function PcWeight<A, R>(accepted: seq<Job<A, R>>, pc: Pc): nat {
    match pc
    case Entering => 4
    case Woken => 4
    case Checking => 3
    case Parked => 4
    case Relocking => 3
    case Draining => 2
    case Deciding => 1
    case Exited => 0
    case Running(t, k) => 4 + (if t < |accepted| && k <= |accepted[t].steps| then |accepted[t].steps| - k else 0)
  }

  function PcsWeight<A, R>(accepted: seq<Job<A, R>>, ws: seq<Pc>): nat {
    if ws == [] then 0 else PcWeight(accepted, ws[0]) + PcsWeight(accepted, ws[1..])
  }

  function JobsWeight<A, R>(accepted: seq<Job<A, R>>, jobs: seq<nat>): nat {
    if jobs == [] then 0
    else (if jobs[0] < |accepted| then 3 + |accepted[jobs[0]].steps| else 0) + JobsWeight(accepted, jobs[1..])
  }

  function JoinWeight(d: Destructor, workers: nat): nat {
    if d.Joining? && d.next <= workers then workers - d.next + 1 else 0
  }

  function Measure<A, R>(s: Pool<A, R>): nat {
    PcsWeight(s.accepted, s.workers) + JobsWeight(s.accepted, s.jobs) + JoinWeight(s.destructor, |s.workers|)
  }

  /** A step of a worker or of the destructor, as opposed to one of a client. */
  predicate ThreadStep<A, R>(a: Action<A, R>) { a.Work? || a.Join? }

  function ThreadSteps<A, R>(run: seq<Action<A, R>>): nat {
    if run == [] then 0 else One(ThreadStep(run[0])) + ThreadSteps(run[1..])
  }

  lemma {:induction false} PcsWeightUpdate<A, R>(accepted: seq<Job<A, R>>, ws: seq<Pc>, i: nat, pc: Pc)
    requires i < |ws|
    ensures PcsWeight(accepted, ws[i := pc]) + PcWeight(accepted, ws[i]) ==
            PcsWeight(accepted, ws) + PcWeight(accepted, pc)
    decreases |ws|
  {
    if i == 0 {
      assert ws[0 := pc][1..] == ws[1..];
    } else {
      assert ws[i := pc][1..] == ws[1..][i - 1 := pc];
      PcsWeightUpdate(accepted, ws[1..], i - 1, pc);
    }
  }

  /** A step of the job, or its end. */
  lemma RunWeights<A, R>(s: Pool<A, R>, i: nat)
    requires WellFormed(s) && ProgressInv(s) && i < |s.workers| && s.workers[i].Running?
    ensures var s' := WorkStep(s, i);
            && i < |s'.workers| && s'.jobs == s.jobs
            && PcWeight(s.accepted, s'.workers[i]) < PcWeight(s.accepted, s.workers[i])
  {
  }

  lemma TakeWeights<A, R>(s: Pool<A, R>, i: nat)
    requires WellFormed(s) && i < |s.workers| && s.workers[i].Draining? && s.jobs != []
    ensures var s' := WorkStep(s, i);
            && i < |s'.workers|
            && PcWeight(s.accepted, s'.workers[i]) + JobsWeight(s.accepted, s'.jobs) <
               PcWeight(s.accepted, s.workers[i]) + JobsWeight(s.accepted, s.jobs)
  {
    assert s.jobs[0] in s.jobs;
  }

  /** What a worker's move does to the weights, apart from the sum over workers. */
  lemma MoveWeights<A, R>(s: Pool<A, R>, i: nat)
    requires WellFormed(s) && ProgressInv(s) && s.terminated && Enabled(s, Work(i))
    ensures var s' := WorkStep(s, i);
            && s'.workers == s.workers[i := s'.workers[i]] && s'.accepted == s.accepted
            && s'.destructor == s.destructor
            && PcWeight(s.accepted, s'.workers[i]) + JobsWeight(s.accepted, s'.jobs) <
               PcWeight(s.accepted, s.workers[i]) + JobsWeight(s.accepted, s.jobs)
  {
    if s.workers[i].Running? { RunWeights(s, i); }
    if s.workers[i].Draining? && s.jobs != [] { TakeWeights(s, i); }
  }

  lemma WorkDecreases<A, R>(s: Pool<A, R>, i: nat)
    requires WellFormed(s) && ProgressInv(s) && s.terminated && Enabled(s, Work(i))
    ensures Measure(WorkStep(s, i)) < Measure(s)
  {
    MoveWeights(s, i);
    PcsWeightUpdate(s.accepted, s.workers, i, WorkStep(s, i).workers[i]);
  }

  /** Every worker or destructor step brings the end nearer, no worker sleeps
      any more, and a client can only be turned away. */
  lemma ShutdownStepDecreases<A, R>(s: Pool<A, R>, a: Action<A, R>)
    requires Inv(s) && s.terminated && Enabled(s, a)
    ensures Next(s, a).terminated && !SomeParked(Next(s, a).workers)
    ensures ThreadStep(a) ==> Measure(Next(s, a)) < Measure(s)
    ensures !ThreadStep(a) ==> Next(s, a) == s
  {
    ShutdownStep(s, a);
    if a.Work? { WorkDecreases(s, a.worker); }
  }

  /** No deadlock: until the destructor has returned, some worker or the
      destructor can move. */
  lemma ShutdownProgress<A, R>(s: Pool<A, R>)
    requires Inv(s) && s.terminated && s.destructor != Returned
    ensures exists a :: ThreadStep(a) && Enabled(s, a)
  {
    var k := s.destructor.next;
    if s.mutex.Some? {
      assert Enabled(s, Work(s.mutex.value));
    } else if k == |s.workers| || s.workers[k] == Exited {
      assert Enabled(s, Join);
    } else {
      assert Enabled(s, Work(k));
    }
  }

  lemma {:induction false} PcsBound<A, R>(accepted: seq<Job<A, R>>, ws: seq<Pc>, longest: nat)
    requires forall t | 0 <= t < |accepted| :: |accepted[t].steps| <= longest
    ensures PcsWeight(accepted, ws) <= (4 + longest) * |ws|
    decreases |ws|
  {
    if ws != [] {
      PcsBound(accepted, ws[1..], longest);
      OneMore(4 + longest, |ws| - 1);
    }
  }

  lemma {:induction false} JobsBound<A, R>(accepted: seq<Job<A, R>>, jobs: seq<nat>, longest: nat)
    requires forall t | 0 <= t < |accepted| :: |accepted[t].steps| <= longest
    ensures JobsWeight(accepted, jobs) <= (3 + longest) * |jobs|
    decreases |jobs|
  {
    if jobs != [] {
      JobsBound(accepted, jobs[1..], longest);
      OneMore(3 + longest, |jobs| - 1);
    }
  }

  lemma OneMore(c: nat, n: nat)
    ensures c * (n + 1) == c * n + c
  {
  }

  lemma InitialMeasure<A, R>(s: Pool<A, R>, longest: nat)
    requires forall t | 0 <= t < |s.accepted| :: |s.accepted[t].steps| <= longest
    ensures Measure(s) <= (5 + longest) * |s.workers| + (3 + longest) * |s.jobs| + 1
  {
    PcsBound(s.accepted, s.workers, longest);
    JobsBound(s.accepted, s.jobs, longest);
    OneMore(|s.workers|, 4 + longest);
  }

  lemma StuckMeansReturned<A, R>(s: Pool<A, R>)
    requires Inv(s) && s.terminated
    requires forall a | ThreadStep(a) :: !Enabled(s, a)
    ensures s.destructor == Returned && s.jobs == []
    ensures multiset(s.completed) == multiset(Range(|s.accepted|))
  {
    if s.destructor != Returned {
      ShutdownProgress(s);
      assert false;
    }
    AllExitedDrained(s);
  }

  /** From termination on, any run has a number of worker and destructor steps
      bounded linearly in workers and queued jobs, and a run that none of them
      can extend has ended with the destructor returned and every job done. */
  lemma ShutdownTerminates<A, R>(s: Pool<A, R>, run: seq<Action<A, R>>, longest: nat)
    requires Inv(s) && s.terminated && ValidRun(s, run)
    requires forall t | 0 <= t < |s.accepted| :: |s.accepted[t].steps| <= longest
    ensures var s' := Execute(s, run);
            && ThreadSteps(run) + Measure(s') <= Measure(s)
            && ThreadSteps(run) <= (5 + longest) * |s.workers| + (3 + longest) * |s.jobs| + 1
            && s'.accepted == s.accepted
            && ((forall a | ThreadStep(a) :: !Enabled(s', a)) ==>
                  && s'.destructor == Returned && s'.jobs == []
                  && multiset(s'.completed) == multiset(Range(|s.accepted|)))
  {
    var s' := Execute(s, run);
    ShutdownRun(s, run);
    InvRun(s, run);
    InitialMeasure(s, longest);
    if forall a | ThreadStep(a) :: !Enabled(s', a) {
      StuckMeansReturned(s');
    }
  }

  lemma {:induction false} ShutdownRun<A, R>(s: Pool<A, R>, run: seq<Action<A, R>>)
    requires Inv(s) && s.terminated && ValidRun(s, run)
    ensures ThreadSteps(run) + Measure(Execute(s, run)) <= Measure(s)
    ensures Execute(s, run).terminated && Execute(s, run).accepted == s.accepted
    decreases |run|
  {
    if run != [] {
      ShutdownStepDecreases(s, run[0]);
      InvStep(s, run[0]);
      ShutdownRun(Next(s, run[0]), run[1..]);
    }
  }

  /** Once the destructor has returned no worker is left to move. */
  lemma ReturnedMeansStuck<A, R>(s: Pool<A, R>)
    requires ShutdownInv(s) && s.destructor == Returned
    ensures forall a | ThreadStep(a) :: !Enabled(s, a)
  {
  }

  /** What the critical section of the destructor does to a pool with workers. */
  lemma TerminateMeaning<A, R>(s: Pool<A, R>)
    requires Inv(s) && s.destructor == Alive && s.mutex == None && s.workers != []
    ensures Enabled(s, Terminate)
    ensures var s' := Next(s, Terminate);
            && Inv(s') && s'.terminated && s'.destructor == Joining(0)
            && |s'.workers| == |s.workers|
            && (forall i | 0 <= i < |s.workers| ::
                  s'.workers[i] == if s.workers[i] == Parked then Woken else s.workers[i])
            && s'.jobs == s.jobs && s'.accepted == s.accepted
  {
    InvStep(s, Terminate);
  }

  /** Without workers the destructor returns at once and nothing can follow. */
  lemma NoWorkersNothingFollows<A, R>(s: Pool<A, R>, rest: seq<Action<A, R>>)
    requires Inv(s) && s.destructor == Alive && s.mutex == None && s.workers == []
    requires Enabled(s, Terminate) && ValidRun(Next(s, Terminate), rest)
    ensures Next(s, Terminate).destructor == Returned && rest == []
  {
    InvStep(s, Terminate);
  }

  /** Every job of `accepted` done, every worker gone. */
  ghost predicate AllDone<A, R>(s: Pool<A, R>, accepted: seq<Job<A, R>>) {
    && s.accepted == accepted && s.jobs == [] && multiset(s.completed) == multiset(Range(|accepted|))
    && (forall i | 0 <= i < |s.workers| :: s.workers[i] == Exited)
  }

  lemma ReturnedMeansDone<A, R>(s: Pool<A, R>)
    requires Inv(s) && s.destructor == Returned
    ensures AllDone(s, s.accepted)
  {
    AllExitedDrained(s);
  }

  /** From the critical section of the destructor on. */
  lemma DestructionRuns<A, R>(s: Pool<A, R>, rest: seq<Action<A, R>>, longest: nat)
    requires Inv(s) && Enabled(s, Terminate) && ValidRun(Next(s, Terminate), rest)
    requires forall t | 0 <= t < |s.accepted| :: |s.accepted[t].steps| <= longest
    ensures ThreadSteps(rest) <= (5 + longest) * |s.workers| + (3 + longest) * |s.jobs| + 1
    ensures Inv(Execute(Next(s, Terminate), rest)) && Execute(Next(s, Terminate), rest).accepted == s.accepted
    ensures (forall a | ThreadStep(a) :: !Enabled(Execute(Next(s, Terminate), rest), a)) <==>
            Execute(Next(s, Terminate), rest).destructor == Returned
  {
    var s1 := Next(s, Terminate);
    InvStep(s, Terminate);
    InvRun(s1, rest);
    if s.workers == [] {
      NoWorkersNothingFollows(s, rest);
    } else {
      TerminateMeaning(s);
      ShutdownTerminates(s1, rest, longest);
    }
    if Execute(s1, rest).destructor == Returned { ReturnedMeansStuck(Execute(s1, rest)); }
  }

  /** The whole destruction: in any reachable state in which the destructor can take
      the lock, whatever happens from its critical section on, the workers and the
      destructor take a number of steps bounded linearly in workers and queued jobs,
      no job is added, and they can take no more exactly when the destructor has
      returned, with every job done and every worker exited. */
  lemma DestructionCompletes<A, R>(n: nat, run: seq<Action<A, R>>, rest: seq<Action<A, R>>, longest: nat)
    requires ValidRun(Init(n), run)
    requires Execute(Init(n), run).destructor == Alive && Execute(Init(n), run).mutex == None
    requires forall job | job in Execute(Init(n), run).accepted :: |job.steps| <= longest
    requires Enabled(Execute(Init(n), run), Terminate) ==> ValidRun(Next(Execute(Init(n), run), Terminate), rest)
    ensures Enabled(Execute(Init(n), run), Terminate)
    ensures ThreadSteps(rest) <= (5 + longest) * n + (3 + longest) * |Execute(Init(n), run).jobs| + 1
    ensures var s := Execute(Init(n), run);
            var s' := Execute(Next(s, Terminate), rest);
            && ((forall a | ThreadStep(a) :: !Enabled(s', a)) <==> s'.destructor == Returned)
            && (s'.destructor == Returned ==> AllDone(s', s.accepted))
  {
    InvInit<A, R>(n);
    InvRun(Init(n), run);
    WorkerCount(Init(n), run);
    var s := Execute(Init(n), run);
    DestructionRuns(s, rest, longest);
    if Execute(Next(s, Terminate), rest).destructor == Returned {
      ReturnedMeansDone(Execute(Next(s, Terminate), rest));
    }
  }

  // ------------------------------------------------ the destructor can return

  /** How many steps whoever holds the lock may need to give it up. */
  function HolderSteps<A, R>(s: Pool<A, R>): nat {
    if s.mutex.None? || s.mutex.value >= |s.workers| then 0
    else match s.workers[s.mutex.value]
      case Checking => 3
      case Draining => 2
      case Deciding => 1
      case _ => 0
  }

  lemma HolderMoves<A, R>(s: Pool<A, R>)
    requires WellFormed(s) && MutexInv(s) && s.mutex.Some?
    ensures Enabled(s, Work(s.mutex.value))
    ensures HolderSteps(WorkStep(s, s.mutex.value)) < HolderSteps(s)
    ensures WorkStep(s, s.mutex.value).destructor == s.destructor
  {
  }

  /** Whoever holds the lock gives it up after at most three steps of its own. */
  lemma {:induction false} LockReleased<A, R>(s: Pool<A, R>) returns (run: seq<Action<A, R>>)
    requires Inv(s)
    ensures ValidRun(s, run) && |run| <= HolderSteps(s) <= 3
    ensures Inv(Execute(s, run)) && Execute(s, run).mutex == None && Execute(s, run).destructor == s.destructor
    decreases HolderSteps(s)
  {
    if s.mutex.None? {
      run := [];
    } else {
      var a: Action<A, R> := Work(s.mutex.value);
      HolderMoves(s);
      InvStep(s, a);
      run := LockReleased(Next(s, a));
      Prepend(s, a, run);
      run := [a] + run;
    }
  }

  lemma {:induction false} RunsDown<A, R>(s: Pool<A, R>) returns (run: seq<Action<A, R>>)
    requires Inv(s) && s.terminated
    ensures ValidRun(s, run) && Execute(s, run).destructor == Returned
    decreases Measure(s)
  {
    if s.destructor == Returned {
      run := [];
    } else {
      ShutdownProgress(s);
      var a: Action<A, R> :| ThreadStep(a) && Enabled(s, a);
      ShutdownStepDecreases(s, a);
      InvStep(s, a);
      run := RunsDown(Next(s, a));
      Prepend(s, a, run);
      run := [a] + run;
    }
  }

  /** No reachable state is a dead end: the lock comes free, the destructor takes it,
      and the pool runs down until the destructor returns. */
  lemma DestructorCanReturn<A, R>(n: nat, run: seq<Action<A, R>>) returns (rest: seq<Action<A, R>>)
    requires ValidRun(Init(n), run)
    ensures ValidRun(Execute(Init(n), run), rest)
    ensures Execute(Execute(Init(n), run), rest).destructor == Returned
  {
    InvInit<A, R>(n);
    InvRun(Init(n), run);
    var s := Execute(Init(n), run);
    if s.destructor == Returned {
      rest := [];
    } else if s.terminated {
      rest := RunsDown(s);
    } else {
      var release := LockReleased(s);
      var s1 := Execute(s, release);
      InvStep(s1, Terminate);
      var down: seq<Action<A, R>> := [];
      if s1.workers != [] { down := RunsDown(Next(s1, Terminate)); }
      Prepend(s1, Terminate, down);
      ExecuteAppend(s, release, [Terminate] + down);
      rest := release + ([Terminate] + down);
    }
  }

  // ------------------------------------------------------- every worker is joined

  function Joins<A, R>(run: seq<Action<A, R>>): nat {
    if run == [] then 0 else One(run[0].Join?) + Joins(run[1..])
  }

  /** How many steps of the join loop lie behind a destructor. */
  function Joined(d: Destructor, workers: nat): nat {
    match d
    case Alive => 0
    case Joining(next) => next
    case Returned => workers + 1
  }

  /** The destructor of a pool with workers joins each of them, one per step, and
      returns only with a further step after the last. */
  lemma {:induction false} JoinsInTurn<A, R>(s: Pool<A, R>, run: seq<Action<A, R>>)
    requires Inv(s) && s.workers != [] && ValidRun(s, run)
    ensures |Execute(s, run).workers| == |s.workers|
    ensures Joined(Execute(s, run).destructor, |s.workers|) == Joined(s.destructor, |s.workers|) + Joins(run)
    decreases |run|
  {
    if run != [] {
      InvStep(s, run[0]);
      JoinStepCounts(s, run[0]);
      JoinsInTurn(Next(s, run[0]), run[1..]);
    }
  }

  lemma JoinStepCounts<A, R>(s: Pool<A, R>, a: Action<A, R>)
    requires WellFormed(s) && ShutdownInv(s) && s.workers != [] && Enabled(s, a)
    ensures |Next(s, a).workers| == |s.workers|
    ensures Joined(Next(s, a).destructor, |s.workers|) == Joined(s.destructor, |s.workers|) + One(a.Join?)
  {
  }
}

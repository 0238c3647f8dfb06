/** Progress before shutdown: between submissions the pool completes its jobs in a
    bounded number of steps and then sleeps. */
module PoolProgress {
  import opened Counting
  import opened Options
  import opened PoolModel
  import opened PoolInvariant
  import opened PoolSafety

  /** The steps a worker at `pc` still takes before it sleeps, apart from those for
      queued jobs; a worker at the head of the drain loop is counted in `DrainLoad`. */
  function PcLoad<A, R>(accepted: seq<Job<A, R>>, pc: Pc): nat {
    match pc
    case Entering => 2
    case Woken => 2
    case Checking => 1
    case Parked => 0
    case Draining => 0
    case Relocking => 5
    case Deciding => 3
    case Exited => 0
    case Running(t, k) => 6 + (if t < |accepted| && k <= |accepted[t].steps| then |accepted[t].steps| - k else 0)
  }

  function PcsLoad<A, R>(accepted: seq<Job<A, R>>, ws: seq<Pc>): nat {
    if ws == [] then 0 else PcLoad(accepted, ws[0]) + PcsLoad(accepted, ws[1..])
  }

  function JobsLoad<A, R>(accepted: seq<Job<A, R>>, jobs: seq<nat>): nat {
    if jobs == [] then 0
    else (if jobs[0] < |accepted| then 7 + |accepted[jobs[0]].steps| else 0) + JobsLoad(accepted, jobs[1..])
  }

  /** A worker that finds the queue empty goes through the rest of the loop once. */
  function DrainLoad<A, R>(s: Pool<A, R>): nat {
    if s.mutex.Some? && s.mutex.value < |s.workers| && s.workers[s.mutex.value].Draining? && s.jobs == [] then 4 else 0
  }

  function Load<A, R>(s: Pool<A, R>): nat {
    PcsLoad(s.accepted, s.workers) + JobsLoad(s.accepted, s.jobs) + DrainLoad(s)
  }

  /** What a step may add to the load: a job and the worker woken for it, or a worker
      woken for nothing. */
  function Added<A, R>(a: Action<A, R>): nat {
    match a
    case Submit(job, _) => 9 + |job.steps|
    case Spurious(_) => 2
    case _ => 0
  }

  function AllAdded<A, R>(run: seq<Action<A, R>>): nat {
    if run == [] then 0 else Added(run[0]) + AllAdded(run[1..])
  }

  function WorkSteps<A, R>(run: seq<Action<A, R>>): nat {
    if run == [] then 0 else One(run[0].Work?) + WorkSteps(run[1..])
  }

  lemma {:induction false} PcsLoadUpdate<A, R>(accepted: seq<Job<A, R>>, ws: seq<Pc>, i: nat, pc: Pc)
    requires i < |ws|
    ensures PcsLoad(accepted, ws[i := pc]) + PcLoad(accepted, ws[i]) == PcsLoad(accepted, ws) + PcLoad(accepted, pc)
    decreases |ws|
  {
    if i == 0 {
      assert ws[0 := pc][1..] == ws[1..];
    } else {
      assert ws[i := pc][1..] == ws[1..][i - 1 := pc];
      PcsLoadUpdate(accepted, ws[1..], i - 1, pc);
    }
  }

  lemma {:induction false} PcsLoadGrows<A, R>(accepted: seq<Job<A, R>>, job: Job<A, R>, ws: seq<Pc>)
    requires forall i | 0 <= i < |ws| && ws[i].Running? :: ws[i].ticket < |accepted|
    ensures PcsLoad(accepted + [job], ws) == PcsLoad(accepted, ws)
    decreases |ws|
  {
    if ws != [] { PcsLoadGrows(accepted, job, ws[1..]); }
  }

  lemma {:induction false} JobsLoadGrows<A, R>(accepted: seq<Job<A, R>>, job: Job<A, R>, jobs: seq<nat>)
    requires forall t | t in jobs :: t < |accepted|
    ensures JobsLoad(accepted + [job], jobs + [|accepted|]) == JobsLoad(accepted, jobs) + 7 + |job.steps|
    decreases |jobs|
  {
    if jobs == [] {
      assert ([] + [|accepted|])[1..] == [];
    } else {
      assert (jobs + [|accepted|])[1..] == jobs[1..] + [|accepted|];
      assert jobs[0] in jobs && forall t | t in jobs[1..] :: t in jobs;
      JobsLoadGrows(accepted, job, jobs[1..]);
    }
  }

  lemma RunLoad<A, R>(s: Pool<A, R>, i: nat)
    requires WellFormed(s) && MutexInv(s) && ProgressInv(s) && i < |s.workers| && s.workers[i].Running?
    ensures var s' := WorkStep(s, i);
            && i < |s'.workers| && s'.workers == s.workers[i := s'.workers[i]]
            && s'.accepted == s.accepted && s'.jobs == s.jobs && DrainLoad(s') == DrainLoad(s)
            && PcLoad(s.accepted, s'.workers[i]) < PcLoad(s.accepted, s.workers[i])
  {
  }

  lemma TakeLoad<A, R>(s: Pool<A, R>, i: nat)
    requires WellFormed(s) && MutexInv(s) && i < |s.workers| && s.workers[i].Draining? && s.jobs != []
    ensures var s' := WorkStep(s, i);
            && i < |s'.workers| && s'.workers == s.workers[i := s'.workers[i]]
            && s'.accepted == s.accepted && DrainLoad(s) == DrainLoad(s') == 0
            && PcLoad(s.accepted, s'.workers[i]) + JobsLoad(s.accepted, s'.jobs) <
               PcLoad(s.accepted, s.workers[i]) + JobsLoad(s.accepted, s.jobs)
  {
    assert s.jobs[0] in s.jobs;
  }

  lemma LoopLoad<A, R>(s: Pool<A, R>, i: nat)
    requires WellFormed(s) && MutexInv(s) && !s.terminated && Enabled(s, Work(i))
    requires !s.workers[i].Running? && !(s.workers[i].Draining? && s.jobs != [])
    ensures var s' := WorkStep(s, i);
            && i < |s'.workers| && s'.workers == s.workers[i := s'.workers[i]]
            && s'.accepted == s.accepted && s'.jobs == s.jobs
            && PcLoad(s.accepted, s'.workers[i]) + DrainLoad(s') < PcLoad(s.accepted, s.workers[i]) + DrainLoad(s)
  {
  }

  lemma WorkLowersLoad<A, R>(s: Pool<A, R>, i: nat)
    requires WellFormed(s) && MutexInv(s) && ProgressInv(s) && !s.terminated && Enabled(s, Work(i))
    ensures Load(WorkStep(s, i)) < Load(s)
  {
    if s.workers[i].Running? {
      RunLoad(s, i);
    } else if s.workers[i].Draining? && s.jobs != [] {
      TakeLoad(s, i);
    } else {
      LoopLoad(s, i);
    }
    PcsLoadUpdate(s.accepted, s.workers, i, WorkStep(s, i).workers[i]);
  }

  lemma SubmitLoad<A, R>(s: Pool<A, R>, job: Job<A, R>, wake: Option<nat>)
    requires WellFormed(s) && s.mutex == None && NotifyOne(s.workers, wake) && !s.terminated
    requires s.workers == [] ==> s.jobs == []
    ensures Load(SubmitStep(s, job, wake)) <= Load(s) + 9 + |job.steps|
  {
    if s.workers != [] {
      PcsLoadGrows(s.accepted, job, s.workers);
      JobsLoadGrows(s.accepted, job, s.jobs);
      if wake.Some? { PcsLoadUpdate(s.accepted + [job], s.workers, wake.value, Woken); }
    }
  }

  /** Every worker step lowers the load; only a submission or a spurious wakeup adds
      to it. */
  lemma LoadStep<A, R>(s: Pool<A, R>, a: Action<A, R>)
    requires Inv(s) && Enabled(s, a) && !Next(s, a).terminated
    ensures Load(Next(s, a)) + One(a.Work?) <= Load(s) + Added(a)
  {
    match a
    case Work(i) => WorkLowersLoad(s, i);
    case Submit(job, wake) => SubmitLoad(s, job, wake);
    case Spurious(i) => PcsLoadUpdate(s.accepted, s.workers, i, Woken);
    case _ =>
  }

  lemma {:induction false} StaysTerminated<A, R>(s: Pool<A, R>, run: seq<Action<A, R>>)
    requires WellFormed(s) && s.terminated && ValidRun(s, run)
    ensures Execute(s, run).terminated
    decreases |run|
  {
    if run != [] { StaysTerminated(Next(s, run[0]), run[1..]); }
  }

  lemma {:induction false} LoadRun<A, R>(s: Pool<A, R>, run: seq<Action<A, R>>)
    requires Inv(s) && ValidRun(s, run) && !Execute(s, run).terminated
    ensures WorkSteps(run) + Load(Execute(s, run)) <= Load(s) + AllAdded(run)
    decreases |run|
  {
    if run != [] {
      var s' := Next(s, run[0]);
      InvStep(s, run[0]);
      if s'.terminated {
        StaysTerminated(s', run[1..]);
        assert false;
      }
      LoadStep(s, run[0]);
      LoadRun(s', run[1..]);
    }
  }

  lemma {:induction false} FreshLoad<A, R>(ws: seq<Pc>)
    requires forall i | 0 <= i < |ws| :: ws[i] == Entering
    ensures PcsLoad<A, R>([], ws) == 2 * |ws|
    decreases |ws|
  {
    if ws != [] { FreshLoad<A, R>(ws[1..]); }
  }

  lemma InitLoad<A, R>(n: nat)
    ensures Load(Init<A, R>(n)) == 2 * n
  {
    FreshLoad<A, R>(Init<A, R>(n).workers);
  }

  /** Every accepted job is complete, its future set, and all workers sleep. */
  ghost predicate Settled<A, R>(s: Pool<A, R>) {
    && s.jobs == [] && multiset(s.completed) == multiset(Range(|s.accepted|))
    && (forall i | 0 <= i < |s.workers| :: s.workers[i] == Parked)
    && (forall t | 0 <= t < |s.accepted| && s.accepted[t].task.Some? ::
          t in s.futures && s.futures[t] == s.accepted[t].task.value())
  }

  /** Before termination no worker can move exactly when everything is done. */
  lemma StuckMeansSettled<A, R>(s: Pool<A, R>)
    requires Inv(s) && !s.terminated
    ensures (forall i: nat :: !Enabled(s, Work(i))) <==> Settled(s)
  {
    if s.jobs != [] || BusyCount(s.workers) > 0 || exists j | 0 <= j < |s.workers| :: s.workers[j] != Parked {
      var i := Mover(s);
      assert Enabled(s, Work(i));
    } else {
      NothingLeft(s);
    }
  }

  /** Work completes: in any run before termination the workers take a number of
      steps bounded linearly in the workers, the jobs submitted and the spurious
      wakeups; and they can take no more exactly when every job is complete, every
      future is set and all workers sleep. */
  lemma WorkCompletes<A, R>(n: nat, run: seq<Action<A, R>>)
    requires ValidRun(Init(n), run) && !Execute(Init(n), run).terminated
    ensures WorkSteps(run) <= 2 * n + AllAdded(run)
    ensures (forall i: nat :: !Enabled(Execute(Init(n), run), Work(i))) <==> Settled(Execute(Init(n), run))
  {
    InvInit<A, R>(n);
    InvRun(Init(n), run);
    LoadRun(Init(n), run);
    InitLoad<A, R>(n);
    StuckMeansSettled(Execute(Init(n), run));
  }
}

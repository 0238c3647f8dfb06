/** The pool as an object: the code between two scheduling points is one method,
    and each method takes exactly the step the transition system prescribes. */
module PoolWorkerClass {
  import opened Options
  import opened PoolModel
  import opened PoolInvariant

  class PoolWorker<A, R> {
    var m_terminated: bool
    var m_workers: seq<Pc>
    var m_mutex: Option<nat>
    var m_jobs: seq<nat>
    var destructor: Destructor
    var accepted: seq<Job<A, R>>
    ghost var started: seq<nat>
    ghost var completed: seq<nat>
    ghost var progress: seq<nat>
    var effects: seq<A>
    var futures: map<nat, R>

    ghost function State(): Pool<A, R>
      reads this
    {
      Pool(m_workers, m_mutex, m_jobs, m_terminated, destructor,
           accepted, started, completed, progress, effects, futures)
    }

    ghost predicate Valid()
      reads this
    {
      Inv(State())
    }

    constructor (workers: nat)
      ensures Valid() && State() == Init(workers)
    {
      m_terminated, m_mutex, m_jobs, destructor := false, None, [], Alive;
      accepted, started, completed, progress, effects, futures := [], [], [], [], [], map[];
      m_workers := [];
      new;
      for cpt := 0 to workers
        invariant m_workers == seq(cpt, _ => Entering)
        invariant State() == Init<A, R>(0).(workers := m_workers)
      {
        m_workers := m_workers + [Entering];
      }
      InvInit<A, R>(workers);
    }

    /** Taking the lock: on entering the loop body, when waking up inside the
        wait, and after a job. */
    method Lock(i: nat)
      requires Valid() && i < |m_workers| && m_mutex.None? && m_workers[i] in {Entering, Woken, Relocking}
      modifies this
      ensures Valid() && State() == Next(old(State()), Work(i))
      ensures m_mutex == Some(i) && m_jobs == old(m_jobs)
      ensures m_workers == old(m_workers)[i := if old(m_workers)[i] == Relocking then Draining else Checking]
    {
      InvStep(State(), Work(i));
      m_mutex := Some(i);
      m_workers := m_workers[i := if m_workers[i] == Relocking then Draining else Checking];
    }

    /** The predicate of the wait: go on with the lock held, or sleep without it. */
    method EvaluateWait(i: nat)
      requires Valid() && i < |m_workers| && m_workers[i] == Checking
      modifies this
      ensures Valid() && State() == Next(old(State()), Work(i))
      ensures if m_terminated || m_jobs != []
              then m_mutex == Some(i) && m_workers == old(m_workers)[i := Draining]
              else m_mutex == None && m_workers == old(m_workers)[i := Parked]
    {
      InvStep(State(), Work(i));
      if m_terminated || |m_jobs| != 0 {
        m_workers := m_workers[i := Draining];
      } else {
        m_workers := m_workers[i := Parked];
        m_mutex := None;
      }
    }

    /** The wait may also end for no reason; the predicate is then evaluated again. */
    method WakeSpuriously(i: nat)
      requires Valid() && i < |m_workers| && m_workers[i] == Parked
      modifies this
      ensures Valid() && State() == Next(old(State()), Spurious(i))
      ensures m_workers == old(m_workers)[i := Woken]
    {
      InvStep(State(), Spurious(i));
      m_workers := m_workers[i := Woken];
    }

    /** The head of the drain loop: take the front job and unlock, or leave. */
    method DrainHead(i: nat)
      requires Valid() && i < |m_workers| && m_workers[i] == Draining
      modifies this
      ensures Valid() && State() == Next(old(State()), Work(i))
      ensures old(m_jobs) != [] ==>
                && m_mutex == None && [m_workers[i].ticket] + m_jobs == old(m_jobs)
                && m_workers == old(m_workers)[i := Running(old(m_jobs)[0], 0)]
      ensures old(m_jobs) == [] ==>
                m_mutex == Some(i) && m_jobs == [] && m_workers == old(m_workers)[i := Deciding]
    {
      InvStep(State(), Work(i));
      if |m_jobs| != 0 {
        var work := m_jobs[0];
        m_jobs := m_jobs[1..];
        m_workers := m_workers[i := Running(work, 0)];
        m_mutex := None;
        started := started + [work];
      } else {
        m_workers := m_workers[i := Deciding];
      }
    }

    /** `work()`: one atomic step of the body, or its return. */
    method RunJob(i: nat)
      requires Valid() && i < |m_workers| && m_workers[i].Running?
      modifies this
      ensures Valid() && State() == Next(old(State()), Work(i))
    {
      ghost var s := State();
      StepJob(i);
      InvStep(s, Work(i));
    }

    method StepJob(i: nat)
      requires WellFormed(State()) && i < |m_workers| && m_workers[i].Running?
      modifies this
      ensures State() == WorkStep(old(State()), i)
    {
      var t, k := m_workers[i].ticket, m_workers[i].done;
      var job := accepted[t];
      if k < |job.steps| {
        effects := effects + [job.steps[k]];
        progress := progress[t := k + 1];
        m_workers := m_workers[i := Running(t, k + 1)];
      } else {
        if job.task.Some? {
          futures := futures[t := job.task.value()];
        }
        completed := completed + [t];
        m_workers := m_workers[i := Relocking];
      }
    }

    /** The end of the loop body: leave for good, or release the lock and loop. */
    method TestTermination(i: nat)
      requires Valid() && i < |m_workers| && m_workers[i] == Deciding
      modifies this
      ensures Valid() && State() == Next(old(State()), Work(i))
      ensures m_mutex == None && m_workers == old(m_workers)[i := if m_terminated then Exited else Entering]
    {
      InvStep(State(), Work(i));
      m_workers := m_workers[i := if m_terminated then Exited else Entering];
      m_mutex := None;
    }

    /** `scheduleWork`, under the lock from beginning to end. `wake` is the waiter
        the condition variable picks; `thrown` is the exception after termination. */
    method ScheduleWork(job: Job<A, R>, wake: Option<nat>) returns (thrown: bool)
      requires Valid() && destructor != Returned && m_mutex.None?
      requires wake.Some? ==> wake.value < |m_workers| && m_workers[wake.value] == Parked
      requires wake.None? ==> forall i | 0 <= i < |m_workers| :: m_workers[i] != Parked
      modifies this
      ensures Valid() && State() == Next(old(State()), Submit(job, wake))
      ensures !thrown && m_workers != [] ==>
                && m_jobs == old(m_jobs) + [|old(accepted)|] && effects == old(effects)
                && m_workers == if wake.Some? then old(m_workers)[wake.value := Woken] else old(m_workers)
      ensures !thrown && m_workers == [] ==> m_jobs == [] && effects == old(effects) + job.steps
      ensures thrown == old(m_terminated)
      ensures thrown ==> State() == old(State())
      ensures !thrown ==> accepted == old(accepted) + [job]
    {
      ghost var s := State();
      thrown := m_terminated;
      if !thrown {
        if |m_workers| == 0 {
          RunSynchronously(job);
        } else {
          Enqueue(job, wake);
        }
      }
      InvStep(s, Submit(job, wake));
    }

    method RunSynchronously(job: Job<A, R>)
      requires WellFormed(State()) && !m_terminated && m_workers == []
      modifies this
      ensures State() == SubmitStep(old(State()), job, None)
    {
      var t := |accepted|;
      accepted := accepted + [job];
      started := started + [t];
      for k := 0 to |job.steps|
        invariant effects == old(effects) + job.steps[..k]
        invariant State() == old(State()).(accepted := accepted, started := started, effects := effects)
        invariant accepted == old(accepted) + [job] && started == old(started) + [t]
      {
        effects := effects + [job.steps[k]];
      }
      if job.task.Some? {
        futures := futures[t := job.task.value()];
      }
      progress := progress + [|job.steps|];
      completed := completed + [t];
    }

    method Enqueue(job: Job<A, R>, wake: Option<nat>)
      requires WellFormed(State()) && !m_terminated && m_workers != [] && NotifyOne(m_workers, wake)
      modifies this
      ensures State() == SubmitStep(old(State()), job, wake)
    {
      var t := |accepted|;
      accepted := accepted + [job];
      progress := progress + [0];
      m_jobs := m_jobs + [t];
      if wake.Some? {
        m_workers := m_workers[wake.value := Woken];
      }
    }

    /** `schedule`: packages the call `fn(args)`, whose body is `steps`, and
        returns the name of its future. */
    method Schedule<X>(fn: X -> R, args: X, steps: seq<A>, wake: Option<nat>) returns (thrown: bool, future: nat)
      requires Valid() && State().destructor != Returned && m_mutex.None? && NotifyOne(m_workers, wake)
      modifies this
      ensures Valid() && thrown == old(m_terminated)
      ensures future == |old(accepted)|
      ensures thrown ==> State() == old(State())
      ensures !thrown ==>
                && |accepted| == future + 1
                && accepted[future].steps == steps
                && accepted[future].task.Some? && accepted[future].task.value() == fn(args)
                && State() == Next(old(State()), Submit(accepted[future], wake))
    {
      var packagedTask := () => fn(args);
      future := |accepted|;
      thrown := ScheduleWork(Job(steps, Some(packagedTask)), wake);
    }

    /** `offload`: the same without a future. */
    method Offload(steps: seq<A>, wake: Option<nat>) returns (thrown: bool)
      requires Valid() && State().destructor != Returned && m_mutex.None? && NotifyOne(m_workers, wake)
      modifies this
      ensures Valid() && thrown == old(m_terminated)
      ensures State() == Next(old(State()), Submit(Job(steps, None), wake))
    {
      thrown := ScheduleWork(Job(steps, None), wake);
    }

    /** The critical section of the destructor. */
    method BeginDestruction()
      requires Valid() && destructor == Alive && m_mutex == None
      modifies this
      ensures Valid() && State() == Next(old(State()), Terminate)
      ensures old(m_workers) != [] ==>
                && m_terminated && destructor == Joining(0) && |m_workers| == |old(m_workers)|
                && (forall i | 0 <= i < |m_workers| ::
                      m_workers[i] == if old(m_workers)[i] == Parked then Woken else old(m_workers)[i])
      ensures old(m_workers) == [] ==> m_workers == [] && destructor == Returned
      ensures m_jobs == old(m_jobs) && accepted == old(accepted) && completed == old(completed) && m_mutex == None
    {
      InvStep(State(), Terminate);
      if |m_workers| != 0 {
        m_terminated := true;
        for i := 0 to |m_workers|
          invariant |m_workers| == |old(m_workers)|
          invariant forall j | 0 <= j < |m_workers| ::
                      m_workers[j] == if j < i then Unpark(old(m_workers)[j]) else old(m_workers)[j]
          invariant State() == old(State()).(terminated := true, workers := m_workers)
        {
          if m_workers[i] == Parked {
            m_workers := m_workers[i := Woken];
          }
        }
        destructor := Joining(0);
        assert m_workers == UnparkAll(old(m_workers));
      } else {
        destructor := Returned;
      }
    }

    /** One iteration of the join loop, or its end. */
    method JoinNext()
      requires Valid() && destructor.Joining?
      requires destructor.next < |m_workers| ==> m_workers[destructor.next] == Exited
      modifies this
      ensures Valid() && State() == Next(old(State()), Join)
      ensures destructor == if old(destructor).next < |m_workers| then Joining(old(destructor).next + 1) else Returned
    {
      InvStep(State(), Join);
      destructor := if destructor.next < |m_workers| then Joining(destructor.next + 1) else Returned;
    }
  }
}

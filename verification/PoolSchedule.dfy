/** Schedule independence: with jobs that commute, the memory left by the pool
    is that of running the accepted jobs one after the other. */
module PoolSchedule {
  import opened Options
  import opened PoolModel
  import opened PoolInvariant
  import opened PoolSafety

  /** The memory after a log of steps. */
  function Replay<A, M>(apply: (A, M) -> M, memory: M, log: seq<A>): M {
    if log == [] then memory else apply(log[|log| - 1], Replay(apply, memory, log[..|log| - 1]))
  }

  ghost predicate Commute<A, M(!new)>(apply: (A, M) -> M, a: A, b: A) {
    forall m :: apply(a, apply(b, m)) == apply(b, apply(a, m))
  }

  /** Steps of different jobs commute; steps of one job need not. */
  ghost predicate JobsCommute<A, R, M(!new)>(apply: (A, M) -> M, jobs: seq<Job<A, R>>) {
    forall t, u | 0 <= t < u < |jobs| ::
      forall a, b | a in jobs[t].steps && b in jobs[u].steps :: Commute(apply, a, b)
  }

  /** The steps of all jobs, one job after the other. */
  function InOrder<A, R>(jobs: seq<Job<A, R>>): seq<A> {
    if jobs == [] then [] else InOrder(jobs[..|jobs| - 1]) + jobs[|jobs| - 1].steps
  }

  /** The steps executed so far by the first `n` jobs, one job after the other. */
  function Done<A, R>(jobs: seq<Job<A, R>>, progress: seq<nat>, n: nat): seq<A>
    requires n <= |jobs| == |progress|
    requires forall t | 0 <= t < |jobs| :: progress[t] <= |jobs[t].steps|
  {
    if n == 0 then [] else Done(jobs, progress, n - 1) + jobs[n - 1].steps[..progress[n - 1]]
  }

  ghost predicate ProgressBounded<A, R>(s: Pool<A, R>) {
    |s.progress| == |s.accepted| && forall t | 0 <= t < |s.accepted| :: s.progress[t] <= |s.accepted[t].steps|
  }

  /** The interleaved log is worth the in-order one. */
  ghost predicate Serialisable<A, R, M(!new)>(apply: (A, M) -> M, s: Pool<A, R>)
    requires ProgressBounded(s)
  {
    forall m :: Replay(apply, m, s.effects) == Replay(apply, m, Done(s.accepted, s.progress, |s.accepted|))
  }

  lemma {:induction false} ReplayAppend<A, M>(apply: (A, M) -> M, memory: M, a: seq<A>, b: seq<A>)
    ensures Replay(apply, memory, a + b) == Replay(apply, Replay(apply, memory, a), b)
    decreases |b|
  {
    if b == [] {
      assert a + b == a;
    } else {
      assert (a + b)[..|a + b| - 1] == a + b[..|b| - 1];
      ReplayAppend(apply, memory, a, b[..|b| - 1]);
    }
  }

  /** A step that commutes with a log may be taken before or after it. */
  lemma {:induction false} StepPastLog<A, M(!new)>(apply: (A, M) -> M, a: A, memory: M, log: seq<A>)
    requires forall b | b in log :: Commute(apply, a, b)
    ensures Replay(apply, apply(a, memory), log) == apply(a, Replay(apply, memory, log))
    decreases |log|
  {
    if log != [] {
      var b := log[|log| - 1];
      var rest := log[..|log| - 1];
      StepPastLog(apply, a, memory, rest);
      assert Commute(apply, a, b);
    }
  }

  lemma DoneOneMore<A, R>(jobs: seq<Job<A, R>>, progress: seq<nat>, t: nat)
    requires t < |jobs| == |progress|
    requires forall u | 0 <= u < |jobs| :: progress[u] <= |jobs[u].steps|
    requires progress[t] < |jobs[t].steps|
    ensures Done(jobs, progress[t := progress[t] + 1], t + 1) ==
            Done(jobs, progress, t + 1) + [jobs[t].steps[progress[t]]]
  {
    var k, steps := progress[t], jobs[t].steps;
    DoneUntouched(jobs, progress, progress[t := k + 1], t);
    assert steps[..k + 1] == steps[..k] + [steps[k]];
  }

  lemma LastStep<A, R, M(!new)>(
      apply: (A, M) -> M, jobs: seq<Job<A, R>>, progress: seq<nat>, t: nat, memory: M)
    requires t < |jobs| == |progress|
    requires forall u | 0 <= u < |jobs| :: progress[u] <= |jobs[u].steps|
    requires progress[t] < |jobs[t].steps|
    ensures Replay(apply, memory, Done(jobs, progress[t := progress[t] + 1], t + 1)) ==
            apply(jobs[t].steps[progress[t]], Replay(apply, memory, Done(jobs, progress, t + 1)))
  {
    var log := Done(jobs, progress, t + 1);
    DoneOneMore(jobs, progress, t);
    assert (log + [jobs[t].steps[progress[t]]])[..|log|] == log;
  }

  /** Executing the next step of job `t` now is worth inserting it at the end of
      what job `t` has done, ahead of all later jobs. */
  lemma {:induction false} InsertStep<A, R, M(!new)>(
      apply: (A, M) -> M, jobs: seq<Job<A, R>>, progress: seq<nat>, t: nat, n: nat, memory: M)
    requires t < n <= |jobs| == |progress|
    requires forall u | 0 <= u < |jobs| :: progress[u] <= |jobs[u].steps|
    requires progress[t] < |jobs[t].steps|
    requires JobsCommute(apply, jobs)
    ensures Replay(apply, memory, Done(jobs, progress[t := progress[t] + 1], n)) ==
            apply(jobs[t].steps[progress[t]], Replay(apply, memory, Done(jobs, progress, n)))
    decreases n
  {
    if n == t + 1 {
      LastStep(apply, jobs, progress, t, memory);
    } else {
      var a, u := jobs[t].steps[progress[t]], n - 1;
      var segment := jobs[u].steps[..progress[u]];
      var log, log' := Done(jobs, progress, u), Done(jobs, progress[t := progress[t] + 1], u);
      InsertStep(apply, jobs, progress, t, u, memory);
      ReplayAppend(apply, memory, log', segment);
      ReplayAppend(apply, memory, log, segment);
      forall b | b in segment ensures Commute(apply, a, b) {
        assert a in jobs[t].steps && b in jobs[u].steps;
      }
      StepPastLog(apply, a, Replay(apply, memory, log), segment);
    }
  }

  lemma {:induction false} DoneUntouched<A, R>(jobs: seq<Job<A, R>>, p: seq<nat>, q: seq<nat>, n: nat)
    requires n <= |jobs| == |p| == |q|
    requires forall t | 0 <= t < |jobs| :: p[t] <= |jobs[t].steps| && q[t] <= |jobs[t].steps|
    requires forall t | 0 <= t < n :: p[t] == q[t]
    ensures Done(jobs, p, n) == Done(jobs, q, n)
  {
    if n > 0 { DoneUntouched(jobs, p, q, n - 1); }
  }

  lemma {:induction false} DoneExtends<A, R>(jobs: seq<Job<A, R>>, p: seq<nat>, job: Job<A, R>, k: nat, n: nat)
    requires n <= |jobs| == |p| && k <= |job.steps|
    requires forall t | 0 <= t < |jobs| :: p[t] <= |jobs[t].steps|
    ensures Done(jobs + [job], p + [k], n) == Done(jobs, p, n)
  {
    if n > 0 { DoneExtends(jobs, p, job, k, n - 1); }
  }

  lemma ProgressIsBounded<A, R>(s: Pool<A, R>)
    requires Inv(s)
    ensures ProgressBounded(s)
  {
    PrefixOfRange(s.started, s.jobs, |s.accepted|);
    forall t | 0 <= t < |s.accepted| ensures s.progress[t] <= |s.accepted[t].steps| {
      TicketPlace(s, t);
      if t !in s.completed && t < |s.started| {
        var i := RunningWitness(s.workers, t);
      }
    }
  }

  lemma SerialisableRunning<A, R, M(!new)>(apply: (A, M) -> M, s: Pool<A, R>, i: nat)
    requires WellFormed(s) && ProgressInv(s) && i < |s.workers| && s.workers[i].Running?
    requires ProgressBounded(s) && ProgressBounded(WorkStep(s, i))
    requires Serialisable(apply, s) && JobsCommute(apply, s.accepted)
    ensures Serialisable(apply, WorkStep(s, i))
  {
    var s' := WorkStep(s, i);
    var t, k := s.workers[i].ticket, s.workers[i].done;
    if k < |s.accepted[t].steps| {
      var step := s.accepted[t].steps[k];
      assert s'.effects == s.effects + [step] && s'.progress == s.progress[t := k + 1];
      assert s'.effects[..|s.effects|] == s.effects;
      forall m
        ensures Replay(apply, m, s'.effects) == Replay(apply, m, Done(s'.accepted, s'.progress, |s'.accepted|))
      {
        InsertStep(apply, s.accepted, s.progress, t, |s.accepted|, m);
      }
    }
  }

  lemma SerialisableSubmit<A, R, M(!new)>(apply: (A, M) -> M, s: Pool<A, R>, job: Job<A, R>, wake: Option<nat>)
    requires WellFormed(s) && NotifyOne(s.workers, wake)
    requires ProgressBounded(s) && ProgressBounded(SubmitStep(s, job, wake))
    requires Serialisable(apply, s)
    ensures Serialisable(apply, SubmitStep(s, job, wake))
  {
    var s' := SubmitStep(s, job, wake);
    if !s.terminated {
      var n := |s.accepted|;
      var done := Done(s.accepted, s.progress, n);
      var k := if s.workers == [] then |job.steps| else 0;
      var segment := job.steps[..k];
      DoneExtends(s.accepted, s.progress, job, k, n);
      assert Done(s'.accepted, s'.progress, n + 1) == done + segment;
      assert s'.effects == s.effects + segment;
      forall m
        ensures Replay(apply, m, s'.effects) == Replay(apply, m, Done(s'.accepted, s'.progress, |s'.accepted|))
      {
        ReplayAppend(apply, m, s.effects, segment);
        ReplayAppend(apply, m, done, segment);
      }
    }
  }

  lemma SerialisableStep<A, R, M(!new)>(apply: (A, M) -> M, s: Pool<A, R>, a: Action<A, R>)
    requires WellFormed(s) && ProgressInv(s) && Enabled(s, a)
    requires ProgressBounded(s) && ProgressBounded(Next(s, a))
    requires Serialisable(apply, s) && JobsCommute(apply, s.accepted)
    ensures Serialisable(apply, Next(s, a))
  {
    if a.Work? && s.workers[a.worker].Running? {
      SerialisableRunning(apply, s, a.worker);
    } else if a.Submit? {
      SerialisableSubmit(apply, s, a.job, a.wake);
    } else {
      var s' := Next(s, a);
      assert s'.effects == s.effects && s'.accepted == s.accepted && s'.progress == s.progress;
    }
  }

  lemma {:induction false} AcceptedGrows<A, R>(s: Pool<A, R>, run: seq<Action<A, R>>)
    requires WellFormed(s) && ValidRun(s, run)
    ensures s.accepted <= Execute(s, run).accepted
    decreases |run|
  {
    if run != [] { AcceptedGrows(Next(s, run[0]), run[1..]); }
  }

  lemma CommutePrefix<A, R, M(!new)>(apply: (A, M) -> M, some: seq<Job<A, R>>, all: seq<Job<A, R>>)
    requires some <= all && JobsCommute(apply, all)
    ensures JobsCommute(apply, some)
  {
  }

  lemma {:induction false} SerialisableRun<A, R, M(!new)>(apply: (A, M) -> M, s: Pool<A, R>, run: seq<Action<A, R>>)
    requires Inv(s) && ValidRun(s, run) && ProgressBounded(s) && Serialisable(apply, s)
    requires JobsCommute(apply, Execute(s, run).accepted)
    ensures ProgressBounded(Execute(s, run)) && Serialisable(apply, Execute(s, run))
    decreases |run|
  {
    if run != [] {
      var s' := Next(s, run[0]);
      InvStep(s, run[0]);
      ProgressIsBounded(s');
      AcceptedGrows(s, run);
      CommutePrefix(apply, s.accepted, Execute(s, run).accepted);
      SerialisableStep(apply, s, run[0]);
      SerialisableRun(apply, s', run[1..]);
    }
  }

  lemma {:induction false} DoneIsInOrder<A, R>(jobs: seq<Job<A, R>>, progress: seq<nat>, n: nat)
    requires n <= |jobs| == |progress|
    requires forall t | 0 <= t < |jobs| :: progress[t] == |jobs[t].steps|
    ensures Done(jobs, progress, n) == InOrder(jobs[..n])
  {
    if n > 0 {
      DoneIsInOrder(jobs, progress, n - 1);
      assert jobs[..n][..n - 1] == jobs[..n - 1];
      assert jobs[n - 1].steps[..progress[n - 1]] == jobs[n - 1].steps;
    }
  }

  /** Nothing is queued or running, as when the destructor has returned. */
  predicate Drained<A, R>(s: Pool<A, R>) { s.jobs == [] && BusyCount(s.workers) == 0 }

  lemma {:induction false} NotBusy(ws: seq<Pc>, i: nat)
    requires BusyCount(ws) == 0 && i < |ws|
    ensures !ws[i].Running?
    decreases |ws|
  {
    if i > 0 { NotBusy(ws[1..], i - 1); }
  }

  lemma AllStepsDone<A, R>(s: Pool<A, R>)
    requires Inv(s) && Drained(s)
    ensures ProgressBounded(s) && Done(s.accepted, s.progress, |s.accepted|) == InOrder(s.accepted)
  {
    ProgressIsBounded(s);
    forall i | 0 <= i < |s.workers| ensures !s.workers[i].Running? { NotBusy(s.workers, i); }
    NothingLeft(s);
    DoneIsInOrder(s.accepted, s.progress, |s.accepted|);
    assert s.accepted[..|s.accepted|] == s.accepted;
  }

  /** Whatever the number of workers and the interleaving, whenever the pool is
      drained (in particular when the destructor returns), the memory is that of
      the accepted jobs run in submission order. */
  lemma ScheduleIndependent<A, R, M(!new)>(apply: (A, M) -> M, memory: M, n: nat, run: seq<Action<A, R>>)
    requires ValidRun(Init(n), run)
    requires Drained(Execute(Init(n), run))
    requires JobsCommute(apply, Execute(Init(n), run).accepted)
    ensures var s := Execute(Init(n), run);
            Replay(apply, memory, s.effects) == Replay(apply, memory, InOrder(s.accepted))
  {
    var s0 := Init<A, R>(n);
    InvInit<A, R>(n);
    InvRun(s0, run);
    ProgressIsBounded(s0);
    SerialisableRun(apply, s0, run);
    AllStepsDone(Execute(s0, run));
  }

  function SubmitAll<A, R>(jobs: seq<Job<A, R>>): seq<Action<A, R>> {
    if jobs == [] then [] else SubmitAll(jobs[..|jobs| - 1]) + [Submit(jobs[|jobs| - 1], None)]
  }

  lemma SingleAction<A, R>(s: Pool<A, R>, a: Action<A, R>)
    requires WellFormed(s) && Enabled(s, a)
    ensures ValidRun(s, [a]) && Execute(s, [a]) == Next(s, a)
  {
  }

  /** Everything accepted has been run to its end, one job after the other. */
  ghost predicate Synchronous<A, R>(z: Pool<A, R>) {
    && z.workers == [] && z.jobs == [] && z.mutex == None && !z.terminated && !z.destructor.Joining?
    && z.completed == Range(|z.accepted|) && z.effects == InOrder(z.accepted)
  }

  lemma SynchronousStep<A, R>(z: Pool<A, R>, a: Action<A, R>)
    requires WellFormed(z) && Synchronous(z) && Enabled(z, a)
    ensures Synchronous(Next(z, a))
  {
    if a.Submit? {
      assert (z.accepted + [a.job])[..|z.accepted|] == z.accepted;
    }
  }

  /** Without workers the pool is synchronous: in every run, each job is run to its
      end, in order of submission, before `scheduleWork` returns. */
  lemma {:induction false} ZeroWorkersSynchronous<A, R>(z: Pool<A, R>, run: seq<Action<A, R>>)
    requires WellFormed(z) && (z == Init(0) || Synchronous(z)) && ValidRun(z, run)
    ensures Synchronous(Execute(z, run))
    decreases |run|
  {
    if run != [] {
      SynchronousStep(z, run[0]);
      ZeroWorkersSynchronous(Next(z, run[0]), run[1..]);
    }
  }

  lemma {:induction false} SubmitAllRuns<A, R>(jobs: seq<Job<A, R>>)
    ensures ValidRun(Init(0), SubmitAll(jobs))
    ensures var z := Execute(Init(0), SubmitAll(jobs)); z.accepted == jobs && z.destructor == Alive
    decreases |jobs|
  {
    if jobs != [] {
      var front, job := jobs[..|jobs| - 1], jobs[|jobs| - 1];
      SubmitAllRuns(front);
      var z := Execute(Init(0), SubmitAll(front));
      ZeroWorkersSynchronous(Init(0), SubmitAll(front));
      var last: seq<Action<A, R>> := [Submit(job, None)];
      SingleAction(z, last[0]);
      ExecuteAppend(Init(0), SubmitAll(front), last);
      assert jobs == front + [job];
    }
  }

  /** Two pools that have completed the same jobs hold the same futures. */
  lemma SameFutures<A, R>(s: Pool<A, R>, z: Pool<A, R>)
    requires FutureInv(s) && FutureInv(z) && z.accepted == s.accepted
    requires multiset(z.completed) == multiset(s.completed)
    ensures z.futures == s.futures
  {
    forall t: nat ensures t in z.futures <==> t in s.futures {
      assert t in z.completed <==> t in multiset(z.completed);
      assert t in s.completed <==> t in multiset(s.completed);
    }
  }

  /** The N-worker pool refines the synchronous one: same jobs completed, same
      values in the same futures, same memory. */
  lemma RefinesSynchronousPool<A, R, M(!new)>(apply: (A, M) -> M, memory: M, n: nat, run: seq<Action<A, R>>)
    requires ValidRun(Init(n), run)
    requires Execute(Init(n), run).destructor == Returned
    requires JobsCommute(apply, Execute(Init(n), run).accepted)
    ensures var s := Execute(Init(n), run);
            && ValidRun(Init(0), SubmitAll(s.accepted))
            && var z := Execute(Init(0), SubmitAll(s.accepted));
               && z.accepted == s.accepted
               && multiset(z.completed) == multiset(s.completed)
               && z.futures == s.futures
               && Replay(apply, memory, z.effects) == Replay(apply, memory, s.effects)
  {
    var s := Execute(Init(n), run);
    DrainedAtReturn(n, run);
    ScheduleIndependent(apply, memory, n, run);
    SubmitAllRuns(s.accepted);
    ZeroWorkersSynchronous(Init(0), SubmitAll(s.accepted));
    InvInit<A, R>(n);
    InvRun(Init(n), run);
    InvInit<A, R>(0);
    InvRun(Init(0), SubmitAll(s.accepted));
    SameFutures(s, Execute(Init(0), SubmitAll(s.accepted)));
  }

  // ------------------------------------------------ commutation is necessary

  /** An undisturbed worker takes the front job. */
  lemma Takes<A, R>(s: Pool<A, R>, i: nat) returns (run: seq<Action<A, R>>)
    requires WellFormed(s) && s.mutex == None && s.jobs != [] && i < |s.workers| && s.workers[i] == Entering
    ensures ValidRun(s, run)
    ensures Execute(s, run) == s.(workers := s.workers[i := Running(s.jobs[0], 0)], jobs := s.jobs[1..],
                                  started := s.started + [s.jobs[0]])
  {
    var s1 := Next(s, Work(i));
    var s2 := Next(s1, Work(i));
    assert s1 == s.(workers := s.workers[i := Checking], mutex := Some(i));
    assert s2 == s.(workers := s.workers[i := Draining], mutex := Some(i));
    SingleAction(s2, Work(i));
    Prepend(s1, Work(i), [Work(i)]);
    Prepend(s, Work(i), [Work(i)] + [Work(i)]);
    run := [Work(i)] + ([Work(i)] + [Work(i)]);
  }

  /** An undisturbed worker ends a one-step job it has not begun. */
  lemma Finishes<A, R>(s: Pool<A, R>, i: nat, t: nat, a: A) returns (run: seq<Action<A, R>>)
    requires WellFormed(s) && i < |s.workers| && s.workers[i] == Running(t, 0)
    requires t < |s.accepted| && s.accepted[t] == Job([a], None)
    ensures ValidRun(s, run)
    ensures Execute(s, run) == s.(workers := s.workers[i := Relocking], progress := s.progress[t := 1],
                                  effects := s.effects + [a], completed := s.completed + [t])
  {
    var s1 := Next(s, Work(i));
    assert s1 == s.(workers := s.workers[i := Running(t, 1)], progress := s.progress[t := 1],
                    effects := s.effects + [a]);
    SingleAction(s1, Work(i));
    Prepend(s, Work(i), [Work(i)]);
    run := [Work(i)] + [Work(i)];
  }

  function TwoJobs<A, R>(a: A, b: A): seq<Job<A, R>> { [Job([a], None), Job([b], None)] }

  /** Both jobs queued, then dequeued by the first two of `n` workers. */
  lemma BothDequeued<A, R>(n: nat, a: A, b: A) returns (run: seq<Action<A, R>>)
    requires n >= 2
    ensures ValidRun(Init<A, R>(n), run)
    ensures Execute(Init<A, R>(n), run) ==
            var s := Init<A, R>(n);
            s.(workers := s.workers[0 := Running(0, 0)][1 := Running(1, 0)], accepted := TwoJobs(a, b),
               started := [0, 1], progress := [0, 0])
  {
    var s := Init<A, R>(n);
    var j0: Job<A, R>, j1: Job<A, R> := Job([a], None), Job([b], None);
    var s1 := Next(s, Submit(j0, None));
    var s2 := Next(s1, Submit(j1, None));
    assert s2 == s.(accepted := TwoJobs(a, b), progress := [0, 0], jobs := [0, 1]);
    SingleAction(s1, Submit(j1, None));
    Prepend(s, Submit(j0, None), [Submit(j1, None)]);
    var r0 := Takes(s2, 0);
    var r1 := Takes(Execute(s2, r0), 1);
    ExecuteAppend(s2, r0, r1);
    run := [Submit(j0, None)] + [Submit(j1, None)];
    ExecuteAppend(s, run, r0 + r1);
    run := run + (r0 + r1);
  }

  /** Two jobs in submission order `a`, `b`, executed in the order `b`, `a`. */
  lemma CrossedRun<A, R>(n: nat, a: A, b: A) returns (run: seq<Action<A, R>>)
    requires n >= 2
    ensures ValidRun(Init<A, R>(n), run)
    ensures var s := Execute(Init<A, R>(n), run);
            Drained(s) && s.accepted == TwoJobs(a, b) && s.effects == [b, a]
  {
    var r0 := BothDequeued<A, R>(n, a, b);
    var s := Execute(Init(n), r0);
    var r1 := Finishes(s, 1, 1, b);
    var s1 := Execute(s, r1);
    var r2 := Finishes(s1, 0, 0, a);
    ExecuteAppend(s, r1, r2);
    ExecuteAppend(Init(n), r0, r1 + r2);
    NoneBusy(Execute(s1, r2).workers);
    run := r0 + (r1 + r2);
  }

  /** Every job has at most `most` steps, all of them drawn from `steps`. */
  ghost predicate DrawnFrom<A(!new), R>(jobs: seq<Job<A, R>>, steps: iset<A>, most: nat) {
    forall t | 0 <= t < |jobs| :: |jobs[t].steps| <= most && forall a | a in jobs[t].steps :: a in steps
  }

  /** However the jobs are submitted and scheduled, the memory of a drained pool is
      that of the submission order. */
  ghost predicate AlwaysInOrder<A(!new), R(!new), M(!new)>(
      apply: (A, M) -> M, n: nat, steps: iset<A>, most: nat) {
    forall run: seq<Action<A, R>>, m |
      ValidRun(Init(n), run) && Drained(Execute(Init(n), run))
      && DrawnFrom(Execute(Init(n), run).accepted, steps, most) ::
      Replay(apply, m, Execute(Init(n), run).effects) == Replay(apply, m, InOrder(Execute(Init(n), run).accepted))
  }

  /** The condition is exact for jobs whose steps come from any given set, with any
      two or more workers and any bound on the length of a job: all drained runs
      leave the memory of the submission order if and only if the steps commute
      pairwise. */
  lemma CommutationExact<A(!new), R(!new), M(!new)>(apply: (A, M) -> M, n: nat, steps: iset<A>, most: nat)
    requires n >= 2 && most >= 1
    ensures AlwaysInOrder<A, R, M>(apply, n, steps, most) <==>
            forall a, b | a in steps && b in steps :: Commute(apply, a, b)
  {
    if a, b :| a in steps && b in steps && !Commute(apply, a, b) {
      var m :| apply(a, apply(b, m)) != apply(b, apply(a, m));
      var run := CrossedRun<A, R>(n, a, b);
      ReplayTwo(apply, b, a, m);
      InOrderOfTwo<A, R, M>(apply, a, b, m);
      assert DrawnFrom(Execute(Init<A, R>(n), run).accepted, steps, most);
      assert !AlwaysInOrder<A, R, M>(apply, n, steps, most);
    } else {
      forall run: seq<Action<A, R>>, m |
        ValidRun(Init(n), run) && Drained(Execute(Init(n), run))
        && DrawnFrom(Execute(Init(n), run).accepted, steps, most)
        ensures Replay(apply, m, Execute(Init(n), run).effects) ==
                Replay(apply, m, InOrder(Execute(Init(n), run).accepted))
      {
        ScheduleIndependent(apply, m, n, run);
      }
    }
  }

  lemma ReplayTwo<A, M>(apply: (A, M) -> M, a: A, b: A, m: M)
    ensures Replay(apply, m, [a, b]) == apply(b, apply(a, m))
  {
    assert [a][..0] == [] && Replay(apply, m, [a]) == apply(a, m);
    assert [a, b][..1] == [a];
  }

  lemma InOrderOfTwo<A, R, M(!new)>(apply: (A, M) -> M, a: A, b: A, m: M)
    ensures Replay(apply, m, InOrder(TwoJobs<A, R>(a, b))) == apply(b, apply(a, m))
  {
    var jobs := TwoJobs<A, R>(a, b);
    assert [jobs[0]][..0] == [] && InOrder([jobs[0]]) == [a];
    assert jobs[..1] == [jobs[0]];
    assert InOrder(jobs) == [a] + [b];
    ReplayTwo(apply, a, b, m);
  }
}

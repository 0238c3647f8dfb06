/** What the pool promises in every reachable state, whatever the number of
    workers and however their steps, the clients' and the destructor's interleave. */
module PoolSafety {
  import opened Counting
  import opened PoolModel
  import opened PoolInvariant

  /** Exactly-once: each accepted job is queued, running or completed, once in
      total, and nothing else is. */
  lemma ExactlyOnce<A, R>(n: nat, run: seq<Action<A, R>>, t: nat)
    requires ValidRun(Init(n), run)
    ensures var s := Execute(Init(n), run);
            multiset(s.jobs)[t] + RunningOn(s.workers, t) + multiset(s.completed)[t] == One(t < |s.accepted|)
  {
    InvInit<A, R>(n);
    InvRun(Init(n), run);
    TicketPlace(Execute(Init(n), run), t);
  }

  /** The destructor returns only when every accepted job has been completed. */
  lemma DrainedAtReturn<A, R>(n: nat, run: seq<Action<A, R>>)
    requires ValidRun(Init(n), run)
    ensures var s := Execute(Init(n), run);
            s.destructor == Returned ==>
              && s.jobs == [] && BusyCount(s.workers) == 0
              && multiset(s.completed) == multiset(Range(|s.accepted|))
  {
    InvInit<A, R>(n);
    InvRun(Init(n), run);
    var s := Execute(Init(n), run);
    if s.destructor == Returned {
      AllExitedDrained(s);
    }
  }

  lemma {:induction false} NoneBusy(ws: seq<Pc>)
    requires forall i | 0 <= i < |ws| :: !ws[i].Running?
    ensures BusyCount(ws) == 0
    decreases |ws|
  {
    if ws != [] { NoneBusy(ws[1..]); }
  }

  lemma NothingLeft<A, R>(s: Pool<A, R>)
    requires TicketInv(s) && s.jobs == [] && (forall i | 0 <= i < |s.workers| :: !s.workers[i].Running?)
    ensures multiset(s.completed) == multiset(Range(|s.accepted|))
    ensures forall t | 0 <= t < |s.accepted| :: t in s.completed
  {
    NoneRunning(s.workers);
    var c, r := multiset(s.completed), multiset(Range(|s.accepted|));
    forall t: nat ensures c[t] == r[t] && (t < |s.accepted| ==> t in s.completed) {
      TicketPlace(s, t);
      RangeOnce(|s.accepted|, t);
    }
    assert c == r;
  }

  lemma AllExitedDrained<A, R>(s: Pool<A, R>)
    requires Inv(s) && s.destructor == Returned
    ensures s.jobs == [] && BusyCount(s.workers) == 0
    ensures multiset(s.completed) == multiset(Range(|s.accepted|))
    ensures forall t | 0 <= t < |s.accepted| :: t in s.completed
  {
    if s.workers != [] { assert s.workers[0] == Exited; }
    NoneBusy(s.workers);
    NothingLeft(s);
  }

  /** Once a worker has exited, no later step ever queues or accepts anything. */
  lemma {:induction false} ClosedAfterExit<A, R>(s: Pool<A, R>, run: seq<Action<A, R>>, i: nat)
    requires Inv(s) && ValidRun(s, run) && i < |s.workers| && s.workers[i] == Exited
    ensures var s' := Execute(s, run);
            && i < |s'.workers| && s'.workers[i] == Exited
            && s'.jobs == [] && s'.accepted == s.accepted && s'.started == s.started
    decreases |run|
  {
    if run != [] {
      InvStep(s, run[0]);
      ClosedAfterExit(Next(s, run[0]), run[1..], i);
    }
  }

  /** No lost wakeup: before termination, if any worker sleeps, there are at
      least as many workers awake and not busy with a job as jobs queued; so a
      queued job never waits for a wakeup that is not under way. */
  lemma NoLostWakeup<A, R>(n: nat, run: seq<Action<A, R>>)
    requires ValidRun(Init(n), run)
    ensures var s := Execute(Init(n), run);
            !s.terminated && SomeParked(s.workers) ==>
              && |s.workers| - ParkedCount(s.workers) - BusyCount(s.workers) >= |s.jobs|
              && (s.jobs != [] ==> exists i | 0 <= i < |s.workers| ::
                    !s.workers[i].Parked? && !s.workers[i].Running? && !s.workers[i].Exited?)
  {
    InvInit<A, R>(n);
    InvRun(Init(n), run);
    var s := Execute(Init(n), run);
    CountBounds(s.workers);
    if !s.terminated && SomeParked(s.workers) && s.jobs != [] {
      var i := FreeWorker(s.workers);
      assert !s.workers[i].Parked? && !s.workers[i].Running?;
    }
  }

  /** Work always moves: before termination, while jobs are queued or running, some
      worker can take a step, by itself and without a wakeup. */
  lemma WorkAlwaysMoves<A, R>(n: nat, run: seq<Action<A, R>>) returns (i: nat)
    requires ValidRun(Init(n), run)
    requires var s := Execute(Init(n), run); !s.terminated && (s.jobs != [] || BusyCount(s.workers) > 0)
    ensures Enabled(Execute(Init(n), run), Work(i))
  {
    InvInit<A, R>(n);
    InvRun(Init(n), run);
    i := Mover(Execute(Init(n), run));
  }

  lemma Mover<A, R>(s: Pool<A, R>) returns (i: nat)
    requires MutexInv(s) && ShutdownInv(s) && AwakeInv(s)
    requires !s.terminated
    requires s.jobs != [] || BusyCount(s.workers) > 0 || exists j | 0 <= j < |s.workers| :: s.workers[j] != Parked
    ensures i < |s.workers| && CanMove(s.workers[i], s.mutex.None?)
  {
    CountBounds(s.workers);
    if s.mutex.Some? {
      i := s.mutex.value;
    } else if j :| 0 <= j < |s.workers| && s.workers[j].Running? {
      i := j;
    } else if j :| 0 <= j < |s.workers| && s.workers[j] != Parked {
      i := j;
    } else {
      NoneBusy(s.workers);
      i := FreeWorker(s.workers);
    }
  }

  lemma {:induction false} FreeWorker(ws: seq<Pc>) returns (i: nat)
    requires BusyCount(ws) + ParkedCount(ws) < |ws|
    ensures i < |ws| && !ws[i].Parked? && !ws[i].Running?
    decreases |ws|
  {
    if !ws[0].Parked? && !ws[0].Running? {
      i := 0;
    } else {
      i := FreeWorker(ws[1..]);
      i := i + 1;
    }
  }

  /** Bounded overtaking: dequeuing follows the order of submission, at most N
      dequeued jobs are incomplete, and a completing job has overtaken at most
      N - 1 earlier ones (none without workers). */
  lemma BoundedOvertaking<A, R>(n: nat, run: seq<Action<A, R>>)
    requires ValidRun(Init(n), run)
    ensures var s := Execute(Init(n), run);
            && |s.workers| == n
            && s.started + s.jobs == Range(|s.accepted|)
            && |set t | 0 <= t < |s.started| && t !in s.completed| <= n
            && (forall p | 0 <= p < |s.completed| :: |Overtaken(s.completed, p)| <= (if n == 0 then 0 else n - 1))
  {
    InvInit<A, R>(n);
    InvRun(Init(n), run);
    WorkerCount(Init(n), run);
    var s := Execute(Init(n), run);
    var u := set t | 0 <= t < |s.started| && t !in s.completed;
    forall t | t in u ensures RunningOn(s.workers, t) >= 1 { TicketPlace(s, t); }
    TicketsFit(u, s.workers);
    CountBounds(s.workers);
  }

  lemma {:induction false} WorkerCount<A, R>(s: Pool<A, R>, run: seq<Action<A, R>>)
    requires WellFormed(s) && ValidRun(s, run)
    ensures |Execute(s, run).workers| == |s.workers|
    decreases |run|
  {
    if run != [] { WorkerCount(Next(s, run[0]), run[1..]); }
  }

  /** With one worker, or none, jobs complete in the order of submission. */
  lemma SingleWorkerInOrder<A, R>(n: nat, run: seq<Action<A, R>>)
    requires n <= 1 && ValidRun(Init(n), run)
    ensures var s := Execute(Init(n), run);
            s.completed == Range(|s.completed|)
  {
    InvInit<A, R>(n);
    InvRun(Init(n), run);
    var s := Execute(Init(n), run);
    BoundedOvertaking(n, run);
    forall t: nat ensures multiset(s.completed)[t] <= 1 { TicketPlace(s, t); }
    NothingOvertaken(s.completed, |s.completed|);
    assert s.completed[..|s.completed|] == s.completed;
  }

  lemma {:induction false} NothingOvertaken(c: seq<nat>, n: nat)
    requires n <= |c|
    requires forall t: nat :: multiset(c)[t] <= 1
    requires forall p | 0 <= p < |c| :: |Overtaken(c, p)| <= 0
    ensures c[..n] == Range(n)
  {
    if n > 0 {
      NothingOvertaken(c, n - 1);
      var p := n - 1;
      assert Overtaken(c, p) == {};
      assert c[p] <= p by {
        assert p !in c[..p];
        assert p !in Overtaken(c, p);
      }
      if c[p] < p {
        assert c[..p][c[p]] == c[p];
        TwiceInBag(c, c[p], p);
      }
      assert c[..n] == c[..p] + [c[p]];
    }
  }

  lemma TwiceInBag(c: seq<nat>, i: nat, j: nat)
    requires i < j < |c| && c[i] == c[j]
    ensures multiset(c)[c[i]] >= 2
  {
    assert c == c[..j] + [c[j]] + c[j + 1..];
    assert c[..j][i] == c[i];
    assert c[i] in multiset(c[..j]);
  }

  lemma AllFuturesSet<A, R>(s: Pool<A, R>, t: nat)
    requires Inv(s) && s.destructor == Returned && t < |s.accepted| && s.accepted[t].task.Some?
    ensures t in s.futures
  {
    AllExitedDrained(s);
    assert t in s.completed;
  }

  /** Futures: each is either unset, its job being incomplete, or holds the value
      of its own call; all are set when the destructor returns. */
  lemma FutureCorrect<A, R>(n: nat, run: seq<Action<A, R>>, t: nat)
    requires ValidRun(Init(n), run)
    ensures var s := Execute(Init(n), run);
            && (t in s.futures <==> t in s.completed && t < |s.accepted| && s.accepted[t].task.Some?)
            && (t in s.futures ==> s.futures[t] == s.accepted[t].task.value())
            && (s.destructor == Returned && t < |s.accepted| && s.accepted[t].task.Some? ==> t in s.futures)
  {
    InvInit<A, R>(n);
    InvRun(Init(n), run);
    var s := Execute(Init(n), run);
    assert FutureInv(s);
    if s.destructor == Returned && t < |s.accepted| && s.accepted[t].task.Some? {
      AllFuturesSet(s, t);
    }
  }

  lemma FutureKept<A, R>(s: Pool<A, R>, a: Action<A, R>, t: nat)
    requires WellFormed(s) && TicketInv(s) && FutureInv(s) && Enabled(s, a) && t in s.futures
    ensures t in Next(s, a).futures && Next(s, a).futures[t] == s.futures[t]
  {
  }

  /** A future is set at most once: the only step that stores a value finds none
      stored, and no later step changes it, so a client that asks for the future
      after the job is done reads the same value. */
  lemma {:induction false} FutureSetOnce<A, R>(s: Pool<A, R>, run: seq<Action<A, R>>, t: nat)
    requires Inv(s) && ValidRun(s, run) && t in s.futures
    ensures var s' := Execute(s, run);
            && t in s'.futures && s'.futures[t] == s.futures[t]
            && multiset(s'.completed)[t] == 1
    decreases |run|
  {
    TicketPlace(s, t);
    if run != [] {
      var s1 := Next(s, run[0]);
      InvStep(s, run[0]);
      FutureKept(s, run[0], t);
      FutureSetOnce(s1, run[1..], t);
    }
  }
}

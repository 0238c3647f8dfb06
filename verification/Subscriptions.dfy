/** The subscription table, explained by the history of API calls alone. */
module Subscriptions {
  import opened Options
  import opened MessageCodec
  import opened BusModel
  import opened BusProtocol

  /** The call asks for `name` to be bound; whether the name was free is not
      looked at. */
  function Registers(a: Action, name: string): Option<Listener> {
    match a
    case Subscribe(topic, true, callback) => if topic == name then Some(callback) else None
    case Receive(queue, callback) => if queue == name then Some(callback) else None
    case BindReply(_, m, callback) =>
      if HasField(m, REPLY_TO) && m.metaData[REPLY_TO] == name then Some(callback) else None
    case _ => None
  }

  predicate Removes(a: Action, name: string) { a == Unsubscribe(name) }

  predicate RemovedBetween(run: seq<Action>, i: nat, j: nat, name: string)
    requires j <= |run|
  {
    exists r | i <= r < j :: Removes(run[r], name)
  }

  /** Call `i` binds `name` to `callback`: nothing has removed the name since, and
      every earlier registration of it had been removed by then. */
  predicate BindsAt(run: seq<Action>, i: nat, name: string, callback: Listener)
    requires i < |run|
  {
    && Registers(run[i], name) == Some(callback)
    && !RemovedBetween(run, i, |run|, name)
    && (forall j | 0 <= j < i && Registers(run[j], name).Some? :: RemovedBetween(run, j, i, name))
  }

  /** `callback` comes from the earliest registration of `name` since the last
      removal of that name. */
  predicate IsOwner(run: seq<Action>, name: string, callback: Listener) {
    exists i | 0 <= i < |run| :: BindsAt(run, i, name, callback)
  }

  predicate Bound(b: Bus, name: string, callback: Listener) {
    name in b.subscriptions && b.subscriptions[name] == callback
  }

  lemma TableStep(b: Bus, a: Action, name: string, callback: Listener)
    requires Enabled(b, a)
    ensures Bound(Next(b, a), name, callback) <==>
            if name in b.subscriptions then Bound(b, name, callback) && !Removes(a, name)
            else Registers(a, name) == Some(callback)
  {
  }

  lemma RemovedPrefix(front: seq<Action>, a: Action, i: nat, j: nat, name: string)
    requires j <= |front|
    ensures RemovedBetween(front + [a], i, j, name) <==> RemovedBetween(front, i, j, name)
  {
    var run := front + [a];
    if RemovedBetween(run, i, j, name) {
      var r :| i <= r < j && Removes(run[r], name);
      assert Removes(front[r], name);
    }
    if RemovedBetween(front, i, j, name) {
      var r :| i <= r < j && Removes(front[r], name);
      assert Removes(run[r], name);
    }
  }

  lemma RemovedAtEnd(front: seq<Action>, a: Action, i: nat, name: string)
    requires i <= |front|
    ensures RemovedBetween(front + [a], i, |front| + 1, name) <==>
            RemovedBetween(front, i, |front|, name) || Removes(a, name)
  {
    var run := front + [a];
    RemovedPrefix(front, a, i, |front|, name);
    if Removes(a, name) { assert Removes(run[|front|], name); }
    if RemovedBetween(front, i, |front|, name) {
      var r :| i <= r < |front| && Removes(front[r], name);
      assert Removes(run[r], name);
    }
    if RemovedBetween(run, i, |front| + 1, name) && !Removes(a, name) {
      var r :| i <= r < |front| + 1 && Removes(run[r], name);
      assert Removes(front[r], name);
    }
  }

  lemma OldBinding(front: seq<Action>, a: Action, i: nat, name: string, callback: Listener)
    requires i < |front|
    ensures BindsAt(front + [a], i, name, callback) <==> BindsAt(front, i, name, callback) && !Removes(a, name)
  {
    var run := front + [a];
    RemovedAtEnd(front, a, i, name);
    forall j | 0 <= j < i ensures RemovedBetween(run, j, i, name) <==> RemovedBetween(front, j, i, name) {
      RemovedPrefix(front, a, j, i, name);
    }
    assert forall j | 0 <= j <= i :: run[j] == front[j];
  }

  /** The name is free after `front`: every registration of it has been removed. */
  predicate Free(front: seq<Action>, name: string) {
    forall j | 0 <= j < |front| && Registers(front[j], name).Some? :: RemovedBetween(front, j, |front|, name)
  }

  lemma NewBinding(front: seq<Action>, a: Action, name: string, callback: Listener)
    ensures BindsAt(front + [a], |front|, name, callback) <==>
            Registers(a, name) == Some(callback) && Free(front, name)
  {
    var run := front + [a];
    if Registers(a, name).Some? { RemovedAtEnd(front, a, |front|, name); }
    forall j | 0 <= j < |front|
      ensures RemovedBetween(run, j, |front|, name) <==> RemovedBetween(front, j, |front|, name)
    {
      RemovedPrefix(front, a, j, |front|, name);
    }
    assert forall j | 0 <= j < |front| :: run[j] == front[j];
  }

  lemma FreeOrOwned(front: seq<Action>, name: string)
    ensures Free(front, name) <==> forall callback :: !IsOwner(front, name, callback)
  {
    if !Free(front, name) {
      var i := EarliestLive(front, name, |front|);
      assert BindsAt(front, i, name, Registers(front[i], name).value);
      assert IsOwner(front, name, Registers(front[i], name).value);
    }
  }

  /** The earliest registration not removed since. */
  lemma {:induction false} EarliestLive(front: seq<Action>, name: string, n: nat) returns (i: nat)
    requires n <= |front|
    requires exists j | 0 <= j < n :: Registers(front[j], name).Some? && !RemovedBetween(front, j, |front|, name)
    ensures i < n && Registers(front[i], name).Some?
    ensures BindsAt(front, i, name, Registers(front[i], name).value)
  {
    if j :| 0 <= j < n - 1 && Registers(front[j], name).Some? && !RemovedBetween(front, j, |front|, name) {
      i := EarliestLive(front, name, n - 1);
    } else {
      i := n - 1;
      forall j | 0 <= j < i && Registers(front[j], name).Some?
        ensures RemovedBetween(front, j, i, name)
      {
        var r :| j <= r < |front| && Removes(front[r], name);
        assert !RemovedBetween(front, i, |front|, name);
        assert r < i;
      }
    }
  }

  /** After any run, a name is bound to the listener of the earliest registration
      since the last removal of that name, and to no other. */
  lemma {:induction false} TableRefinesHistory(b: Bus, run: seq<Action>, name: string, callback: Listener)
    requires b.subscriptions == map[] && ValidRun(b, run)
    ensures Bound(Execute(b, run), name, callback) <==> IsOwner(run, name, callback)
    decreases |run|
  {
    if run != [] {
      var front, a := run[..|run| - 1], run[|run| - 1];
      assert run == front + [a];
      RunPrefix(b, front, [a]);
      var b' := Execute(b, front);
      assert Execute(b', [a]) == Next(b', a) by { assert [a][1..] == []; }
      forall c ensures Bound(b', name, c) <==> IsOwner(front, name, c) {
        TableRefinesHistory(b, front, name, c);
      }
      var bound := if name in b'.subscriptions then b'.subscriptions[name] else 0;
      assert name in b'.subscriptions <==> Bound(b', name, bound);
      FreeOrOwned(front, name);
      TableStep(b', a, name, callback);
      OwnerStep(front, a, name, callback);
    }
  }

  lemma OwnerStep(front: seq<Action>, a: Action, name: string, callback: Listener)
    ensures IsOwner(front + [a], name, callback) <==>
            || (IsOwner(front, name, callback) && !Removes(a, name))
            || (Free(front, name) && Registers(a, name) == Some(callback))
  {
    var run := front + [a];
    NewBinding(front, a, name, callback);
    if IsOwner(run, name, callback) {
      var i :| 0 <= i < |run| && BindsAt(run, i, name, callback);
      if i < |front| { OldBinding(front, a, i, name, callback); }
    }
    if IsOwner(front, name, callback) && !Removes(a, name) {
      var i :| 0 <= i < |front| && BindsAt(front, i, name, callback);
      OldBinding(front, a, i, name, callback);
      assert BindsAt(run, i, name, callback);
    }
    if Free(front, name) && Registers(a, name) == Some(callback) {
      assert BindsAt(run, |front|, name, callback);
    }
  }

  /** So both kinds of delivery under a name, from the mailbox and from a stream,
      call exactly that listener, and a message is skipped exactly when the
      history leaves the name without one. */
  lemma DeliveryFollowsHistory(b: Bus, run: seq<Action>, name: string, callback: Listener, frames: seq<string>)
    requires b.subscriptions == map[] && ValidRun(b, run) && Decodable(frames)
    ensures var b', m := Execute(b, run), Decode(frames);
            && (b'.listener == Unmatched(name, m) ==>
                  && (Next(b', Dispatch).consumed == b'.consumed + [Called(callback, name, m)]
                      <==> IsOwner(run, name, callback))
                  && (Next(b', Dispatch).consumed == b'.consumed + [Skipped(name, m)]
                      <==> forall c :: !IsOwner(run, name, c)))
            && (b'.listener == Polling ==>
                  && (Next(b', Stream(name, frames)).streamed == b'.streamed + [Called(callback, name, m)]
                      <==> IsOwner(run, name, callback))
                  && (Next(b', Stream(name, frames)).streamed == b'.streamed + [Skipped(name, m)]
                      <==> forall c :: !IsOwner(run, name, c)))
  {
    var b', m := Execute(b, run), Decode(frames);
    forall c ensures Bound(b', name, c) <==> IsOwner(run, name, c) {
      TableRefinesHistory(b, run, name, c);
    }
    ConsumeMeaning(b', name, m, callback);
    if name in b'.subscriptions { assert Bound(b', name, b'.subscriptions[name]); }
    LastOf(b'.consumed, Consume(b', name, m), Called(callback, name, m), Skipped(name, m));
    LastOf(b'.streamed, Consume(b', name, m), Called(callback, name, m), Skipped(name, m));
  }

  lemma ConsumeMeaning(b: Bus, name: string, m: Message, callback: Listener)
    ensures Consume(b, name, m) == Called(callback, name, m) <==> Bound(b, name, callback)
    ensures Consume(b, name, m) == Skipped(name, m) <==> name !in b.subscriptions
  {
  }

  lemma LastOf(log: seq<Consumed>, x: Consumed, y: Consumed, z: Consumed)
    ensures log + [x] == log + [y] <==> x == y
    ensures log + [x] == log + [z] <==> x == z
  {
    assert (log + [x])[|log|] == x && (log + [y])[|log|] == y && (log + [z])[|log|] == z;
  }

  lemma DispatchStep(b: Bus, callback: Listener)
    requires EachInOnePlace(b) && Enabled(b, Dispatch)
    ensures var b', l := Next(b, Dispatch), b.listener;
            && (b'.consumed == b.consumed + [Called(callback, l.subject, l.message)]
                <==> Bound(b, l.subject, callback))
            && (b'.consumed == b.consumed + [Skipped(l.subject, l.message)] <==> l.subject !in b.subscriptions)
            && Logged(b'.consumed) == b'.delivered
  {
    var l := b.listener;
    EachInOnePlaceStep(b, Dispatch);
    ConsumeMeaning(b, l.subject, l.message, callback);
    LastOf(b.consumed, Consume(b, l.subject, l.message), Called(callback, l.subject, l.message),
           Skipped(l.subject, l.message));
    assert Logged(Next(b, Dispatch).consumed) + [] == Next(b, Dispatch).delivered;
  }

  // ------------------------------------------------ listener-bearing requests

  /** From the `k`-th on, no message with this subject is skipped or handed to
      another listener. */
  predicate AllReach(b: Bus, k: nat, queue: string, callback: Listener) {
    forall i | k <= i < |b.consumed| ::
      match b.consumed[i]
      case AsResponse(_) => true
      case Called(callee, subject, _) => subject == queue ==> callee == callback
      case Skipped(subject, _) => subject != queue
  }

  predicate NeverRemoved(run: seq<Action>, name: string) {
    forall i | 0 <= i < |run| :: !Removes(run[i], name)
  }

  lemma {:induction false} StaysBound(b: Bus, run: seq<Action>, queue: string, callback: Listener, k: nat)
    requires Bound(b, queue, callback) && AllReach(b, k, queue, callback) && ValidRun(b, run)
    requires NeverRemoved(run, queue)
    ensures Bound(Execute(b, run), queue, callback) && AllReach(Execute(b, run), k, queue, callback)
    decreases |run|
  {
    if run != [] {
      assert !Removes(run[0], queue);
      TableStep(b, run[0], queue, callback);
      StaysBound(Next(b, run[0]), run[1..], queue, callback, k);
    }
  }

  lemma TicketStep(b: Bus, a: Action, t: nat)
    requires Enabled(b, a) && TicketsGiven(b) && t < b.tickets
    ensures var b' := Next(b, a);
            && TicketsGiven(b') && t < b'.tickets
            && (t in b'.unsent <==> t in b.unsent && a != SendBound(t))
            && (t in b'.unsent ==> b'.unsent[t] == b.unsent[t])
  {
  }

  /** A request bound but unsent stays as it is until it is sent, and is sent once. */
  lemma {:induction false} SentOnce(b: Bus, run: seq<Action>, t: nat)
    requires ValidRun(b, run) && TicketsGiven(b) && t < b.tickets
    ensures var b' := Execute(b, run);
            && TicketsGiven(b') && t < b'.tickets
            && (t in b'.unsent <==> t in b.unsent && SendBound(t) !in run)
            && (t in b'.unsent ==> b'.unsent[t] == b.unsent[t])
    decreases |run|
  {
    if run != [] {
      TicketStep(b, run[0], t);
      SentOnce(Next(b, run[0]), run[1..], t);
    }
  }

  lemma BindStep(b: Bus, queue: string, m: Message, callback: Listener)
    requires TicketsGiven(b)
    ensures var bind := BindReply(queue, m, callback);
            var b0, t := Next(b, bind), b.tickets;
            && Output(b, bind) == []
            && (!CanBind(b, m) ==> b0 == b)
            && (CanBind(b, m) ==>
                  && Bound(b0, m.metaData[REPLY_TO], callback) && b0.consumed == b.consumed
                  && TicketsGiven(b0) && t < b0.tickets
                  && t in b0.unsent && b0.unsent[t] == BoundRequest(queue, m, callback))
  {
  }

  lemma SendStep(b: Bus, t: nat)
    ensures Enabled(b, SendBound(t)) <==> t in b.unsent
    ensures t in b.unsent ==> Output(b, SendBound(t)) == [AsyncEnvelope(b.unsent[t].queue, b.unsent[t].message)]
  {
  }

  /** A request with a listener is bound first and sent later, other threads acting
      in between. Binding sends nothing; if the reply queue cannot be bound, nothing
      changes and nothing will be sent. Otherwise the envelope enters the network
      with one later step, and in every run from the binding on, before and after
      that step, the queue is bound to exactly the given listener and every mailbox
      message on it that is not taken as a synchronous response reaches it, as long
      as the queue is not unsubscribed. */
  lemma ReplyReachesListener(b: Bus, queue: string, m: Message, callback: Listener, run: seq<Action>)
    requires TicketsGiven(b)
    requires var a := BindReply(queue, m, callback);
             ValidRun(Next(b, a), run) && (CanBind(b, m) ==> NeverRemoved(run, m.metaData[REPLY_TO]))
    ensures var bind := BindReply(queue, m, callback);
            var b', t := Execute(Next(b, bind), run), b.tickets;
            && Output(b, bind) == []
            && (!CanBind(b, m) ==> Next(b, bind) == b)
            && (CanBind(b, m) ==>
                  && Bound(b', m.metaData[REPLY_TO], callback)
                  && AllReach(b', |b.consumed|, m.metaData[REPLY_TO], callback)
                  && (Enabled(b', SendBound(t)) <==> SendBound(t) !in run)
                  && (Enabled(b', SendBound(t)) ==> Output(b', SendBound(t)) == [AsyncEnvelope(queue, m)]))
  {
    BindStep(b, queue, m, callback);
    if CanBind(b, m) {
      var b0 := Next(b, BindReply(queue, m, callback));
      var name := m.metaData[REPLY_TO];
      StaysBound(b0, run, name, callback, |b.consumed|);
      SentOnce(b0, run, b.tickets);
      SendStep(Execute(b0, run), b.tickets);
    }
  }
}

/** The synchronous handshake, against a broker that delivers anything at any
    time: exactly when a request gets its own reply, and exactly when it can
    miss it. */
module BusProtocol {
  import opened Counting
  import opened MessageCodec
  import opened BusModel

  predicate Pending(r: RequestPc) { r != Ready }

  /** Locks, ids and the id test, in every reachable state. */
  predicate BusInv(b: Bus) {
    && (b.mutex == Requester <==> b.request.Locked? || b.request.Sent?)
    && (b.mutex == ListenerThread <==> b.listener.Stored?)
    && (b.listener.Matched? || b.listener.Stored? ==> b.syncUuid != "")
    && (Pending(b.request) ==> b.request.id != "")
  }

  lemma BusInvStep(b: Bus, a: Action)
    requires BusInv(b) && Enabled(b, a)
    ensures BusInv(Next(b, a))
  {
  }

  lemma {:induction false} BusInvRun(b: Bus, run: seq<Action>)
    requires BusInv(b) && ValidRun(b, run)
    ensures BusInv(Execute(b, run))
    decreases |run|
  {
    if run != [] {
      BusInvStep(b, run[0]);
      BusInvRun(Next(b, run[0]), run[1..]);
    }
  }

  // ------------------------------------------------------------ accounting

  function Responses(log: seq<Consumed>): nat {
    if log == [] then 0 else Responses(log[..|log| - 1]) + One(log[|log| - 1].AsResponse?)
  }

  /** The messages dealt with, in order. */
  function Logged(log: seq<Consumed>): seq<Message> {
    if log == [] then [] else Logged(log[..|log| - 1]) + [log[|log| - 1].message]
  }

  function InHand(l: ListenerPc): seq<Message> {
    if l == Polling then [] else [l.message]
  }

  /** Responses, the one being committed and a published id, against requests. */
  predicate ResponsesBounded(b: Bus) {
    Responses(b.consumed) + One(b.listener.Stored?) + One(b.syncUuid != "" && !b.listener.Stored?) <= b.begun
  }

  predicate EachInOnePlace(b: Bus) {
    Logged(b.consumed) + InHand(b.listener) == b.delivered
  }

  lemma LogGrows(log: seq<Consumed>, c: Consumed)
    ensures Responses(log + [c]) == Responses(log) + One(c.AsResponse?)
    ensures Logged(log + [c]) == Logged(log) + [c.message]
  {
    assert (log + [c])[..|log|] == log;
  }

  /** What a step does to the listener's side of the history. */
  lemma LogStep(b: Bus, a: Action)
    requires Enabled(b, a)
    ensures var b' := Next(b, a);
            match a
            case Deliver(_, frames) =>
              b.listener == Polling && b'.consumed == b.consumed && InHand(b'.listener) == [Decode(frames)]
              && b'.delivered == b.delivered + [Decode(frames)]
            case Clear =>
              b'.listener == Polling && b'.consumed == b.consumed + [AsResponse(b.listener.message)]
              && b'.delivered == b.delivered && b.listener.Stored?
            case Dispatch =>
              b'.listener == Polling && b'.delivered == b.delivered && b.listener.Unmatched?
              && b'.consumed == b.consumed + [Consume(b, b.listener.subject, b.listener.message)]
            case _ =>
              b'.consumed == b.consumed && b'.delivered == b.delivered && InHand(b'.listener) == InHand(b.listener)
  {
  }

  lemma EachInOnePlaceStep(b: Bus, a: Action)
    requires EachInOnePlace(b) && Enabled(b, a)
    ensures EachInOnePlace(Next(b, a))
  {
    LogStep(b, a);
    match a
    case Clear => LogGrows(b.consumed, AsResponse(b.listener.message));
    case Dispatch => LogGrows(b.consumed, Consume(b, b.listener.subject, b.listener.message));
    case Deliver(_, frames) => assert Logged(b.consumed) == b.delivered;
    case _ =>
  }

  lemma ResponsesBoundedStep(b: Bus, a: Action)
    requires BusInv(b) && ResponsesBounded(b) && Enabled(b, a)
    ensures ResponsesBounded(Next(b, a))
  {
    LogStep(b, a);
    match a
    case Clear => LogGrows(b.consumed, AsResponse(b.listener.message));
    case Dispatch => LogGrows(b.consumed, Consume(b, b.listener.subject, b.listener.message));
    case _ =>
  }

  /** What every method of the bus relies on and keeps. */
  predicate Consistent(b: Bus) {
    BusInv(b) && ResponsesBounded(b) && EachInOnePlace(b) && TicketsGiven(b)
  }

  lemma InitConsistent(clientName: string)
    ensures Consistent(Init(clientName)) && Init(clientName).delivered == []
  {
  }

  lemma ConsistentStep(b: Bus, a: Action)
    requires Consistent(b) && Enabled(b, a)
    ensures Consistent(Next(b, a))
  {
    BusInvStep(b, a);
    ResponsesBoundedStep(b, a);
    EachInOnePlaceStep(b, a);
  }

  lemma {:induction false} ConsistentRun(b: Bus, run: seq<Action>)
    requires Consistent(b) && ValidRun(b, run)
    ensures Consistent(Execute(b, run))
    decreases |run|
  {
    if run != [] {
      ConsistentStep(b, run[0]);
      ConsistentRun(Next(b, run[0]), run[1..]);
    }
  }

  /** The message an action takes from the broker's mailbox, if any. */
  function TakenBy(a: Action): seq<Message> {
    if a.Deliver? && Decodable(a.frames) then [Decode(a.frames)] else []
  }

  /** The messages a run takes, in order. */
  function Taken(run: seq<Action>): seq<Message> {
    if run == [] then [] else TakenBy(run[0]) + Taken(run[1..])
  }

  lemma TakenStep(b: Bus, a: Action)
    requires Enabled(b, a)
    ensures Next(b, a).delivered == b.delivered + TakenBy(a)
  {
    LogStep(b, a);
  }

  lemma {:induction false} DeliveredIsTaken(b: Bus, run: seq<Action>)
    requires ValidRun(b, run)
    ensures Execute(b, run).delivered == b.delivered + Taken(run)
    decreases |run|
  {
    if run != [] {
      TakenStep(b, run[0]);
      DeliveredIsTaken(Next(b, run[0]), run[1..]);
    }
  }

  /** Every request that passed the id check consumes at most one response, the
      pending id included; and the messages taken from the broker are exactly those
      committed as a response, given to a listener or skipped, once each and in
      order, followed by the one in hand if there is one. */
  lemma ReplyAccounting(clientName: string, run: seq<Action>)
    requires ValidRun(Init(clientName), run)
    ensures var b := Execute(Init(clientName), run);
            && Responses(b.consumed) <= b.begun
            && (!b.listener.Stored? ==> Responses(b.consumed) + One(b.syncUuid != "") <= b.begun)
            && Logged(b.consumed) + InHand(b.listener) == Taken(run)
  {
    var b0 := Init(clientName);
    InitConsistent(clientName);
    ConsistentRun(b0, run);
    DeliveredIsTaken(b0, run);
    assert [] + Taken(run) == Taken(run);
  }

  /** The message an action takes from a stream, if any, and those of a run. */
  function StreamedBy(a: Action): seq<Message> {
    if a.Stream? && Decodable(a.frames) then [Decode(a.frames)] else []
  }

  function Streamed(run: seq<Action>): seq<Message> {
    if run == [] then [] else StreamedBy(run[0]) + Streamed(run[1..])
  }

  /** The calls of `request()`, and those that carry an id. */
  function Calls(run: seq<Action>): nat {
    if run == [] then 0 else One(run[0].Begin?) + Calls(run[1..])
  }

  function CallsWithId(run: seq<Action>): nat {
    if run == [] then 0
    else One(run[0].Begin? && HasField(run[0].message, CORRELATION_ID)) + CallsWithId(run[1..])
  }

  lemma CallsStep(b: Bus, a: Action)
    requires Enabled(b, a)
    ensures var b' := Next(b, a);
            && |b'.outcomes| + One(Pending(b'.request)) == |b.outcomes| + One(Pending(b.request)) + One(a.Begin?)
            && b'.begun == b.begun + One(a.Begin? && HasField(a.message, CORRELATION_ID))
  {
  }

  lemma {:induction false} CallsRun(b: Bus, run: seq<Action>)
    requires ValidRun(b, run)
    ensures var b' := Execute(b, run);
            && |b'.outcomes| + One(Pending(b'.request)) == |b.outcomes| + One(Pending(b.request)) + Calls(run)
            && b'.begun == b.begun + CallsWithId(run)
    decreases |run|
  {
    if run != [] {
      CallsStep(b, run[0]);
      CallsRun(Next(b, run[0]), run[1..]);
    }
  }

  lemma StreamedStep(b: Bus, a: Action)
    requires Enabled(b, a)
    ensures Logged(Next(b, a).streamed) == Logged(b.streamed) + StreamedBy(a)
  {
    if a.Stream? {
      LogGrows(b.streamed, Consume(b, a.subject, Decode(a.frames)));
    } else {
      assert Next(b, a).streamed == b.streamed;
    }
  }

  lemma {:induction false} StreamedRun(b: Bus, run: seq<Action>)
    requires ValidRun(b, run)
    ensures Logged(Execute(b, run).streamed) == Logged(b.streamed) + Streamed(run)
    decreases |run|
  {
    if run != [] {
      StreamedStep(b, run[0]);
      StreamedRun(Next(b, run[0]), run[1..]);
    }
  }

  /** Every call of `request()` ends at most once, and all but the pending one have
      ended; every message taken from a stream is given to one listener or skipped,
      once each and in order. */
  lemma CallsAccounted(clientName: string, run: seq<Action>)
    requires ValidRun(Init(clientName), run)
    ensures var b := Execute(Init(clientName), run);
            && |b.outcomes| + One(Pending(b.request)) == Calls(run)
            && b.begun == CallsWithId(run)
            && Logged(b.streamed) == Streamed(run)
  {
    CallsRun(Init(clientName), run);
    StreamedRun(Init(clientName), run);
    assert [] + Streamed(run) == Streamed(run);
  }

  // ----------------------------------------------------- correlation safety

  predicate OwnReply(o: Outcome) { o.Returned? ==> HasId(o.reply, o.id) }

  /** From the `k`-th on, every reply returned carries its own request's id. */
  predicate OwnReplies(b: Bus, k: nat) {
    forall i | k <= i < |b.outcomes| :: OwnReply(b.outcomes[i])
  }

  /** The listener has tested another id but not stored the response yet. */
  predicate HoldsForeign(b: Bus, id: string) {
    b.listener.Matched? && !HasId(b.listener.message, id)
  }

  predicate Tracked(b: Bus) {
    && (Pending(b.request) ==> b.syncUuid == "" || b.syncUuid == b.request.id)
    && (Pending(b.request) && b.listener.Matched? ==> HasId(b.listener.message, b.request.id))
    && (b.request.Woken? ==> HasId(b.syncResponse, b.request.id))
  }

  /** A step other than a spurious wakeup or the start of a request while the
      listener holds another request's reply. */
  predicate Safe(b: Bus, a: Action) {
    && !a.Spurious?
    && (a.Begin? && HasField(a.message, CORRELATION_ID) ==> !HoldsForeign(b, a.message.metaData[CORRELATION_ID]))
  }

  predicate SafeRun(b: Bus, run: seq<Action>)
    requires ValidRun(b, run)
    decreases |run|
  {
    run == [] || (Safe(b, run[0]) && SafeRun(Next(b, run[0]), run[1..]))
  }

  lemma TrackedStep(b: Bus, a: Action, k: nat)
    requires Tracked(b) && OwnReplies(b, k) && Enabled(b, a) && Safe(b, a)
    ensures Tracked(Next(b, a)) && OwnReplies(Next(b, a), k)
  {
  }

  lemma {:induction false} TrackedRun(b: Bus, run: seq<Action>, k: nat)
    requires Tracked(b) && OwnReplies(b, k) && ValidRun(b, run) && SafeRun(b, run)
    ensures Tracked(Execute(b, run)) && OwnReplies(Execute(b, run), k)
    decreases |run|
  {
    if run != [] {
      TrackedStep(b, run[0], k);
      TrackedRun(Next(b, run[0]), run[1..], k);
    }
  }

  /** Correlation over whole runs, with timeouts, failed checks, late, duplicate
      and forged messages: if no request starts while the listener holds another
      request's reply, every reply returned is the caller's own. */
  lemma CorrelationSafe(clientName: string, run: seq<Action>)
    requires ValidRun(Init(clientName), run) && SafeRun(Init(clientName), run)
    ensures OwnReplies(Execute(Init(clientName), run), 0)
  {
    TrackedRun(Init(clientName), run, 0);
  }

  /** One request, from its first step on; no further request, no spurious wakeup. */
  predicate OneRequest(run: seq<Action>) {
    forall i | 0 <= i < |run| :: !run[i].Begin? && !run[i].Spurious?
  }

  lemma {:induction false} OneRequestSafe(b: Bus, run: seq<Action>)
    requires ValidRun(b, run) && OneRequest(run)
    ensures SafeRun(b, run)
    decreases |run|
  {
    if run != [] { OneRequestSafe(Next(b, run[0]), run[1..]); }
  }

  lemma Prepend(b: Bus, a: Action, run: seq<Action>)
    requires Enabled(b, a) && ValidRun(Next(b, a), run)
    ensures ValidRun(b, [a] + run) && Execute(b, [a] + run) == Execute(Next(b, a), run)
  {
  }

  /** Undisturbed, a prepared request ends up in the wait set. */
  lemma RequestWaits(b: Bus)
    requires b.request.Prepared? && b.mutex == Nobody
    ensures ValidRun(b, [Lock, Send, Park])
    ensures Execute(b, [Lock, Send, Park]) == b.(request := Waiting(b.request.id))
  {
  }

  /** A response committed while a request waits is what that request returns. */
  lemma CommitReturns(b: Bus)
    requires b.request.Waiting? && b.listener.Matched? && b.mutex == Nobody
    ensures ValidRun(b, [Store, Clear, Resume])
    ensures Execute(b, [Store, Clear, Resume]).outcomes ==
            b.outcomes + [Returned(b.request.id, b.listener.message)]
  {
  }

  /** The late reply overtakes: stored between the new id and the new wait's end. */
  lemma ForeignCommitted(b: Bus, queue: string, m: Message, timeout: int) returns (run: seq<Action>)
    requires BusInv(b) && b.request == Ready
    requires HasField(m, CORRELATION_ID) && HasField(m, TO)
    requires HoldsForeign(b, m.metaData[CORRELATION_ID])
    ensures OneRequest(run) && ValidRun(Next(b, Begin(queue, m, timeout)), run)
    ensures Execute(Next(b, Begin(queue, m, timeout)), run).outcomes ==
            b.outcomes + [Returned(m.metaData[CORRELATION_ID], b.listener.message)]
  {
    var b0 := Next(b, Begin(queue, m, timeout));
    RequestWaits(b0);
    var b1 := Execute(b0, [Lock, Send, Park]);
    CommitReturns(b1);
    run := [Lock, Send, Park] + [Store, Clear, Resume];
    ExecuteAppend(b0, [Lock, Send, Park], [Store, Clear, Resume]);
  }

  /** The exact condition, readable before the call: a request gets its own reply
      in every continuation if and only if, when it starts, the listener is not
      between testing and storing a reply to another id. */
  lemma CorrelationExact(b: Bus, queue: string, m: Message, timeout: int)
    requires BusInv(b) && b.request == Ready
    requires HasField(m, CORRELATION_ID) && HasField(m, TO)
    ensures var b0 := Next(b, Begin(queue, m, timeout));
            (forall run | ValidRun(b0, run) && OneRequest(run) :: OwnReplies(Execute(b0, run), |b.outcomes|))
            <==> !HoldsForeign(b, m.metaData[CORRELATION_ID])
  {
    var b0 := Next(b, Begin(queue, m, timeout));
    if HoldsForeign(b, m.metaData[CORRELATION_ID]) {
      var run := ForeignCommitted(b, queue, m, timeout);
      assert !OwnReply(Execute(b0, run).outcomes[|b.outcomes|]);
    } else {
      forall run | ValidRun(b0, run) && OneRequest(run)
        ensures OwnReplies(Execute(b0, run), |b.outcomes|)
      {
        OneRequestSafe(b0, run);
        TrackedRun(b0, run, |b.outcomes|);
      }
    }
  }

  /** A bus whose first request has just timed out while its reply `reply` was
      tested, but not yet committed. */
  function LateReply(clientName: string, id: string, reply: Message): Bus {
    Init(clientName).(syncUuid := id, listener := Matched(reply), outcomes := [TimeOut(id)], begun := 1,
                      delivered := [reply])
  }

  /** A request that expires while it waits. */
  lemma ExpiresWaiting(b: Bus, rest: seq<Action>) returns (run: seq<Action>)
    requires b.request.Prepared? && b.mutex == Nobody
    requires ValidRun(b.(request := TimedOut(b.request.id)), rest)
    ensures ValidRun(b, run) && Execute(b, run) == Execute(b.(request := TimedOut(b.request.id)), rest)
  {
    RequestWaits(b);
    Prepend(b.(request := Waiting(b.request.id)), Timer, rest);
    ExecuteAppend(b, [Lock, Send, Park], [Timer] + rest);
    run := [Lock, Send, Park] + ([Timer] + rest);
  }

  /** Its reply arrives late, is tested, and then the request throws. */
  lemma TestedLate(b: Bus, subject: string, frames: seq<string>)
    requires b.request.TimedOut? && b.mutex == Nobody && b.listener == Polling && b.syncUuid != ""
    requires Decodable(frames) && HasId(Decode(frames), b.syncUuid)
    ensures var m, run := Decode(frames), [Deliver(subject, frames), Test, Resume];
            && ValidRun(b, run)
            && Execute(b, run) == b.(listener := Matched(m), delivered := b.delivered + [m], request := Ready,
                                     outcomes := b.outcomes + [TimeOut(b.request.id)])
  {
    var deliver := Deliver(subject, frames);
    var b1 := Next(b, deliver);
    var b2 := Next(b1, Test);
    Prepend(b2, Resume, []);
    Prepend(b1, Test, [Resume]);
    Prepend(b, deliver, [Test, Resume]);
    assert [deliver] + [Test, Resume] == [deliver, Test, Resume];
  }

  /** It is reached from a fresh bus. */
  lemma LateReplyReached(clientName: string, queue: string, m: Message, timeout: int,
                         subject: string, frames: seq<string>) returns (run: seq<Action>)
    requires HasField(m, CORRELATION_ID) && HasField(m, TO)
    requires Decodable(frames) && HasId(Decode(frames), m.metaData[CORRELATION_ID])
    ensures ValidRun(Init(clientName), run)
    ensures Execute(Init(clientName), run) == LateReply(clientName, m.metaData[CORRELATION_ID], Decode(frames))
  {
    var b, begin, id := Init(clientName), Begin(queue, m, timeout), m.metaData[CORRELATION_ID];
    var b0 := Next(b, begin);
    TestedLate(b0.(request := TimedOut(id)), subject, frames);
    run := ExpiresWaiting(b0, [Deliver(subject, frames), Test, Resume]);
    Prepend(b, begin, run);
    run := [begin] + run;
  }

  /** It happens: on a fresh bus, for any two requests with different ids and any
      reply to the first, a run in which the first request times out and the second
      returns the first one's reply. */
  lemma ForeignReplyReturned(clientName: string, queue: string, m0: Message, m1: Message, timeout: int,
                             subject: string, frames: seq<string>) returns (run: seq<Action>)
    requires HasField(m0, CORRELATION_ID) && HasField(m0, TO) && HasField(m1, CORRELATION_ID) && HasField(m1, TO)
    requires m0.metaData[CORRELATION_ID] != m1.metaData[CORRELATION_ID]
    requires Decodable(frames) && HasId(Decode(frames), m0.metaData[CORRELATION_ID])
    ensures ValidRun(Init(clientName), run)
    ensures Execute(Init(clientName), run).outcomes ==
            [TimeOut(m0.metaData[CORRELATION_ID]), Returned(m1.metaData[CORRELATION_ID], Decode(frames))]
  {
    var late := LateReplyReached(clientName, queue, m0, timeout, subject, frames);
    var b := LateReply(clientName, m0.metaData[CORRELATION_ID], Decode(frames));
    var rest := ForeignCommitted(b, queue, m1, timeout);
    Prepend(b, Begin(queue, m1, timeout), rest);
    run := [Begin(queue, m1, timeout)] + rest;
    ExecuteAppend(Init(clientName), late, run);
    run := late + run;
  }

  // ------------------------------------------------------ spurious wakeups

  /** The wait has no predicate: a spurious wakeup returns whatever is stored. */
  lemma SpuriousReturnsStored(b: Bus) returns (run: seq<Action>)
    requires b.request.Prepared? && b.mutex == Nobody
    ensures ValidRun(b, run) && NoBegin(run)
    ensures Execute(b, run).outcomes == b.outcomes + [Returned(b.request.id, b.syncResponse)]
  {
    RequestWaits(b);
    var b1 := Execute(b, [Lock, Send, Park]);
    Prepend(Next(b1, Spurious), Resume, []);
    Prepend(b1, Spurious, [Resume]);
    ExecuteAppend(b, [Lock, Send, Park], [Spurious, Resume]);
    run := [Lock, Send, Park] + [Spurious, Resume];
  }

  /** A fresh bus, which never got a response, returns the empty message. */
  lemma SpuriousWakeupReturnsStale(clientName: string, queue: string, m: Message, timeout: int)
      returns (run: seq<Action>)
    requires HasField(m, CORRELATION_ID) && HasField(m, TO)
    ensures ValidRun(Init(clientName), run)
    ensures Execute(Init(clientName), run).outcomes == [Returned(m.metaData[CORRELATION_ID], EMPTY_MESSAGE)]
  {
    var b, begin := Init(clientName), Begin(queue, m, timeout);
    run := SpuriousReturnsStored(Next(b, begin));
    Prepend(b, begin, run);
    run := [begin] + run;
  }

  /** One request, from its first step on, spurious wakeups included. */
  predicate NoBegin(run: seq<Action>) {
    forall i | 0 <= i < |run| :: !run[i].Begin?
  }

  /** Whatever is or may come to be stored carries this id. */
  predicate Primed(b: Bus, id: string) {
    && HasId(b.syncResponse, id) && (b.listener.Matched? ==> HasId(b.listener.message, id))
    && (b.syncUuid == "" || b.syncUuid == id) && (Pending(b.request) ==> b.request.id == id)
  }

  lemma PrimedStep(b: Bus, a: Action, id: string, k: nat)
    requires Primed(b, id) && OwnReplies(b, k) && Enabled(b, a) && !a.Begin?
    ensures Primed(Next(b, a), id) && OwnReplies(Next(b, a), k)
  {
  }

  lemma {:induction false} PrimedRun(b: Bus, run: seq<Action>, id: string, k: nat)
    requires Primed(b, id) && OwnReplies(b, k) && ValidRun(b, run) && NoBegin(run)
    ensures OwnReplies(Execute(b, run), k)
    decreases |run|
  {
    if run != [] {
      assert !run[0].Begin?;
      PrimedStep(b, run[0], id, k);
      PrimedRun(Next(b, run[0]), run[1..], id, k);
    }
  }

  /** A request that starts over a stored response without its id can return it. */
  lemma StaleReturned(b: Bus, queue: string, m: Message, timeout: int) returns (run: seq<Action>)
    requires BusInv(b) && b.request == Ready && HasField(m, CORRELATION_ID) && HasField(m, TO)
    requires !HasId(b.syncResponse, m.metaData[CORRELATION_ID])
    ensures var b0 := Next(b, Begin(queue, m, timeout));
            ValidRun(b0, run) && NoBegin(run) && !OwnReplies(Execute(b0, run), |b.outcomes|)
  {
    var b0 := Next(b, Begin(queue, m, timeout));
    if b.listener.Stored? {
      run := SpuriousReturnsStored(Next(b0, Clear));
      Prepend(b0, Clear, run);
      run := [Clear] + run;
    } else {
      run := SpuriousReturnsStored(b0);
    }
    assert !OwnReply(Execute(b0, run).outcomes[|b.outcomes|]);
  }

  /** The exact condition when the wait may wake spuriously: a request gets its own
      reply in every continuation if and only if, when it starts, the response stored
      from before carries its id and the listener holds no foreign reply. */
  lemma SpuriousExact(b: Bus, queue: string, m: Message, timeout: int)
    requires BusInv(b) && b.request == Ready
    requires HasField(m, CORRELATION_ID) && HasField(m, TO)
    ensures var b0, id := Next(b, Begin(queue, m, timeout)), m.metaData[CORRELATION_ID];
            (forall run | ValidRun(b0, run) && NoBegin(run) :: OwnReplies(Execute(b0, run), |b.outcomes|))
            <==> !HoldsForeign(b, id) && HasId(b.syncResponse, id)
  {
    var b0, id := Next(b, Begin(queue, m, timeout)), m.metaData[CORRELATION_ID];
    if HoldsForeign(b, id) {
      var run := ForeignCommitted(b, queue, m, timeout);
      assert !OwnReply(Execute(b0, run).outcomes[|b.outcomes|]);
      assert ValidRun(b0, run) && NoBegin(run);
    } else if !HasId(b.syncResponse, id) {
      var run := StaleReturned(b, queue, m, timeout);
    } else {
      forall run | ValidRun(b0, run) && NoBegin(run) ensures OwnReplies(Execute(b0, run), |b.outcomes|) {
        PrimedRun(b0, run, id, |b.outcomes|);
      }
    }
  }

  /** The stored response is the initial one or a message taken from the broker. */
  predicate StoredWasTaken(b: Bus) {
    b.syncResponse == EMPTY_MESSAGE || b.syncResponse in b.delivered
  }

  lemma StoredWasTakenStep(b: Bus, a: Action)
    requires EachInOnePlace(b) && StoredWasTaken(b) && Enabled(b, a)
    ensures StoredWasTaken(Next(b, a))
  {
    if a.Store? { assert b.listener.message == b.delivered[|Logged(b.consumed)|]; }
    assert b.delivered <= Next(b, a).delivered;
  }

  lemma {:induction false} StoredWasTakenRun(b: Bus, run: seq<Action>)
    requires Consistent(b) && StoredWasTaken(b) && ValidRun(b, run)
    ensures StoredWasTaken(Execute(b, run))
    decreases |run|
  {
    if run != [] {
      ConsistentStep(b, run[0]);
      StoredWasTakenStep(b, run[0]);
      StoredWasTakenRun(Next(b, run[0]), run[1..]);
    }
  }

  /** So with a fresh id no request of any run is safe from a spurious wakeup. */
  lemma FreshIdNeverSafe(clientName: string, run: seq<Action>, queue: string, m: Message, timeout: int)
      returns (rest: seq<Action>)
    requires ValidRun(Init(clientName), run) && Execute(Init(clientName), run).request == Ready
    requires HasField(m, CORRELATION_ID) && HasField(m, TO)
    requires forall taken | taken in Taken(run) :: !HasId(taken, m.metaData[CORRELATION_ID])
    ensures var b := Execute(Init(clientName), run);
            var b0 := Next(b, Begin(queue, m, timeout));
            ValidRun(b0, rest) && NoBegin(rest) && !OwnReplies(Execute(b0, rest), |b.outcomes|)
  {
    var b := Execute(Init(clientName), run);
    InitConsistent(clientName);
    ConsistentRun(Init(clientName), run);
    StoredWasTakenRun(Init(clientName), run);
    DeliveredIsTaken(Init(clientName), run);
    assert [] + Taken(run) == Taken(run);
    rest := StaleReturned(b, queue, m, timeout);
  }

  // ------------------------------------------- runs without abandoned requests

  /** No request is left behind with its id still published: none times out and
      none fails the TO check after the id check. */
  predicate Patient(run: seq<Action>) {
    forall i | 0 <= i < |run| ::
      && !run[i].Timer? && !run[i].Spurious?
      && (run[i].Begin? && HasField(run[i].message, CORRELATION_ID) ==> HasField(run[i].message, TO))
  }

  predicate Undisturbed(b: Bus) {
    && BusInv(b)
    && (b.syncUuid != "" ==> Pending(b.request) && b.syncUuid == b.request.id)
    && (b.listener.Matched? ==> HasId(b.listener.message, b.syncUuid))
    && (b.request.Woken? ==> (b.listener.Stored? || b.syncUuid == "") && HasId(b.syncResponse, b.request.id))
    && !b.request.TimedOut?
  }

  /** Without timeouts the split listener is safe by itself: whenever a request
      starts, the listener holds no reply, no id is published, and every reply
      returned is the caller's own. */
  lemma {:induction false} PatientRunsSafe(b: Bus, run: seq<Action>, k: nat)
    requires Undisturbed(b) && OwnReplies(b, k) && ValidRun(b, run) && Patient(run)
    ensures SafeRun(b, run)
    ensures var b' := Execute(b, run);
            && OwnReplies(b', k)
            && (b'.request == Ready ==> b'.syncUuid == "" && !b'.listener.Matched? && !b'.listener.Stored?)
    decreases |run|
  {
    if run != [] {
      PatientStep(b, run[0], k);
      PatientRunsSafe(Next(b, run[0]), run[1..], k);
    }
  }

  lemma PatientStep(b: Bus, a: Action, k: nat)
    requires Undisturbed(b) && OwnReplies(b, k) && Enabled(b, a)
    requires !a.Timer? && !a.Spurious?
    requires a.Begin? && HasField(a.message, CORRELATION_ID) ==> HasField(a.message, TO)
    ensures Undisturbed(Next(b, a)) && OwnReplies(Next(b, a), k) && Safe(b, a)
  {
  }
}

/** No lost reply: exactly when a request can be answered, and exactly when the
    reply that reaches the listener is what it returns. */
module BusReplies {
  import opened Options
  import opened MessageCodec
  import opened BusModel
  import opened BusProtocol

  /** No message with this id is delivered. */
  predicate Avoids(run: seq<Action>, id: string) {
    forall i | 0 <= i < |run| && run[i].Deliver? ::
      Decodable(run[i].frames) ==> !HasId(Decode(run[i].frames), id)
  }

  /** The message the listener has in hand, if any, does not carry this id. */
  predicate ListenerAvoids(b: Bus, id: string) {
    b.listener != Polling ==> !HasId(b.listener.message, id)
  }

  predicate Listening(b: Bus, id: string) { b.request.Waiting? ==> b.syncUuid == id }

  lemma {:induction false} StaysListening(b: Bus, run: seq<Action>, id: string)
    requires ValidRun(b, run) && OneRequest(run) && Avoids(run, id)
    requires b.syncUuid == id && !b.listener.Matched? && !b.listener.Stored? && ListenerAvoids(b, id)
    ensures Execute(b, run).syncUuid == id
    decreases |run|
  {
    if run != [] {
      assert !run[0].Begin? && !run[0].Spurious?;
      assert run[0].Deliver? ==> !HasId(Decode(run[0].frames), id);
      StaysListening(Next(b, run[0]), run[1..], id);
    }
  }

  lemma ClearedWhileBegun(b: Bus) returns (run: seq<Action>)
    requires b.request.Prepared? && b.listener.Stored?
    ensures run == [Clear, Lock, Send, Park] && ValidRun(b, run)
    ensures var b' := Execute(b, run);
            b'.request == Waiting(b.request.id) && b'.syncUuid == "" && b'.listener == Polling
            && b'.outcomes == b.outcomes
  {
    RequestWaits(Next(b, Clear));
    Prepend(b, Clear, [Lock, Send, Park]);
    run := [Clear] + [Lock, Send, Park];
  }

  /** The id wiped while the previous response is being committed. */
  lemma CommitWipesId(b: Bus, queue: string, m: Message, timeout: int) returns (run: seq<Action>)
    requires BusInv(b) && b.request == Ready
    requires HasField(m, CORRELATION_ID) && HasField(m, TO)
    requires b.listener.Matched? || b.listener.Stored?
    ensures OneRequest(run) && Avoids(run, m.metaData[CORRELATION_ID])
    ensures ValidRun(Next(b, Begin(queue, m, timeout)), run)
    ensures var b' := Execute(Next(b, Begin(queue, m, timeout)), run);
            b'.request == Waiting(m.metaData[CORRELATION_ID]) && b'.syncUuid == "" && b'.listener == Polling
            && b'.outcomes == b.outcomes
  {
    var b0 := Next(b, Begin(queue, m, timeout));
    BusInvStep(b, Begin(queue, m, timeout));
    if b.listener.Matched? {
      run := ClearedWhileBegun(Next(b0, Store));
      Prepend(b0, Store, run);
      run := [Store] + run;
    } else {
      run := ClearedWhileBegun(b0);
    }
  }

  /** Begun with this id, not woken nor timed out yet. */
  predicate AwaitsCommit(r: RequestPc, id: string) {
    (r.Prepared? || r.Locked? || r.Sent? || r.Waiting?) && r.id == id
  }

  /** No commit can answer the request `id` any more; `k` outcomes existed before. */
  predicate Wiped(b: Bus, id: string, k: nat) {
    && !b.listener.Matched? && (b.syncUuid == "" || b.listener.Stored?)
    && (|| ((AwaitsCommit(b.request, id) || b.request == TimedOut(id)) && |b.outcomes| == k)
        || (b.request == Ready && |b.outcomes| == k + 1 && b.outcomes[k] == TimeOut(id)))
  }

  /** The request `id` has expired; `k` outcomes existed before. */
  predicate Expired(b: Bus, id: string, k: nat) {
    || (b.request == TimedOut(id) && |b.outcomes| == k)
    || (b.request == Ready && |b.outcomes| == k + 1 && b.outcomes[k] == TimeOut(id))
  }

  /** Whatever is delivered or committed afterwards, it ends with the exception. */
  lemma {:induction false} ExpiryIsFinal(b: Bus, run: seq<Action>, id: string, k: nat)
    requires Expired(b, id, k) && ValidRun(b, run) && OneRequest(run)
    ensures Expired(Execute(b, run), id, k)
    decreases |run|
  {
    if run != [] {
      assert !run[0].Begin? && !run[0].Spurious?;
      ExpiryIsFinal(Next(b, run[0]), run[1..], id, k);
    }
  }

  /** With no id published nothing is matched until the next request starts. */
  lemma {:induction false} NoIdNoMatch(b: Bus, run: seq<Action>)
    requires b.syncUuid == "" && !b.listener.Matched? && ValidRun(b, run) && OneRequest(run)
    ensures Execute(b, run).syncUuid == "" && !Execute(b, run).listener.Matched?
    decreases |run|
  {
    if run != [] {
      assert !run[0].Begin?;
      NoIdNoMatch(Next(b, run[0]), run[1..]);
    }
  }

  /** No message is taken as a response until the next request starts. */
  ghost predicate NothingMatches(b: Bus) {
    forall run | ValidRun(b, run) && OneRequest(run) :: !Execute(b, run).listener.Matched?
  }

  /** A request that waits with no id published is never answered: it can only time
      out, whatever is delivered. */
  lemma {:induction false} WipedNeverReturns(b: Bus, run: seq<Action>, id: string, k: nat)
    requires Wiped(b, id, k) && ValidRun(b, run) && OneRequest(run)
    ensures Wiped(Execute(b, run), id, k)
    decreases |run|
  {
    if run != [] {
      assert !run[0].Begin? && !run[0].Spurious?;
      WipedNeverReturns(Next(b, run[0]), run[1..], id, k);
    }
  }

  /** It happens: on a fresh bus, for any two requests and any reply to the first, a
      run after which the second request waits with no id published, for good. */
  lemma IdWiped(clientName: string, queue: string, m0: Message, m1: Message, timeout: int,
                subject: string, frames: seq<string>) returns (run: seq<Action>)
    requires HasField(m0, CORRELATION_ID) && HasField(m0, TO) && HasField(m1, CORRELATION_ID) && HasField(m1, TO)
    requires Decodable(frames) && HasId(Decode(frames), m0.metaData[CORRELATION_ID])
    ensures ValidRun(Init(clientName), run)
    ensures var b := Execute(Init(clientName), run);
            b.request == Waiting(m1.metaData[CORRELATION_ID]) && Wiped(b, m1.metaData[CORRELATION_ID], 1)
  {
    var late := LateReplyReached(clientName, queue, m0, timeout, subject, frames);
    var b := LateReply(clientName, m0.metaData[CORRELATION_ID], Decode(frames));
    var rest := CommitWipesId(b, queue, m1, timeout);
    Prepend(b, Begin(queue, m1, timeout), rest);
    run := [Begin(queue, m1, timeout)] + rest;
    ExecuteAppend(Init(clientName), late, run);
    run := late + run;
  }

  /** The exact condition for the id to stay published: from the start of a
      request with a fresh id until its own reply arrives, the waiting requester
      can be answered in every continuation if and only if the listener is not in
      the middle of committing an earlier response when the request starts. */
  lemma AnswerableExact(b: Bus, queue: string, m: Message, timeout: int)
    requires BusInv(b) && b.request == Ready
    requires HasField(m, CORRELATION_ID) && HasField(m, TO)
    requires ListenerAvoids(b, m.metaData[CORRELATION_ID])
    ensures var b0, id := Next(b, Begin(queue, m, timeout)), m.metaData[CORRELATION_ID];
            (forall run | ValidRun(b0, run) && OneRequest(run) && Avoids(run, id) :: Listening(Execute(b0, run), id))
            <==> !b.listener.Matched? && !b.listener.Stored?
  {
    var b0, id := Next(b, Begin(queue, m, timeout)), m.metaData[CORRELATION_ID];
    if b.listener.Matched? || b.listener.Stored? {
      var run := CommitWipesId(b, queue, m, timeout);
    } else {
      forall run | ValidRun(b0, run) && OneRequest(run) && Avoids(run, id)
        ensures Listening(Execute(b0, run), id)
      {
        StaysListening(b0, run, id);
      }
    }
  }

  /** Since the lock is held from before the send until the wait parks, a commit
      during a request that has neither expired nor been answered finds it in the
      wait set and wakes it, unless it comes before the lock is taken. */
  lemma CommitFindsWaiter(b: Bus)
    requires BusInv(b) && Enabled(b, Store)
    requires Pending(b.request) && !b.request.TimedOut? && !b.request.Woken?
    ensures b.request.Prepared? || b.request.Waiting?
    ensures b.request.Waiting? ==>
              var b' := Next(b, Store);
              b'.request == Woken(b.request.id) && b'.syncResponse == b.listener.message
  {
  }

  /** The request `id` can still be answered and has no reply yet; `k` outcomes
      existed before. */
  predicate AwaitingReply(b: Bus, id: string, k: nat) {
    && AwaitsCommit(b.request, id) && b.syncUuid == id && |b.outcomes| == k
    && !b.listener.Matched? && !b.listener.Stored? && ListenerAvoids(b, id)
  }

  /** How far the reply `m` to the request `id` has got. */
  predicate ReplyUnderWay(b: Bus, id: string, m: Message, k: nat) {
    || (|b.outcomes| == k && AwaitsCommit(b.request, id) && b.syncUuid == id
        && ((b.listener.Received? && b.listener.message == m) || b.listener == Matched(m)))
    || (|b.outcomes| == k && b.request == Woken(id) && b.syncResponse == m && b.listener == Stored(m))
    || (|b.outcomes| == k && b.request == Woken(id) && b.syncResponse == m
        && b.syncUuid == "" && !b.listener.Matched? && !b.listener.Stored?)
    || (|b.outcomes| == k + 1 && b.request == Ready && b.outcomes[k] == Returned(id, m))
  }

  /** A reply is committed before the requester has taken the lock. */
  predicate CommitsEarly(b: Bus, run: seq<Action>)
    requires ValidRun(b, run)
    decreases |run|
  {
    run != [] && ((run[0].Store? && b.request.Prepared?) || CommitsEarly(Next(b, run[0]), run[1..]))
  }

  predicate Unexpired(run: seq<Action>) {
    forall i | 0 <= i < |run| :: !run[i].Timer?
  }

  /** Once the lock has been taken, no commit of this request is early. */
  lemma {:induction false} NotEarlyOnceLocked(b: Bus, run: seq<Action>)
    requires ValidRun(b, run) && OneRequest(run) && !b.request.Prepared?
    ensures !CommitsEarly(b, run)
    decreases |run|
  {
    if run != [] {
      assert !run[0].Begin?;
      NotEarlyOnceLocked(Next(b, run[0]), run[1..]);
    }
  }

  lemma UnderWayStep(b: Bus, a: Action, id: string, m: Message, k: nat)
    requires BusInv(b) && HasId(m, id) && id != "" && ReplyUnderWay(b, id, m, k)
    requires Enabled(b, a) && !a.Begin? && !a.Spurious? && !a.Timer?
    ensures if a.Store? && b.request.Prepared? then Wiped(Next(b, a), id, k)
            else ReplyUnderWay(Next(b, a), id, m, k)
  {
  }

  /** No lost reply: in every continuation without expiry, a reply in the hands of
      the listener of a request that can be answered is matched, finds the requester
      in the wait set, wakes it, is not overwritten, and is what the request
      returns, if and only if it is not committed before the requester has taken the
      lock. It may arrive at any time from the start of the request on, also between
      the send and the wait. */
  lemma {:induction false} ReplyNotLost(b: Bus, run: seq<Action>, id: string, m: Message, k: nat)
    requires BusInv(b) && HasId(m, id) && id != "" && ReplyUnderWay(b, id, m, k)
    requires ValidRun(b, run) && OneRequest(run) && Unexpired(run)
    ensures ReplyUnderWay(Execute(b, run), id, m, k) <==> !CommitsEarly(b, run)
    ensures CommitsEarly(b, run) ==> Wiped(Execute(b, run), id, k)
    decreases |run|
  {
    if run != [] {
      var a := run[0];
      assert !a.Begin? && !a.Spurious? && !a.Timer?;
      UnderWayStep(b, a, id, m, k);
      BusInvStep(b, a);
      if a.Store? && b.request.Prepared? {
        WipedNeverReturns(Next(b, a), run[1..], id, k);
      } else {
        ReplyNotLost(Next(b, a), run[1..], id, m, k);
      }
    }
  }

  /** How many steps of the two threads a reply under way still needs. */
  function Distance(b: Bus): nat {
    var toWait := match b.request
      case Prepared(_, _, _, _) => 3
      case Locked(_, _, _, _) => 2
      case Sent(_) => 1
      case _ => 0;
    if b.request == Ready then 0
    else if b.request.Woken? then (if b.listener.Stored? then 2 else 1)
    else toWait + (if b.listener.Received? then 4 else 3)
  }

  lemma NeverFurther(b: Bus, a: Action, id: string, m: Message, k: nat)
    requires BusInv(b) && HasId(m, id) && id != "" && ReplyUnderWay(b, id, m, k) && Enabled(b, a)
    requires !a.Begin? && !a.Spurious? && !a.Timer? && !(a.Store? && b.request.Prepared?)
    ensures Distance(Next(b, a)) <= Distance(b)
  {
  }

  /** And it gets there: as long as the request has not returned, one of the two
      threads can take a step that brings the reply nearer, and no step other than
      an early commit takes it further away. */
  lemma ReplyComesNearer(b: Bus, id: string, m: Message, k: nat) returns (a: Action)
    requires BusInv(b) && HasId(m, id) && id != "" && ReplyUnderWay(b, id, m, k) && b.request != Ready
    ensures a in [Lock, Send, Park, Test, Store, Clear, Resume]
    ensures Enabled(b, a) && !(a.Store? && b.request.Prepared?) && Distance(Next(b, a)) < Distance(b)
    ensures forall c | Enabled(b, c) && !c.Begin? && !c.Spurious? && !c.Timer? && !(c.Store? && b.request.Prepared?) ::
              Distance(Next(b, c)) <= Distance(b)
  {
    a := match b.request
      case Prepared(_, _, _, _) => Lock
      case Locked(_, _, _, _) => Send
      case Sent(_) => Park
      case Waiting(_) => if b.listener.Received? then Test else Store
      case _ => if b.listener.Stored? then Clear else Resume;
    forall c | Enabled(b, c) && !c.Begin? && !c.Spurious? && !c.Timer? && !(c.Store? && b.request.Prepared?)
      ensures Distance(Next(b, c)) <= Distance(b)
    {
      NeverFurther(b, c, id, m, k);
    }
  }

  /** The first message delivered with this id. */
  function FirstOwn(run: seq<Action>, id: string): Option<Message> {
    if run == [] then None
    else if run[0].Deliver? && Decodable(run[0].frames) && HasId(Decode(run[0].frames), id)
    then Some(Decode(run[0].frames))
    else FirstOwn(run[1..], id)
  }

  lemma AwaitingStep(b: Bus, a: Action, id: string, k: nat)
    requires AwaitingReply(b, id, k) && id != "" && Enabled(b, a)
    requires !a.Begin? && !a.Spurious? && !a.Timer?
    ensures if a.Deliver? && HasId(Decode(a.frames), id) then ReplyUnderWay(Next(b, a), id, Decode(a.frames), k)
            else AwaitingReply(Next(b, a), id, k)
    ensures !a.Store?
  {
  }

  /** From the request's start: until a message with its id is delivered it can be
      answered, and from then on that first message is on its way to be returned,
      if and only if it is not committed before the requester has taken the lock. */
  lemma {:induction false} FirstReplyReturned(b: Bus, run: seq<Action>, id: string, k: nat)
    requires BusInv(b) && AwaitingReply(b, id, k) && id != ""
    requires ValidRun(b, run) && OneRequest(run) && Unexpired(run)
    ensures match FirstOwn(run, id)
            case None => AwaitingReply(Execute(b, run), id, k)
            case Some(m) => ReplyUnderWay(Execute(b, run), id, m, k) <==> !CommitsEarly(b, run)
    decreases |run|
  {
    if run != [] {
      var a, tail := run[0], run[1..];
      assert !a.Begin? && !a.Spurious? && !a.Timer?;
      AwaitingStep(b, a, id, k);
      BusInvStep(b, a);
      if a.Deliver? && HasId(Decode(a.frames), id) {
        ReplyNotLost(Next(b, a), tail, id, Decode(a.frames), k);
      } else {
        FirstReplyReturned(Next(b, a), tail, id, k);
      }
    }
  }

  /** The condition matters: a message with the id, delivered before the requester
      has taken the lock, can be committed early and leave the request waiting. */
  lemma EarlyReplyLost(clientName: string, queue: string, m: Message, timeout: int,
                       subject: string, frames: seq<string>) returns (run: seq<Action>)
    requires HasField(m, CORRELATION_ID) && HasField(m, TO)
    requires Decodable(frames) && HasId(Decode(frames), m.metaData[CORRELATION_ID])
    ensures ValidRun(Init(clientName), run)
    ensures var b := Execute(Init(clientName), run);
            b.request == Waiting(m.metaData[CORRELATION_ID]) && Wiped(b, m.metaData[CORRELATION_ID], 0)
  {
    var b := Init(clientName);
    var begin, deliver := Begin(queue, m, timeout), Deliver(subject, frames);
    var b0 := Next(b, begin);
    var b1 := Next(b0, deliver);
    var b2 := Next(b1, Test);
    var b3 := Next(b2, Store);
    var b4 := Next(b3, Clear);
    RequestWaits(b4);
    run := [Lock, Send, Park];
    Prepend(b3, Clear, run); run := [Clear] + run;
    Prepend(b2, Store, run); run := [Store] + run;
    Prepend(b1, Test, run); run := [Test] + run;
    Prepend(b0, deliver, run); run := [deliver] + run;
    Prepend(b, begin, run); run := [begin] + run;
  }

  /** Expiry is judged by the clock alone: a requester that has been woken by its own
      reply can still time out, and the reply is lost. */
  lemma NotifiedTimesOut(b: Bus, id: string, reply: Message)
    requires b.request == Waiting(id) && b.listener == Matched(reply) && b.mutex == Nobody
    ensures ValidRun(b, [Store, Clear, Timer, Resume])
    ensures Next(b, Store).request == Woken(id) && Next(b, Store).syncResponse == reply
    ensures var b' := Execute(b, [Store, Clear, Timer, Resume]);
            b'.outcomes == b.outcomes + [TimeOut(id)] && b'.consumed == b.consumed + [AsResponse(reply)]
  {
    var b1 := Next(b, Store);
    var b2 := Next(b1, Clear);
    var b3 := Next(b2, Timer);
    Prepend(b3, Resume, []);
    Prepend(b2, Timer, [Resume]);
    Prepend(b1, Clear, [Timer, Resume]);
    Prepend(b, Store, [Clear, Timer, Resume]);
    assert [Timer] + [Resume] == [Timer, Resume] && [Clear] + [Timer, Resume] == [Clear, Timer, Resume];
    assert [Store] + [Clear, Timer, Resume] == [Store, Clear, Timer, Resume];
  }
}

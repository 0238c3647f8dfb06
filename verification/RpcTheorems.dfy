/** End to end: what `request()` returns. */
module RpcTheorems {
  import opened Options
  import opened ByteStrings
  import opened MessageCodec
  import opened BusModel
  import opened BusProtocol
  import opened BusReplies
  import opened Responder
  import opened Rpc
  import opened Subscriptions

  lemma ExpectedMeaning(reply: Message, call: Call, clientName: string)
    requires Expected(reply, call, clientName) && !Loops(call, clientName)
    requires CORRELATION_ID in call.message.metaData
    ensures RepliesTo(call.message, reply)
  {
  }

  lemma FieldNamesDiffer()
    ensures FROM != TIMEOUT && FROM != REPLY_TO
  {
  }

  /** The outcome, if it is a reply, is the one its own call was to get. */
  predicate Answers(s: System, o: Outcome) {
    o.Returned? ==>
      && o.id in s.calls
      && HasId(s.calls[o.id].message, o.id)
      && Expected(o.reply, s.calls[o.id], s.requester.clientName)
      && (!Loops(s.calls[o.id], s.requester.clientName) ==> RepliesTo(s.calls[o.id].message, o.reply))
  }

  /** In every run, whatever `request()` returns for a call that does not come back
      to the requester itself is the responder's reply to exactly that call: the frames
      of the request and of the reply have survived both trips, the reply has
      been routed by address and id, and no other message has taken its place. */
  lemma EndToEnd(requesterName: string, responderName: string, run: seq<SysAction>)
    requires SysValid(SysInit(requesterName, responderName), run)
    ensures var s := SysExecute(SysInit(requesterName, responderName), run);
            forall o | o in s.requester.outcomes :: Answers(s, o)
  {
    var s0 := SysInit(requesterName, responderName);
    SysInvRun(s0, run);
    var s := SysExecute(s0, run);
    forall o | o in s.requester.outcomes && o.Returned? ensures Answers(s, o) {
      var i :| 0 <= i < |s.requester.outcomes| && s.requester.outcomes[i] == o;
      if !Loops(s.calls[o.id], requesterName) {
        ExpectedMeaning(o.reply, s.calls[o.id], requesterName);
      }
    }
  }

  /** The step starts a call of `request()` with this id. */
  predicate BeginsCall(a: SysAction, id: string) {
    && a.AtRequester? && a.step.Begin?
    && HasField(a.step.message, CORRELATION_ID) && a.step.message.metaData[CORRELATION_ID] == id
  }

  lemma CallStep(s: System, a: SysAction, id: string)
    requires SysEnabled(s, a) && s.calls.Keys <= s.seen
    ensures var s' := SysNext(s, a);
            && s'.calls.Keys <= s'.seen
            && (BeginsCall(a, id) ==> id !in s.calls && id in s'.calls
                                      && s'.calls[id] == Call(a.step.message, a.step.timeout))
            && (!BeginsCall(a, id) ==> (id in s'.calls <==> id in s.calls)
                                       && (id in s.calls ==> s'.calls[id] == s.calls[id]))
  {
  }

  /** The recorded calls are the ones made: each is a `request()` of the run that
      passed the id check, with its own message and timeout, and no id is used
      for two calls. */
  lemma {:induction false} CallsRecorded(s: System, run: seq<SysAction>, id: string)
    requires SysValid(s, run) && s.calls.Keys <= s.seen
    ensures var s' := SysExecute(s, run);
            && (id in s.calls ==> id in s'.calls && s'.calls[id] == s.calls[id])
            && (id in s'.calls ==> id in s.calls || exists j | 0 <= j < |run| :: BeginsCall(run[j], id))
            && (forall j | 0 <= j < |run| && BeginsCall(run[j], id) ::
                  id in s'.calls && s'.calls[id] == Call(run[j].step.message, run[j].step.timeout))
    decreases |run|
  {
    if run != [] {
      var s1, tail := SysNext(s, run[0]), run[1..];
      CallStep(s, run[0], id);
      CallsRecorded(s1, tail, id);
      assert forall j | 0 < j < |run| :: run[j] == tail[j - 1];
      if id in SysExecute(s, run).calls && id !in s.calls && !BeginsCall(run[0], id) {
        var j :| 0 <= j < |tail| && BeginsCall(tail[j], id);
        assert BeginsCall(run[j + 1], id);
      }
    }
  }

  // -------------------------------------------------------------- witnesses

  lemma SysPrepend(s: System, a: SysAction, run: seq<SysAction>)
    requires SysEnabled(s, a) && SysValid(SysNext(s, a), run)
    ensures SysValid(s, [a] + run) && SysExecute(s, [a] + run) == SysExecute(SysNext(s, a), run)
  {
  }

  /** A requester step that sends nothing and starts nothing. */
  lemma RequesterAlone(s: System, step: Action)
    requires Enabled(s.requester, step) && FromBroker(s, s.requester, step)
    requires !step.Begin? && !step.Spurious? && Output(s.requester, step) == []
    ensures SysEnabled(s, AtRequester(step))
    ensures SysNext(s, AtRequester(step)) == s.(requester := Next(s.requester, step))
  {
  }

  /** A reply tested for the waiting request can be returned by it. */
  lemma CommitAndReturn(s: System, m: Message, id: string) returns (run: seq<SysAction>)
    requires s.requester.request == Waiting(id) && s.requester.listener == Matched(m) && s.requester.mutex == Nobody
    ensures SysValid(s, run)
    ensures SysExecute(s, run).requester.outcomes == s.requester.outcomes + [Returned(id, m)]
  {
    var b1 := Next(s.requester, Store);
    var b2 := Next(b1, Clear);
    RequesterAlone(s, Store);
    RequesterAlone(s.(requester := b1), Clear);
    RequesterAlone(s.(requester := b2), Resume);
    SysPrepend(s.(requester := b2), AtRequester(Resume), []);
    SysPrepend(s.(requester := b1), AtRequester(Clear), [AtRequester(Resume)] + []);
    run := [AtRequester(Clear)] + ([AtRequester(Resume)] + []);
    SysPrepend(s, AtRequester(Store), run);
    run := [AtRequester(Store)] + run;
  }

  /** A message with the id of the waiting request, once in the network, can be
      returned by it. */
  lemma DeliverAndReturn(s: System, e: Envelope, id: string) returns (run: seq<SysAction>)
    requires s.requester.request == Waiting(id) && s.requester.listener == Polling
    requires s.requester.mutex == Nobody && s.requester.syncUuid == id && id != ""
    requires e in s.net && e.to == CStr(s.requester.clientName)
    requires Decodable(e.frames) && HasId(Decode(e.frames), id)
    ensures SysValid(s, run)
    ensures SysExecute(s, run).requester.outcomes == s.requester.outcomes + [Returned(id, Decode(e.frames))]
  {
    var deliver := Deliver(e.subject, e.frames);
    assert Envelope(e.to, e.subject, e.frames) == e;
    var b1 := Next(s.requester, deliver);
    var b2 := Next(b1, Test);
    RequesterAlone(s, deliver);
    RequesterAlone(s.(requester := b1), Test);
    run := CommitAndReturn(s.(requester := b2), Decode(e.frames), id);
    SysPrepend(s.(requester := b1), AtRequester(Test), run);
    run := [AtRequester(Test)] + run;
    SysPrepend(s, AtRequester(deliver), run);
    run := [AtRequester(deliver)] + run;
  }

  /** The envelope a prepared request is sent in. */
  function Outgoing(b: Bus): Envelope
    requires b.request.Prepared?
  {
    RequestEnvelope(LockRequest(b).request)
  }

  function AfterSend(s: System): System
    requires s.requester.request.Prepared?
  {
    Broadcast(s, [Outgoing(s.requester)]).(requester := s.requester.(request := Waiting(s.requester.request.id)))
  }

  /** Undisturbed, a prepared request is sent and ends up in the wait set. */
  lemma SendAndWait(s: System, rest: seq<SysAction>) returns (run: seq<SysAction>)
    requires s.requester.request.Prepared? && s.requester.mutex == Nobody
    requires SysValid(AfterSend(s), rest)
    ensures SysValid(s, run) && SysExecute(s, run) == SysExecute(AfterSend(s), rest)
  {
    var b1 := Next(s.requester, Lock);
    var s1 := s.(requester := b1);
    var s2 := Broadcast(s, [Outgoing(s.requester)]).(requester := Next(b1, Send));
    RequesterAlone(s, Lock);
    assert SysNext(s1, AtRequester(Send)) == s2;
    RequesterAlone(s2, Park);
    SysPrepend(s2, AtRequester(Park), rest);
    run := [AtRequester(Park)] + rest;
    SysPrepend(s1, AtRequester(Send), run);
    run := [AtRequester(Send)] + run;
    SysPrepend(s, AtRequester(Lock), run);
    run := [AtRequester(Lock)] + run;
  }

  lemma ResponderAlone(s: System, step: Action)
    requires Enabled(s.responder, step) && FromBroker(s, s.responder, step)
    requires !step.Begin? && Output(s.responder, step) == [] && !Queried(s.responder, step)
    ensures SysEnabled(s, AtResponder(step))
    ensures SysNext(s, AtResponder(step)) == s.(responder := Next(s.responder, step))
  {
  }

  predicate Deliverable(s: System, b: Bus, e: Envelope) {
    b.listener == Polling && e in s.net && e.to == CStr(b.clientName) && Decodable(e.frames)
  }

  predicate Answerable(s: System, e: Envelope) {
    && Deliverable(s, s.responder, e) && s.responder.syncUuid == ""
    && e.subject in s.responder.subscriptions && s.responder.subscriptions[e.subject] == QUERY
    && HandlerDefined(Decode(e.frames))
  }

  /** The responder with a query in hand. */
  function Holding(b: Bus, e: Envelope): Bus
    requires Decodable(e.frames)
  {
    b.(delivered := b.delivered + [Decode(e.frames)], listener := Unmatched(e.subject, Decode(e.frames)))
  }

  function AfterAnswer(s: System, e: Envelope): System
    requires Answerable(s, e)
  {
    Broadcast(s, QueryOutput(Decode(e.frames))).(responder := DispatchMessage(Holding(s.responder, e)))
  }

  /** The responder, which has no request of its own pending, takes a query. */
  lemma TakesQuery(b: Bus, e: Envelope)
    requires b.listener == Polling && b.syncUuid == "" && Decodable(e.frames)
    ensures var deliver := Deliver(e.subject, e.frames);
            && Enabled(b, deliver) && Enabled(Next(b, deliver), Test)
            && Next(Next(b, deliver), Test) == Holding(b, e)
            && Output(b, deliver) == [] && Output(Next(b, deliver), Test) == []
            && !Queried(b, deliver) && !Queried(Next(b, deliver), Test)
  {
  }

  lemma Receives(s: System, e: Envelope, rest: seq<SysAction>) returns (run: seq<SysAction>)
    requires Answerable(s, e) && SysValid(s.(responder := Holding(s.responder, e)), rest)
    ensures SysValid(s, run) && SysExecute(s, run) == SysExecute(s.(responder := Holding(s.responder, e)), rest)
  {
    var deliver := Deliver(e.subject, e.frames);
    assert FromBroker(s, s.responder, deliver) by { assert Envelope(e.to, e.subject, e.frames) == e; }
    TakesQuery(s.responder, e);
    var s1 := s.(responder := Next(s.responder, deliver));
    ResponderAlone(s, deliver);
    ResponderAlone(s1, Test);
    SysPrepend(s1, AtResponder(Test), rest);
    SysPrepend(s, AtResponder(deliver), [AtResponder(Test)] + rest);
    run := [AtResponder(deliver)] + ([AtResponder(Test)] + rest);
  }

  lemma Handles(s: System, e: Envelope)
    requires Answerable(s, e)
    ensures var s1 := s.(responder := Holding(s.responder, e));
            && SysEnabled(s1, AtResponder(Dispatch))
            && SysNext(s1, AtResponder(Dispatch)) == AfterAnswer(s, e)
  {
    var b := Holding(s.responder, e);
    var s1 := s.(responder := b);
    assert Queried(b, Dispatch) && Output(b, Dispatch) == [] && Next(b, Dispatch) == DispatchMessage(b);
    assert SysEnabled(s1, AtResponder(Dispatch));
  }

  /** A query in the network, once delivered, puts its reply there. */
  lemma Answer(s: System, e: Envelope, rest: seq<SysAction>) returns (run: seq<SysAction>)
    requires Answerable(s, e) && SysValid(AfterAnswer(s, e), rest)
    ensures SysValid(s, run) && SysExecute(s, run) == SysExecute(AfterAnswer(s, e), rest)
  {
    Handles(s, e);
    SysPrepend(s.(responder := Holding(s.responder, e)), AtResponder(Dispatch), rest);
    run := Receives(s, e, [AtResponder(Dispatch)] + rest);
  }

  /** `request()` can be called with this message: it has an id and TO, no request is
      pending, the id is unused, and the listener holds no other request's reply. */
  ghost predicate CanCall(s: System, m: Message) {
    && SysInv(s) && BusInv(s.requester) && s.requester.request == Ready
    && HasField(m, CORRELATION_ID) && HasField(m, TO) && m.metaData[CORRELATION_ID] !in s.seen
    && !HoldsForeign(s.requester, m.metaData[CORRELATION_ID])
  }

  /** That is all the system asks, in a state it can reach. */
  lemma CanCallExact(s: System, queue: string, m: Message, timeout: int)
    requires SysInv(s) && BusInv(s.requester) && HasField(m, CORRELATION_ID) && HasField(m, TO)
    ensures SysEnabled(s, AtRequester(Begin(queue, m, timeout))) <==> CanCall(s, m)
  {
  }

  /** With a fresh id the listener has then tested nothing; it may still be clearing
      the id of an earlier response. */
  lemma NothingTested(s: System, m: Message)
    requires CanCall(s, m)
    ensures !s.requester.listener.Matched? && ListenerAvoids(s.requester, m.metaData[CORRELATION_ID])
  {
    var l := s.requester.listener;
    if l != Polling { assert AtRequesterInv(s, l.message); }
  }

  /** No message with this id is anywhere. */
  ghost predicate Untouched(s: System, id: string) {
    && (forall e | e in s.net :: IdOf(e.frames) != Some(id))
    && ListenerAvoids(s.requester, id) && ListenerAvoids(s.responder, id)
  }

  /** The requester at the start of a call. */
  function Calling(b: Bus, queue: string, m: Message, timeout: int): Bus
    requires CORRELATION_ID in m.metaData && TO in m.metaData
  {
    var id := m.metaData[CORRELATION_ID];
    b.(syncUuid := id, begun := b.begun + 1, request := Prepared(id, queue, m.metaData[TO], WithTimeout(m, timeout)))
  }

  function Started(s: System, queue: string, m: Message, timeout: int): System
    requires CORRELATION_ID in m.metaData && TO in m.metaData
  {
    var id := m.metaData[CORRELATION_ID];
    s.(requester := Calling(s.requester, queue, m, timeout),
       calls := s.calls[id := Call(m, timeout)], seen := s.seen + {id})
  }

  lemma CallStarts(s: System, queue: string, m: Message, timeout: int)
    requires CanCall(s, m)
    ensures var a := AtRequester(Begin(queue, m, timeout));
            SysEnabled(s, a) && SysNext(s, a) == Started(s, queue, m, timeout)
    ensures SysInv(Started(s, queue, m, timeout)) && BusInv(Calling(s.requester, queue, m, timeout))
  {
    var a := Begin(queue, m, timeout);
    NothingSent(s);
    BusInvStep(s.requester, a);
    SysInvStep(s, AtRequester(a));
  }

  lemma FreshIdUntouched(s: System, queue: string, m: Message, timeout: int)
    requires CanCall(s, m)
    ensures var s1, id := Started(s, queue, m, timeout), m.metaData[CORRELATION_ID];
            && Untouched(s1, id)
            && (!s.requester.listener.Stored? ==> AwaitingReply(s1.requester, id, |s.requester.outcomes|))
  {
    NothingTested(s, m);
    var id := m.metaData[CORRELATION_ID];
    forall e | e in s.net ensures IdOf(e.frames) != Some(id) {
      assert IdOf(e.frames).Some? ==> IdOf(e.frames).value in s.seen;
    }
    var r := s.responder.listener;
    if r != Polling { assert AtResponderInv(s, r.message); }
  }

  /** The listener has finished with what it has in hand. */
  function Idle(b: Bus): Bus {
    if b.listener.Received? || b.listener.Unmatched?
    then b.(listener := Polling, consumed := b.consumed + [Consume(b, b.listener.subject, b.listener.message)])
    else b
  }

  lemma Drains(s: System, rest: seq<SysAction>) returns (run: seq<SysAction>)
    requires !s.requester.listener.Matched? && !s.requester.listener.Stored?
    requires ListenerAvoids(s.requester, s.requester.syncUuid)
    requires SysValid(s.(requester := Idle(s.requester)), rest)
    ensures SysValid(s, run) && SysExecute(s, run) == SysExecute(s.(requester := Idle(s.requester)), rest)
  {
    var b := s.requester;
    run := rest;
    if b.listener != Polling {
      var b1 := b.(listener := Unmatched(b.listener.subject, b.listener.message));
      RequesterAlone(s.(requester := b1), Dispatch);
      SysPrepend(s.(requester := b1), AtRequester(Dispatch), run);
      run := [AtRequester(Dispatch)] + run;
      if b.listener.Received? {
        RequesterAlone(s, Test);
        SysPrepend(s, AtRequester(Test), run);
        run := [AtRequester(Test)] + run;
      }
    }
  }

  /** The request of a call is in the network and its requester in the wait set. */
  function RequestOut(s: System, queue: string, m: Message, timeout: int): System
    requires CORRELATION_ID in m.metaData && TO in m.metaData
  {
    var s1 := Started(s, queue, m, timeout);
    AfterSend(s1.(requester := Idle(s1.requester)))
  }

  function RequestSent(s: System, queue: string, m: Message, timeout: int): Envelope
    requires TO in m.metaData
  {
    Envelope(CStr(m.metaData[TO]), CStr(queue), Encode(Request(Call(m, timeout), s.requester.clientName)))
  }

  /** A call gets there from its start, whatever the listener has in hand. */
  lemma CallGoesOut(s: System, queue: string, m: Message, timeout: int, rest: seq<SysAction>)
      returns (run: seq<SysAction>)
    requires CanCall(s, m) && !s.requester.listener.Stored?
    requires SysValid(RequestOut(s, queue, m, timeout), rest)
    ensures var s1 := Started(s, queue, m, timeout);
            SysValid(s1, run) && SysExecute(s1, run) == SysExecute(RequestOut(s, queue, m, timeout), rest)
  {
    var s1 := Started(s, queue, m, timeout);
    FreshIdUntouched(s, queue, m, timeout);
    run := SendAndWait(s1.(requester := Idle(s1.requester)), rest);
    run := Drains(s1, run);
  }

  lemma RequestOutMeaning(s: System, queue: string, m: Message, timeout: int)
    requires CanCall(s, m) && !s.requester.listener.Stored?
    ensures var s', id := RequestOut(s, queue, m, timeout), m.metaData[CORRELATION_ID];
            && s'.net == s.net + {RequestSent(s, queue, m, timeout)} && s'.responder == s.responder
            && s'.requester.request == Waiting(id) && s'.requester.listener == Polling
            && s'.requester.mutex == Nobody && s'.requester.syncUuid == id && id != ""
            && s'.requester.clientName == s.requester.clientName && s'.requester.outcomes == s.requester.outcomes
  {
    var s1 := Started(s, queue, m, timeout);
    NothingTested(s, m);
    assert Outgoing(Idle(s1.requester)) == RequestSent(s, queue, m, timeout);
  }

  /** Without the END key the request is carried as it is. */
  lemma RequestCarried(m: Message, timeout: int, clientName: string)
    requires HasField(m, CORRELATION_ID) && METADATA_END !in m.metaData
    ensures var r := Request(Call(m, timeout), clientName);
            Decodable(Encode(r)) && Decode(Encode(r)) == r && HasId(r, m.metaData[CORRELATION_ID])
            && REPLY_TO in r.metaData
  {
    var call := Call(m, timeout);
    RequestFields(call, clientName);
    assert METADATA_END != TIMEOUT && METADATA_END != REPLY_TO by {
      assert METADATA_END[1] == '_' && TIMEOUT[1] == 't' && REPLY_TO[1] == 'r';
    }
    IdSurvives(Request(call, clientName));
  }

  /** The reply to a request whose frames are in the network can be returned. */
  lemma AnswerAndReturn(s: System, e: Envelope, request: Message, id: string) returns (run: seq<SysAction>)
    requires Answerable(s, e) && Decode(e.frames) == request && Answered(request) && HasId(request, id) && id != ""
    requires s.requester.request == Waiting(id) && s.requester.listener == Polling
    requires s.requester.mutex == Nobody && s.requester.syncUuid == id
    requires CStr(request.metaData[FROM]) == CStr(s.requester.clientName)
    ensures SysValid(s, run)
    ensures SysExecute(s, run).requester.outcomes == s.requester.outcomes + [Returned(id, QueryReply(request))]
  {
    var reply := Envelope(CStr(request.metaData[FROM]), CStr(request.metaData[REPLY_TO]), Encode(QueryReply(request)));
    ReplyNotAnswered(request);
    IdSurvives(QueryReply(request));
    assert reply in QueryOutput(request);
    run := DeliverAndReturn(AfterAnswer(s, e), reply, id);
    run := Answer(s, e, run);
  }

  /** What the caller of the example does: FROM is its own name, TO the responder's,
      two items of user data, no END key. */
  predicate WellAddressed(m: Message, requesterName: string, responderName: string) {
    && FROM in m.metaData && CStr(m.metaData[FROM]) == CStr(requesterName)
    && TO in m.metaData && CStr(m.metaData[TO]) == CStr(responderName)
    && METADATA_END !in m.metaData && |m.userData| >= 2
  }

  /** The responder has no message in hand and listens on the queue. */
  predicate Serves(b: Bus, queue: string) {
    b.listener == Polling && Bound(b, CStr(queue), QUERY)
  }

  lemma WellAddressedAnswered(m: Message, timeout: int, name: string, responderName: string)
    requires HasField(m, CORRELATION_ID) && WellAddressed(m, name, responderName)
    ensures var r := Request(Call(m, timeout), name);
            && Decodable(Encode(r)) && Decode(Encode(r)) == r && HasId(r, m.metaData[CORRELATION_ID])
            && Answered(r) && CStr(r.metaData[FROM]) == CStr(name) && RepliesTo(m, QueryReply(r))
  {
    RequestCarried(m, timeout, name);
    RequestFields(Call(m, timeout), name);
    FieldNamesDiffer();
  }

  /** The request of a well-addressed call, once out, is one the responder answers. */
  lemma RequestAnswerable(s: System, queue: string, m: Message, timeout: int)
    requires CanCall(s, m) && WellAddressed(m, s.requester.clientName, s.responder.clientName)
    requires !s.requester.listener.Stored? && Serves(s.responder, queue)
    ensures Answerable(RequestOut(s, queue, m, timeout), RequestSent(s, queue, m, timeout))
  {
    WellAddressedAnswered(m, timeout, s.requester.clientName, s.responder.clientName);
    RequestOutMeaning(s, queue, m, timeout);
  }

  /** The protocol does complete: whenever a well-addressed call can be made and the
      responder serves its queue, there is a run in which it returns the reply. */
  lemma CallCompletes(s: System, queue: string, m: Message, timeout: int)
      returns (run: seq<SysAction>, reply: Message)
    requires CanCall(s, m) && WellAddressed(m, s.requester.clientName, s.responder.clientName)
    requires !s.requester.listener.Stored? && Serves(s.responder, queue)
    ensures SysValid(Started(s, queue, m, timeout), run)
    ensures SysExecute(Started(s, queue, m, timeout), run).requester.outcomes ==
            s.requester.outcomes + [Returned(m.metaData[CORRELATION_ID], reply)]
    ensures RepliesTo(m, reply)
  {
    var request := Request(Call(m, timeout), s.requester.clientName);
    WellAddressedAnswered(m, timeout, s.requester.clientName, s.responder.clientName);
    RequestAnswerable(s, queue, m, timeout);
    RequestOutMeaning(s, queue, m, timeout);
    reply := QueryReply(request);
    run := AnswerAndReturn(RequestOut(s, queue, m, timeout), RequestSent(s, queue, m, timeout), request,
                           m.metaData[CORRELATION_ID]);
    run := CallGoesOut(s, queue, m, timeout, run);
  }

  /** Such a state is reached on a fresh system by binding the responder's queue. */
  lemma FreshSystemServes(requesterName: string, responderName: string, queue: string, m: Message)
    requires HasField(m, CORRELATION_ID) && HasField(m, TO)
    ensures var s0, a := SysInit(requesterName, responderName), AtResponder(Receive(CStr(queue), QUERY));
            && SysEnabled(s0, a)
            && CanCall(SysNext(s0, a), m) && SysNext(s0, a).requester.listener == Polling
            && Serves(SysNext(s0, a).responder, queue)
            && SysNext(s0, a).requester.clientName == requesterName
            && SysNext(s0, a).responder.clientName == responderName
  {
    var s0, a := SysInit(requesterName, responderName), AtResponder(Receive(CStr(queue), QUERY));
    NothingSent(s0);
    SysInvStep(s0, a);
  }

  /** A call that comes back to the requester itself can return its own request. */
  lemma SelfCallReturnsRequest(s: System, queue: string, m: Message, timeout: int) returns (run: seq<SysAction>)
    requires CanCall(s, m) && !s.requester.listener.Stored? && Loops(Call(m, timeout), s.requester.clientName)
    ensures var s1 := Started(s, queue, m, timeout);
            && SysValid(s1, run)
            && SysExecute(s1, run).requester.outcomes == s.requester.outcomes +
               [Returned(m.metaData[CORRELATION_ID], Request(Call(m, timeout), s.requester.clientName))]
  {
    RequestCarried(m, timeout, s.requester.clientName);
    RequestOutMeaning(s, queue, m, timeout);
    run := DeliverAndReturn(RequestOut(s, queue, m, timeout), RequestSent(s, queue, m, timeout),
                            m.metaData[CORRELATION_ID]);
    run := CallGoesOut(s, queue, m, timeout, run);
  }

  /** Every reply the call with this id has returned is the responder's. */
  predicate OnlyReplies(s: System, id: string, m: Message) {
    forall o | o in s.requester.outcomes && o.Returned? && o.id == id :: RepliesTo(m, o.reply)
  }

  /** A request has REPLY_TO, a reply has not. */
  lemma RequestIsNoReply(m: Message, timeout: int, clientName: string)
    ensures !RepliesTo(m, Request(Call(m, timeout), clientName))
  {
    var r := Request(Call(m, timeout), clientName);
    assert REPLY_TO in r.metaData;
    assert REPLY_TO != TO && REPLY_TO != SUBJECT && REPLY_TO != CORRELATION_ID by {
      assert REPLY_TO[1] == 'r' && TO[1] == 't' && SUBJECT[1] == 's' && CORRELATION_ID[1] == 'c';
    }
  }

  lemma StartedContinues(s: System, run: seq<SysAction>, id: string, call: Call)
    requires SysInv(s) && SysValid(s, run) && id in s.calls && s.calls[id] == call
    requires !Loops(call, s.requester.clientName)
    ensures OnlyReplies(SysExecute(s, run), id, call.message)
  {
    CallsRecorded(s, run, id);
    SysInvRun(s, run);
    var s' := SysExecute(s, run);
    forall o | o in s'.requester.outcomes && o.Returned? && o.id == id ensures RepliesTo(call.message, o.reply) {
      var i :| 0 <= i < |s'.requester.outcomes| && s'.requester.outcomes[i] == o;
      assert Expected(o.reply, call, s.requester.clientName);
      assert HasId(s.calls[id].message, id);
      ExpectedMeaning(o.reply, call, s.requester.clientName);
    }
  }

  /** The call with this id has returned nothing and never will: its id is wiped, or
      about to be, and no reply to it has been tested. */
  predicate Silenced(b: Bus, id: string) {
    && (Pending(b.request) && b.request.id == id ==>
          !b.request.Woken? && !b.listener.Matched? && (b.syncUuid == "" || b.listener.Stored?))
    && (forall o | o in b.outcomes && o.Returned? :: o.id != id)
  }

  lemma SilencedStep(b: Bus, a: Action, id: string)
    requires Silenced(b, id) && Enabled(b, a) && !a.Spurious?
    requires a.Begin? && HasField(a.message, CORRELATION_ID) ==> a.message.metaData[CORRELATION_ID] != id
    ensures Silenced(Next(b, a), id)
  {
    var b' := Next(b, a);
    forall o | o in b'.outcomes && o.Returned? ensures o.id != id {
      if o !in b.outcomes { assert o == b'.outcomes[|b.outcomes|]; }
    }
  }

  lemma {:induction false} SilencedRun(s: System, run: seq<SysAction>, id: string)
    requires SysValid(s, run) && id in s.seen && Silenced(s.requester, id)
    ensures Silenced(SysExecute(s, run).requester, id)
    decreases |run|
  {
    if run != [] {
      var a := run[0];
      if a.AtRequester? { SilencedStep(s.requester, a.step, id); }
      SilencedRun(SysNext(s, a), run[1..], id);
    }
  }

  /** A call that starts while the listener is clearing the id of an earlier response
      loses its own id and never returns anything. */
  lemma CallDuringClearSilenced(s: System, queue: string, m: Message, timeout: int, run: seq<SysAction>)
    requires CanCall(s, m) && s.requester.listener.Stored?
    requires SysValid(Started(s, queue, m, timeout), run)
    ensures Silenced(SysExecute(Started(s, queue, m, timeout), run).requester, m.metaData[CORRELATION_ID])
  {
    var id := m.metaData[CORRELATION_ID];
    forall o | o in s.requester.outcomes && o.Returned? ensures o.id != id {
      var i :| 0 <= i < |s.requester.outcomes| && s.requester.outcomes[i] == o;
      assert o.id in s.calls;
    }
    SilencedRun(Started(s, queue, m, timeout), run, id);
  }

  /** The exact condition, readable before the call, in every state of the system in
      which `request()` can be called and for any message: in every continuation the
      call returns nothing but the responder's reply, if it returns, if and only if it
      is not addressed to the requester's own mailbox with its id intact, or its id is
      about to be wiped. */
  lemma EndToEndExact(s: System, queue: string, m: Message, timeout: int)
    requires CanCall(s, m)
    ensures var s1 := Started(s, queue, m, timeout);
            (forall run | SysValid(s1, run) :: OnlyReplies(SysExecute(s1, run), m.metaData[CORRELATION_ID], m))
            <==> || !ToSelf(Call(m, timeout), s.requester.clientName)
                 || METADATA_END in m.metaData
                 || s.requester.listener.Stored?
  {
    var s1, id, name := Started(s, queue, m, timeout), m.metaData[CORRELATION_ID], s.requester.clientName;
    if s.requester.listener.Stored? {
      forall run | SysValid(s1, run) ensures OnlyReplies(SysExecute(s1, run), id, m) {
        CallDuringClearSilenced(s, queue, m, timeout, run);
      }
    } else if Loops(Call(m, timeout), name) {
      var run := SelfCallReturnsRequest(s, queue, m, timeout);
      RequestIsNoReply(m, timeout, name);
      var outcomes := SysExecute(s1, run).requester.outcomes;
      var o := outcomes[|outcomes| - 1];
      assert o in outcomes && o.id == id && !RepliesTo(m, o.reply);
    } else {
      CallStarts(s, queue, m, timeout);
      forall run | SysValid(s1, run) ensures OnlyReplies(SysExecute(s1, run), id, m) {
        StartedContinues(s1, run, id, Call(m, timeout));
      }
    }
  }
}

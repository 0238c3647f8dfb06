/** An asynchronous request with a listener, end to end. */
module RpcAsync {
  import opened MessageCodec
  import opened ByteStrings
  import opened BusModel
  import opened BusRouting
  import opened Responder
  import opened Rpc
  import opened RpcTheorems
  import opened Subscriptions

  /** Three quiet steps of the requester's listener, as steps of the system. */
  lemma RequesterTakes(s: System, e: Envelope) returns (run: seq<SysAction>)
    requires e in s.net && e.to == CStr(s.requester.clientName)
    requires ValidRun(s.requester, [Deliver(e.subject, e.frames), Test, Dispatch])
    ensures SysValid(s, run)
    ensures SysExecute(s, run).requester == Execute(s.requester, [Deliver(e.subject, e.frames), Test, Dispatch])
  {
    var deliver := Deliver(e.subject, e.frames);
    assert Envelope(e.to, e.subject, e.frames) == e;
    assert [deliver, Test, Dispatch][1..] == [Test, Dispatch] && [Test, Dispatch][1..] == [Dispatch];
    assert [Dispatch][1..] == [];
    var s1 := s.(requester := Next(s.requester, deliver));
    var s2 := s1.(requester := Next(s1.requester, Test));
    RequesterAlone(s, deliver);
    RequesterAlone(s1, Test);
    RequesterAlone(s2, Dispatch);
    SysPrepend(s2, AtRequester(Dispatch), []);
    SysPrepend(s1, AtRequester(Test), [AtRequester(Dispatch)] + []);
    SysPrepend(s, AtRequester(deliver), [AtRequester(Test)] + ([AtRequester(Dispatch)] + []));
    run := [AtRequester(deliver)] + ([AtRequester(Test)] + ([AtRequester(Dispatch)] + []));
  }

  /** The requester with its reply queue bound and the request sent. */
  function AskedBus(b: Bus, m: Message, callback: Listener): Bus
    requires CanBind(b, m)
  {
    b.(subscriptions := b.subscriptions[m.metaData[REPLY_TO] := callback],
       unsent := b.unsent - {b.tickets}, tickets := b.tickets + 1)
  }

  function Asked(s: System, queue: string, m: Message, callback: Listener): System
    requires CanBind(s.requester, m)
  {
    Broadcast(s, [AsyncEnvelope(queue, m)]).(requester := AskedBus(s.requester, m, callback))
  }

  lemma BindsThenSends(b: Bus, queue: string, m: Message, callback: Listener)
    requires CanBind(b, m)
    ensures var b1, send := Next(b, BindReply(queue, m, callback)), SendBound(b.tickets);
            && Enabled(b1, send) && Output(b1, send) == [AsyncEnvelope(queue, m)]
            && Next(b1, send) == AskedBus(b, m, callback)
  {
    var r := BoundRequest(queue, m, callback);
    assert b.unsent[b.tickets := r] - {b.tickets} == b.unsent - {b.tickets};
  }

  /** Handing the broker a message whose id is not reserved. */
  lemma SendsUnreserved(s: System, step: Action, e: Envelope)
    requires Enabled(s.requester, step) && step.SendBound? && Output(s.requester, step) == [e]
    requires IdOf(e.frames).Some? ==> IdOf(e.frames).value !in s.calls
    ensures SysEnabled(s, AtRequester(step))
    ensures SysNext(s, AtRequester(step)) == Broadcast(s, [e]).(requester := Next(s.requester, step))
  {
  }

  lemma Asks(s: System, queue: string, m: Message, callback: Listener, rest: seq<SysAction>)
      returns (run: seq<SysAction>)
    requires CanBind(s.requester, m) && METADATA_END !in m.metaData
    requires CORRELATION_ID in m.metaData && m.metaData[CORRELATION_ID] !in s.calls
    requires SysValid(Asked(s, queue, m, callback), rest)
    ensures SysValid(s, run) && SysExecute(s, run) == SysExecute(Asked(s, queue, m, callback), rest)
  {
    var bind, send := BindReply(queue, m, callback), SendBound(s.requester.tickets);
    var s1 := s.(requester := Next(s.requester, bind));
    RequesterAlone(s, bind);
    BindsThenSends(s.requester, queue, m, callback);
    IdSurvives(m);
    SendsUnreserved(s1, send, AsyncEnvelope(queue, m));
    SysPrepend(s1, AtRequester(send), rest);
    SysPrepend(s, AtRequester(bind), [AtRequester(send)] + rest);
    run := [AtRequester(bind)] + ([AtRequester(send)] + rest);
  }

  /** The request, once out, is one the responder answers. */
  lemma AskedAnswerable(s: System, queue: string, m: Message, callback: Listener)
    requires CanBind(s.requester, m) && WellAddressed(m, s.requester.clientName, s.responder.clientName)
    requires HasField(m, TO) && HasField(m, CORRELATION_ID)
    requires Serves(s.responder, queue) && s.responder.syncUuid == ""
    ensures Answerable(Asked(s, queue, m, callback), AsyncEnvelope(queue, m))
    ensures Decode(AsyncEnvelope(queue, m).frames) == m && Answered(m)
  {
    IdSurvives(m);
  }

  /** The protocol completes: a well-addressed listener-bearing request to a responder
      that serves the queue has a run in which its own listener, and no other, is
      called with the responder's reply to it. */
  lemma AsyncCallCompletes(s: System, queue: string, m: Message, callback: Listener)
      returns (run: seq<SysAction>, reply: Message)
    requires CanBind(s.requester, m) && WellAddressed(m, s.requester.clientName, s.responder.clientName)
    requires HasField(m, TO) && HasField(m, CORRELATION_ID) && '\0' !in m.metaData[REPLY_TO]
    requires m.metaData[CORRELATION_ID] !in s.calls && s.requester.syncUuid != m.metaData[CORRELATION_ID]
    requires s.requester.listener == Polling && Serves(s.responder, queue) && s.responder.syncUuid == ""
    ensures SysValid(s, run) && RepliesTo(m, reply)
    ensures SysExecute(s, run).requester.consumed ==
            s.requester.consumed + [Called(callback, m.metaData[REPLY_TO], reply)]
  {
    var s1, e := Asked(s, queue, m, callback), AsyncEnvelope(queue, m);
    AskedAnswerable(s, queue, m, callback);
    NoNulUncut(m.metaData[REPLY_TO]);
    AnswerDispatched(s1.requester, m, callback);
    var answer := QueryOutput(m)[0];
    reply := Decode(answer.frames);
    run := RequesterTakes(AfterAnswer(s1, e), answer);
    run := Answer(s1, e, run);
    run := Asks(s, queue, m, callback, run);
  }
}

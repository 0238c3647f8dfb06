/** The bus as an object. The code between two points where the threads can
    observe each other is one method; each method takes exactly the step the
    transition system prescribes, hands the broker exactly what it says, and keeps
    the protocol's invariant, so every theorem about runs holds of the object. */
module MalamuteClass {
  import opened ByteStrings
  import opened MessageCodec
  import opened BusModel
  import opened BusProtocol
  import opened BusReplies
  import opened BusRouting
  import opened BusSteps
  import opened Subscriptions

  /** The client side of the broker: a log of `mlm_client_sendto` calls. */
  class MlmClient {
    var sent: seq<Envelope>

    constructor ()
      ensures sent == []
    {
      sent := [];
    }

    method SendTo(to: string, subject: string, msg: Zmsg)
      modifies this
      ensures sent == old(sent) + [Envelope(CStr(to), CStr(subject), msg.frames)]
    {
      sent := sent + [Envelope(CStr(to), CStr(subject), msg.frames)];
    }
  }

  class MessageBusMalamute {
    const m_client: MlmClient
    const m_clientName: string
    var m_subscriptions: map<string, Listener>
    var unsent: map<nat, BoundRequest>
    var tickets: nat
    var m_syncUuid: string
    var m_syncResponse: Message
    var m_cv_mtx: Owner
    var requestThread: RequestPc
    var listenerThread: ListenerPc
    ghost var outcomes: seq<Outcome>
    ghost var begun: nat
    ghost var delivered: seq<Message>
    var consumed: seq<Consumed>
    var streamed: seq<Consumed>

    ghost function State(): Bus
      reads this
    {
      Bus(m_clientName, m_subscriptions, unsent, tickets, m_syncUuid, m_syncResponse, m_cv_mtx, requestThread,
          listenerThread, outcomes, begun, delivered, consumed, streamed)
    }

    /** Locks and ids are as the protocol needs them, no response is committed
        without a request, and every message delivered is accounted for. */
    ghost predicate Valid()
      reads this
    {
      Consistent(State())
    }

    /** The step `a` has been taken from the state and log given. */
    ghost predicate Took(a: Action, before: Bus, sentBefore: seq<Envelope>)
      requires Enabled(before, a)
      reads this, m_client
    {
      State() == Next(before, a) && m_client.sent == sentBefore + Output(before, a)
    }

    constructor (clientName: string)
      ensures Valid() && State() == Init(clientName)
      ensures fresh(m_client) && m_client.sent == []
    {
      m_client := new MlmClient();
      m_clientName := clientName;
      m_subscriptions, unsent, tickets := map[], map[], 0;
      m_syncUuid, m_syncResponse, m_cv_mtx := "", EMPTY_MESSAGE, Nobody;
      requestThread, listenerThread := Ready, Polling;
      outcomes, begun, delivered, consumed, streamed := [], 0, [], [], [];
      new;
      InitConsistent(clientName);
    }

    // ------------------------------------------------ subscriptions and queues

    method Subscribe(topic: string, consumerSet: bool, callback: Listener) returns (thrown: bool)
      requires Valid()
      modifies this
      ensures Valid() && Took(Action.Subscribe(topic, consumerSet, callback), old(State()), old(m_client.sent))
      ensures thrown == !consumerSet
    {
      ghost var before := State();
      thrown := !consumerSet;
      if !thrown {
        m_subscriptions := Emplace(m_subscriptions, topic, callback);
      }
      StepKeeps(before, Action.Subscribe(topic, consumerSet, callback), State());
    }

    method Unsubscribe(topic: string) returns (thrown: bool)
      requires Valid()
      modifies this
      ensures Valid() && Took(Action.Unsubscribe(topic), old(State()), old(m_client.sent))
      ensures thrown ==> State() == old(State())
      ensures thrown <==> topic !in old(m_subscriptions)
    {
      ghost var before := State();
      thrown := topic !in m_subscriptions;
      if !thrown {
        m_subscriptions := m_subscriptions - {topic};
      }
      StepKeeps(before, Action.Unsubscribe(topic), State());
    }

    method Receive(queue: string, callback: Listener) returns (thrown: bool)
      requires Valid()
      modifies this`m_subscriptions
      ensures Valid() && Took(Action.Receive(queue, callback), old(State()), old(m_client.sent))
      ensures thrown ==> State() == old(State())
      ensures thrown <==> queue in old(m_subscriptions)
    {
      ghost var before := State();
      thrown := queue in m_subscriptions;
      if !thrown {
        m_subscriptions := Emplace(m_subscriptions, queue, callback);
      }
      StepKeeps(before, Action.Receive(queue, callback), State());
    }

    /** One envelope: to the mailbox named by TO, or by the queue if there is no TO,
        under the name of the queue. */
    method SendRequest(requestQueue: string, message: Message)
      modifies m_client
      ensures Took(Action.SendRequest(requestQueue, message), old(State()), old(m_client.sent))
      ensures m_client.sent == old(m_client.sent) +
              [Envelope(CStr(FieldOr(message, TO, requestQueue)), CStr(requestQueue), Encode(message))]
    {
      var to := CStr(requestQueue);
      var subject := CStr(requestQueue);
      CStrIdempotent(requestQueue);
      if HasField(message, TO) {
        to := message.metaData[TO];
        subject := requestQueue;
      }
      var msg := ToZmsg(message);
      m_client.SendTo(to, subject, msg);
    }

    /** The listener-bearing `sendRequest`, up to the return of `receive`. */
    method BindReply(requestQueue: string, message: Message, callback: Listener)
        returns (thrown: bool, ticket: nat)
      requires Valid()
      modifies this
      ensures Valid() && Took(Action.BindReply(requestQueue, message, callback), old(State()), old(m_client.sent))
      ensures thrown <==> !CanBind(old(State()), message)
      ensures thrown ==> State() == old(State())
      ensures !thrown ==>
                && Bound(State(), message.metaData[REPLY_TO], callback)
                && ticket in unsent && ticket !in old(unsent)
                && unsent[ticket] == BoundRequest(requestQueue, message, callback)
    {
      ghost var before := State();
      thrown, ticket := !HasField(message, REPLY_TO), tickets;
      if !thrown {
        thrown := Receive(message.metaData[REPLY_TO], callback);
        if !thrown {
          unsent := unsent[ticket := BoundRequest(requestQueue, message, callback)];
          tickets := tickets + 1;
        }
      }
      StepKeeps(before, Action.BindReply(requestQueue, message, callback), State());
    }

    /** The rest of it. */
    method SendBound(ticket: nat)
      requires Valid() && ticket in unsent
      modifies this, m_client
      ensures Valid() && Took(Action.SendBound(ticket), old(State()), old(m_client.sent))
      ensures ticket !in unsent
    {
      ghost var before := State();
      SendRequest(unsent[ticket].queue, unsent[ticket].message);
      unsent := unsent - {ticket};
      StepKeeps(before, Action.SendBound(ticket), State());
    }

    /** One envelope: to the mailbox named by TO, under the name of the reply queue; or,
        without a correlation id, the exception and nothing sent. */
    method SendReply(replyQueue: string, message: Message) returns (thrown: bool)
      requires HasField(message, CORRELATION_ID) ==> TO in message.metaData
      modifies m_client
      ensures Took(Action.SendReply(replyQueue, message), old(State()), old(m_client.sent))
      ensures thrown <==> FieldOr(message, CORRELATION_ID, "") == ""
      ensures thrown ==> m_client.sent == old(m_client.sent)
      ensures !thrown ==>
                m_client.sent == old(m_client.sent) +
                [Envelope(CStr(message.metaData[TO]), CStr(replyQueue), Encode(message))]
    {
      thrown := !HasField(message, CORRELATION_ID);
      if !thrown {
        var msg := ToZmsg(message);
        m_client.SendTo(message.metaData[TO], replyQueue, msg);
      }
    }

    // -------------------------------------------------------------- request()

    /** Up to the lock: publish the id, check TO, add TIMEOUT to a copy. A request
        that starts while the listener is not committing a response can be answered. */
    method RequestBegin(requestQueue: string, message: Message, receiveTimeOut: int)
      requires Valid() && Enabled(State(), Begin(requestQueue, message, receiveTimeOut))
      modifies this
      ensures Valid() && Took(Begin(requestQueue, message, receiveTimeOut), old(State()), old(m_client.sent))
      ensures Safe(old(State()), Begin(requestQueue, message, receiveTimeOut)) && Tracked(old(State())) ==>
                Tracked(State())
      ensures FieldOr(message, CORRELATION_ID, "") == "" ==>
                State() == old(State()).(outcomes := old(outcomes) + [NoCorrelationId])
      ensures FieldOr(message, CORRELATION_ID, "") != "" && FieldOr(message, TO, "") == "" ==>
                && m_syncUuid == message.metaData[CORRELATION_ID] && requestThread == Ready
                && outcomes == old(outcomes) + [NoTo(m_syncUuid)]
      ensures FieldOr(message, CORRELATION_ID, "") != "" && FieldOr(message, TO, "") != "" ==>
                && m_syncUuid == message.metaData[CORRELATION_ID] && outcomes == old(outcomes)
                && requestThread.Prepared? && requestThread.id == m_syncUuid
                && requestThread.to == message.metaData[TO] && requestThread.queue == requestQueue
      ensures HasField(message, CORRELATION_ID) && HasField(message, TO)
              && !listenerThread.Matched? && !listenerThread.Stored?
              && ListenerAvoids(State(), message.metaData[CORRELATION_ID]) ==>
                AwaitingReply(State(), message.metaData[CORRELATION_ID], |outcomes|)
    {
      ghost var before := State();
      PublishAndCheck(requestQueue, message, receiveTimeOut);
      StepKeeps(before, Begin(requestQueue, message, receiveTimeOut), State());
      BeginMeaning(before, requestQueue, message, receiveTimeOut, State());
    }

    method PublishAndCheck(requestQueue: string, message: Message, receiveTimeOut: int)
      requires requestThread == Ready
      modifies this
      ensures State() == BeginRequest(old(State()), requestQueue, message, receiveTimeOut)
    {
      if !HasField(message, CORRELATION_ID) {
        outcomes := outcomes + [NoCorrelationId];
        return;
      }
      m_syncUuid := message.metaData[CORRELATION_ID];
      begun := begun + 1;
      if !HasField(message, TO) {
        outcomes := outcomes + [NoTo(m_syncUuid)];
        return;
      }
      var msg := Message(Emplace(message.metaData, TIMEOUT, ToString(receiveTimeOut)), message.userData);
      requestThread := Prepared(m_syncUuid, requestQueue, message.metaData[TO], msg);
    }

    /** Take the lock and add REPLY_TO: from here to the wait no response can be
        committed, and the caller's own fields stay. */
    method RequestLock()
      requires Valid() && Enabled(State(), Lock)
      modifies this
      ensures Valid() && Took(Lock, old(State()), old(m_client.sent))
      ensures !Enabled(State(), Store)
      ensures Tracked(old(State())) ==> Tracked(State())
      ensures requestThread.Locked? && Extends(requestThread.message, old(requestThread).message)
      ensures REPLY_TO in requestThread.message.metaData
    {
      ghost var before := State();
      var r := requestThread;
      m_cv_mtx := Requester;
      var msg := Message(Emplace(r.message.metaData, REPLY_TO, m_clientName), r.message.userData);
      requestThread := Locked(r.id, r.queue, r.to, msg);
      StepKeeps(before, Lock, State());
      LockMeaning(before, State());
    }

    /** Still no response can be committed; what was handed over decodes to the
        request. */
    method RequestSend()
      requires Valid() && Enabled(State(), Send)
      modifies this, m_client
      ensures Valid() && Took(Send, old(State()), old(m_client.sent))
      ensures !Enabled(State(), Store)
      ensures Tracked(old(State())) ==> Tracked(State())
      ensures |m_client.sent| == |old(m_client.sent)| + 1
      ensures var e := m_client.sent[|m_client.sent| - 1];
              e.to == CStr(old(requestThread).to) && e.subject == CStr(old(requestThread).queue)
      ensures var frames := m_client.sent[|m_client.sent| - 1].frames;
              Decodable(frames) && (METADATA_END !in old(requestThread).message.metaData ==>
                                      Decode(frames) == old(requestThread).message)
    {
      ghost var before := State();
      var r := requestThread;
      var msgMlm := ToZmsg(r.message);
      SendMeaning(before, Next(before, Send), msgMlm.frames);
      m_client.SendTo(r.to, r.queue, msgMlm);
      requestThread := Sent(r.id);
      StepKeeps(before, Send, State());
    }

    /** `wait_for`: into the wait set, releasing the lock. A reply tested in the
        meantime can be committed from here on, and will wake the requester. */
    method RequestPark()
      requires Valid() && Enabled(State(), Park)
      modifies this
      ensures Valid() && Took(Park, old(State()), old(m_client.sent))
      ensures Tracked(old(State())) ==> Tracked(State())
      ensures listenerThread.Matched? ==>
                && Enabled(State(), Store)
                && Next(State(), Store).request == Woken(requestThread.id)
                && Next(State(), Store).syncResponse == listenerThread.message
    {
      ghost var before := State();
      requestThread := Waiting(requestThread.id);
      m_cv_mtx := Nobody;
      StepKeeps(before, Park, State());
      ParkMeaning(before, State());
    }

    /** The deadline passes: whatever is delivered or committed from here on, the
        request throws. */
    method RequestExpire()
      requires Valid() && Enabled(State(), Timer)
      modifies this
      ensures Valid() && Took(Timer, old(State()), old(m_client.sent))
      ensures Tracked(old(State())) ==> Tracked(State())
      ensures AlwaysExpired(State(), old(requestThread).id, |old(outcomes)|)
    {
      ghost var before := State();
      requestThread := TimedOut(requestThread.id);
      StepKeeps(before, Timer, State());
      TimerMeaning(before, State());
    }

    /** Out of the wait, with the lock: throw, or copy the response and return it. */
    method RequestResume() returns (timedOut: bool, response: Message)
      requires Valid() && Enabled(State(), Resume)
      modifies this
      ensures Valid() && Took(Resume, old(State()), old(m_client.sent))
      ensures Tracked(old(State())) ==> Tracked(State())
      ensures timedOut == old(requestThread).TimedOut?
      ensures !timedOut ==> response == m_syncResponse
      ensures !timedOut && Tracked(old(State())) ==> HasId(response, old(requestThread).id)
    {
      ghost var before := State();
      timedOut, response := requestThread.TimedOut?, m_syncResponse;
      outcomes := outcomes + [if timedOut then TimeOut(requestThread.id) else Returned(requestThread.id, response)];
      requestThread := Ready;
      StepKeeps(before, Resume, State());
      ResumeMeaning(before, State());
    }

    // ----------------------------------------------------------- the listener

    /** `listenerHandleMailbox`, up to the id test. */
    method HandleMailbox(subject: string, message: Zmsg)
      requires Valid() && Enabled(State(), Deliver(subject, message.frames))
      modifies this, message
      ensures old(m_client.sent) == m_client.sent
      ensures Valid() && State() == Next(old(State()), Deliver(subject, old(message.frames)))
    {
      ghost var before := State();
      var msg := FromZmsg(message);
      listenerThread := Received(subject, msg);
      delivered := delivered + [msg];
      StepKeeps(before, Deliver(subject, old(message.frames)), State());
    }

    /** The id test. The reply to a request that can be answered is always taken; in
        a tracked state nothing else is while a request is pending, and in an
        undisturbed one nothing at all while none is. */
    method TestId()
      requires Valid() && Enabled(State(), Test)
      modifies this
      ensures Valid() && Took(Test, old(State()), old(m_client.sent))
      ensures Tracked(old(State())) ==> Tracked(State())
      ensures var m := old(listenerThread).message;
              && (AwaitsCommit(requestThread, m_syncUuid) && HasId(m, m_syncUuid) ==>
                    listenerThread == Matched(m))
              && (Tracked(old(State())) && Pending(requestThread) && !HasId(m, requestThread.id) ==>
                    listenerThread.Unmatched?)
              && (Undisturbed(old(State())) && requestThread == Ready ==> listenerThread.Unmatched?)
    {
      ghost var before := State();
      var subject, msg := listenerThread.subject, listenerThread.message;
      listenerThread := Unmatched(subject, msg);
      if m_syncUuid != "" {
        if CORRELATION_ID in msg.metaData {
          if m_syncUuid == msg.metaData[CORRELATION_ID] {
            listenerThread := Matched(msg);
          }
        }
      }
      StepKeeps(before, Test, State());
      TestMeaning(before, State());
    }

    /** Under the lock: a request that has been sent and has neither expired nor been
        answered is woken, with the message just tested as its response, and cannot
        leave the wait before the id is cleared. */
    method StoreResponse()
      requires Valid() && Enabled(State(), Store)
      modifies this
      ensures Valid() && Took(Store, old(State()), old(m_client.sent))
      ensures Tracked(old(State())) ==> Tracked(State())
      ensures Pending(requestThread) && !requestThread.TimedOut? && !requestThread.Prepared? ==> requestThread.Woken?
      ensures requestThread.Woken? ==> m_syncResponse == old(listenerThread).message && !Enabled(State(), Resume)
    {
      ghost var before := State();
      m_cv_mtx := ListenerThread;
      m_syncResponse := listenerThread.message;
      if requestThread.Waiting? {
        requestThread := Woken(requestThread.id);
      }
      listenerThread := Stored(m_syncResponse);
      StepKeeps(before, Store, State());
      StoreMeaning(before, State());
    }

    /** A requester that has been woken can now leave the wait; until the next request
        starts no message is taken as a response; the responses committed still do
        not outnumber the requests, and every message delivered is accounted for. */
    method ClearId()
      requires Valid() && Enabled(State(), Clear)
      modifies this
      ensures Valid() && Took(Clear, old(State()), old(m_client.sent))
      ensures Tracked(old(State())) ==> Tracked(State())
      ensures requestThread.Woken? ==> Enabled(State(), Resume)
      ensures NothingMatches(State())
      ensures Responses(consumed) == Responses(old(consumed)) + 1 <= begun
      ensures Logged(consumed) == delivered
    {
      ghost var before := State();
      m_syncUuid := "";
      consumed := consumed + [AsResponse(listenerThread.message)];
      m_cv_mtx := Nobody;
      listenerThread := Polling;
      StepKeeps(before, Clear, State());
      ClearMeaning(before, State());
    }

    /** The listener bound to the subject is called with the message, and no other;
        without one it is skipped; every message delivered is then accounted for. */
    method DispatchMessage()
      requires Valid() && Enabled(State(), Dispatch)
      modifies this
      ensures Valid() && Took(Dispatch, old(State()), old(m_client.sent))
      ensures var l := old(listenerThread);
              && (forall c :: consumed == old(consumed) + [Called(c, l.subject, l.message)]
                              <==> Bound(old(State()), l.subject, c))
              && (consumed == old(consumed) + [Skipped(l.subject, l.message)] <==> l.subject !in m_subscriptions)
      ensures Logged(consumed) == delivered
    {
      ghost var before := State();
      var subject, msg := listenerThread.subject, listenerThread.message;
      if subject in m_subscriptions {
        consumed := consumed + [Called(m_subscriptions[subject], subject, msg)];
      } else {
        consumed := consumed + [Skipped(subject, msg)];
      }
      listenerThread := Polling;
      StepKeeps(before, Dispatch, State());
      DispatchMeaning(before, State());
    }

    method HandleStream(subject: string, message: Zmsg)
      requires Valid() && Enabled(State(), Stream(subject, message.frames))
      modifies this, message
      ensures old(m_client.sent) == m_client.sent
      ensures Valid() && State() == Next(old(State()), Stream(subject, old(message.frames)))
    {
      ghost var before := State();
      var msg := FromZmsg(message);
      if subject in m_subscriptions {
        streamed := streamed + [Called(m_subscriptions[subject], subject, msg)];
      } else {
        streamed := streamed + [Skipped(subject, msg)];
      }
      StepKeeps(before, Stream(subject, old(message.frames)), State());
    }

    /** One message taken from the broker by the main loop. */
    method MainloopTurn(command: string, subject: string, message: Zmsg)
      requires Valid() && listenerThread == Polling && Decodable(message.frames)
      modifies this, message
      ensures old(m_client.sent) == m_client.sent
      ensures Valid()
      ensures State() ==
              if command == "MAILBOX DELIVER" then Next(old(State()), Deliver(subject, old(message.frames)))
              else if command == "STREAM DELIVER" then Next(old(State()), Stream(subject, old(message.frames)))
              else old(State())
    {
      if command == "MAILBOX DELIVER" {
        HandleMailbox(subject, message);
      } else if command == "STREAM DELIVER" {
        HandleStream(subject, message);
      }
    }
  }
}

/** The example responder as code. */
module QueryListenerCode {
  import opened MessageCodec
  import opened ByteStrings
  import opened Responder
  import opened MalamuteClass

  /** `data >> fooBar`: takes the two front items off the user data. */
  method PopFooBar(data: seq<string>) returns (foo: string, bar: string, rest: seq<string>)
    requires |data| >= 2
    ensures data == [foo, bar] + rest
  {
    foo, bar, rest := data[0], data[1], data[2..];
  }

  method BuildReply(message: Message, bar: string) returns (response: Message)
    requires Answered(message) && bar == message.userData[1]
    ensures response == QueryReply(message)
  {
    var data2 := ["status::ok", CStr(bar)];
    var metaData: MetaData := map[];
    metaData := Emplace(metaData, SUBJECT, "response");
    metaData := Emplace(metaData, TO, message.metaData[FROM]);
    metaData := Emplace(metaData, CORRELATION_ID, message.metaData[CORRELATION_ID]);
    assert SUBJECT[1] == 's' && TO[1] == 't' && CORRELATION_ID[1] == 'c';
    response := Message(metaData, data2);
  }

  method QueryListener(receiver: MessageBusMalamute, message: Message)
    requires HandlerDefined(message)
    modifies receiver.m_client
    ensures receiver.State() == old(receiver.State())
    ensures receiver.m_client.sent == old(receiver.m_client.sent) + QueryOutput(message)
  {
    var foo, bar, _ := PopFooBar(message.userData);
    if |message.metaData| != 0 {
      var response := BuildReply(message, bar);
      var _ := receiver.SendReply(message.metaData[REPLY_TO], response);
    }
  }
}

/** Where messages go: from the arguments of a send to the listener that is called. */
module BusRouting {
  import opened ByteStrings
  import opened MessageCodec
  import opened BusModel
  import opened BusProtocol
  import opened Responder
  import opened Subscriptions

  // ------------------------------------------------------- mailbox deliveries

  /** The bus takes messages with this id as the response to a request. */
  predicate Awaits(b: Bus, m: Message) { b.syncUuid != "" && HasId(m, b.syncUuid) }

  /** A delivered message that is not awaited goes to the listener bound to its
      subject, and to no other, or is skipped; nothing else changes. */
  lemma UnawaitedDispatched(b: Bus, subject: string, frames: seq<string>, callback: Listener)
    requires b.listener == Polling && Decodable(frames) && !Awaits(b, Decode(frames))
    ensures ValidRun(b, [Deliver(subject, frames), Test, Dispatch])
    ensures var b', m := Execute(b, [Deliver(subject, frames), Test, Dispatch]), Decode(frames);
            && b' == b.(delivered := b.delivered + [m], consumed := b'.consumed)
            && (b'.consumed == b.consumed + [Called(callback, subject, m)] <==> Bound(b, subject, callback))
            && (b'.consumed == b.consumed + [Skipped(subject, m)] <==> subject !in b.subscriptions)
  {
    var m, deliver := Decode(frames), Deliver(subject, frames);
    var b1 := b.(delivered := b.delivered + [m], listener := Received(subject, m));
    var b2 := b1.(listener := Unmatched(subject, m));
    assert Next(b, deliver) == b1 && Next(b1, Test) == b2;
    Prepend(b2, Dispatch, []);
    Prepend(b1, Test, [Dispatch]);
    Prepend(b, deliver, [Test, Dispatch]);
    assert [deliver] + [Test, Dispatch] == [deliver, Test, Dispatch] && [Test] + [Dispatch] == [Test, Dispatch];
    ConsumeMeaning(b, subject, m, callback);
    LastOf(b.consumed, Consume(b, subject, m), Called(callback, subject, m), Skipped(subject, m));
  }

  /** The message tested when `k` messages had been dealt with is on its way to be, or
      has been, taken as a response. */
  predicate TakenAsResponse(b: Bus, m: Message, k: nat) {
    || (|b.consumed| == k && (b.listener == Matched(m) || b.listener == Stored(m)))
    || (|b.consumed| > k && b.consumed[k] == AsResponse(m))
  }

  lemma {:induction false} StaysTakenAsResponse(b: Bus, run: seq<Action>, m: Message, k: nat)
    requires TakenAsResponse(b, m, k) && ValidRun(b, run)
    ensures TakenAsResponse(Execute(b, run), m, k)
    decreases |run|
  {
    if run != [] {
      TakenStep(b, run[0]);
      StaysTakenAsResponse(Next(b, run[0]), run[1..], m, k);
    }
  }

  /** A delivered message that is awaited is taken as a response in every
      continuation, whether or not a request is pending, and given to no listener. */
  lemma AwaitedTaken(b: Bus, subject: string, frames: seq<string>, rest: seq<Action>)
    requires b.listener == Polling && Decodable(frames) && Awaits(b, Decode(frames))
    requires ValidRun(b, [Deliver(subject, frames), Test]) ==>
               ValidRun(Execute(b, [Deliver(subject, frames), Test]), rest)
    ensures ValidRun(b, [Deliver(subject, frames), Test])
    ensures var b' := Execute(b, [Deliver(subject, frames), Test]);
            b'.listener == Matched(Decode(frames)) && TakenAsResponse(Execute(b', rest), Decode(frames), |b.consumed|)
  {
    var m, deliver := Decode(frames), Deliver(subject, frames);
    var b1 := b.(delivered := b.delivered + [m], listener := Received(subject, m));
    assert Next(b, deliver) == b1 && Next(b1, Test) == b1.(listener := Matched(m));
    Prepend(b1, Test, []);
    Prepend(b, deliver, [Test]);
    assert [deliver] + [Test] == [deliver, Test];
    StaysTakenAsResponse(b1.(listener := Matched(m)), rest, m, |b.consumed|);
  }

  lemma MatchedCommitted(b: Bus)
    requires b.listener.Matched? && b.mutex == Nobody
    ensures ValidRun(b, [Store, Clear])
    ensures var b' := Execute(b, [Store, Clear]);
            && b'.consumed == b.consumed + [AsResponse(b.listener.message)]
            && b'.syncResponse == b.listener.message
            && b'.syncUuid == "" && b'.listener == Polling && b'.mutex == Nobody
  {
    var b1 := Next(b, Store);
    Prepend(b1, Clear, []);
    Prepend(b, Store, [Clear]);
    assert [Store] + [Clear] == [Store, Clear];
  }

  /** When no request holds the lock it is indeed committed, and the id is used up. */
  lemma AwaitedCommitted(b: Bus, subject: string, frames: seq<string>)
    requires b.listener == Polling && b.mutex == Nobody && Decodable(frames) && Awaits(b, Decode(frames))
    ensures ValidRun(b, [Deliver(subject, frames), Test, Store, Clear])
    ensures var b', m := Execute(b, [Deliver(subject, frames), Test, Store, Clear]), Decode(frames);
            && b'.consumed == b.consumed + [AsResponse(m)] && b'.syncResponse == m
            && b'.syncUuid == "" && b'.listener == Polling && b'.mutex == Nobody
  {
    var m, deliver := Decode(frames), Deliver(subject, frames);
    var b1 := b.(delivered := b.delivered + [m], listener := Received(subject, m));
    var b2 := b1.(listener := Matched(m));
    assert Next(b, deliver) == b1 && Next(b1, Test) == b2;
    MatchedCommitted(b2);
    Prepend(b1, Test, [Store, Clear]);
    Prepend(b, deliver, [Test, Store, Clear]);
    assert [Test] + [Store, Clear] == [Test, Store, Clear];
    assert [deliver] + [Test, Store, Clear] == [deliver, Test, Store, Clear];
  }

  // --------------------------------------------------- refused requests

  /** A request without an id is refused and publishes nothing; one with an id but
      without TO is refused with its id published, and the next message delivered
      with that id is taken as a response and given to no listener. */
  lemma RefusedRequest(b: Bus, queue: string, m: Message, timeout: int,
                       subject: string, frames: seq<string>, rest: seq<Action>)
    requires BusInv(b) && b.request == Ready
    ensures CORRELATION_ID !in m.metaData || m.metaData[CORRELATION_ID] == "" ==>
              Next(b, Begin(queue, m, timeout)) == b.(outcomes := b.outcomes + [NoCorrelationId])
    ensures CORRELATION_ID in m.metaData && m.metaData[CORRELATION_ID] != ""
            && (TO !in m.metaData || m.metaData[TO] == "") ==>
              var b', id := Next(b, Begin(queue, m, timeout)), m.metaData[CORRELATION_ID];
              && b'.syncUuid == id && b'.request == Ready && b'.outcomes == b.outcomes + [NoTo(id)]
              && b'.begun == b.begun + 1
              && b' == b.(syncUuid := b'.syncUuid, outcomes := b'.outcomes, begun := b'.begun)
              && (b.listener == Polling && Decodable(frames) && HasId(Decode(frames), id) ==>
                    && ValidRun(b', [Deliver(subject, frames), Test])
                    && (ValidRun(Execute(b', [Deliver(subject, frames), Test]), rest) ==>
                          TakenAsResponse(Execute(Execute(b', [Deliver(subject, frames), Test]), rest),
                                          Decode(frames), |b.consumed|))
                    && ValidRun(b', [Deliver(subject, frames), Test, Store, Clear])
                    && Execute(b', [Deliver(subject, frames), Test, Store, Clear]).consumed ==
                       b.consumed + [AsResponse(Decode(frames))])
  {
    var b' := Next(b, Begin(queue, m, timeout));
    if b.listener == Polling && Decodable(frames) && Awaits(b', Decode(frames)) {
      AwaitedTaken(b', subject, frames, []);
      AwaitedCommitted(b', subject, frames);
      if ValidRun(Execute(b', [Deliver(subject, frames), Test]), rest) { AwaitedTaken(b', subject, frames, rest); }
    }
  }

  // ------------------------------------------------------------ routing

  /** The field of the message, if it is there and not empty, else the default. */
  function FieldOr(m: Message, field: string, default: string): string {
    if field in m.metaData && m.metaData[field] != "" then m.metaData[field] else default
  }

  /** The step is an asynchronous request of this message on this queue. */
  predicate Requests(b: Bus, a: Action, queue: string, m: Message) {
    || a == SendRequest(queue, m)
    || (a.SendBound? && a.ticket in b.unsent
        && b.unsent[a.ticket].queue == queue && b.unsent[a.ticket].message == m)
  }

  /** One envelope, to that mailbox under that subject, whose frames decode to `m`. */
  predicate Carried(out: seq<Envelope>, address: string, subject: string, m: Message) {
    && |out| == 1 && out[0].to == CStr(address) && out[0].subject == CStr(subject)
    && Decodable(out[0].frames) && Decode(out[0].frames) == m
  }

  /** An asynchronous request goes to the mailbox named by TO, or by the queue if
      there is no TO, under the name of the queue. */
  lemma RequestRouted(b: Bus, a: Action, queue: string, m: Message)
    requires Requests(b, a, queue, m) && METADATA_END !in m.metaData
    ensures Enabled(b, a) && Carried(Output(b, a), FieldOr(m, TO, queue), queue, m)
  {
    RoundTrip(m);
  }

  /** A reply goes to the mailbox named by TO under the name of the reply queue; one
      without a correlation id is not sent. */
  lemma ReplyRouted(b: Bus, queue: string, m: Message)
    requires FieldOr(m, CORRELATION_ID, "") != "" ==> TO in m.metaData
    ensures Enabled(b, SendReply(queue, m)) && Next(b, SendReply(queue, m)) == b
    ensures FieldOr(m, CORRELATION_ID, "") == "" ==> Output(b, SendReply(queue, m)) == []
    ensures FieldOr(m, CORRELATION_ID, "") != "" && METADATA_END !in m.metaData ==>
              Carried(Output(b, SendReply(queue, m)), m.metaData[TO], queue, m)
  {
    RoundTrip(m);
  }

  /** An envelope that carries a message to a bus, once delivered there while its id
      is not awaited, calls exactly the listener bound to the subject. */
  lemma CarriedIsDispatched(out: seq<Envelope>, b: Bus, subject: string, m: Message, callback: Listener)
    requires Carried(out, b.clientName, subject, m) && b.listener == Polling && !Awaits(b, m)
    ensures var frames := out[0].frames;
            && out == [Envelope(CStr(b.clientName), CStr(subject), frames)]
            && ValidRun(b, [Deliver(CStr(subject), frames), Test, Dispatch])
            && var b' := Execute(b, [Deliver(CStr(subject), frames), Test, Dispatch]);
               && (b'.consumed == b.consumed + [Called(callback, CStr(subject), m)] <==>
                   Bound(b, CStr(subject), callback))
               && (b'.consumed == b.consumed + [Skipped(CStr(subject), m)] <==>
                   CStr(subject) !in b.subscriptions)
  {
    UnawaitedDispatched(b, CStr(subject), out[0].frames, callback);
  }

  /** An asynchronous request, delivered to the bus it is addressed to, reaches
      exactly the listener that bus has bound to the queue. */
  lemma RequestReachesListener(sender: Bus, a: Action, queue: string, m: Message, b: Bus, callback: Listener)
    requires Requests(sender, a, queue, m) && METADATA_END !in m.metaData
    requires CStr(b.clientName) == CStr(FieldOr(m, TO, queue)) && b.listener == Polling && !Awaits(b, m)
    ensures Enabled(sender, a) && |Output(sender, a)| == 1
    ensures var frames := Output(sender, a)[0].frames;
            && Output(sender, a) == [Envelope(CStr(b.clientName), CStr(queue), frames)]
            && ValidRun(b, [Deliver(CStr(queue), frames), Test, Dispatch])
            && (Execute(b, [Deliver(CStr(queue), frames), Test, Dispatch]).consumed ==
                b.consumed + [Called(callback, CStr(queue), m)]
                <==> Bound(b, CStr(queue), callback))
  {
    RequestRouted(sender, a, queue, m);
    CarriedIsDispatched(Output(sender, a), b, queue, m, callback);
  }

  /** So does a reply, on the reply queue. */
  lemma ReplyIsDispatched(sender: Bus, queue: string, m: Message, b: Bus, callback: Listener)
    requires FieldOr(m, CORRELATION_ID, "") != "" && TO in m.metaData && METADATA_END !in m.metaData
    requires CStr(b.clientName) == CStr(m.metaData[TO]) && b.listener == Polling && !Awaits(b, m)
    ensures Enabled(sender, SendReply(queue, m)) && |Output(sender, SendReply(queue, m))| == 1
    ensures var frames := Output(sender, SendReply(queue, m))[0].frames;
            && Output(sender, SendReply(queue, m)) == [Envelope(CStr(b.clientName), CStr(queue), frames)]
            && ValidRun(b, [Deliver(CStr(queue), frames), Test, Dispatch])
            && (Execute(b, [Deliver(CStr(queue), frames), Test, Dispatch]).consumed ==
                b.consumed + [Called(callback, CStr(queue), m)]
                <==> Bound(b, CStr(queue), callback))
  {
    ReplyRouted(sender, queue, m);
    CarriedIsDispatched(Output(sender, SendReply(queue, m)), b, queue, m, callback);
  }

  // ------------------------------------- listener-bearing requests, answered

  /** What the query listener sends: the reply to its query, on the query's REPLY_TO,
      to the query's FROM; nothing without an id or without metadata. */
  lemma AnswerRouted(m: Message)
    requires HandlerDefined(m)
    ensures FieldOr(m, CORRELATION_ID, "") == "" ==> QueryOutput(m) == []
    ensures FieldOr(m, CORRELATION_ID, "") != "" ==>
              && Answered(m) && RepliesTo(m, QueryReply(m))
              && Carried(QueryOutput(m), m.metaData[FROM], m.metaData[REPLY_TO], QueryReply(m))
              && HasId(QueryReply(m), m.metaData[CORRELATION_ID])
  {
    if Answered(m) {
      ReplyNotAnswered(m);
      RoundTrip(QueryReply(m));
    }
  }

  lemma {:induction false} SameName(b: Bus, run: seq<Action>)
    requires ValidRun(b, run)
    ensures Execute(b, run).clientName == b.clientName
    decreases |run|
  {
    if run != [] { SameName(Next(b, run[0]), run[1..]); }
  }

  lemma NoNulUncut(s: string)
    requires '\0' !in s
    ensures CStr(s) == s
  {
    assert s == CStr(s) + s[|CStr(s)|..];
  }

  /** The answer to a query from this bus is one envelope; delivered while its id is not
      awaited, it calls exactly the listener bound to the query's REPLY_TO as cut at its
      first NUL. */
  lemma AnswerDispatched(b: Bus, m: Message, callback: Listener)
    requires HandlerDefined(m) && FieldOr(m, CORRELATION_ID, "") != ""
    requires CStr(m.metaData[FROM]) == CStr(b.clientName)
    requires b.listener == Polling && b.syncUuid != m.metaData[CORRELATION_ID]
    ensures |QueryOutput(m)| == 1
    ensures var frames, name := QueryOutput(m)[0].frames, CStr(m.metaData[REPLY_TO]);
            && QueryOutput(m) == [Envelope(CStr(b.clientName), name, frames)]
            && Decodable(frames) && RepliesTo(m, Decode(frames))
            && ValidRun(b, [Deliver(name, frames), Test, Dispatch])
            && (Execute(b, [Deliver(name, frames), Test, Dispatch]).consumed ==
                b.consumed + [Called(callback, name, Decode(frames))]
                <==> Bound(b, name, callback))
  {
    AnswerRouted(m);
    CarriedIsDispatched(QueryOutput(m), b, m.metaData[REPLY_TO], QueryReply(m), callback);
  }

  /** A listener-bearing request, once answered, reaches the listener it was given: in
      every run from the binding on that does not unsubscribe the reply queue, the
      answer of the query listener is one envelope to this bus, and its delivery calls
      exactly that listener with the reply to this request, if and only if the name of
      the reply queue has no NUL, or what precedes it is bound to that listener too. */
  lemma AnswerReachesListener(b: Bus, queue: string, m: Message, callback: Listener, run: seq<Action>, b': Bus)
    requires TicketsGiven(b) && CanBind(b, m)
    requires ValidRun(Next(b, BindReply(queue, m, callback)), run) && NeverRemoved(run, m.metaData[REPLY_TO])
    requires b' == Execute(Next(b, BindReply(queue, m, callback)), run)
    requires HandlerDefined(m) && FieldOr(m, CORRELATION_ID, "") != ""
    requires CStr(m.metaData[FROM]) == CStr(b.clientName)
    requires b'.listener == Polling && b'.syncUuid != m.metaData[CORRELATION_ID]
    ensures |QueryOutput(m)| == 1
    ensures var frames, name := QueryOutput(m)[0].frames, CStr(m.metaData[REPLY_TO]);
            && QueryOutput(m) == [Envelope(CStr(b.clientName), name, frames)]
            && Decodable(frames) && RepliesTo(m, Decode(frames))
            && ValidRun(b', [Deliver(name, frames), Test, Dispatch])
            && (Execute(b', [Deliver(name, frames), Test, Dispatch]).consumed ==
                b'.consumed + [Called(callback, name, Decode(frames))]
                <==> ('\0' !in m.metaData[REPLY_TO] || Bound(b', name, callback)))
  {
    BindKeepsName(b, queue, m, callback);
    SameName(Next(b, BindReply(queue, m, callback)), run);
    ReplyReachesListener(b, queue, m, callback, run);
    if '\0' !in m.metaData[REPLY_TO] { NoNulUncut(m.metaData[REPLY_TO]); }
    AnswerDispatched(b', m, callback);
  }

  lemma BindKeepsName(b: Bus, queue: string, m: Message, callback: Listener)
    ensures Next(b, BindReply(queue, m, callback)).clientName == b.clientName
  {
  }
}

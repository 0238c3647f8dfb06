/** Request and reply end to end: a bus that calls `request()`, a bus whose
    listener is `queryListener`, the rest of the world, and a broker that keeps
    every message ever sent and may deliver it never, once or again, in any order. */
module Rpc {
  import opened Options
  import opened ByteStrings
  import opened MessageCodec
  import opened BusModel
  import opened BusProtocol
  import opened Responder

  /** The listener identity under which `queryListener` is registered. */
  const QUERY: Listener := 0

  datatype Call = Call(message: Message, timeout: int)

  datatype System = System(
    net: set<Envelope>,            // everything ever handed to the broker
    requester: Bus,
    responder: Bus,
    calls: map<string, Call>,      // history: what request() was given, by correlation id
    seen: set<string>)             // history: every correlation id that has been used

  datatype SysAction =
    | AtRequester(step: Action)
    | AtResponder(step: Action)
    | Elsewhere(envelope: Envelope)   // any other client sends

  function SysInit(requesterName: string, responderName: string): System {
    System({}, Init(requesterName), Init(responderName), map[], {})
  }

  function IdOf(frames: seq<string>): Option<string> {
    if Decodable(frames) && CORRELATION_ID in Decode(frames).metaData
    then Some(Decode(frames).metaData[CORRELATION_ID]) else None
  }

  /** The id of a pending or past call of `request()` is not used by anyone else. */
  predicate Unreserved(s: System, envelopes: seq<Envelope>) {
    forall e | e in envelopes :: IdOf(e.frames).Some? ==> IdOf(e.frames).value !in s.calls
  }

  predicate FromBroker(s: System, b: Bus, a: Action) {
    a.Deliver? ==> Envelope(CStr(b.clientName), a.subject, a.frames) in s.net
  }

  /** Does the listener call `queryListener` in this step, and on what? */
  predicate Queried(b: Bus, a: Action) {
    && a.Dispatch? && b.listener.Unmatched?
    && b.listener.subject in b.subscriptions && b.subscriptions[b.listener.subject] == QUERY
  }

  /** What the steps of the system are allowed to be: ids given to `request()` are
      fresh, nobody forges an id in use, the wait does not wake spuriously, and no
      request starts while the listener holds an earlier reply. */
  predicate SysEnabled(s: System, a: SysAction) {
    match a
    case AtRequester(step) =>
      && Enabled(s.requester, step) && FromBroker(s, s.requester, step) && Safe(s.requester, step)
      && (step.Begin? && HasField(step.message, CORRELATION_ID) ==>
            step.message.metaData[CORRELATION_ID] !in s.seen)
      && (!step.Send? ==> Unreserved(s, Output(s.requester, step)))
    case AtResponder(step) =>
      && Enabled(s.responder, step) && FromBroker(s, s.responder, step)
      && !step.Begin?
      && Unreserved(s, Output(s.responder, step))
      && (Queried(s.responder, step) ==> HandlerDefined(s.responder.listener.message))
    case Elsewhere(e) => Unreserved(s, [e])
  }

  function IdsOf(envelopes: seq<Envelope>): set<string> {
    set e | e in envelopes && IdOf(e.frames).Some? :: IdOf(e.frames).value
  }

  function Broadcast(s: System, envelopes: seq<Envelope>): System {
    s.(net := s.net + (set e | e in envelopes), seen := s.seen + IdsOf(envelopes))
  }

  function SysNext(s: System, a: SysAction): System
    requires SysEnabled(s, a)
  {
    match a
    case AtRequester(step) =>
      var s1 := Broadcast(s, Output(s.requester, step)).(requester := Next(s.requester, step));
      if step.Begin? && HasField(step.message, CORRELATION_ID) then
        var id := step.message.metaData[CORRELATION_ID];
        s1.(calls := s.calls[id := Call(step.message, step.timeout)], seen := s1.seen + {id})
      else s1
    case AtResponder(step) =>
      var out := if Queried(s.responder, step) then QueryOutput(s.responder.listener.message)
                 else Output(s.responder, step);
      Broadcast(s, out).(responder := Next(s.responder, step))
    case Elsewhere(e) => Broadcast(s, [e])
  }

  predicate SysValid(s: System, run: seq<SysAction>)
    decreases |run|
  {
    run == [] || (SysEnabled(s, run[0]) && SysValid(SysNext(s, run[0]), run[1..]))
  }

  function SysExecute(s: System, run: seq<SysAction>): System
    requires SysValid(s, run)
    decreases |run|
  {
    if run == [] then s else SysExecute(SysNext(s, run[0]), run[1..])
  }

  // ------------------------------------------------------------ what is sent

  /** The request as it enters the network: TIMEOUT and REPLY_TO added unless the
      caller has set them. */
  function Request(call: Call, clientName: string): Message {
    WithReplyTo(WithTimeout(call.message, call.timeout), clientName)
  }

  /** A message that carries the id of a call is that call's request, or the
      responder's reply to it. */
  predicate Genuine(m: Message, call: Call, clientName: string) {
    var request := Request(call, clientName);
    m == request || (Answered(request) && m == QueryReply(request))
  }

  /** The same, told from the envelope: only the reply may go elsewhere than TO. */
  predicate GenuineEnvelope(e: Envelope, call: Call, clientName: string)
    requires Decodable(e.frames)
  {
    var request := Request(call, clientName);
    || (Decode(e.frames) == request && TO in call.message.metaData && e.to == CStr(call.message.metaData[TO]))
    || (Answered(request) && Decode(e.frames) == QueryReply(request))
  }

  predicate ToSelf(call: Call, clientName: string) {
    TO in call.message.metaData && CStr(call.message.metaData[TO]) == CStr(clientName)
  }

  /** The request is addressed to the requester itself and keeps its id on the way. */
  predicate Loops(call: Call, clientName: string) {
    ToSelf(call, clientName) && METADATA_END !in call.message.metaData
  }

  /** What `request()` may return for a call: the responder's reply, or, when the
      request comes back to the requester itself, the request. */
  predicate Expected(reply: Message, call: Call, clientName: string) {
    var request := Request(call, clientName);
    || (Answered(request) && reply == QueryReply(request))
    || (Loops(call, clientName) && reply == request)
  }

  // ------------------------------------------------------------- invariant

  ghost predicate NetInv(s: System) {
    forall e | e in s.net && IdOf(e.frames).Some? ::
      && IdOf(e.frames).value in s.seen
      && (IdOf(e.frames).value in s.calls ==>
            GenuineEnvelope(e, s.calls[IdOf(e.frames).value], s.requester.clientName))
  }

  /** A message in the hands of the requester's listener. */
  predicate AtRequesterInv(s: System, m: Message) {
    CORRELATION_ID in m.metaData ==>
      var id := m.metaData[CORRELATION_ID];
      id in s.seen && (id in s.calls ==> Expected(m, s.calls[id], s.requester.clientName))
  }

  predicate AtResponderInv(s: System, m: Message) {
    CORRELATION_ID in m.metaData ==>
      var id := m.metaData[CORRELATION_ID];
      id in s.seen && (id in s.calls ==> Genuine(m, s.calls[id], s.requester.clientName))
  }

  predicate RequestInv(s: System) {
    var r := s.requester.request;
    && (Pending(r) ==> r.id in s.calls)
    && (r.Prepared? || r.Locked? ==>
          && TO in s.calls[r.id].message.metaData && r.to == s.calls[r.id].message.metaData[TO]
          && r.message == (if r.Locked? then Request(s.calls[r.id], s.requester.clientName)
                           else WithTimeout(s.calls[r.id].message, s.calls[r.id].timeout)))
    && (r.Woken? ==> HasId(s.requester.syncResponse, r.id) && AtRequesterInv(s, s.requester.syncResponse))
  }

  predicate OutcomeInv(s: System) {
    forall i | 0 <= i < |s.requester.outcomes| && s.requester.outcomes[i].Returned? ::
      var o := s.requester.outcomes[i];
      o.id in s.calls && Expected(o.reply, s.calls[o.id], s.requester.clientName)
  }

  ghost predicate SysInv(s: System) {
    && NetInv(s) && RequestInv(s) && OutcomeInv(s) && Tracked(s.requester)
    && s.calls.Keys <= s.seen
    && (forall id | id in s.calls :: HasId(s.calls[id].message, id))
    && (s.requester.listener != Polling ==> AtRequesterInv(s, s.requester.listener.message))
    && s.responder.syncUuid == "" && !s.responder.listener.Matched? && !s.responder.listener.Stored?
    && (s.responder.listener != Polling ==> AtResponderInv(s, s.responder.listener.message))
  }

  // ---------------------------------------------------- messages on the wire

  /** The END marker sorts below the correlation id, so a message that has it as
      a key loses its id on the way; any other arrives unchanged. */
  lemma IdSurvives(m: Message)
    ensures Decodable(Encode(m))
    ensures METADATA_END !in m.metaData ==> Decode(Encode(m)) == m
    ensures METADATA_END in m.metaData ==> IdOf(Encode(m)) == None
  {
    RoundTrip(m);
    if METADATA_END in m.metaData {
      IdSortsAboveEnd();
    }
  }

  lemma IdSortsAboveEnd()
    ensures !Less(CORRELATION_ID, METADATA_END)
  {
  }

  /** The request is the caller's message with TIMEOUT and REPLY_TO present: the
      caller's own values if it has set them, else the timeout as a numeral and the
      client name. */
  lemma RequestFields(call: Call, clientName: string)
    ensures var r, m := Request(call, clientName), call.message;
            && r.userData == m.userData
            && (forall k | k in m.metaData :: k in r.metaData && r.metaData[k] == m.metaData[k])
            && (forall k | k in r.metaData :: k in m.metaData || k == TIMEOUT || k == REPLY_TO)
            && TIMEOUT in r.metaData && REPLY_TO in r.metaData
            && (TIMEOUT !in m.metaData ==> r.metaData[TIMEOUT] == ToString(call.timeout))
            && (REPLY_TO !in m.metaData ==> r.metaData[REPLY_TO] == clientName)
  {
    assert TIMEOUT[1] == 't' && REPLY_TO[1] == 'r';
  }

  lemma RequestHasId(call: Call, clientName: string, id: string)
    requires HasId(call.message, id)
    ensures HasId(Request(call, clientName), id)
  {
  }

  lemma NetGrows(s: System, out: seq<Envelope>)
    requires NetInv(s)
    requires forall e | e in out && IdOf(e.frames).Some? ::
               IdOf(e.frames).value in s.calls ==>
                 GenuineEnvelope(e, s.calls[IdOf(e.frames).value], s.requester.clientName)
    ensures NetInv(Broadcast(s, out))
  {
  }

  /** The request of a pending call, as it is sent, is genuine. */
  lemma RequestIsGenuine(s: System)
    requires SysInv(s) && s.requester.request.Locked?
    ensures var e, id := RequestEnvelope(s.requester.request), s.requester.request.id;
            IdOf(e.frames).Some? ==>
              IdOf(e.frames).value == id && GenuineEnvelope(e, s.calls[id], s.requester.clientName)
  {
    var r := s.requester.request;
    IdSurvives(r.message);
    RequestHasId(s.calls[r.id], s.requester.clientName, r.id);
  }

  /** So is what the query listener sends in answer to it. */
  lemma AnswerIsGenuine(s: System, e: Envelope)
    requires SysInv(s) && s.responder.listener.Unmatched? && HandlerDefined(s.responder.listener.message)
    requires e in QueryOutput(s.responder.listener.message)
    ensures IdOf(e.frames).Some? && IdOf(e.frames).value in s.calls ==>
              GenuineEnvelope(e, s.calls[IdOf(e.frames).value], s.requester.clientName)
  {
    var m := s.responder.listener.message;
    ReplyNotAnswered(m);
    IdSurvives(QueryReply(m));
    var id := m.metaData[CORRELATION_ID];
    assert e.frames == Encode(QueryReply(m)) && IdOf(e.frames) == Some(id);
    if id in s.calls {
      var request := Request(s.calls[id], s.requester.clientName);
      assert Genuine(m, s.calls[id], s.requester.clientName);
      if Answered(request) { ReplyNotAnswered(request); }
    }
  }

  // ------------------------------------------------------- one step, by kind

  /** The parts of the invariant that speak of messages in hand survive when the
      network grows and calls stay as they are. */
  lemma InHandKept(s: System, s': System, m: Message)
    requires s'.calls == s.calls && s.seen <= s'.seen
    requires s'.requester.clientName == s.requester.clientName
    ensures AtRequesterInv(s, m) ==> AtRequesterInv(s', m)
    ensures AtResponderInv(s, m) ==> AtResponderInv(s', m)
  {
  }

  lemma ElsewhereStep(s: System, e: Envelope)
    requires SysInv(s) && SysEnabled(s, Elsewhere(e))
    ensures SysInv(SysNext(s, Elsewhere(e)))
  {
  }

  lemma DeliveredToResponder(s: System, step: Action)
    requires NetInv(s) && step.Deliver? && Enabled(s.responder, step) && FromBroker(s, s.responder, step)
    ensures AtResponderInv(s, Decode(step.frames))
  {
  }

  lemma ResponderStep(s: System, step: Action)
    requires SysInv(s) && SysEnabled(s, AtResponder(step))
    ensures SysInv(SysNext(s, AtResponder(step)))
  {
    var s' := SysNext(s, AtResponder(step));
    var out := if Queried(s.responder, step) then QueryOutput(s.responder.listener.message)
               else Output(s.responder, step);
    forall e | e in out && IdOf(e.frames).Some? && IdOf(e.frames).value in s.calls
      ensures GenuineEnvelope(e, s.calls[IdOf(e.frames).value], s.requester.clientName)
    {
      if Queried(s.responder, step) { AnswerIsGenuine(s, e); }
    }
    NetGrows(s, out);
    InHandKept(s, s', s.requester.syncResponse);
    if s.requester.listener != Polling { InHandKept(s, s', s.requester.listener.message); }
    if s.responder.listener != Polling { InHandKept(s, s', s.responder.listener.message); }
    if step.Deliver? {
      DeliveredToResponder(s, step);
      InHandKept(s, s', Decode(step.frames));
    }
    ResponderStays(s.responder, step);
  }

  lemma ResponderStays(b: Bus, step: Action)
    requires Enabled(b, step) && !step.Begin?
    requires b.syncUuid == "" && !b.listener.Matched? && !b.listener.Stored?
    ensures var b' := Next(b, step);
            && b'.syncUuid == "" && !b'.listener.Matched? && !b'.listener.Stored?
            && (b'.listener != Polling ==>
                  if step.Deliver? then b'.listener.message == Decode(step.frames)
                  else b.listener != Polling && b'.listener.message == b.listener.message)
  {
  }

  lemma DeliveredToRequester(s: System, step: Action)
    requires NetInv(s) && step.Deliver? && Enabled(s.requester, step) && FromBroker(s, s.requester, step)
    ensures AtRequesterInv(s, Decode(step.frames))
  {
    var m := Decode(step.frames);
    DecodeMeaning(step.frames, m);
    if CORRELATION_ID in m.metaData && m.metaData[CORRELATION_ID] in s.calls {
      RequestFields(s.calls[m.metaData[CORRELATION_ID]], s.requester.clientName);
    }
  }

  /** What a requester step other than the start of a request keeps. */
  lemma RequesterKeeps(b: Bus, step: Action)
    requires Enabled(b, step) && !step.Begin? && !step.Spurious?
    ensures var b' := Next(b, step);
            && b'.clientName == b.clientName
            && (Pending(b'.request) ==> Pending(b.request) && b'.request.id == b.request.id)
            && (b'.request.Woken? ==>
                  || (b.request.Woken? && (b'.syncResponse == b.syncResponse || step.Store?))
                  || step.Store?)
            && (step.Store? ==> b.listener.Matched? && b'.syncResponse == b.listener.message)
            && (b'.listener != Polling ==>
                  if step.Deliver? then b'.listener.message == Decode(step.frames)
                  else b.listener != Polling && b'.listener.message == b.listener.message)
            && (b'.outcomes == b.outcomes
                || (b.request.Woken? && b'.outcomes == b.outcomes + [Returned(b.request.id, b.syncResponse)])
                || (b.request.TimedOut? && b'.outcomes == b.outcomes + [TimeOut(b.request.id)]))
  {
  }

  lemma RequesterSends(s: System, step: Action)
    requires SysInv(s) && SysEnabled(s, AtRequester(step)) && !step.Begin?
    ensures NetInv(Broadcast(s, Output(s.requester, step)))
  {
    if step.Send? { RequestIsGenuine(s); }
    NetGrows(s, Output(s.requester, step));
  }

  lemma RequesterPending(s: System, step: Action)
    requires SysInv(s) && SysEnabled(s, AtRequester(step)) && !step.Begin?
    ensures RequestInv(SysNext(s, AtRequester(step)))
  {
    var s' := SysNext(s, AtRequester(step));
    RequesterKeeps(s.requester, step);
    TrackedStep(s.requester, step, |s.requester.outcomes|);
    InHandKept(s, s', s.requester.syncResponse);
    if s.requester.listener != Polling { InHandKept(s, s', s.requester.listener.message); }
  }

  lemma RequesterStep(s: System, step: Action)
    requires SysInv(s) && SysEnabled(s, AtRequester(step)) && !step.Begin?
    ensures SysInv(SysNext(s, AtRequester(step)))
  {
    var s' := SysNext(s, AtRequester(step));
    RequesterSends(s, step);
    RequesterPending(s, step);
    RequesterKeeps(s.requester, step);
    TrackedStep(s.requester, step, |s.requester.outcomes|);
    if s.requester.listener != Polling { InHandKept(s, s', s.requester.listener.message); }
    if s.responder.listener != Polling { InHandKept(s, s', s.responder.listener.message); }
    if step.Deliver? {
      DeliveredToRequester(s, step);
      InHandKept(s, s', Decode(step.frames));
    }
  }

  /** A fresh id changes nothing for the messages in hand: none carries it. */
  lemma FreshCall(s: System, s': System, id: string, call: Call)
    requires NetInv(s) && OutcomeInv(s) && id !in s.seen && s.calls.Keys <= s.seen
    requires s'.net == s.net && s'.calls == s.calls[id := call] && s'.seen == s.seen + {id}
    requires s'.requester.clientName == s.requester.clientName
    requires s.requester.outcomes <= s'.requester.outcomes
    requires forall i | |s.requester.outcomes| <= i < |s'.requester.outcomes| :: !s'.requester.outcomes[i].Returned?
    ensures NetInv(s') && OutcomeInv(s')
    ensures forall m :: AtRequesterInv(s, m) ==> AtRequesterInv(s', m)
    ensures forall m :: AtResponderInv(s, m) ==> AtResponderInv(s', m)
  {
  }

  lemma NothingSent(s: System)
    ensures Broadcast(s, []) == s
  {
  }

  lemma BeginStep(s: System, step: Action)
    requires SysInv(s) && SysEnabled(s, AtRequester(step)) && step.Begin?
    ensures SysInv(SysNext(s, AtRequester(step)))
  {
    var s' := SysNext(s, AtRequester(step));
    TrackedStep(s.requester, step, |s.requester.outcomes|);
    NothingSent(s);
    if HasField(step.message, CORRELATION_ID) {
      FreshCall(s, s', step.message.metaData[CORRELATION_ID], Call(step.message, step.timeout));
    }
  }

  lemma SysInvStep(s: System, a: SysAction)
    requires SysInv(s) && SysEnabled(s, a)
    ensures SysInv(SysNext(s, a))
  {
    match a
    case AtRequester(step) => if step.Begin? { BeginStep(s, step); } else { RequesterStep(s, step); }
    case AtResponder(step) => ResponderStep(s, step);
    case Elsewhere(e) => ElsewhereStep(s, e);
  }

  lemma NameKept(s: System, a: SysAction)
    requires SysEnabled(s, a)
    ensures SysNext(s, a).requester.clientName == s.requester.clientName
  {
  }

  lemma {:induction false} SysInvRun(s: System, run: seq<SysAction>)
    requires SysInv(s) && SysValid(s, run)
    ensures SysInv(SysExecute(s, run))
    ensures SysExecute(s, run).requester.clientName == s.requester.clientName
    decreases |run|
  {
    if run != [] {
      SysInvStep(s, run[0]);
      NameKept(s, run[0]);
      SysInvRun(SysNext(s, run[0]), run[1..]);
    }
  }
}

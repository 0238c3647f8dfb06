/** The bus as a transition system: one thread inside `request()`, the listener
    thread, and any other API calls, interleaved at every point where the
    threads can observe each other. The broker is left open: any message may be
    delivered at any time. */
module BusModel {
  import opened ByteStrings
  import opened MessageCodec

  /** A callback, by identity. */
  type Listener = nat

  /** What is handed to the broker: mailbox address, subject, frames. */
  datatype Envelope = Envelope(to: string, subject: string, frames: seq<string>)

  /** Who holds the mutex of the condition variable. */
  datatype Owner = Nobody | Requester | ListenerThread

  /** Where the thread inside `request()` stands. */
  datatype RequestPc =
    | Ready
    | Prepared(id: string, queue: string, to: string, message: Message)   // id stored, TIMEOUT added; lock not taken
    | Locked(id: string, queue: string, to: string, message: Message)     // REPLY_TO added; not sent yet
    | Sent(id: string)                                                    // still holds the lock
    | Waiting(id: string)                                                 // in the wait set
    | TimedOut(id: string)                                                // must take the lock again, will throw
    | Woken(id: string)                                                   // must take the lock again, will return

  /** Where the listener thread stands. */
  datatype ListenerPc =
    | Polling
    | Received(subject: string, message: Message)    // decoded, id not tested yet
    | Matched(message: Message)                      // id tested equal, lock not taken yet
    | Stored(message: Message)                       // response stored and notified, lock held, id not cleared yet
    | Unmatched(subject: string, message: Message)   // about to look for a subscription

  /** How a call of `request()` ended. */
  datatype Outcome =
    | NoCorrelationId
    | NoTo(id: string)
    | TimeOut(id: string)
    | Returned(id: string, reply: Message)

  /** What became of a delivered message. */
  datatype Consumed =
    | AsResponse(message: Message)
    | Called(callee: Listener, subject: string, message: Message)
    | Skipped(subject: string, message: Message)

  /** A listener-bearing request whose reply queue is bound, still to be sent. */
  datatype BoundRequest = BoundRequest(queue: string, message: Message, callback: Listener)

  /** The fields after `listener` are history. */
  datatype Bus = Bus(
    clientName: string,
    subscriptions: map<string, Listener>,
    unsent: map<nat, BoundRequest>,   // by ticket
    tickets: nat,                     // tickets given out
    syncUuid: string,
    syncResponse: Message,
    mutex: Owner,
    request: RequestPc,
    listener: ListenerPc,
    outcomes: seq<Outcome>,      // of request(), in order
    begun: nat,                  // requests that passed the correlation id check
    delivered: seq<Message>,     // mailbox messages taken from the broker, in order
    consumed: seq<Consumed>,     // mailbox messages dealt with, in order
    streamed: seq<Consumed>)     // stream messages dealt with

  function Init(clientName: string): Bus {
    Bus(clientName, map[], map[], 0, "", EMPTY_MESSAGE, Nobody, Ready, Polling, [], 0, [], [], [])
  }

  /** Every request bound but unsent has a ticket given out before. */
  predicate TicketsGiven(b: Bus) { forall t | t in b.unsent :: t < b.tickets }

  datatype Action =
    | Begin(queue: string, message: Message, timeout: int)
    | Lock
    | Send
    | Park
    | Timer
    | Spurious
    | Resume
    | Deliver(subject: string, frames: seq<string>)
    | Test
    | Store
    | Clear
    | Dispatch
    | Stream(subject: string, frames: seq<string>)
    | Subscribe(topic: string, consumerSet: bool, callback: Listener)
    | Unsubscribe(topic: string)
    | Receive(queue: string, callback: Listener)
    | SendRequest(queue: string, message: Message)
    | BindReply(queue: string, message: Message, callback: Listener)
    | SendBound(ticket: nat)
    | SendReply(queue: string, message: Message)

  // ------------------------------------------------------------- request()

  function WithTimeout(m: Message, timeout: int): Message {
    Message(Emplace(m.metaData, TIMEOUT, ToString(timeout)), m.userData)
  }

  function WithReplyTo(m: Message, clientName: string): Message {
    Message(Emplace(m.metaData, REPLY_TO, clientName), m.userData)
  }

  /** The id is published before TO is checked, and stays when the check fails. */
  function BeginRequest(b: Bus, queue: string, m: Message, timeout: int): Bus {
    if !HasField(m, CORRELATION_ID) then b.(outcomes := b.outcomes + [NoCorrelationId])
    else
      var id := m.metaData[CORRELATION_ID];
      var b1 := b.(syncUuid := id, begun := b.begun + 1);
      if !HasField(m, TO) then b1.(outcomes := b.outcomes + [NoTo(id)])
      else b1.(request := Prepared(id, queue, m.metaData[TO], WithTimeout(m, timeout)))
  }

  function LockRequest(b: Bus): Bus
    requires b.request.Prepared?
  {
    var r := b.request;
    b.(mutex := Requester, request := Locked(r.id, r.queue, r.to, WithReplyTo(r.message, b.clientName)))
  }

  function RequestEnvelope(r: RequestPc): Envelope
    requires r.Locked?
  {
    Envelope(CStr(r.to), CStr(r.queue), Encode(r.message))
  }

  function ResumeRequest(b: Bus): Bus
    requires b.request.TimedOut? || b.request.Woken?
  {
    var outcome := if b.request.TimedOut? then TimeOut(b.request.id) else Returned(b.request.id, b.syncResponse);
    b.(request := Ready, outcomes := b.outcomes + [outcome])
  }

  // ---------------------------------------------------------- the listener

  predicate HasId(m: Message, id: string) {
    CORRELATION_ID in m.metaData && m.metaData[CORRELATION_ID] == id
  }

  function TestMessage(b: Bus): Bus
    requires b.listener.Received?
  {
    var l := b.listener;
    b.(listener := if b.syncUuid != "" && HasId(l.message, b.syncUuid)
                   then Matched(l.message) else Unmatched(l.subject, l.message))
  }

  /** `notify_one`: only a requester in the wait set is woken. */
  function Notified(r: RequestPc): RequestPc {
    if r.Waiting? then Woken(r.id) else r
  }

  function StoreResponse(b: Bus): Bus
    requires b.listener.Matched?
  {
    b.(mutex := ListenerThread, syncResponse := b.listener.message,
       request := Notified(b.request), listener := Stored(b.listener.message))
  }

  function ClearId(b: Bus): Bus
    requires b.listener.Stored?
  {
    b.(mutex := Nobody, syncUuid := "", listener := Polling,
       consumed := b.consumed + [AsResponse(b.listener.message)])
  }

  function Consume(b: Bus, subject: string, m: Message): Consumed {
    if subject in b.subscriptions then Called(b.subscriptions[subject], subject, m) else Skipped(subject, m)
  }

  function DispatchMessage(b: Bus): Bus
    requires b.listener.Unmatched?
  {
    var l := b.listener;
    b.(listener := Polling, consumed := b.consumed + [Consume(b, l.subject, l.message)])
  }

  // --------------------------------------------- subscriptions and async sends

  function ReceiveOn(b: Bus, queue: string, callback: Listener): Bus {
    b.(subscriptions := Emplace(b.subscriptions, queue, callback))
  }

  /** Where an asynchronous request goes: to TO if there is one, else to the queue. */
  function AsyncEnvelope(queue: string, m: Message): Envelope {
    Envelope(if HasField(m, TO) then CStr(m.metaData[TO]) else CStr(queue), CStr(queue), Encode(m))
  }

  /** The listener-bearing request is refused without REPLY_TO or when the reply
      queue already has a listener. */
  predicate CanBind(b: Bus, m: Message) {
    HasField(m, REPLY_TO) && m.metaData[REPLY_TO] !in b.subscriptions
  }

  /** The first half of a listener-bearing request; other threads may act before
      the second. */
  function BindReplyQueue(b: Bus, queue: string, m: Message, callback: Listener): Bus
    requires CanBind(b, m)
  {
    ReceiveOn(b, m.metaData[REPLY_TO], callback)
      .(unsent := b.unsent[b.tickets := BoundRequest(queue, m, callback)], tickets := b.tickets + 1)
  }

  function ReplyEnvelopes(queue: string, m: Message): seq<Envelope>
    requires HasField(m, CORRELATION_ID) ==> TO in m.metaData
  {
    if HasField(m, CORRELATION_ID) then [Envelope(CStr(m.metaData[TO]), CStr(queue), Encode(m))] else []
  }

  // ---------------------------------------------------------- transitions

  /** The timer may also win against a notification just received: `wait_for`
      goes by the clock. */
  predicate Enabled(b: Bus, a: Action) {
    match a
    case Begin(_, _, _) => b.request == Ready
    case Lock => b.request.Prepared? && b.mutex == Nobody
    case Send => b.request.Locked?
    case Park => b.request.Sent?
    case Timer => b.request.Waiting? || b.request.Woken?
    case Spurious => b.request.Waiting?
    case Resume => (b.request.TimedOut? || b.request.Woken?) && b.mutex == Nobody
    case Deliver(_, frames) => b.listener == Polling && Decodable(frames)
    case Test => b.listener.Received?
    case Store => b.listener.Matched? && b.mutex == Nobody
    case Clear => b.listener.Stored?
    case Dispatch => b.listener.Unmatched?
    case Stream(_, frames) => b.listener == Polling && Decodable(frames)
    case SendBound(ticket) => ticket in b.unsent
    case SendReply(_, m) => HasField(m, CORRELATION_ID) ==> TO in m.metaData
    case _ => true
  }

  function Next(b: Bus, a: Action): Bus
    requires Enabled(b, a)
  {
    match a
    case Begin(queue, m, timeout) => BeginRequest(b, queue, m, timeout)
    case Lock => LockRequest(b)
    case Send => b.(request := Sent(b.request.id))
    case Park => b.(mutex := Nobody, request := Waiting(b.request.id))
    case Timer => b.(request := TimedOut(b.request.id))
    case Spurious => b.(request := Woken(b.request.id))
    case Resume => ResumeRequest(b)
    case Deliver(subject, frames) =>
      b.(delivered := b.delivered + [Decode(frames)], listener := Received(subject, Decode(frames)))
    case Test => TestMessage(b)
    case Store => StoreResponse(b)
    case Clear => ClearId(b)
    case Dispatch => DispatchMessage(b)
    case Stream(subject, frames) => b.(streamed := b.streamed + [Consume(b, subject, Decode(frames))])
    case Subscribe(topic, consumerSet, callback) => if consumerSet then ReceiveOn(b, topic, callback) else b
    case Unsubscribe(topic) => b.(subscriptions := b.subscriptions - {topic})
    case Receive(queue, callback) => ReceiveOn(b, queue, callback)
    case SendRequest(_, _) => b
    case BindReply(queue, m, callback) => if CanBind(b, m) then BindReplyQueue(b, queue, m, callback) else b
    case SendBound(ticket) => b.(unsent := b.unsent - {ticket})
    case SendReply(_, _) => b
  }

  /** What the step hands to the broker. */
  function Output(b: Bus, a: Action): seq<Envelope>
    requires Enabled(b, a)
  {
    match a
    case Send => [RequestEnvelope(b.request)]
    case SendRequest(queue, m) => [AsyncEnvelope(queue, m)]
    case SendBound(ticket) => [AsyncEnvelope(b.unsent[ticket].queue, b.unsent[ticket].message)]
    case SendReply(queue, m) => ReplyEnvelopes(queue, m)
    case _ => []
  }

  predicate ValidRun(b: Bus, run: seq<Action>)
    decreases |run|
  {
    run == [] || (Enabled(b, run[0]) && ValidRun(Next(b, run[0]), run[1..]))
  }

  function Execute(b: Bus, run: seq<Action>): Bus
    requires ValidRun(b, run)
    decreases |run|
  {
    if run == [] then b else Execute(Next(b, run[0]), run[1..])
  }

  lemma {:induction false} ExecuteAppend(b: Bus, p: seq<Action>, q: seq<Action>)
    requires ValidRun(b, p) && ValidRun(Execute(b, p), q)
    ensures ValidRun(b, p + q) && Execute(b, p + q) == Execute(Execute(b, p), q)
    decreases |p|
  {
    if p == [] {
      assert p + q == q;
    } else {
      assert (p + q)[1..] == p[1..] + q;
      ExecuteAppend(Next(b, p[0]), p[1..], q);
    }
  }

  lemma {:induction false} RunPrefix(b: Bus, p: seq<Action>, q: seq<Action>)
    requires ValidRun(b, p + q)
    ensures ValidRun(b, p) && ValidRun(Execute(b, p), q)
    ensures Execute(b, p + q) == Execute(Execute(b, p), q)
    decreases |p|
  {
    if p == [] {
      assert p + q == q;
    } else {
      assert (p + q)[1..] == p[1..] + q;
      RunPrefix(Next(b, p[0]), p[1..], q);
    }
  }
}

/** No lost reply, end to end: the broker may lose, repeat or reorder messages, but
    the reply that reaches the requester's mailbox first is the one it returns. */
module RpcDelivery {
  import opened Options
  import opened MessageCodec
  import opened BusModel
  import opened BusProtocol
  import opened BusReplies
  import opened Responder
  import opened Rpc
  import opened RpcTheorems

  /** What the requester does in a run of the system. */
  function RequesterSteps(run: seq<SysAction>): seq<Action> {
    if run == [] then []
    else (if run[0].AtRequester? then [run[0].step] else []) + RequesterSteps(run[1..])
  }

  lemma StepsFirst(run: seq<SysAction>)
    requires run != []
    ensures var tail := RequesterSteps(run[1..]);
            RequesterSteps(run) == if run[0].AtRequester? then [run[0].step] + tail else tail
    ensures run[0].AtRequester? ==> RequesterSteps(run)[1..] == RequesterSteps(run[1..])
  {
  }

  /** The requester's side of a run of the system is a run of its bus. */
  lemma {:induction false} Projects(s: System, run: seq<SysAction>)
    requires SysValid(s, run)
    ensures ValidRun(s.requester, RequesterSteps(run))
    ensures Execute(s.requester, RequesterSteps(run)) == SysExecute(s, run).requester
    decreases |run|
  {
    if run != [] {
      StepsFirst(run);
      Projects(SysNext(s, run[0]), run[1..]);
    }
  }

  /** Every state a system can reach satisfies both invariants. */
  lemma ReachableInv(requesterName: string, responderName: string, run: seq<SysAction>)
    requires SysValid(SysInit(requesterName, responderName), run)
    ensures var s := SysExecute(SysInit(requesterName, responderName), run); SysInv(s) && BusInv(s.requester)
  {
    var s := SysInit(requesterName, responderName);
    SysInvRun(s, run);
    Projects(s, run);
    BusInvRun(s.requester, RequesterSteps(run));
  }

  /** What the responder sends while it holds no message with this id. */
  lemma AnswersOthers(s: System, step: Action, id: string, e: Envelope)
    requires SysEnabled(s, AtResponder(step)) && id in s.calls && ListenerAvoids(s.responder, id)
    requires e in if Queried(s.responder, step) then QueryOutput(s.responder.listener.message)
                  else Output(s.responder, step)
    ensures IdOf(e.frames) != Some(id)
  {
    if Queried(s.responder, step) {
      var m := s.responder.listener.message;
      ReplyNotAnswered(m);
      IdSurvives(QueryReply(m));
      assert e.frames == Encode(QueryReply(m));
    }
  }

  /** A step of a bus puts nothing in its listener's hands but what it is delivered. */
  lemma AvoidsStep(b: Bus, step: Action, id: string)
    requires Enabled(b, step) && ListenerAvoids(b, id)
    requires step.Deliver? ==> !HasId(Decode(step.frames), id)
    ensures ListenerAvoids(Next(b, step), id)
  {
  }

  /** Until the request is sent, nothing else carries its id. */
  lemma UntouchedStep(s: System, a: SysAction, id: string)
    requires Untouched(s, id) && SysEnabled(s, a) && id in s.calls
    requires s.requester.request.Prepared? && s.requester.request.id == id
    ensures Untouched(SysNext(s, a), id)
  {
    match a
    case AtRequester(step) =>
      assert step.Deliver? ==> IdOf(step.frames) != Some(id);
      AvoidsStep(s.requester, step, id);
    case AtResponder(step) =>
      forall e | e in (if Queried(s.responder, step) then QueryOutput(s.responder.listener.message)
                       else Output(s.responder, step))
        ensures IdOf(e.frames) != Some(id)
      {
        AnswersOthers(s, step, id, e);
      }
      assert step.Deliver? ==> IdOf(step.frames) != Some(id);
      AvoidsStep(s.responder, step, id);
    case Elsewhere(e) =>
  }

  /** So with a fresh id no reply is committed before the lock is taken. */
  lemma {:induction false} FreshNeverEarly(s: System, run: seq<SysAction>, id: string)
    requires SysInv(s) && SysValid(s, run) && OneRequest(RequesterSteps(run))
    requires ValidRun(s.requester, RequesterSteps(run))
    requires s.requester.request.Prepared? ==> s.requester.request.id == id && id in s.calls && Untouched(s, id)
    ensures !CommitsEarly(s.requester, RequesterSteps(run))
    decreases |run|
  {
    if run != [] {
      var a := run[0];
      var s' := SysNext(s, a);
      StepsFirst(run);
      if !s.requester.request.Prepared? {
        NotEarlyOnceLocked(s.requester, RequesterSteps(run));
      } else {
        SysInvStep(s, a);
        UntouchedStep(s, a, id);
        if a.AtRequester? {
          assert a.step == RequesterSteps(run)[0];
          assert !a.step.Begin?;
          NotEarlyHere(s.requester, a.step, id);
          assert forall i | 0 <= i < |RequesterSteps(run[1..])| ::
              RequesterSteps(run[1..])[i] == RequesterSteps(run)[i + 1];
        }
        CallKept(s, a, id);
        FreshNeverEarly(s', run[1..], id);
      }
    }
  }

  lemma NotEarlyHere(b: Bus, step: Action, id: string)
    requires Tracked(b) && ListenerAvoids(b, id) && b.request.Prepared? && b.request.id == id
    requires Enabled(b, step) && !step.Begin?
    ensures !step.Store?
    ensures Next(b, step).request.Prepared? ==> Next(b, step).request.id == id
  {
  }

  lemma CallKept(s: System, a: SysAction, id: string)
    requires SysInv(s) && SysEnabled(s, a) && id in s.calls
    ensures id in SysNext(s, a).calls && SysNext(s, a).calls[id] == s.calls[id]
    ensures SysNext(s, a).requester.clientName == s.requester.clientName
  {
    CallStep(s, a, id);
    NameKept(s, a);
  }

  /** The first message delivered with the id of a call is one it may return. */
  lemma {:induction false} FirstOwnExpected(s: System, run: seq<SysAction>, id: string)
    requires SysInv(s) && SysValid(s, run) && id in s.calls
    ensures var first := FirstOwn(RequesterSteps(run), id);
            first.Some? ==> HasId(first.value, id) && Expected(first.value, s.calls[id], s.requester.clientName)
    decreases |run|
  {
    if run != [] {
      var a := run[0];
      StepsFirst(run);
      if a.AtRequester? && a.step.Deliver? { DeliveredToRequester(s, a.step); }
      SysInvStep(s, a);
      CallKept(s, a, id);
      FirstOwnExpected(SysNext(s, a), run[1..], id);
    }
  }

  /** From the start of any call that can be made, in every run of the system in which
      its wait does not expire: until a message with its id is delivered the call can
      be answered, and from then on that message is on its way and is what the call
      returns; for a call that does not come back to the requester itself it is the
      responder's reply. Loss, repetition and reordering by the broker, other clients
      and the responder's other business make no difference. */
  lemma NoLostReply(s: System, queue: string, m: Message, timeout: int, run: seq<SysAction>)
    requires CanCall(s, m) && !s.requester.listener.Stored? && SysValid(Started(s, queue, m, timeout), run)
    requires OneRequest(RequesterSteps(run)) && Unexpired(RequesterSteps(run))
    ensures var b, id, k := SysExecute(Started(s, queue, m, timeout), run).requester, m.metaData[CORRELATION_ID],
                            |s.requester.outcomes|;
            match FirstOwn(RequesterSteps(run), id)
            case None => AwaitingReply(b, id, k)
            case Some(reply) =>
              ReplyUnderWay(b, id, reply, k)
              && (!Loops(Call(m, timeout), s.requester.clientName) ==> RepliesTo(m, reply))
  {
    var s1, id := Started(s, queue, m, timeout), m.metaData[CORRELATION_ID];
    var steps := RequesterSteps(run);
    CallStarts(s, queue, m, timeout);
    FreshIdUntouched(s, queue, m, timeout);
    Projects(s1, run);
    FreshNeverEarly(s1, run, id);
    FirstReplyReturned(s1.requester, steps, id, |s.requester.outcomes|);
    FirstOwnExpected(s1, run, id);
    var first := FirstOwn(steps, id);
    if first.Some? && !Loops(Call(m, timeout), s.requester.clientName) {
      ExpectedMeaning(first.value, Call(m, timeout), s.requester.clientName);
    }
  }

  /** And the reply gets there: until the call has returned, the system always allows
      a step of the requester's threads that brings it nearer. */
  lemma ReplyAdvances(s: System, id: string, m: Message, k: nat) returns (a: Action)
    requires SysInv(s) && BusInv(s.requester) && HasId(m, id) && id != ""
    requires ReplyUnderWay(s.requester, id, m, k) && s.requester.request != Ready
    ensures SysEnabled(s, AtRequester(a)) && !a.Timer?
    ensures Distance(SysNext(s, AtRequester(a)).requester) < Distance(s.requester)
  {
    a := ReplyComesNearer(s.requester, id, m, k);
    if !a.Send? { assert Output(s.requester, a) == []; }
  }
}

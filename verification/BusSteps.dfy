/** What each step of the two threads means for the caller of the bus. */
module BusSteps {
  import opened MessageCodec
  import opened BusModel
  import opened BusProtocol
  import opened BusReplies
  import opened BusRouting
  import opened Subscriptions

  /** `m` keeps all of `of` and may have further metadata. */
  predicate Extends(m: Message, of: Message) {
    m.userData == of.userData && forall k | k in of.metaData :: k in m.metaData && m.metaData[k] == of.metaData[k]
  }

  lemma StepKeeps(b: Bus, a: Action, b': Bus)
    requires Consistent(b) && Enabled(b, a) && b' == Next(b, a)
    ensures Consistent(b')
    ensures Safe(b, a) && Tracked(b) ==> Tracked(b')
  {
    ConsistentStep(b, a);
    if Safe(b, a) && Tracked(b) { TrackedStep(b, a, |b.outcomes|); }
  }

  lemma BeginMeaning(b: Bus, queue: string, m: Message, timeout: int, b': Bus)
    requires Enabled(b, Begin(queue, m, timeout)) && b' == Next(b, Begin(queue, m, timeout))
    ensures FieldOr(m, CORRELATION_ID, "") == "" ==> b' == b.(outcomes := b.outcomes + [NoCorrelationId])
    ensures FieldOr(m, CORRELATION_ID, "") != "" && FieldOr(m, TO, "") == "" ==>
              var id := m.metaData[CORRELATION_ID];
              b'.syncUuid == id && b'.request == Ready && b'.outcomes == b.outcomes + [NoTo(id)]
    ensures FieldOr(m, CORRELATION_ID, "") != "" && FieldOr(m, TO, "") != "" ==>
              && b'.syncUuid == m.metaData[CORRELATION_ID] && b'.outcomes == b.outcomes
              && b'.request.Prepared? && b'.request.id == b'.syncUuid
              && b'.request.to == m.metaData[TO] && b'.request.queue == queue
    ensures HasField(m, CORRELATION_ID) && HasField(m, TO) && !b'.listener.Matched? && !b'.listener.Stored?
            && ListenerAvoids(b', m.metaData[CORRELATION_ID]) ==>
              AwaitingReply(b', m.metaData[CORRELATION_ID], |b'.outcomes|)
  {
  }

  lemma LockMeaning(b: Bus, b': Bus)
    requires Enabled(b, Lock) && b' == Next(b, Lock)
    ensures !Enabled(b', Store)
    ensures b'.request.Locked? && Extends(b'.request.message, b.request.message)
    ensures REPLY_TO in b'.request.message.metaData
  {
  }

  lemma SendMeaning(b: Bus, b': Bus, frames: seq<string>)
    requires BusInv(b) && Enabled(b, Send) && b' == Next(b, Send) && frames == Encode(b.request.message)
    ensures !Enabled(b', Store)
    ensures Decodable(frames)
    ensures METADATA_END !in b.request.message.metaData ==> Decode(frames) == b.request.message
  {
    RoundTrip(b.request.message);
  }

  lemma ParkMeaning(b: Bus, b': Bus)
    requires BusInv(b) && Enabled(b, Park) && b' == Next(b, Park)
    ensures b'.listener.Matched? ==>
              && Enabled(b', Store)
              && Next(b', Store).request == Woken(b'.request.id)
              && Next(b', Store).syncResponse == b'.listener.message
  {
  }

  lemma TimerMeaning(b: Bus, b': Bus)
    requires Enabled(b, Timer) && b' == Next(b, Timer)
    ensures AlwaysExpired(b', b.request.id, |b.outcomes|)
  {
    forall run | ValidRun(b', run) && OneRequest(run) ensures Expired(Execute(b', run), b.request.id, |b.outcomes|) {
      ExpiryIsFinal(b', run, b.request.id, |b.outcomes|);
    }
  }

  /** In every continuation the request `id` ends with the exception. */
  ghost predicate AlwaysExpired(b: Bus, id: string, k: nat) {
    forall run | ValidRun(b, run) && OneRequest(run) :: Expired(Execute(b, run), id, k)
  }

  lemma ResumeMeaning(b: Bus, b': Bus)
    requires Enabled(b, Resume) && b' == Next(b, Resume)
    ensures !b.request.TimedOut? && Tracked(b) ==> HasId(b'.syncResponse, b.request.id)
  {
  }

  lemma TestMeaning(b: Bus, b': Bus)
    requires BusInv(b) && Enabled(b, Test) && b' == Next(b, Test)
    ensures AwaitsCommit(b.request, b.syncUuid) && HasId(b.listener.message, b.syncUuid) ==>
              b'.listener == Matched(b.listener.message)
    ensures Tracked(b) && Pending(b.request) && !HasId(b.listener.message, b.request.id) ==> b'.listener.Unmatched?
    ensures Undisturbed(b) && b.request == Ready ==> b'.listener.Unmatched?
  {
  }

  lemma StoreMeaning(b: Bus, b': Bus)
    requires BusInv(b) && Enabled(b, Store) && b' == Next(b, Store)
    ensures Pending(b'.request) && !b'.request.TimedOut? && !b'.request.Prepared? ==> b'.request.Woken?
    ensures b'.request.Woken? ==> b'.syncResponse == b.listener.message && !Enabled(b', Resume)
  {
  }

  lemma ClearMeaning(b: Bus, b': Bus)
    requires Consistent(b) && Enabled(b, Clear) && b' == Next(b, Clear)
    ensures NothingMatches(b') && (b'.request.Woken? ==> Enabled(b', Resume))
    ensures Responses(b'.consumed) == Responses(b.consumed) + 1 <= b'.begun
    ensures Logged(b'.consumed) == b'.delivered
  {
    LogGrows(b.consumed, AsResponse(b.listener.message));
    forall run | ValidRun(b', run) && OneRequest(run) ensures !Execute(b', run).listener.Matched? {
      NoIdNoMatch(b', run);
    }
  }

  lemma DispatchMeaning(b: Bus, b': Bus)
    requires Consistent(b) && Enabled(b, Dispatch) && b' == Next(b, Dispatch)
    ensures forall c :: b'.consumed == b.consumed + [Called(c, b.listener.subject, b.listener.message)]
                        <==> Bound(b, b.listener.subject, c)
    ensures b'.consumed == b.consumed + [Skipped(b.listener.subject, b.listener.message)]
            <==> b.listener.subject !in b'.subscriptions
    ensures Logged(b'.consumed) == b'.delivered
  {
    forall c { DispatchStep(b, c); }
    DispatchStep(b, 0);
  }
}

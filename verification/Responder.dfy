/** The responder of the example: `queryListener`. */
module Responder {
  import opened ByteStrings
  import opened MessageCodec
  import opened BusModel

  /** Messages on which the handler is defined: two items of user data, and either
      no metadata at all (the old format) or the three fields it looks up. */
  predicate HandlerDefined(m: Message) {
    && |m.userData| >= 2
    && (m.metaData != map[] ==> FROM in m.metaData && CORRELATION_ID in m.metaData && REPLY_TO in m.metaData)
  }

  predicate Answered(m: Message) { HandlerDefined(m) && m.metaData != map[] }

  /** The reply: FROM becomes TO, the correlation id is copied, and the second
      item of user data comes back as a C string. */
  function QueryReply(m: Message): Message
    requires Answered(m)
  {
    Message(
      map[SUBJECT := "response", TO := m.metaData[FROM], CORRELATION_ID := m.metaData[CORRELATION_ID]],
      ["status::ok", CStr(m.userData[1])])
  }

  /** The reply a caller expects, in terms of the message it passed to `request()`. */
  predicate RepliesTo(m: Message, reply: Message) {
    && FROM in m.metaData && CORRELATION_ID in m.metaData && |m.userData| >= 2
    && reply.metaData ==
       map[SUBJECT := "response", TO := m.metaData[FROM], CORRELATION_ID := m.metaData[CORRELATION_ID]]
    && reply.userData == ["status::ok", CStr(m.userData[1])]
  }

  /** What the handler hands to the broker; `sendReply` refuses an empty id, and
      the listener swallows the exception. */
  function QueryOutput(m: Message): seq<Envelope>
    requires HandlerDefined(m)
  {
    if m.metaData == map[] then [] else ReplyEnvelopes(m.metaData[REPLY_TO], QueryReply(m))
  }

  /** A reply is never taken for a query: it lacks FROM. */
  lemma ReplyNotAnswered(m: Message)
    requires Answered(m)
    ensures !HandlerDefined(QueryReply(m))
    ensures METADATA_END !in QueryReply(m).metaData
  {
    var keys := QueryReply(m).metaData.Keys;
    assert keys == {SUBJECT, TO, CORRELATION_ID};
    assert |FROM| == 5 && |TO| == 3 && |SUBJECT| == 8 && |CORRELATION_ID| == 14 && |METADATA_END| == 14;
    assert CORRELATION_ID[1] == 'c' && METADATA_END[1] == '_';
  }
}

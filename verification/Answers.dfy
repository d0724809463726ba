/** What every request is answered, and what it does: the whole table, read off the bytes of frame and answer
    (src/bridge.rs, src/ws/session.rs). */
module Answers {
  import opened Bytes
  import opened Wire
  import opened Qos
  import opened QosEquality
  import opened Protocol
  import opened Entities
  import opened Bridge
  import P = BridgeProofs
  import T = BridgeTheorems
  import C = Client
  import CT = ClientTheorems
  import Go = GoCodec
  import W = Writers
  import R = Readers

  // ---- Reading answers ----

  /** The error codes as they stand on the wire. */
  const INVALID_MESSAGE: u16 := 0x0001
  const DDS_ERROR: u16 := 0x0003
  const WRITER_NOT_FOUND: u16 := 0x0004
  const READER_NOT_FOUND: u16 := 0x0005

  /** The code in an ERROR message, its first two payload bytes. */
  function ErrorCodeIn(m: bytes): Option<u16> {
    if |m| >= HEADER_SIZE + 2 && m[3] == 0xFE then Some(U16At(m[HEADER_SIZE..])) else None
  }

  /** The client reads the first message of the reply as success, with this payload. */
  predicate Succeeds(r: Reply, payload: bytes) { r.Messages? && r.ms != [] && C.ReadReply(r.ms[0]) == Some(payload) }

  /** The reply is one ERROR with this code, which the client reads as failure. */
  predicate Fails(r: Reply, code: u16) {
    r.Messages? && |r.ms| == 1 && ErrorCodeIn(r.ms[0]) == Some(code) && C.ReadReply(r.ms[0]) == None
  }

  lemma OkReads(req: u32, p: bytes, more: seq<bytes>)
    requires |p| < 0x1_0000_0000
    ensures Succeeds(Messages([OkReply(req, p)] + more), p)
  {
    hide OkReply, C.ReadReply;
    CT.ReplyRead(req, p, InvalidMessage, []);
  }

  lemma ErrorReads(req: u32, code: ErrorCode, text: bytes)
    ensures Fails(Messages([ErrorReply(req, code, text)]), CodeNumber(code))
  {
    CT.ReplyRead(req, [], code, text);
    hide C.ReadReply, BuildMessage, Le, U16At;
    var p := Serialize(ErrorP(code, text));
    Go.HeadersAgree(ErrorMsg, req, p);
    ErrorByte(req, p);
    ReadLe16(CodeNumber(code), WriteString(text));
    assert p == Le(CodeNumber(code), 2) + WriteString(text);
  }

  lemma ErrorByte(req: u32, p: bytes)
    ensures BuildMessage(ErrorMsg, req, p)[3] == 0xFE
  {
    hide Le;
  }

  lemma FailReads(st: State, req: u32, d: Dds)
    ensures Fails(Fail(st, req, InvalidMessage, d).reply, INVALID_MESSAGE)
    ensures Fails(Fail(st, req, ErrorCode.DdsError, d).reply, DDS_ERROR)
    ensures Fails(Fail(st, req, WriterNotFound, d).reply, WRITER_NOT_FOUND)
    ensures Fails(Fail(st, req, ReaderNotFound, d).reply, READER_NOT_FOUND)
  {
    hide ErrorReply, Fails;
    ErrorReads(req, InvalidMessage, d.text);
    ErrorReads(req, ErrorCode.DdsError, d.text);
    ErrorReads(req, WriterNotFound, d.text);
    ErrorReads(req, ReaderNotFound, d.text);
  }

  // ---- Which frames reach a handler ----

  /** A frame does so exactly if its version is known, its id is not 0, its length is within bounds and it is all
      there. */
  lemma DispatchedIff(h: Header, rest: bytes, max: nat)
    ensures Dispatched(SerializeHeader(h) + rest, max) <==>
              h.version <= 1 && h.requestId != 0 && h.payloadLength <= max && h.payloadLength <= |rest|
    ensures Dispatched(SerializeHeader(h) + rest, max) ==>
              FramePayload(SerializeHeader(h) + rest) == rest[..h.payloadLength]
  {
    hide Le, ParseHeader, SerializeHeader;
    HeaderRoundTrip(h, rest);
    HeaderLength(h);
    var data := SerializeHeader(h) + rest;
    assert data[12..] == rest;
    if h.payloadLength <= |rest| { assert data[12..12 + h.payloadLength] == data[12..][..h.payloadLength]; }
  }

  lemma HeaderLength(h: Header)
    ensures |SerializeHeader(h)| == 12
  {
  }

  /** Any other frame is answered INVALID_MESSAGE and changes nothing. */
  lemma BadFrame(st: State, sid: SessionId, data: bytes, max: nat, d: Dds)
    requires !Dispatched(data, max)
    ensures var out := ProcessFrame(st, sid, data, max, d); out.st == st && Fails(out.reply, INVALID_MESSAGE)
  {
    hide Dispatched, Fails, ErrorReply;
    FailReads(st, FrameId(data), d);
  }

  /** So is a request of a type only the bridge sends. */
  lemma WrongDirection(st: State, sid: SessionId, data: bytes, max: nat, d: Dds)
    requires Dispatched(data, max)
             && ParseHeader(data).value.msgType in {OkMsg, Data, DataDisposed, DataNoWriters, ErrorMsg, Pong}
    ensures var out := ProcessFrame(st, sid, data, max, d); out.st == st && Fails(out.reply, INVALID_MESSAGE)
  {
    hide ParseHeader, ValidateClientHeader, FramePayload, FrameId, Fails, ErrorReply;
    FailReads(st, FrameId(data), d);
  }

  lemma PingAnswered(st: State, sid: SessionId, data: bytes, max: nat, d: Dds)
    requires Dispatched(data, max) && ParseHeader(data).value.msgType == Ping
    ensures var out := ProcessFrame(st, sid, data, max, d);
            out.st == st && out.reply == Messages([BuildMessage(Pong, FrameId(data), [])]) && Succeeds(out.reply, [])
  {
    hide ParseHeader, ValidateClientHeader, FramePayload, FrameId;
    Go.HeadersAgree(Pong, FrameId(data), []);
    PongByte(FrameId(data));
    hide BuildMessage, Go.DecodeHeader;
    var m := BuildMessage(Pong, FrameId(data), []);
    assert m[12..12] == [];
  }

  lemma PongByte(req: u32)
    ensures BuildMessage(Pong, req, [])[3] == 0x8F
  {
    hide Le;
  }

  // ---- DELETE_WRITER ----

  /** The id listed for the session is unregistered, off its list, and nothing else changes; an id not listed is an
      error and changes nothing. */
  lemma DeleteAnswered(st: State, sid: SessionId, data: bytes, max: nat, d: Dds)
    requires W.Inv(st.writers) && Dispatched(data, max) && ParseHeader(data).value.msgType == DeleteWriter
    ensures var p, out := FramePayload(data), ProcessFrame(st, sid, data, max, d);
            var ws, ws' := st.writers, out.st.writers;
            if |p| != 4 then out.st == st && Fails(out.reply, INVALID_MESSAGE)
            else if U32At(p) in W.Ids(ws, sid) then
              && Succeeds(out.reply, []) && out.st == st.(writers := ws')
              && (forall x :: x in ws'.writers <==> x in ws.writers && x != U32At(p))
              && (forall x :: x in ws'.writers ==> ws'.writers[x] == ws.writers[x])
              && (forall x :: x in W.Ids(ws', sid) <==> x in W.Ids(ws, sid) && x != U32At(p))
              && (forall s :: s != sid ==> W.Ids(ws', s) == W.Ids(ws, s))
            else out.st == st && Fails(out.reply, WRITER_NOT_FOUND)
  {
    hide ParseHeader, ValidateClientHeader, FramePayload, FrameId, Fails, Succeeds, ErrorReply, OkReply, W.Inv, U32At,
         W.Delete, W.Get, W.Ids;
    var p, req := FramePayload(data), FrameId(data);
    FailReads(st, req, d);
    OkReads(req, [], []);
    assert [OkReply(req, [])] + [] == [OkReply(req, [])];
    if |p| == 4 {
      W.DeleteExact(st.writers, U32At(p), sid);
      if U32At(p) in W.Ids(st.writers, sid) { DeletedIds(st.writers, U32At(p), sid); }
    }
  }

  lemma DeletedIds(ws: W.State, id: u32, sid: SessionId)
    requires W.Inv(ws) && id in W.Ids(ws, sid)
    ensures var ws' := W.Delete(ws, id, sid); forall x :: x in W.Ids(ws', sid) <==> x in W.Ids(ws, sid) && x != id
  {
    W.DeleteIs(ws, id, sid);
    hide W.Delete, W.Without, W.NoDuplicates, W.ListedAreOwned, W.OwnedAreListed;
  }

  // ---- UNSUBSCRIBE ----

  /** The entry goes if there is one; without one it is an error and changes nothing. */
  lemma UnsubscribeAnswered(st: State, sid: SessionId, data: bytes, max: nat, d: Dds)
    requires R.Inv(st.readers) && Dispatched(data, max) && ParseHeader(data).value.msgType == Unsubscribe
    ensures var p, out := ParseUnsubscribe(FramePayload(data)), ProcessFrame(st, sid, data, max, d);
            match p
            case Failure(_) => out.st == st && Fails(out.reply, INVALID_MESSAGE)
            case Success((t, y)) =>
              var k := R.SubKey(sid, t, y);
              if k in st.readers.subs then
                && Succeeds(out.reply, []) && out.st == st.(readers := out.st.readers)
                && out.st.readers.subs == st.readers.subs - {k}
                && !R.Lists(out.st.readers, sid, st.readers.subs[k])
              else out.st == st && Fails(out.reply, READER_NOT_FOUND)
  {
    hide ParseHeader, ValidateClientHeader, FramePayload, FrameId, Fails, Succeeds, ErrorReply, OkReply,
         ParseUnsubscribe, R.KeysInv, R.ReadersInv, R.ReaderKeyOf;
    FailReads(st, FrameId(data), d);
    OkReads(FrameId(data), [], []);
    assert [OkReply(FrameId(data), [])] + [] == [OkReply(FrameId(data), [])];
  }

  // ---- SUBSCRIBE and CREATE_WRITER ----

  /** The bridge has the topic or DDS would create it: no name holds a NUL byte and the call succeeds. */
  predicate TopicToBeHad(st: State, t: bytes, y: bytes, d: Dds) {
    (t, y) in st.topics || (0 !in t && 0 !in y && d.topicHandle >= 0)
  }

  /** The topic is there afterwards: as it was, or made with this keyedness and these keys. Other topics are
      untouched. */
  predicate TopicKept(st: State, st': State, t: bytes, y: bytes, keyed: bool, keys: seq<KeyField>) {
    && (t, y) in st'.topics
    && ((t, y) !in st.topics ==> st'.topics[(t, y)].isKeyed == keyed && st'.topics[(t, y)].keys == keys)
    && (forall k :: k in st.topics ==> k in st'.topics && st'.topics[k] == st.topics[k])
  }

  /** Exactly when a SUBSCRIBE succeeds, and what it then leaves; a failed one changes no reader. */
  lemma SubscribeAnswered(st: State, sid: SessionId, data: bytes, max: nat, d: Dds)
    requires P.BaseInv(st) && Dispatched(data, max) && ParseHeader(data).value.msgType == Subscribe
    ensures var p, out := ParseEndpoint(FramePayload(data)), ProcessFrame(st, sid, data, max, d);
            match p
            case Failure(_) => out.st == st && Fails(out.reply, INVALID_MESSAGE)
            case Success(e) =>
              var key := R.ReaderKey(e.topicName, e.typeName, KeyBytes(e.qos));
              if TopicToBeHad(st, e.topicName, e.typeName, d) && (key in st.readers.keys || d.readerOk) then
                && Succeeds(out.reply, []) && out.st.writers == st.writers && out.st.senders == st.senders
                && Entered(out.st.readers, sid, key)
                && TopicKept(st, out.st, e.topicName, e.typeName, e.isKeyed, e.keys)
              else
                out.st.readers == st.readers && (out.reply.Aborted? || Fails(out.reply, DDS_ERROR))
  {
    hide ParseHeader, ValidateClientHeader, FramePayload, FrameId, Fails, Succeeds, ErrorReply, OkReply, ParseEndpoint,
         R.Inv, P.EntitiesInv, P.SendersInv, R.Subscribe, GetOrCreateTopic, KeyBytes, R.ReaderKeyOf, Entered;
    FailReads(st, FrameId(data), d);
    OkReads(FrameId(data), [], []);
    assert [OkReply(FrameId(data), [])] + [] == [OkReply(FrameId(data), [])];
    if ParseEndpoint(FramePayload(data)).Success? {
      var e := ParseEndpoint(FramePayload(data)).value;
      P.TopicFound(st.topics, e.topicName, e.typeName, e.isKeyed, e.keys, d.topicHandle);
      match GetOrCreateTopic(st.topics, e.topicName, e.typeName, e.isKeyed, e.keys, d.topicHandle)
      case Got(_, topic) => SubscribeEnters(st.readers, topic, e.qos, sid, d.readerOk);
      case _ =>
    }
  }

  /** The session's entry leads to a live reader of this key that lists the session. */
  predicate Entered(rs: R.State, sid: SessionId, key: R.ReaderKey) {
    var k := R.SubKey(sid, key.topicName, key.typeName);
    k in rs.subs && R.Lists(rs, sid, rs.subs[k]) && R.ReaderKeyOf(rs.readers[rs.subs[k]]) == key
  }

  lemma SubscribeEnters(rs: R.State, t: Topic, q: QosSet, sid: SessionId, ok: bool)
    requires R.Inv(rs)
    ensures var key := R.ReaderKey(t.topicName, t.typeName, KeyBytes(q));
            if key in rs.keys || ok then
              R.SubscribeResult(rs, t, q, ok).Some? && Entered(R.Subscribe(rs, t, q, sid, ok), sid, key)
            else R.SubscribeResult(rs, t, q, ok).None? && R.Subscribe(rs, t, q, sid, ok) == rs
  {
    R.SubscribeEntries(rs, t, q, sid, ok);
    R.SubscribeInv(rs, t, q, sid, ok);
    hide R.KeysInv, R.ReadersInv, R.ReaderKeyOf, KeyBytes, R.Attach, R.Create;
  }

  /** Exactly when a CREATE_WRITER succeeds; then the counter's id is answered and registered to the session, with the
      names and the normalised QoS of the request, at the end of its list. A failed one registers nothing. */
  lemma CreateAnswered(st: State, sid: SessionId, data: bytes, max: nat, d: Dds)
    requires P.TopicsInv(st.topics) && Dispatched(data, max) && ParseHeader(data).value.msgType == CreateWriter
    ensures var p, out := ParseEndpoint(FramePayload(data)), ProcessFrame(st, sid, data, max, d);
            match p
            case Failure(_) => out.st == st && Fails(out.reply, INVALID_MESSAGE)
            case Success(e) =>
              var id := st.nextWriterId;
              if TopicToBeHad(st, e.topicName, e.typeName, d) && d.writerOk then
                && Succeeds(out.reply, Le(id, 4))
                && out.st.readers == st.readers && out.st.senders == st.senders && Created(st, out.st, sid, id, e)
                && TopicKept(st, out.st, e.topicName, e.typeName, e.isKeyed, e.keys)
              else
                out.st.writers == st.writers && (out.reply.Aborted? || Fails(out.reply, DDS_ERROR))
  {
    hide ParseHeader, ValidateClientHeader, FramePayload, FrameId, Fails, Succeeds, ErrorReply, OkReply, ParseEndpoint,
         GetOrCreateTopic, Normalize, Le;
    var id, req := st.nextWriterId, FrameId(data);
    FailReads(st, req, d);
    OkReads(req, Le(id, 4), []);
    assert [OkReply(req, Le(id, 4))] + [] == [OkReply(req, Le(id, 4))];
    if ParseEndpoint(FramePayload(data)).Success? {
      var e := ParseEndpoint(FramePayload(data)).value;
      P.TopicFound(st.topics, e.topicName, e.typeName, e.isKeyed, e.keys, d.topicHandle);
    }
  }

  ghost predicate Created(st: State, st': State, sid: SessionId, id: u32, e: Endpoint) {
    var ws, ws' := st.writers, st'.writers;
    && id in ws'.writers && ws'.writers[id].owner == sid
    && ws'.writers[id].writer.topic.topicName == e.topicName && ws'.writers[id].writer.topic.typeName == e.typeName
    && ws'.writers[id].writer.qos == Normalize(e.qos)
    && (forall x :: x in ws'.writers <==> x in ws.writers || x == id)
    && (forall x :: x in ws.writers && x != id ==> ws'.writers[x] == ws.writers[x])
    && W.Ids(ws', sid) == W.Ids(ws, sid) + [id] && (forall s :: s != sid ==> W.Ids(ws', s) == W.Ids(ws, s))
    && st'.nextWriterId == (id + 1) % 0x1_0000_0000
  }

  // ---- WRITE, DISPOSE and WRITE_DISPOSE ----

  /** DDS was asked for exactly this one more operation. */
  predicate Asked(st: State, st': State, id: u32, kind: WriteKind, data: bytes, keyBytes: bytes) {
    st'.calls == st.calls + [DdsCall(id, kind, data, keyBytes)]
  }

  /** By writer id: for an id listed for the session DDS is asked for the operation of the request, on that writer, with
      the bytes of the payload; it succeeds exactly if DDS does. An id not listed is an error and DDS is not asked. */
  lemma WriteByIdAnswered(st: State, sid: SessionId, data: bytes, max: nat, d: Dds)
    requires W.Inv(st.writers) && Dispatched(data, max)
    requires ParseHeader(data).value.msgType in {Write, Dispose, WriteDispose}
    requires ParseWriteMode(FramePayload(data)).Success? && ParseWriteMode(FramePayload(data)).value.WriterId?
    ensures var m, t := ParseWriteMode(FramePayload(data)).value, ParseHeader(data).value.msgType;
            var out := ProcessFrame(st, sid, data, max, d);
            if m.writerId in W.Ids(st.writers, sid) then
              && Asked(st, out.st, m.writerId, KindFor(t), m.data, m.keyBytes) && out.st.writers == st.writers
              && (if d.opOk then Succeeds(out.reply, []) else Fails(out.reply, DDS_ERROR))
            else out.st == st && Fails(out.reply, WRITER_NOT_FOUND)
  {
    hide ParseHeader, ValidateClientHeader, FramePayload, FrameId, Fails, Succeeds, ErrorReply, OkReply, ParseWriteMode,
         Notify, Notice, Listing, Copies, W.Inv, W.Get;
    var m := ParseWriteMode(FramePayload(data)).value;
    W.DeleteExact(st.writers, m.writerId, sid);
    WriteReplies(st, FrameId(data), d);
  }

  /** The operation that a request type stands for. */
  function KindFor(t: MsgType): WriteKind {
    match t
    case Dispose => PlainDispose
    case WriteDispose => WriteAndDispose
    case _ => PlainWrite
  }

  lemma WriteReplies(st: State, req: u32, d: Dds)
    ensures forall st': State :: Fails(Fail(st', req, ErrorCode.DdsError, d).reply, DDS_ERROR)
                              && Fails(Fail(st', req, WriterNotFound, d).reply, WRITER_NOT_FOUND)
                              && Fails(Fail(st', req, InvalidMessage, d).reply, INVALID_MESSAGE)
    ensures forall more :: Succeeds(Messages([OkReply(req, [])] + more), [])
    ensures Succeeds(Messages([OkReply(req, [])]), [])
  {
    hide Fails, Succeeds, ErrorReply, OkReply;
    FailReads(st, req, d);
    forall more ensures Succeeds(Messages([OkReply(req, [])] + more), []) { OkReads(req, [], more); }
    OkReads(req, [], []);
    assert [OkReply(req, [])] + [] == [OkReply(req, [])];
  }

  lemma WriteHandled(st: State, sid: SessionId, data: bytes, max: nat, d: Dds)
    requires Dispatched(data, max) && ParseHeader(data).value.msgType in {Write, Dispose, WriteDispose}
    ensures ProcessFrame(st, sid, data, max, d) ==
              HandleWriteOp(st, sid, FrameId(data), FramePayload(data), d, KindFor(ParseHeader(data).value.msgType))
  {
    hide ParseHeader, ValidateClientHeader, FramePayload, FrameId, HandleWriteOp;
  }

  /** In topic-name mode: with a matching writer, or with DDS willing to create the topic and one, DDS is asked for the
      operation on the writer that is chosen afterwards, with the bytes of the payload and no key bytes, and it succeeds
      exactly if DDS does. Otherwise DDS is not asked. */
  lemma WriteByNameAnswered(st: State, sid: SessionId, data: bytes, max: nat, d: Dds)
    requires P.TopicsInv(st.topics) && Dispatched(data, max)
    requires ParseHeader(data).value.msgType in {Write, Dispose, WriteDispose}
    requires ParseWriteMode(FramePayload(data)).Success? && ParseWriteMode(FramePayload(data)).value.TopicName?
    ensures var m, t := ParseWriteMode(FramePayload(data)).value, ParseHeader(data).value.msgType;
            var out := ProcessFrame(st, sid, data, max, d);
            var before := W.FindByTopic(st.writers, sid, m.topicName, m.typeName, Normalize(m.qos));
            var after := W.FindByTopic(out.st.writers, sid, m.topicName, m.typeName, Normalize(m.qos));
            if before.Some? || (TopicToBeHad(st, m.topicName, m.typeName, d) && d.writerOk) then
              && after.Some? && (before.Some? ==> out.st.writers == st.writers && out.st.topics == st.topics)
              && (before.None? ==> TopicKept(st, out.st, m.topicName, m.typeName, m.keys != [], m.keys))
              && Asked(st, out.st, after.value, KindFor(t), m.data, [])
              && (if d.opOk then Succeeds(out.reply, []) else Fails(out.reply, DDS_ERROR))
            else out.st.calls == st.calls && (out.reply.Aborted? || Fails(out.reply, DDS_ERROR))
  {
    hide ParseHeader, ValidateClientHeader, FramePayload, FrameId, Fails, Succeeds, ErrorReply, OkReply, ParseWriteMode,
         Notify, Notice, Listing, Copies, W.FindByTopic, GetOrCreateTopic, Normalize, P.TopicsInv, W.Register,
         ProcessFrame;
    var m := ParseWriteMode(FramePayload(data)).value;
    WriteHandled(st, sid, data, max, d);
    P.TopicFound(st.topics, m.topicName, m.typeName, m.keys != [], m.keys, d.topicHandle);
    T.SecondLookupSucceeds(st, sid, m, d);
    WriteReplies(st, FrameId(data), d);
  }

  /** A write that cannot be read is an error and does nothing. */
  lemma UnreadableWrite(st: State, sid: SessionId, data: bytes, max: nat, d: Dds)
    requires Dispatched(data, max) && ParseHeader(data).value.msgType in {Write, Dispose, WriteDispose}
    ensures ParseWriteMode(FramePayload(data)).Failure? ==>
              var out := ProcessFrame(st, sid, data, max, d); out.st == st && Fails(out.reply, INVALID_MESSAGE)
  {
    hide ParseHeader, ValidateClientHeader, FramePayload, FrameId, Fails, ErrorReply, ParseWriteMode;
    FailReads(st, FrameId(data), d);
  }

  /** No other frame asks DDS for a write operation. */
  lemma OnlyWritesAsk(st: State, sid: SessionId, data: bytes, max: nat, d: Dds)
    requires Dispatched(data, max) && ParseHeader(data).value.msgType !in {Write, Dispose, WriteDispose}
    ensures ProcessFrame(st, sid, data, max, d).st.calls == st.calls
  {
    hide ParseHeader, ValidateClientHeader, FramePayload, FrameId, ErrorReply, OkReply, ParseEndpoint, ParseUnsubscribe,
         ParseDeleteWriter, GetOrCreateTopic, R.Subscribe, R.Unsubscribe, R.SubscribeResult, R.Unsubscribed, W.Delete,
         W.Get, Le, W.Register, Normalize;
  }
}

/** The bridge: every handler runs under one lock, so each is one step on the shared state
    (src/bridge.rs, src/dds/participant.rs, src/ws/session.rs). */
module Bridge {
  import opened Bytes
  import opened Qos
  import opened QosEquality
  import opened Protocol
  import opened Entities
  import W = Writers
  import R = Readers

  /** The sending side of a session's bounded outbound channel. */
  datatype Sender = Sender(capacity: nat, open: bool, queue: seq<bytes>)

  datatype State = State(
    topics: map<(bytes, bytes), Topic>,
    writers: W.State,
    nextWriterId: u32,
    readers: R.State,
    senders: map<SessionId, Sender>,
    calls: seq<DdsCall>)             // every write operation DDS was asked for so far

  /** The three operations on a writer, and one of them as DDS is asked for it. */
  datatype WriteKind = PlainWrite | PlainDispose | WriteAndDispose
  datatype DdsCall = DdsCall(writer: u32, kind: WriteKind, data: bytes, keyBytes: bytes)

  const INIT := State(map[], W.EMPTY, 1, R.EMPTY, map[], [])

  /** What DDS answers to the calls a handler may make, and the text of an error message. */
  datatype Dds = Dds(topicHandle: int, writerOk: bool, readerOk: bool, opOk: bool, text: bytes)

  /** A handler gives messages to send back, or the session task aborts. */
  datatype Reply = Messages(ms: seq<bytes>) | Aborted
  datatype Outcome = Outcome(st: State, reply: Reply)

  // ---- Topics ----

  datatype TopicResult = Got(topics: map<(bytes, bytes), Topic>, topic: Topic) | TopicFailed | TopicAborts

  /** A name holding a NUL byte cannot become a C string: for a topic name that is an error, for a type name a panic. */
  function GetOrCreateTopic(topics: map<(bytes, bytes), Topic>, t: bytes, y: bytes, keyed: bool, keys: seq<KeyField>,
                            handle: int): TopicResult
  {
    if (t, y) in topics then Got(topics, topics[(t, y)])
    else if 0 in t then TopicFailed
    else if 0 in y then TopicAborts
    else if handle < 0 then TopicFailed
    else
      var topic := Topic(handle, t, y, keyed, keys);
      Got(topics[(t, y) := topic], topic)
  }

  // ---- Outbound queues ----

  /** `try_send`: a full or closed channel drops the new message. */
  function TrySend(s: Sender, m: bytes): Sender {
    if s.open && |s.queue| < s.capacity then s.(queue := s.queue + [m]) else s
  }

  function TrySendN(s: Sender, m: bytes, n: nat): Sender {
    if n == 0 then s else TrySend(TrySendN(s, m, n - 1), m)
  }

  function SendAll(senders: map<SessionId, Sender>, to: set<SessionId>, m: bytes): map<SessionId, Sender> {
    map s | s in senders :: if s in to then TrySend(senders[s], m) else senders[s]
  }

  // ---- Replies ----

  function OkReply(req: u32, payload: bytes): bytes { BuildMessage(OkMsg, req, payload) }

  function ErrorReply(req: u32, code: ErrorCode, text: bytes): bytes {
    BuildMessage(ErrorMsg, req, Serialize(ErrorP(code, text)))
  }

  function Fail(st: State, req: u32, code: ErrorCode, d: Dds): Outcome {
    Outcome(st, Messages([ErrorReply(req, code, d.text)]))
  }

  // ---- Handlers ----

  function HandleSubscribe(st: State, sid: SessionId, req: u32, payload: bytes, d: Dds): Outcome {
    match ParseEndpoint(payload)
    case Failure(_) => Fail(st, req, InvalidMessage, d)
    case Success(e) =>
      match GetOrCreateTopic(st.topics, e.topicName, e.typeName, e.isKeyed, e.keys, d.topicHandle)
      case TopicAborts => Outcome(st, Aborted)
      case TopicFailed => Fail(st, req, DdsError, d)
      case Got(topics, topic) =>
        var st' := st.(topics := topics, readers := R.Subscribe(st.readers, topic, e.qos, sid, d.readerOk));
        if R.SubscribeResult(st.readers, topic, e.qos, d.readerOk).Some?
        then Outcome(st', Messages([OkReply(req, [])]))
        else Fail(st', req, DdsError, d)
  }

  function HandleUnsubscribe(st: State, sid: SessionId, req: u32, payload: bytes, d: Dds): Outcome {
    match ParseUnsubscribe(payload)
    case Failure(_) => Fail(st, req, InvalidMessage, d)
    case Success((t, y)) =>
      var st' := st.(readers := R.Unsubscribe(st.readers, t, y, sid));
      if R.Unsubscribed(st.readers, t, y, sid)
      then Outcome(st', Messages([OkReply(req, [])]))
      else Fail(st', req, ReaderNotFound, d)
  }

  function NextId(id: u32): u32 { (id + 1) % 0x1_0000_0000 }

  /** A created writer takes the next id of a 32-bit counter. */
  function AddWriter(st: State, sid: SessionId, topic: Topic, q: QosSet): State {
    st.(writers := W.Register(st.writers, st.nextWriterId, W.Writer(topic, Normalize(q)), sid),
        nextWriterId := NextId(st.nextWriterId))
  }

  function HandleCreateWriter(st: State, sid: SessionId, req: u32, payload: bytes, d: Dds): Outcome {
    match ParseEndpoint(payload)
    case Failure(_) => Fail(st, req, InvalidMessage, d)
    case Success(e) =>
      match GetOrCreateTopic(st.topics, e.topicName, e.typeName, e.isKeyed, e.keys, d.topicHandle)
      case TopicAborts => Outcome(st, Aborted)
      case TopicFailed => Fail(st, req, DdsError, d)
      case Got(topics, topic) =>
        var st' := st.(topics := topics);
        if !d.writerOk then Fail(st', req, DdsError, d)
        else Outcome(AddWriter(st', sid, topic, e.qos), Messages([OkReply(req, Le(st.nextWriterId, 4))]))
  }

  function HandleDeleteWriter(st: State, sid: SessionId, req: u32, payload: bytes, d: Dds): Outcome {
    match ParseDeleteWriter(payload)
    case Failure(_) => Fail(st, req, InvalidMessage, d)
    case Success(id) =>
      if W.Get(st.writers, id, sid).Found?
      then Outcome(st.(writers := W.Delete(st.writers, id, sid)), Messages([OkReply(req, [])]))
      else Fail(st, req, WriterNotFound, d)
  }

  datatype Ensured = Ready(st: State) | Unready(st: State) | EnsureAborts

  /** The writer a topic-name operation uses is reused or created. */
  function EnsureWriter(st: State, sid: SessionId, m: WriteMode, d: Dds): Ensured
    requires m.TopicName?
  {
    if W.FindByTopic(st.writers, sid, m.topicName, m.typeName, Normalize(m.qos)).Some? then Ready(st)
    else
      match GetOrCreateTopic(st.topics, m.topicName, m.typeName, m.keys != [], m.keys, d.topicHandle)
      case TopicAborts => EnsureAborts
      case TopicFailed => Unready(st)
      case Got(topics, topic) =>
        var st' := st.(topics := topics);
        if d.writerOk then Ready(AddWriter(st', sid, topic, m.qos)) else Unready(st')
  }

  /** `writer` and `tried` name the writer that DDS was called on, if it came to that. */
  datatype WriteResult =
    | Wrote(st: State, writer: u32)
    | WriteFailed(st: State, code: ErrorCode, tried: Option<u32>)
    | WriteAborts
  {
    function Used(): Option<u32> {
      match this
      case Wrote(_, id) => Some(id)
      case WriteFailed(_, _, tried) => tried
      case WriteAborts => None
    }
  }

  /** How `execute_write_op` on a writer ends. */
  function Execute(st: State, id: u32, d: Dds): WriteResult {
    if d.opOk then Wrote(st, id) else WriteFailed(st, DdsError, Some(id))
  }

  function DoWriteOp(st: State, sid: SessionId, m: WriteMode, d: Dds): WriteResult {
    match m
    case TopicName(t, y, q, _, _) =>
      (match EnsureWriter(st, sid, m, d)
       case EnsureAborts => WriteAborts
       case Unready(st') => WriteFailed(st', DdsError, None)
       case Ready(st') =>
         match W.FindByTopic(st'.writers, sid, t, y, Normalize(q))
         case None => WriteFailed(st', InternalError, None)
         case Some(id) => Execute(st', id, d))
    case WriterId(id, _, _) =>
      if W.Get(st.writers, id, sid).Found? then Execute(st, id, d) else WriteFailed(st, WriterNotFound, None)
  }

  /** The operation DDS is asked for: the bytes of the payload, and its key bytes if it names a writer id. */
  function Logged(st: State, r: WriteResult, kind: WriteKind, m: WriteMode): State {
    match r.Used()
    case None => st
    case Some(id) =>
      st.(calls := st.calls + [DdsCall(id, kind, m.data, if m.WriterId? then m.keyBytes else [])])
  }

  /** The topic and type a notice is about. */
  function Target(st: State, m: WriteMode): Option<(bytes, bytes)> {
    match m
    case TopicName(t, y, _, _, _) => Some((t, y))
    case WriterId(id, _, _) =>
      if id in st.writers.writers
      then var topic := st.writers.writers[id].writer.topic; Some((topic.topicName, topic.typeName))
      else None
  }

  predicate On(r: R.Reader, t: bytes, y: bytes) { r.topic.topicName == t && r.topic.typeName == y }

  /** The readers of a topic and type that list a session. */
  function Listing(rs: R.State, t: bytes, y: bytes, s: SessionId): set<nat> {
    set x | x in rs.readers && On(rs.readers[x], t, y) && s in rs.readers[x].subscribers
  }

  function Notice(t: bytes, data: bytes): bytes { BuildMessage(DataDisposed, 0, Serialize(StampedP(t, 0, data))) }

  function Copies(m: bytes, n: nat): (r: seq<bytes>)
    ensures |r| == n && forall i :: 0 <= i < n ==> r[i] == m
  {
    if n == 0 then [] else Copies(m, n - 1) + [m]
  }

  /** Each session other than the requester gets one notice for each reader of the topic and type that lists it. */
  function Notify(st: State, sid: SessionId, t: bytes, y: bytes, m: bytes): map<SessionId, Sender> {
    map s | s in st.senders ::
      if s == sid then st.senders[s] else TrySendN(st.senders[s], m, |Listing(st.readers, t, y, s)|)
  }

  function RespWithNotices(st: State, sid: SessionId, resp: bytes, m: WriteMode): Outcome {
    match Target(st, m)
    case None => Outcome(st, Messages([resp]))
    case Some((t, y)) =>
      var notice := Notice(t, m.data);
      Outcome(st.(senders := Notify(st, sid, t, y, notice)),
              Messages([resp] + Copies(notice, |Listing(st.readers, t, y, sid)|)))
  }

  function HandleWriteOp(st: State, sid: SessionId, req: u32, payload: bytes, d: Dds, kind: WriteKind): Outcome {
    match ParseWriteMode(payload)
    case Failure(_) => Fail(st, req, InvalidMessage, d)
    case Success(m) =>
      var r := DoWriteOp(st, sid, m, d);
      match r
      case WriteAborts => Outcome(st, Aborted)
      case WriteFailed(st', code, _) => Fail(Logged(st', r, kind, m), req, code, d)
      case Wrote(st', _) =>
        var st2 := Logged(st', r, kind, m);
        if kind.PlainWrite? then Outcome(st2, Messages([OkReply(req, [])]))
        else RespWithNotices(st2, sid, OkReply(req, []), m)
  }

  /** The operation a request asks for. */
  function WriteKindOf(t: MsgType): WriteKind {
    if t.Dispose? then PlainDispose else if t.WriteDispose? then WriteAndDispose else PlainWrite
  }

  function HandleMessage(st: State, sid: SessionId, t: MsgType, req: u32, payload: bytes, d: Dds): Outcome {
    match t
    case Subscribe => HandleSubscribe(st, sid, req, payload, d)
    case Unsubscribe => HandleUnsubscribe(st, sid, req, payload, d)
    case Write => HandleWriteOp(st, sid, req, payload, d, PlainWrite)
    case Dispose => HandleWriteOp(st, sid, req, payload, d, PlainDispose)
    case WriteDispose => HandleWriteOp(st, sid, req, payload, d, WriteAndDispose)
    case CreateWriter => HandleCreateWriter(st, sid, req, payload, d)
    case DeleteWriter => HandleDeleteWriter(st, sid, req, payload, d)
    case Ping => Outcome(st, Messages([BuildMessage(Pong, req, [])]))
    case _ => Fail(st, req, InvalidMessage, d)
  }

  /** The request id a frame carries, 0 where no header can be read. */
  function FrameId(data: bytes): u32 {
    match ParseHeader(data) case Parsed(h, _) => h.requestId case Bad(_) => 0
  }

  /** The frames that reach a handler. */
  predicate Dispatched(data: bytes, max: nat) {
    match ParseHeader(data)
    case Bad(_) => false
    case Parsed(h, _) => ValidateClientHeader(h, VERSION, max).None? && |data| >= HEADER_SIZE + h.payloadLength
  }

  function FramePayload(data: bytes): bytes
    requires ParseHeader(data).Parsed? && |data| >= HEADER_SIZE + ParseHeader(data).value.payloadLength
  {
    data[HEADER_SIZE..HEADER_SIZE + ParseHeader(data).value.payloadLength]
  }

  /** `process_binary_frame`: total on all byte strings. */
  function ProcessFrame(st: State, sid: SessionId, data: bytes, max: nat, d: Dds): Outcome {
    if Dispatched(data, max)
    then HandleMessage(st, sid, ParseHeader(data).value.msgType, FrameId(data), FramePayload(data), d)
    else Fail(st, FrameId(data), InvalidMessage, d)
  }

  // ---- Sessions and polling ----

  function UnregisterSession(st: State, sid: SessionId): State {
    st.(senders := st.senders - {sid},
        writers := W.RemoveSession(st.writers, sid),
        readers := R.RemoveSession(st.readers, sid))
  }

  datatype InstanceState = Alive | Disposed | NoWriters
  datatype Sample = Sample(instance: InstanceState, timestamp: int, data: bytes)

  /** A signed timestamp is sent as its 64-bit pattern. */
  function SampleMessage(topicName: bytes, s: Sample): bytes {
    var ts := s.timestamp % 0x1_0000_0000_0000_0000;
    match s.instance
    case Alive => BuildMessage(Data, 0, Serialize(StampedP(topicName, ts, s.data)))
    case Disposed => BuildMessage(DataDisposed, 0, Serialize(StampedP(topicName, ts, s.data)))
    case NoWriters => BuildMessage(DataNoWriters, 0, Serialize(NoWritersP(topicName, s.data)))
  }

  // ---- Runs ----

  datatype Event =
    | Connect(sid: SessionId, capacity: nat)
    | Frame(sid: SessionId, data: bytes, max: nat, dds: Dds)
    | Push(sid: SessionId, topicName: bytes, sample: Sample)   // one sample taken earlier is sent, after the lock
    | Drain(sid: SessionId)          // the session's writer task takes the oldest queued message
    | Hangup(sid: SessionId)         // that task ends: the channel is closed
    | Disconnect(sid: SessionId)

  function Step(st: State, e: Event): State {
    match e
    case Connect(sid, cap) => st.(senders := st.senders[sid := Sender(cap, true, [])])
    case Frame(sid, data, max, d) => ProcessFrame(st, sid, data, max, d).st
    case Push(sid, t, sample) =>
      if sid in st.senders
      then st.(senders := st.senders[sid := TrySend(st.senders[sid], SampleMessage(t, sample))]) else st
    case Drain(sid) =>
      if sid in st.senders && st.senders[sid].queue != []
      then st.(senders := st.senders[sid := st.senders[sid].(queue := st.senders[sid].queue[1..])]) else st
    case Hangup(sid) =>
      if sid in st.senders then st.(senders := st.senders[sid := st.senders[sid].(open := false)]) else st
    case Disconnect(sid) => UnregisterSession(st, sid)
  }

  function Run(es: seq<Event>): State {
    if es == [] then INIT else Step(Run(es[..|es| - 1]), es[|es| - 1])
  }

  /** The id the next writer would get is not in use. */
  predicate Fresh(st: State) { st.nextWriterId !in st.writers.writers }

  /** If the event registers a writer, the id it gets is not in use. */
  predicate FreshAt(st: State, e: Event) { Step(st, e).nextWriterId != st.nextWriterId ==> Fresh(st) }

  ghost predicate FreshRun(es: seq<Event>) {
    es != [] ==> FreshRun(es[..|es| - 1]) && FreshAt(Run(es[..|es| - 1]), es[|es| - 1])
  }
}

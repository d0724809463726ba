/** The reconnecting client against a live bridge: requests travel as bytes, other sessions act in between
    (ddswsclient/client.go, ddswsclient/conn.go). */
module Client {
  import opened Bytes
  import opened Protocol
  import opened Entities
  import B = Bridge
  import T = BridgeTheorems
  import Go = GoCodec

  datatype Sub = Sub(token: nat, endpoint: Go.GoEndpoint)
  datatype Writer = Writer(token: nat, writerId: u32, closed: bool, endpoint: Go.GoEndpoint)

  /** `conn` names the bridge session of the current connection; None while reconnecting. */
  datatype State = State(conn: Option<SessionId>, subs: seq<Sub>, writers: seq<Writer>)

  /** One request: what happens on the bridge before it arrives, whether it arrives, whether the answer comes back. */
  datatype Net = Net(env: seq<B.Event>, id: u32, delivered: bool, answered: bool, dds: B.Dds)

  function Frame(t: MsgType, id: u32, payload: bytes): bytes { Go.GoBuildMessage(MsgByte(t), id, payload) }

  /** What `sendAndWait` makes of a response: its payload, or an error for an ERROR message. */
  function ReadReply(m: bytes): Option<bytes> {
    match Go.DecodeHeader(m)
    case None => None
    case Some(h) =>
      if h.payloadLength > |m| - HEADER_SIZE || h.msgType == 0xFE then None
      else Some(m[HEADER_SIZE..HEADER_SIZE + h.payloadLength])
  }

  /** The bridge after a request, and the payload of a successful response. A session that is gone answers nothing. */
  function Request(b: B.State, sid: SessionId, max: nat, t: MsgType, payload: bytes, n: Net): (B.State, Option<bytes>) {
    var b0 := T.RunFrom(b, n.env);
    if sid !in b0.senders || !n.delivered then (b0, None)
    else
      var out := B.ProcessFrame(b0, sid, Frame(t, n.id, payload), max, n.dds);
      if !n.answered || out.reply.Aborted? || out.reply.ms == [] then (out.st, None)
      else (out.st, ReadReply(out.reply.ms[0]))
  }

  function SubscribePayload(s: Sub): bytes { Go.Encode(Go.GoEndpointP(s.endpoint)) }

  /** Writers are created without key descriptors. */
  function WriterPayload(w: Writer): bytes { Go.Encode(Go.GoEndpointP(w.endpoint.(keys := []))) }

  // ---- Public calls ----

  function CreateWriter(c: State, b: B.State, max: nat, w: Writer, n: Net): (State, B.State) {
    match c.conn
    case None => (c, b)
    case Some(sid) =>
      var (b', r) := Request(b, sid, max, MsgType.CreateWriter, WriterPayload(w), n);
      if r.None? || |r.value| < 4 then (c, b')
      else (c.(writers := c.writers + [w.(writerId := U32At(r.value), closed := false)]), b')
  }

  function Subscribe(c: State, b: B.State, max: nat, s: Sub, n: Net): (State, B.State) {
    match c.conn
    case None => (c, b)
    case Some(sid) =>
      var (b', r) := Request(b, sid, max, MsgType.Subscribe, SubscribePayload(s), n);
      if r.None? then (c, b') else (c.(subs := c.subs + [s]), b')
  }

  function IndexOf(ws: seq<Writer>, token: nat): (i: nat)
    ensures i <= |ws|
    ensures i < |ws| ==> ws[i].token == token
    ensures forall j :: 0 <= j < i ==> ws[j].token != token
  {
    if ws == [] || ws[0].token == token then 0 else 1 + IndexOf(ws[1..], token)
  }

  /** `Writer.Close`: out of the list first, then a best-effort DELETE_WRITER. */
  function CloseWriter(c: State, b: B.State, max: nat, token: nat, n: Net): (State, B.State) {
    var i := IndexOf(c.writers, token);
    if i == |c.writers| || c.writers[i].closed then (c, b)
    else
      var c' := c.(writers := c.writers[..i] + c.writers[i + 1..]);
      match c.conn
      case None => (c', b)
      case Some(sid) =>
        (c', Request(b, sid, max, MsgType.DeleteWriter, Go.Encode(Go.GoDeleteWriterP(c.writers[i].writerId)), n).0)
  }

  function WithoutSub(ss: seq<Sub>, token: nat): seq<Sub> {
    if ss == [] then [] else if ss[0].token == token then ss[1..] else [ss[0]] + WithoutSub(ss[1..], token)
  }

  function Unsubscribe(c: State, b: B.State, max: nat, s: Sub, n: Net): (State, B.State) {
    var c' := c.(subs := WithoutSub(c.subs, s.token));
    match c.conn
    case None => (c', b)
    case Some(sid) =>
      (c', Request(b, sid, max, MsgType.Unsubscribe,
                   Go.Encode(Go.GoUnsubscribeP(s.endpoint.topicName, s.endpoint.typeName)), n).0)
  }

  /** Writes, disposes and pings, in topic-name or writer-id mode: they touch no client list. */
  function Send(c: State, b: B.State, max: nat, t: MsgType, payload: bytes, n: Net): (State, B.State) {
    match c.conn
    case None => (c, b)
    case Some(sid) => (c, Request(b, sid, max, t, payload, n).0)
  }

  // ---- Reconnecting ----

  datatype Restored = Restored(b: B.State, writers: seq<Writer>, ok: bool)

  /** Re-create writers in order, keeping each new id; stop at the first failure. A missing `Net` is a timeout. */
  function RestoreWriters(b: B.State, sid: SessionId, max: nat, ws: seq<Writer>, nets: seq<Net>): Restored
    decreases |ws|
  {
    if ws == [] then Restored(b, [], true)
    else if ws[0].closed then
      var r := RestoreWriters(b, sid, max, ws[1..], nets);
      Restored(r.b, [ws[0]] + r.writers, r.ok)
    else if nets == [] then Restored(b, ws, false)
    else
      var (b', r) := Request(b, sid, max, MsgType.CreateWriter, WriterPayload(ws[0]), nets[0]);
      if r.None? || |r.value| < 4 then Restored(b', ws, false)
      else
        var t := RestoreWriters(b', sid, max, ws[1..], nets[1..]);
        Restored(t.b, [ws[0].(writerId := U32At(r.value))] + t.writers, t.ok)
  }

  lemma RestoreNone(b: B.State, sid: SessionId, max: nat, nets: seq<Net>)
    ensures RestoreWriters(b, sid, max, [], nets) == Restored(b, [], true)
  {
  }

  function RestoreSubs(b: B.State, sid: SessionId, max: nat, ss: seq<Sub>, nets: seq<Net>): (B.State, bool)
    decreases |ss|
  {
    if ss == [] then (b, true)
    else if nets == [] then (b, false)
    else
      var (b', r) := Request(b, sid, max, MsgType.Subscribe, SubscribePayload(ss[0]), nets[0]);
      if r.None? then (b', false) else RestoreSubs(b', sid, max, ss[1..], nets[1..])
  }

  /** One turn of the reconnect loop: dial, restore everything, and only then publish the connection. */
  datatype Attempt =
    Attempt(dialOk: bool, sid: SessionId, capacity: nat, max: nat, forWriters: seq<Net>, forSubs: seq<Net>)

  function TryReconnect(c: State, b: B.State, a: Attempt): (State, B.State) {
    if !a.dialOk then (c, b)
    else
      var b1 := B.Step(b, B.Connect(a.sid, a.capacity));
      var r := RestoreWriters(b1, a.sid, a.max, c.writers, a.forWriters);
      var c1 := c.(writers := r.writers);
      if !r.ok then (c1, r.b)
      else
        var (b2, ok) := RestoreSubs(r.b, a.sid, a.max, c.subs, a.forSubs);
        if !ok then (c1, b2) else (c1.(conn := Some(a.sid)), b2)
  }

  /** `reconnect`: attempts until one succeeds or `limit` of them are used up (a negative limit: no end). */
  function Reconnect(c: State, b: B.State, tries: seq<Attempt>, limit: int): (State, B.State)
    decreases |tries|
  {
    if tries == [] || limit == 0 || c.conn.Some? then (c, b)
    else
      var (c', b') := TryReconnect(c, b, tries[0]);
      Reconnect(c', b', tries[1..], if limit < 0 then limit else limit - 1)
  }
}

/** What reconnecting promises. */
module ClientTheorems {
  import opened Bytes
  import opened Wire
  import opened Qos
  import opened QosEquality
  import opened Protocol
  import opened Entities
  import opened Client
  import B = Bridge
  import P = BridgeProofs
  import T = BridgeTheorems
  import BR = BridgeRuns
  import W = Writers
  import R = Readers
  import Go = GoCodec

  // ---- What a session keeps while others act ----

  /** Writers of `sid` not in `but` are still there, unchanged. */
  ghost predicate KeepsWriters(b: B.State, b': B.State, sid: SessionId, but: set<u32>) {
    forall id :: id in b.writers.writers && b.writers.writers[id].owner == sid && id !in but ==>
      id in b'.writers.writers && b'.writers.writers[id] == b.writers.writers[id]
  }

  /** Readers listing `sid` still do, with the same key. */
  ghost predicate KeepsReaders(b: B.State, b': B.State, sid: SessionId) {
    forall x :: R.Lists(b.readers, sid, x) ==>
      R.Lists(b'.readers, sid, x) && R.ReaderKeyOf(b'.readers.readers[x]) == R.ReaderKeyOf(b.readers.readers[x])
  }

  ghost predicate Keeps(b: B.State, b': B.State, sid: SessionId) {
    KeepsWriters(b, b', sid, {}) && KeepsReaders(b, b', sid)
  }

  lemma KeepsTransitive(a: B.State, b: B.State, c: B.State, sid: SessionId, but: set<u32>)
    ensures KeepsWriters(a, b, sid, {}) && KeepsWriters(b, c, sid, but) ==> KeepsWriters(a, c, sid, but)
    ensures KeepsReaders(a, b, sid) && KeepsReaders(b, c, sid) ==> KeepsReaders(a, c, sid)
  {
    hide R.ReaderKeyOf;
  }

  /** Events that do not speak for the session. It may be disconnected or hung up on, but not reconnected. */
  predicate Foreign(e: B.Event, sid: SessionId) {
    match e
    case Frame(s, _, _, _) => s != sid
    case Connect(s, _) => s != sid
    case _ => true
  }

  /** A frame changes the readers by at most one SUBSCRIBE or UNSUBSCRIBE of its own session. */
  ghost predicate ReadersChange(rs: R.State, rs': R.State, s: SessionId, unsub: bool) {
    || rs' == rs
    || (exists t, q, ok :: rs' == R.Subscribe(rs, t, q, s, ok))
    || (unsub && exists t, y :: rs' == R.Unsubscribe(rs, t, y, s))
  }

  lemma FrameReaders(b: B.State, s: SessionId, data: bytes, max: nat, d: B.Dds)
    ensures var b' := B.ProcessFrame(b, s, data, max, d).st;
            var h := ParseHeader(data);
            && ReadersChange(b.readers, b'.readers, s, h.Parsed? && h.value.msgType == MsgType.Unsubscribe)
            && b'.senders.Keys == b.senders.Keys
  {
    hide ParseEndpoint, ParseWriteMode, ParseUnsubscribe, ParseDeleteWriter, ParseHeader, B.ErrorReply, B.OkReply,
         BuildMessage, B.GetOrCreateTopic, W.FindByTopic, W.Register, W.Delete, W.Get, Normalize, R.Subscribe,
         R.Unsubscribe, R.SubscribeResult, R.Unsubscribed, ValidateClientHeader, B.FramePayload, Le, B.NextId,
         B.HandleWriteOp;
    if B.Dispatched(data, max) {
      var h := ParseHeader(data).value;
      BR.WriteOpReaders(b, s, h.requestId, B.FramePayload(data), d, B.WriteKindOf(h.msgType));
    }
  }

  lemma SubscribeKeeps(rs: R.State, t: Topic, q: QosSet, s: SessionId, ok: bool, sid: SessionId, x: nat)
    requires R.Inv(rs) && R.Lists(rs, sid, x)
    ensures var rs' := R.Subscribe(rs, t, q, s, ok);
            R.Lists(rs', sid, x) && R.ReaderKeyOf(rs'.readers[x]) == R.ReaderKeyOf(rs.readers[x])
  {
    hide R.KeyOf, Normalize, SerializeQos;
  }

  lemma UnsubscribeKeeps(rs: R.State, t: bytes, y: bytes, s: SessionId, sid: SessionId, x: nat)
    requires s != sid && R.Lists(rs, sid, x)
    ensures var rs' := R.Unsubscribe(rs, t, y, s);
            R.Lists(rs', sid, x) && R.ReaderKeyOf(rs'.readers[x]) == R.ReaderKeyOf(rs.readers[x])
  {
    hide SerializeQos;
  }

  lemma RemoveKeeps(rs: R.State, s: SessionId, sid: SessionId, x: nat)
    requires s != sid && R.Lists(rs, sid, x)
    ensures var rs' := R.RemoveSession(rs, s);
            R.Lists(rs', sid, x) && R.ReaderKeyOf(rs'.readers[x]) == R.ReaderKeyOf(rs.readers[x])
  {
    hide SerializeQos;
  }

  /** A frame of any session `s` keeps the readers of `sid`, unless `sid` itself unsubscribes. */
  lemma FrameKeepsReaders(b: B.State, s: SessionId, data: bytes, max: nat, d: B.Dds, sid: SessionId)
    requires P.Inv(b)
    requires s != sid || !(ParseHeader(data).Parsed? && ParseHeader(data).value.msgType == MsgType.Unsubscribe)
    ensures KeepsReaders(b, B.ProcessFrame(b, s, data, max, d).st, sid)
  {
    hide P.Inv, R.Inv, B.ProcessFrame, ParseHeader, R.Subscribe, R.Unsubscribe, R.ReaderKeyOf, R.Lists;
    T.InvParts(b);
    FrameReaders(b, s, data, max, d);
    var rs := b.readers;
    var rs' := B.ProcessFrame(b, s, data, max, d).st.readers;
    forall x | R.Lists(rs, sid, x)
      ensures R.Lists(rs', sid, x) && ListedKey(rs', sid, x) == ListedKey(rs, sid, x)
    {
      if rs' != rs {
        if t, q, ok :| rs' == R.Subscribe(rs, t, q, s, ok) {
          SubscribeKeeps(rs, t, q, s, ok, sid, x);
        } else {
          var t, y :| rs' == R.Unsubscribe(rs, t, y, s);
          UnsubscribeKeeps(rs, t, y, s, sid, x);
        }
      }
    }
  }

  ghost function ListedKey(rs: R.State, sid: SessionId, x: nat): R.ReaderKey
    requires R.Lists(rs, sid, x)
  {
    R.ReaderKeyOf(rs.readers[x])
  }

  /** A frame of any session keeps the writers of `sid`, except one that `sid` itself deletes. */
  lemma FrameKeepsWriters(b: B.State, s: SessionId, data: bytes, max: nat, d: B.Dds, sid: SessionId)
    requires P.Inv(b) && B.FreshAt(b, B.Frame(s, data, max, d))
    ensures var del := if s == sid && B.Dispatched(data, max) && ParseHeader(data).value.msgType == MsgType.DeleteWriter
                          && ParseDeleteWriter(B.FramePayload(data)).Success?
                       then {ParseDeleteWriter(B.FramePayload(data)).value} else {};
            KeepsWriters(b, B.ProcessFrame(b, s, data, max, d).st, sid, del)
  {
    hide P.Inv, B.ProcessFrame, ParseHeader, ParseDeleteWriter, B.FramePayload, ValidateClientHeader;
    P.FrameWriters(b, s, data, max, d);
  }

  lemma ForeignStep(b: B.State, e: B.Event, sid: SessionId)
    requires P.Inv(b) && B.FreshAt(b, e) && Foreign(e, sid)
    ensures var b' := B.Step(b, e);
            P.Inv(b') && (sid in b'.senders ==> sid in b.senders && Keeps(b, b', sid))
  {
    hide P.Inv, B.FreshAt, B.ProcessFrame, R.Lists, R.ReaderKeyOf, W.RemoveSession, R.RemoveSession, R.Inv,
         W.Inv, ParseHeader, B.Dispatched, ParseDeleteWriter;
    P.StepInv(b, e);
    T.InvParts(b);
    match e
    case Frame(s, data, max, d) =>
      FrameReaders(b, s, data, max, d);
      FrameKeepsReaders(b, s, data, max, d, sid);
      FrameKeepsWriters(b, s, data, max, d, sid);
    case Disconnect(s) =>
      if s != sid { DisconnectKeeps(b, s, sid); }
    case _ =>
  }

  lemma DisconnectKeeps(b: B.State, s: SessionId, sid: SessionId)
    requires W.Inv(b.writers) && s != sid
    ensures Keeps(b, B.UnregisterSession(b, s), sid)
  {
    hide R.Lists, R.ReaderKeyOf, W.RemoveSession, R.RemoveSession, W.Inv;
    W.RemoveSessionExact(b.writers, s);
    forall x | R.Lists(b.readers, sid, x)
      ensures R.Lists(R.RemoveSession(b.readers, s), sid, x)
           && ListedKey(R.RemoveSession(b.readers, s), sid, x) == ListedKey(b.readers, sid, x)
    {
      RemoveKeeps(b.readers, s, sid, x);
    }
  }

  ghost predicate EnvOk(b: B.State, es: seq<B.Event>, sid: SessionId) {
    T.FreshFrom(b, es) && forall i :: 0 <= i < |es| ==> Foreign(es[i], sid)
  }

  lemma {:induction false} EnvKeeps(b: B.State, es: seq<B.Event>, sid: SessionId)
    requires P.Inv(b) && EnvOk(b, es, sid)
    ensures var b' := T.RunFrom(b, es);
            P.Inv(b') && (sid in b'.senders ==> sid in b.senders && Keeps(b, b', sid))
  {
    hide P.Inv, B.FreshAt, B.Step, R.Lists, R.ReaderKeyOf, Foreign;
    if es != [] {
      var prev, e := es[..|es| - 1], es[|es| - 1];
      EnvKeeps(b, prev, sid);
      var b0 := T.RunFrom(b, prev);
      assert Foreign(e, sid);
      ForeignStep(b0, e, sid);
      KeepsTransitive(b, b0, B.Step(b0, e), sid, {});
    }
  }

  // ---- Requests as bytes ----

  /** Only foreign events come before the request; writers registered by them or by it get fresh ids. */
  ghost predicate NetOk(b: B.State, sid: SessionId, max: nat, t: MsgType, payload: bytes, n: Net) {
    EnvOk(b, n.env, sid) && B.FreshAt(T.RunFrom(b, n.env), B.Frame(sid, Frame(t, n.id, payload), max, n.dds))
  }

  /** The bytes of a payload that its 32-bit length lets the bridge read. */
  function Received(payload: bytes): bytes { payload[..|payload| % 0x1_0000_0000] }

  lemma FrameRead(t: MsgType, id: u32, payload: bytes)
    ensures var d := Frame(t, id, payload);
            && ParseHeader(d).Parsed? && ParseHeader(d).value.msgType == t && B.FrameId(d) == id
            && |d| >= HEADER_SIZE + ParseHeader(d).value.payloadLength
            && B.FramePayload(d) == Received(payload)
  {
    hide BuildMessage, Go.GoBuildMessage, ParseHeader;
    Go.HeadersAgree(t, id, payload);
    var d := Frame(t, id, payload);
    var n := |payload| % 0x1_0000_0000;
    assert d[12..12 + n] == d[12..][..n];
  }

  lemma ReplyRead(req: u32, p: bytes, code: ErrorCode, text: bytes)
    requires |p| < 0x1_0000_0000
    ensures ReadReply(B.OkReply(req, p)) == Some(p)
    ensures ReadReply(B.ErrorReply(req, code, text)) == None
  {
    hide BuildMessage, Serialize, Go.DecodeHeader;
    Go.HeadersAgree(OkMsg, req, p);
    Go.HeadersAgree(ErrorMsg, req, Serialize(ErrorP(code, text)));
    var m := B.OkReply(req, p);
    assert m[12..12 + |p|] == m[12..][..|p|] == p;
    assert MsgByte(OkMsg) != 0xFE && MsgByte(ErrorMsg) == 0xFE;
  }

  /** A request of the session itself: its readers stay unless it unsubscribes, its writers unless it deletes. */
  lemma RequestKeeps(b: B.State, sid: SessionId, max: nat, t: MsgType, payload: bytes, n: Net)
    requires P.Inv(b) && NetOk(b, sid, max, t, payload, n)
    ensures var b' := Request(b, sid, max, t, payload, n).0;
            && P.Inv(b')
            && (sid in b'.senders ==>
                  && sid in b.senders
                  && (!t.Unsubscribe? ==> KeepsReaders(b, b', sid))
                  && KeepsWriters(b, b', sid, if t.DeleteWriter? && ParseDeleteWriter(Received(payload)).Success?
                                              then {ParseDeleteWriter(Received(payload)).value} else {}))
  {
    hide P.Inv, B.FreshAt, EnvOk, B.ProcessFrame, R.Lists, R.ReaderKeyOf, Frame, ParseHeader, B.FramePayload,
         ParseDeleteWriter, Received, ReadReply, T.RunFrom, KeepsReaders, KeepsWriters, ValidateClientHeader;
    EnvKeeps(b, n.env, sid);
    var b0, data := T.RunFrom(b, n.env), Frame(t, n.id, payload);
    P.FrameInv(b0, sid, data, max, n.dds);
    FrameRead(t, n.id, payload);
    FrameReaders(b0, sid, data, max, n.dds);
    FrameKeepsWriters(b0, sid, data, max, n.dds, sid);
    if !t.Unsubscribe? { FrameKeepsReaders(b0, sid, data, max, n.dds, sid); }
    var b1 := B.ProcessFrame(b0, sid, data, max, n.dds).st;
    var x := if t.DeleteWriter? && ParseDeleteWriter(Received(payload)).Success?
             then {ParseDeleteWriter(Received(payload)).value} else {};
    KeepsTransitive(b, b0, b1, sid, x);
    KeepsWeaker(b, b0, sid, x);
    KeepsWeaker(b0, b1, sid, x);
  }

  lemma KeepsWeaker(b: B.State, b': B.State, sid: SessionId, but: set<u32>)
    ensures KeepsWriters(b, b', sid, {}) ==> KeepsWriters(b, b', sid, but)
  {
  }

  /** However a long payload is cut, a name that can be written is read back as itself. */
  lemma CutString(s: bytes, rest: bytes, n: nat)
    requires |s| < 0x1_0000_0000 && n <= |WriteString(s) + rest|
    ensures |WriteString(s)| == 4 + |s|
    ensures var r := ReadString((WriteString(s) + rest)[..n]);
            r.Parsed? ==> n >= 4 + |s| && r == Parsed(s, rest[..n - 4 - |s|])
  {
    hide U32At, Le, ValidUtf8;
    var b := WriteString(s) + rest;
    assert b == Le(|s|, 4) + (s + rest);
    if n >= 4 {
      assert b[..n] == Le(|s|, 4) + (s + rest)[..n - 4];
      ReadLe32(|s|, (s + rest)[..n - 4]);
      if n >= 4 + |s| {
        assert b[..n] == WriteString(s) + rest[..n - 4 - |s|];
        StringPrefix(s, rest[..n - 4 - |s|]);
      }
    }
  }

  ghost predicate NamesFit(e: Go.GoEndpoint) { |e.topicName| < 0x1_0000_0000 && |e.typeName| < 0x1_0000_0000 }

  /** The bridge parses a client's endpoint payload only to the client's own topic and type names. */
  lemma EndpointNames(e: Go.GoEndpoint)
    requires NamesFit(e)
    ensures var p := ParseEndpoint(Received(Go.Encode(Go.GoEndpointP(e))));
            p.Success? ==> p.value.topicName == e.topicName && p.value.typeName == e.typeName
  {
    hide ReadString, WriteString, ParseQos, ParseKeyDescriptors, Go.EncodeQos, Go.EncodeKeys, Go.AppendString;
    var rest := Go.EncodeQos(e.qos) + [BoolByte(e.isKeyed)] + Go.EncodeKeys(e.keys);
    var b := Go.Encode(Go.GoEndpointP(e));
    Go.Append2([], e.topicName, e.typeName, rest);
    var head := Go.AppendString(Go.AppendString([], e.topicName), e.typeName);
    assert b == head + rest;
    var whole := WriteString(e.topicName) + (WriteString(e.typeName) + rest);
    assert [] + whole == whole;
    var n := |b| % 0x1_0000_0000;
    CutString(e.topicName, WriteString(e.typeName) + rest, n);
    if ReadString(b[..n]).Parsed? {
      CutString(e.typeName, rest, n - 4 - |e.topicName|);
    }
  }

  // ---- Creating writers ----

  /** The id is registered to the session, on a writer of the given topic and type. */
  ghost predicate OwnedBy(b: B.State, sid: SessionId, id: u32, e: Go.GoEndpoint) {
    && id in b.writers.writers && b.writers.writers[id].owner == sid
    && b.writers.writers[id].writer.topic.topicName == e.topicName
    && b.writers.writers[id].writer.topic.typeName == e.typeName
  }

  ghost predicate Holds(b: B.State, sid: SessionId, id: u32) {
    id in b.writers.writers && b.writers.writers[id].owner == sid
  }

  lemma CreateReply(b: B.State, sid: SessionId, req: u32, payload: bytes, d: B.Dds, e: Go.GoEndpoint)
    requires P.TopicsInv(b.topics)
    requires var p := ParseEndpoint(payload);
             p.Success? ==> p.value.topicName == e.topicName && p.value.typeName == e.typeName
    ensures var out := B.HandleCreateWriter(b, sid, req, payload, d);
            out.reply.Messages? && ReadReply(out.reply.ms[0]).Some? && |ReadReply(out.reply.ms[0]).value| >= 4 ==>
              var id := U32At(ReadReply(out.reply.ms[0]).value);
              id == b.nextWriterId != out.st.nextWriterId && OwnedBy(out.st, sid, id, e)
  {
    hide ParseEndpoint, B.GetOrCreateTopic, B.ErrorReply, B.OkReply, ReadReply, Le, Normalize, U32At;
    ReplyRead(req, Le(b.nextWriterId, 4), InvalidMessage, d.text);
    ReplyRead(req, [], DdsError, d.text);
    ReadLe32(b.nextWriterId, []);
    assert Le(b.nextWriterId, 4) + [] == Le(b.nextWriterId, 4);
    if ParseEndpoint(payload).Success? {
      var q := ParseEndpoint(payload).value;
      P.TopicFound(b.topics, q.topicName, q.typeName, q.isKeyed, q.keys, d.topicHandle);
    }
  }

  /** A CREATE_WRITER that the client sees succeed names a writer of its session, unknown to the session before. */
  lemma CreateRequest(b: B.State, sid: SessionId, max: nat, w: Writer, n: Net)
    requires P.Inv(b) && NamesFit(w.endpoint)
    ensures NetOk(b, sid, max, MsgType.CreateWriter, WriterPayload(w), n) ==>
              var (b', r) := Request(b, sid, max, MsgType.CreateWriter, WriterPayload(w), n);
              && P.Inv(b')
              && (sid in b'.senders ==> sid in b.senders && Keeps(b, b', sid))
              && (r.Some? && |r.value| >= 4 ==>
                    && sid in b'.senders
                    && OwnedBy(b', sid, U32At(r.value), w.endpoint) && !Holds(b, sid, U32At(r.value)))
  {
    hide P.Inv, EnvOk, B.ProcessFrame, R.Lists, R.ReaderKeyOf, Frame, ReadReply, T.RunFrom, Received, U32At,
         KeepsReaders, WriterPayload;
    if NetOk(b, sid, max, MsgType.CreateWriter, WriterPayload(w), n) {
      RequestKeeps(b, sid, max, MsgType.CreateWriter, WriterPayload(w), n);
      EnvKeeps(b, n.env, sid);
      var (b', r) := Request(b, sid, max, MsgType.CreateWriter, WriterPayload(w), n);
      if r.Some? && |r.value| >= 4 { CreateServed(T.RunFrom(b, n.env), sid, max, w, n); }
    }
  }

  lemma CreateServed(b0: B.State, sid: SessionId, max: nat, w: Writer, n: Net)
    requires P.Inv(b0) && NamesFit(w.endpoint) && sid in b0.senders
    ensures var out := B.ProcessFrame(b0, sid, Frame(MsgType.CreateWriter, n.id, WriterPayload(w)), max, n.dds);
            && sid in out.st.senders
            && (out.reply.Messages? && out.reply.ms != [] && ReadReply(out.reply.ms[0]).Some?
                && |ReadReply(out.reply.ms[0]).value| >= 4 ==>
                  var id := U32At(ReadReply(out.reply.ms[0]).value);
                  && OwnedBy(out.st, sid, id, w.endpoint)
                  && (B.FreshAt(b0, B.Frame(sid, Frame(MsgType.CreateWriter, n.id, WriterPayload(w)), max, n.dds)) ==>
                        id !in b0.writers.writers))
  {
    hide W.Inv, R.Inv, P.EntitiesInv, P.SendersInv, Frame, ReadReply, Received, U32At, B.HandleCreateWriter,
         ParseHeader, ValidateClientHeader, B.FramePayload, B.ErrorReply, ParseEndpoint, P.TopicsInv, Go.Encode,
         B.FrameId;
    var data := Frame(MsgType.CreateWriter, n.id, WriterPayload(w));
    FrameRead(MsgType.CreateWriter, n.id, WriterPayload(w));
    FrameReaders(b0, sid, data, max, n.dds);
    EndpointNames(w.endpoint.(keys := []));
    CreateReply(b0, sid, n.id, Received(WriterPayload(w)), n.dds, w.endpoint);
    ReplyRead(B.FrameId(data), [], InvalidMessage, n.dds.text);
  }

  // ---- Subscriptions ----

  /** A live reader with the subscription's key lists the session. */
  ghost predicate LiveFor(b: B.State, sid: SessionId, s: Sub) {
    var p := ParseEndpoint(Received(SubscribePayload(s)));
    p.Success? && exists x :: LiveReader(b, sid, x, s.endpoint, p.value.qos)
  }

  ghost predicate LiveReader(b: B.State, sid: SessionId, x: nat, e: Go.GoEndpoint, q: QosSet) {
    R.Lists(b.readers, sid, x)
    && R.ReaderKeyOf(b.readers.readers[x]) == R.ReaderKey(e.topicName, e.typeName, KeyBytes(q))
  }

  lemma LiveKept(b: B.State, b': B.State, sid: SessionId, s: Sub)
    requires KeepsReaders(b, b', sid)
    ensures LiveFor(b, sid, s) ==> LiveFor(b', sid, s)
  {
    hide R.ReaderKeyOf, R.Lists, ParseEndpoint, Received, SubscribePayload, KeyBytes;
    if LiveFor(b, sid, s) {
      var q := ParseEndpoint(Received(SubscribePayload(s))).value.qos;
      var x :| LiveReader(b, sid, x, s.endpoint, q);
      assert LiveReader(b', sid, x, s.endpoint, q);
    }
  }

  lemma SubscribeReply(b: B.State, sid: SessionId, req: u32, payload: bytes, d: B.Dds, e: Go.GoEndpoint)
    requires P.TopicsInv(b.topics) && R.Inv(b.readers)
    requires var p := ParseEndpoint(payload);
             p.Success? ==> p.value.topicName == e.topicName && p.value.typeName == e.typeName
    ensures var out := B.HandleSubscribe(b, sid, req, payload, d);
            out.reply.Messages? && ReadReply(out.reply.ms[0]).Some? ==>
              && ParseEndpoint(payload).Success?
              && exists x :: LiveReader(out.st, sid, x, e, ParseEndpoint(payload).value.qos)
  {
    hide ParseEndpoint, B.GetOrCreateTopic, B.ErrorReply, B.OkReply, ReadReply, R.Subscribe, R.SubscribeResult, R.Inv,
         R.ReaderKeyOf, R.Lists, KeyBytes;
    ReplyRead(req, [], InvalidMessage, d.text);
    ReplyRead(req, [], DdsError, d.text);
    if ParseEndpoint(payload).Success? {
      var p := ParseEndpoint(payload).value;
      P.TopicFound(b.topics, p.topicName, p.typeName, p.isKeyed, p.keys, d.topicHandle);
      match B.GetOrCreateTopic(b.topics, p.topicName, p.typeName, p.isKeyed, p.keys, d.topicHandle)
      case Got(_, topic) =>
        SubscribeLists(b.readers, topic, p.qos, sid, d.readerOk);
        var out := B.HandleSubscribe(b, sid, req, payload, d);
        var r := R.SubscribeResult(b.readers, topic, p.qos, d.readerOk);
        if r.Some? { assert LiveReader(out.st, sid, r.value, e, p.qos); }
      case _ =>
    }
  }

  lemma SubscribeLists(rs: R.State, t: Topic, q: QosSet, sid: SessionId, ok: bool)
    requires R.Inv(rs)
    ensures var r := R.SubscribeResult(rs, t, q, ok);
            var rs' := R.Subscribe(rs, t, q, sid, ok);
            r.Some? ==> R.Lists(rs', sid, r.value) && R.ReaderKeyOf(rs'.readers[r.value]) == R.KeyOf(t, q)
  {
    hide Normalize, SerializeQos, KeyBytes;
    R.KeyOfNew(t, q, sid);
  }

  lemma SubscribeRequest(b: B.State, sid: SessionId, max: nat, s: Sub, n: Net)
    requires P.Inv(b) && NamesFit(s.endpoint)
    ensures NetOk(b, sid, max, MsgType.Subscribe, SubscribePayload(s), n) ==>
              var (b', r) := Request(b, sid, max, MsgType.Subscribe, SubscribePayload(s), n);
              && P.Inv(b')
              && (sid in b'.senders ==> sid in b.senders && Keeps(b, b', sid))
              && (r.Some? ==> sid in b'.senders && LiveFor(b', sid, s))
  {
    hide P.Inv, EnvOk, B.ProcessFrame, R.Lists, R.ReaderKeyOf, Frame, ReadReply, T.RunFrom, Received, KeepsReaders,
         SubscribePayload, LiveFor, KeepsWriters;
    if NetOk(b, sid, max, MsgType.Subscribe, SubscribePayload(s), n) {
      RequestKeeps(b, sid, max, MsgType.Subscribe, SubscribePayload(s), n);
      EnvKeeps(b, n.env, sid);
      if Request(b, sid, max, MsgType.Subscribe, SubscribePayload(s), n).1.Some? {
        SubscribeServed(T.RunFrom(b, n.env), sid, max, s, n);
      }
    }
  }

  lemma SubscribeServed(b0: B.State, sid: SessionId, max: nat, s: Sub, n: Net)
    requires P.Inv(b0) && NamesFit(s.endpoint) && sid in b0.senders
    ensures var out := B.ProcessFrame(b0, sid, Frame(MsgType.Subscribe, n.id, SubscribePayload(s)), max, n.dds);
            && sid in out.st.senders
            && (out.reply.Messages? && out.reply.ms != [] && ReadReply(out.reply.ms[0]).Some? ==>
                  LiveFor(out.st, sid, s))
  {
    hide W.Inv, R.Inv, P.EntitiesInv, P.SendersInv, Frame, ReadReply, Received, B.HandleSubscribe, ParseHeader,
         ValidateClientHeader, B.FramePayload, B.ErrorReply, ParseEndpoint, P.TopicsInv, Go.Encode, B.FrameId,
         LiveReader;
    var data := Frame(MsgType.Subscribe, n.id, SubscribePayload(s));
    FrameRead(MsgType.Subscribe, n.id, SubscribePayload(s));
    FrameReaders(b0, sid, data, max, n.dds);
    EndpointNames(s.endpoint);
    SubscribeReply(b0, sid, n.id, Received(SubscribePayload(s)), n.dds, s.endpoint);
    ReplyRead(B.FrameId(data), [], InvalidMessage, n.dds.text);
  }
}

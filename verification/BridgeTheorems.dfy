/** The bridge's promises to its sessions: one answer per request, notices after it, stable implicit writers. */
module BridgeTheorems {
  import opened Bytes
  import opened Qos
  import opened QosEquality
  import opened Protocol
  import opened Entities
  import opened Bridge
  import opened BridgeProofs
  import W = Writers
  import R = Readers
  import Go = GoCodec

  // ---- One answer per request ----

  /** The client can read the header, and the payload it announces is there. */
  predicate Complete(m: bytes) {
    match Go.DecodeHeader(m) case None => false case Some(h) => h.payloadLength <= |m| - HEADER_SIZE
  }

  /** A complete OK, ERROR or PONG. */
  predicate IsAnswer(m: bytes) { |m| >= HEADER_SIZE && m[3] in {0x80, 0xFE, 0x8F} && Complete(m) }

  /** One answer carrying the request's id, then only notifications, which carry id 0. */
  ghost predicate AnswersOnce(r: Reply, id: u32) {
    r.Messages? ==>
      && |r.ms| >= 1 && MsgId(r.ms[0]) == id && IsAnswer(r.ms[0])
      && forall i :: 1 <= i < |r.ms| ==> MsgId(r.ms[i]) == 0
  }

  lemma OneMessage(t: MsgType, id: u32, p: bytes)
    requires t.OkMsg? || t.ErrorMsg? || t.Pong?
    ensures IsAnswer(BuildMessage(t, id, p)) && AnswersOnce(Messages([BuildMessage(t, id, p)]), id)
  {
    AnswerByte(t, id, p);
    hide BuildMessage, MsgId, IsAnswer;
    MsgIdBuild(t, id, p);
  }

  lemma AnswerByte(t: MsgType, id: u32, p: bytes)
    requires t.OkMsg? || t.ErrorMsg? || t.Pong?
    ensures IsAnswer(BuildMessage(t, id, p))
  {
    hide Le, U32At, MsgFromByte;
    Go.HeadersAgree(t, id, p);
  }

  lemma RepliesOnce(id: u32, code: ErrorCode, p: bytes, text: bytes)
    ensures AnswersOnce(Messages([OkReply(id, p)]), id)
    ensures AnswersOnce(Messages([ErrorReply(id, code, text)]), id)
    ensures AnswersOnce(Messages([BuildMessage(Pong, id, [])]), id)
  {
    hide BuildMessage, AnswersOnce, Serialize;
    OneMessage(OkMsg, id, p);
    OneMessage(ErrorMsg, id, Serialize(ErrorP(code, text)));
    OneMessage(Pong, id, []);
  }

  lemma NoticesOnce(st: State, sid: SessionId, id: u32, m: WriteMode)
    ensures AnswersOnce(RespWithNotices(st, sid, OkReply(id, []), m).reply, id)
  {
    hide BuildMessage, MsgId, Serialize, Listing, Notify, IsAnswer;
    OneMessage(OkMsg, id, []);
    match Target(st, m)
    case None =>
    case Some((t, y)) => MsgIdBuild(DataDisposed, 0, Serialize(StampedP(t, 0, m.data)));
  }

  lemma HandlerOnce(st: State, sid: SessionId, t: MsgType, id: u32, p: bytes, d: Dds)
    ensures AnswersOnce(HandleMessage(st, sid, t, id, p, d).reply, id)
  {
    hide AnswersOnce, ErrorReply, OkReply, BuildMessage, ParseEndpoint, ParseWriteMode, ParseUnsubscribe,
         ParseDeleteWriter, GetOrCreateTopic, DoWriteOp, RespWithNotices, R.Subscribe, R.SubscribeResult,
         R.Unsubscribe, R.Unsubscribed, W.Get, W.Delete, AddWriter, Le;
    RepliesOnce(id, InvalidMessage, [], d.text);
    RepliesOnce(id, DdsError, Le(st.nextWriterId, 4), d.text);
    RepliesOnce(id, ReaderNotFound, [], d.text);
    RepliesOnce(id, WriterNotFound, [], d.text);
    AbortedOnce(id);
    if t.Write? || t.Dispose? || t.WriteDispose? { WriteOnce(st, sid, id, p, d, WriteKindOf(t)); }
  }

  lemma AbortedOnce(id: u32) ensures AnswersOnce(Aborted, id) {}

  lemma WriteOnce(st: State, sid: SessionId, id: u32, p: bytes, d: Dds, kind: WriteKind)
    ensures AnswersOnce(HandleWriteOp(st, sid, id, p, d, kind).reply, id)
  {
    hide AnswersOnce, ErrorReply, OkReply, ParseWriteMode, DoWriteOp, RespWithNotices;
    RepliesOnce(id, InvalidMessage, [], d.text);
    AbortedOnce(id);
    if ParseWriteMode(p).Success? {
      var m := ParseWriteMode(p).value;
      match DoWriteOp(st, sid, m, d)
      case WriteAborts =>
      case WriteFailed(_, code, _) => RepliesOnce(id, code, [], d.text);
      case Wrote(st', _) => NoticesOnce(Logged(st', DoWriteOp(st, sid, m, d), kind, m), sid, id, m);
    }
  }

  /** Every frame, well formed or not, is answered by one message carrying the id read from its header (0 if none)
      followed only by notifications, unless the session task aborts. */
  lemma FrameAnsweredOnce(st: State, sid: SessionId, data: bytes, max: nat, d: Dds)
    ensures AnswersOnce(ProcessFrame(st, sid, data, max, d).reply, FrameId(data))
  {
    hide AnswersOnce, HandleMessage, ErrorReply, ParseHeader, ValidateClientHeader, FramePayload, FrameId;
    RepliesOnce(FrameId(data), InvalidMessage, [], d.text);
    if Dispatched(data, max) {
      HandlerOnce(st, sid, ParseHeader(data).value.msgType, FrameId(data), FramePayload(data), d);
    }
  }

  /** The requests that make the bridge build a C string from a type name holding a NUL byte. */
  predicate NulTypeName(t: MsgType, p: bytes) {
    match t
    case Subscribe =>
      var e := ParseEndpoint(p); e.Success? && 0 in e.value.typeName && 0 !in e.value.topicName
    case CreateWriter =>
      var e := ParseEndpoint(p); e.Success? && 0 in e.value.typeName && 0 !in e.value.topicName
    case Write => NulInMode(p)
    case Dispose => NulInMode(p)
    case WriteDispose => NulInMode(p)
    case _ => false
  }

  predicate NulInMode(p: bytes) {
    var m := ParseWriteMode(p);
    m.Success? && m.value.TopicName? && 0 in m.value.typeName && 0 !in m.value.topicName
  }

  /** The session task aborts exactly on those requests; on all others the request is answered. */
  lemma AbortsIff(st: State, sid: SessionId, data: bytes, max: nat, d: Dds)
    requires BaseInv(st)
    ensures ProcessFrame(st, sid, data, max, d).reply.Aborted? <==>
              Dispatched(data, max) && NulTypeName(ParseHeader(data).value.msgType, FramePayload(data))
    ensures ProcessFrame(st, sid, data, max, d).reply.Aborted? ==> ProcessFrame(st, sid, data, max, d).st == st
  {
    hide BaseInv, ParseHeader, ValidateClientHeader, FramePayload, HandleMessage, NulTypeName, FrameId;
    if Dispatched(data, max) {
      HandlerAbortsIff(st, sid, ParseHeader(data).value.msgType, FrameId(data), FramePayload(data), d);
    }
  }

  lemma HandlerAbortsIff(st: State, sid: SessionId, t: MsgType, id: u32, p: bytes, d: Dds)
    requires BaseInv(st)
    ensures HandleMessage(st, sid, t, id, p, d).reply.Aborted? <==> NulTypeName(t, p)
    ensures HandleMessage(st, sid, t, id, p, d).reply.Aborted? ==> HandleMessage(st, sid, t, id, p, d).st == st
  {
    hide R.Inv, EntitiesInv, SendersInv, TopicsInv, ErrorReply, OkReply, BuildMessage, ParseEndpoint,
         ParseWriteMode, ParseUnsubscribe, ParseDeleteWriter, GetOrCreateTopic, DoWriteOp, RespWithNotices,
         R.Subscribe, R.SubscribeResult, R.Unsubscribe, R.Unsubscribed, W.Get, W.Delete, AddWriter, Le;
    if t.Subscribe? || t.CreateWriter? {
      if ParseEndpoint(p).Success? {
        var e := ParseEndpoint(p).value;
        TopicFound(st.topics, e.topicName, e.typeName, e.isKeyed, e.keys, d.topicHandle);
      }
    } else if t.Write? || t.Dispose? || t.WriteDispose? {
      if ParseWriteMode(p).Success? { WriteAbortsIff(st, sid, ParseWriteMode(p).value, d); }
      NoticesReply(st, sid, id, p, d);
    }
  }

  lemma NoticesReply(st: State, sid: SessionId, id: u32, p: bytes, d: Dds)
    ensures forall st', m :: RespWithNotices(st', sid, OkReply(id, []), m).reply.Messages?
  {
    hide Listing, Notify, OkReply, Notice;
  }

  lemma WriteAbortsIff(st: State, sid: SessionId, m: WriteMode, d: Dds)
    requires BaseInv(st)
    ensures DoWriteOp(st, sid, m, d).WriteAborts? <==> m.TopicName? && 0 in m.typeName && 0 !in m.topicName
  {
    hide R.Inv, SendersInv, GetOrCreateTopic, AddWriter, Normalize, WellFormed, W.FindIn;
    if m.TopicName? {
      TopicFound(st.topics, m.topicName, m.typeName, m.keys != [], m.keys, d.topicHandle);
      W.FindSound(W.Ids(st.writers, sid), st.writers.writers, m.topicName, m.typeName, Normalize(m.qos));
    }
  }

  /** One such request: a CREATE_WRITER whose type name is a single NUL byte. */
  lemma NulTypeNameExists()
    ensures NulTypeName(CreateWriter, SerializeEndpoint(Endpoint([0x54], [0], [], false, [])))
  {
    hide ParseEndpoint, SerializeEndpoint;
    var e := Endpoint([0x54], [0], [], false, []);
    assert ValidUtf8([]) && [0x54 as u8][1..] == [] && [0 as u8][1..] == [];
    assert ValidUtf8([0x54]) && ValidUtf8([0]);
    EndpointRoundTrip(e);
  }

  // ---- Dispose notices ----

  /** What an operation is about: the topic and type its payload names, or those its writer was registered with. */
  ghost predicate About(st: State, m: WriteMode, t: bytes, y: bytes) {
    match m
    case TopicName(topicName, typeName, _, _, _) => topicName == t && typeName == y
    case WriterId(id, _, _) =>
      && id in st.writers.writers
      && st.writers.writers[id].writer.topic.topicName == t && st.writers.writers[id].writer.topic.typeName == y
  }

  /** The missing-writer exit is not taken, since the ownership check has just found the writer; and the notices are for
      the topic and type the operation is about. */
  lemma TargetKnown(st: State, sid: SessionId, m: WriteMode, d: Dds, t: bytes, y: bytes)
    ensures var r := DoWriteOp(st, sid, m, d);
            r.Wrote? ==> Target(r.st, m).Some? && (Target(r.st, m) == Some((t, y)) <==> About(st, m, t, y))
  {
    hide EnsureWriter, W.FindByTopic, Normalize;
  }

  /** While the registry has no untracked pair a session is listed by at most one reader of a topic and type: exactly
      one when it holds that subscription, none otherwise. */
  lemma ListedOnce(rs: R.State, t: bytes, y: bytes, s: SessionId)
    requires R.Inv(rs) && forall x :: !R.Untracked(rs, s, x)
    ensures |Listing(rs, t, y, s)| == if R.SubKey(s, t, y) in rs.subs then 1 else 0
  {
    hide R.KeysInv, R.ReadersInv;
    var k := R.SubKey(s, t, y);
    forall x | x in Listing(rs, t, y, s) ensures k in rs.subs && rs.subs[k] == x {
      assert !R.Untracked(rs, s, x);
    }
    if k in rs.subs {
      assert Listing(rs, t, y, s) == {rs.subs[k]};
    } else {
      NoElements(Listing(rs, t, y, s));
    }
  }

  lemma NoElements(s: set<nat>)
    requires forall x :: x !in s
    ensures s == {}
  {
  }

  // ---- Polling ----

  function SampleMessages(topicName: bytes, samples: seq<Sample>): seq<bytes> {
    if samples == [] then [] else [SampleMessage(topicName, samples[0])] + SampleMessages(topicName, samples[1..])
  }

  /** What a polling round owes a session: every sample of every visited reader that lists it, in order. */
  function Owed(rs: R.State, batches: seq<(nat, seq<Sample>)>, s: SessionId): seq<bytes> {
    if batches == [] then []
    else
      var x := batches[0].0;
      (if R.Lists(rs, s, x) then SampleMessages(rs.readers[x].topic.topicName, batches[0].1) else [])
      + Owed(rs, batches[1..], s)
  }

  /** The queue after messages arrive: as many of the first ones as fit, none if the channel is closed. */
  function Enqueued(q: Sender, ms: seq<bytes>): Sender
    requires |q.queue| <= q.capacity
  {
    var room := q.capacity - |q.queue|;
    if !q.open then q else q.(queue := q.queue + if |ms| <= room then ms else ms[..room])
  }

  lemma EnqueueOne(q: Sender, m: bytes, ms: seq<bytes>)
    requires |q.queue| <= q.capacity
    ensures |TrySend(q, m).queue| <= q.capacity == TrySend(q, m).capacity
    ensures Enqueued(TrySend(q, m), ms) == Enqueued(q, [m] + ms)
  {
    if q.open {
      var room := q.capacity - |q.queue|;
      if room > 0 && |ms| > room - 1 { assert ([m] + ms)[..room] == [m] + ms[..room - 1]; }
      assert q.queue + [m] + ms == q.queue + ([m] + ms);
    }
  }

  lemma EnqueueNone(q: Sender)
    requires |q.queue| <= q.capacity
    ensures Enqueued(q, []) == q
  {
    assert q.queue + [] == q.queue;
  }

  lemma EnqueueConcat(q: Sender, a: seq<bytes>, b: seq<bytes>)
    requires |q.queue| <= q.capacity
    ensures |Enqueued(q, a).queue| <= q.capacity == Enqueued(q, a).capacity
    ensures Enqueued(Enqueued(q, a), b) == Enqueued(q, a + b)
  {
    var room := q.capacity - |q.queue|;
    if q.open {
      if |a| <= room {
        if |a + b| > room { assert (a + b)[..room] == a + b[..room - |a|]; }
        assert q.queue + a + b == q.queue + (a + b);
        if |b| > room - |a| { assert q.queue + a + b[..room - |a|] == q.queue + (a + b[..room - |a|]); }
      } else {
        assert (a + b)[..room] == a[..room];
        assert q.queue + a[..room] + b[..0] == q.queue + a[..room];
        if |b| == 0 { assert a + b == a && q.queue + a[..room] + b == q.queue + a[..room]; }
      }
    }
  }

  /** The sends a round leaves for after the lock, and what they bring one session. */
  predicate AllPush(ps: seq<Event>) { forall i :: 0 <= i < |ps| ==> ps[i].Push? }

  function Pushed(ps: seq<Event>, s: SessionId): seq<bytes>
    requires AllPush(ps)
  {
    if ps == [] then []
    else
      var n := |ps| - 1;
      Pushed(ps[..n], s) + if ps[n].sid == s then [SampleMessage(ps[n].topicName, ps[n].sample)] else []
  }

  lemma {:induction false} PushedConcat(a: seq<Event>, b: seq<Event>, s: SessionId)
    requires AllPush(a) && AllPush(b)
    ensures AllPush(a + b) && Pushed(a + b, s) == Pushed(a, s) + Pushed(b, s)
  {
    hide SampleMessage;
    if b == [] {
      assert a + b == a;
    } else {
      var n := |b| - 1;
      PushedConcat(a, b[..n], s);
      assert (a + b)[..|a + b| - 1] == a + b[..n];
    }
  }

  lemma {:induction false} SampleMessagesConcat(t: bytes, a: seq<Sample>, b: seq<Sample>)
    ensures SampleMessages(t, a + b) == SampleMessages(t, a) + SampleMessages(t, b)
  {
    hide SampleMessage;
    if a == [] {
      assert a + b == b;
    } else {
      SampleMessagesConcat(t, a[1..], b);
      assert (a + b)[1..] == a[1..] + b;
    }
  }

  lemma {:induction false} OwedConcat(rs: R.State, a: seq<(nat, seq<Sample>)>, b: seq<(nat, seq<Sample>)>, s: SessionId)
    ensures Owed(rs, a + b, s) == Owed(rs, a, s) + Owed(rs, b, s)
  {
    hide SampleMessages, R.Lists;
    if a == [] {
      assert a + b == b;
    } else {
      OwedConcat(rs, a[1..], b, s);
      assert (a + b)[1..] == a[1..] + b && (a + b)[0] == a[0];
    }
  }

  /** Sent one by one, they append to each queue what they bring the session, as far as there is room. */
  lemma {:induction false} PushesExact(st: State, ps: seq<Event>, s: SessionId)
    requires AllPush(ps) && s in st.senders && |st.senders[s].queue| <= st.senders[s].capacity
    ensures var st' := RunFrom(st, ps);
            && st'.senders.Keys == st.senders.Keys && st'.(senders := st.senders) == st
            && st'.senders[s] == Enqueued(st.senders[s], Pushed(ps, s))
  {
    hide SampleMessage, Enqueued, TrySend;
    EnqueueNone(st.senders[s]);
    if ps != [] {
      var n := |ps| - 1;
      PushesExact(st, ps[..n], s);
      var ms, e := Pushed(ps[..n], s), ps[n];
      var m := SampleMessage(e.topicName, e.sample);
      var q := Enqueued(st.senders[s], ms);
      EnqueueConcat(st.senders[s], ms, [m]);
      EnqueueOne(q, m, []);
      EnqueueNone(TrySend(q, m));
      assert [m] + [] == [m] && ms + [] == ms;
    }
  }

  /** Once its writer task has ended a session's queue takes nothing more. */
  lemma {:induction false} HangupStops(st: State, ps: seq<Event>, s: SessionId)
    requires AllPush(ps) && s in st.senders && |st.senders[s].queue| <= st.senders[s].capacity
    ensures var st' := RunFrom(Step(st, Hangup(s)), ps);
            s in st'.senders && st'.senders[s].queue == st.senders[s].queue
  {
    hide Pushed;
    PushesExact(Step(st, Hangup(s)), ps, s);
  }

  // ---- Dispose fan-out ----

  /** The exact fan-out of a successful DISPOSE or WRITE_DISPOSE about a topic and type: the answer first, then one
      notice under that topic for each reader of the topic and type that lists the requester; the queue of every other
      session gains one such notice for each reader that lists it, as far as there is room. */
  lemma DisposeFanOut(st: State, sid: SessionId, req: u32, payload: bytes, d: Dds, kind: WriteKind, s: SessionId,
                      t: bytes, y: bytes)
    requires !kind.PlainWrite? && (s in st.senders ==> |st.senders[s].queue| <= st.senders[s].capacity)
    ensures var p := ParseWriteMode(payload);
            p.Success? && DoWriteOp(st, sid, p.value, d).Wrote? && About(st, p.value, t, y) ==>
              var out := HandleWriteOp(st, sid, req, payload, d, kind);
              var notice := Notice(t, p.value.data);
              && out.reply == Messages([OkReply(req, [])] + Copies(notice, |Listing(st.readers, t, y, sid)|))
              && out.st.senders.Keys == st.senders.Keys
              && (s in st.senders ==>
                    out.st.senders[s] == if s == sid then st.senders[s]
                                         else Enqueued(st.senders[s], Copies(notice, |Listing(st.readers, t, y, s)|)))
  {
    hide ParseWriteMode, DoWriteOp, OkReply, Notice, Listing, Copies, Enqueued, About, Target;
    if ParseWriteMode(payload).Success? {
      var m := ParseWriteMode(payload).value;
      TargetKnown(st, sid, m, d, t, y);
      OnlyWriters(st, sid, m, d);
      var r := DoWriteOp(st, sid, m, d);
      if r.Wrote? && About(st, m, t, y) {
        SameTarget(r.st, Logged(r.st, r, kind, m), m);
        if s in st.senders { TrySendNEnqueues(st.senders[s], Notice(t, m.data), |Listing(st.readers, t, y, s)|); }
      }
    }
  }

  lemma SameTarget(st: State, st': State, m: WriteMode)
    requires st'.writers == st.writers
    ensures Target(st', m) == Target(st, m)
  {
  }

  /** Sending one message `n` times appends as many copies as there is room for, and loses nothing queued before. */
  lemma {:induction false} TrySendNEnqueues(q: Sender, m: bytes, n: nat)
    requires |q.queue| <= q.capacity
    ensures TrySendN(q, m, n) == Enqueued(q, Copies(m, n))
  {
    if n == 0 {
      EnqueueNone(q);
    } else {
      TrySendNEnqueues(q, m, n - 1);
      EnqueueConcat(q, Copies(m, n - 1), [m]);
      EnqueueOne(Enqueued(q, Copies(m, n - 1)), m, []);
      EnqueueNone(TrySend(Enqueued(q, Copies(m, n - 1)), m));
      assert [m] + [] == [m];
    }
  }

  // ---- Topic-name writes ----

  /** After the writer has been ensured, the second lookup finds one: "writer disappeared" is never answered. */
  lemma SecondLookupSucceeds(st: State, sid: SessionId, m: WriteMode, d: Dds)
    requires TopicsInv(st.topics) && m.TopicName?
    ensures var r := EnsureWriter(st, sid, m, d);
            r.Ready? ==> W.FindByTopic(r.st.writers, sid, m.topicName, m.typeName, Normalize(m.qos)).Some?
    ensures DoWriteOp(st, sid, m, d).WriteFailed? ==> DoWriteOp(st, sid, m, d).code != InternalError
  {
    hide TopicsInv, GetOrCreateTopic, Normalize, W.FindIn, NormalizedEq;
    var q := Normalize(m.qos);
    TopicFound(st.topics, m.topicName, m.typeName, m.keys != [], m.keys, d.topicHandle);
    SelfMatch(m.qos);
    match EnsureWriter(st, sid, m, d)
    case Ready(st') =>
      W.FindSound(W.Ids(st'.writers, sid), st'.writers.writers, m.topicName, m.typeName, q);
      assert st' != st ==> st.nextWriterId in W.Ids(st'.writers, sid);
    case _ =>
  }

  lemma SelfMatch(q: QosSet)
    ensures NormalizedEq(Normalize(q), Normalize(q))
  {
    hide Normalize;
    NormalizeIdempotent(q);
  }

  /** A topic-name operation registers at most one writer, and only when none matched. */
  lemma AtMostOneAdded(st: State, sid: SessionId, m: WriteMode, d: Dds)
    requires m.TopicName?
    ensures var r := DoWriteOp(st, sid, m, d);
            !r.WriteAborts? && r.st.writers != st.writers ==>
              && W.FindByTopic(st.writers, sid, m.topicName, m.typeName, Normalize(m.qos)).None?
              && exists w :: r.st.writers == W.Register(st.writers, st.nextWriterId, w, sid)
  {
    hide W.FindByTopic, Normalize, W.Register, GetOrCreateTopic;
    EnsureChange(st, sid, m, d);
  }

  /** The events that can take the chosen writer away. */
  predicate Spares(e: Event, sid: SessionId, id: u32) {
    match e
    case Disconnect(s) => s != sid
    case Frame(s, data, max, d) =>
      !(s == sid && Dispatched(data, max) && ParseHeader(data).value.msgType == DeleteWriter
        && ParseDeleteWriter(FramePayload(data)) == Success(id))
    case _ => true
  }

  /** Once a session has a matching writer, every later step keeps choosing it, until it is deleted or the session
      goes. */
  lemma ChosenWriterStable(st: State, e: Event, sid: SessionId, t: bytes, y: bytes, q: QosSet, id: u32)
    requires Inv(st) && FreshAt(st, e) && W.FindByTopic(st.writers, sid, t, y, q) == Some(id) && Spares(e, sid, id)
    ensures W.FindByTopic(Step(st, e).writers, sid, t, y, q) == Some(id)
  {
    hide Inv, FreshAt, ProcessFrame, W.FindByTopic, W.RemoveSession, R.RemoveSession;
    match e
    case Frame(s, data, max, d) => ChosenAfterFrame(st, s, data, max, d, sid, t, y, q, id);
    case Disconnect(s) =>
      InvParts(st);
      W.FindAfterRemoveSession(st.writers, s, sid, t, y, q);
    case _ =>
  }

  lemma InvParts(st: State)
    requires Inv(st)
    ensures W.Inv(st.writers) && R.Inv(st.readers)
  {
  }

  lemma InvBase(st: State)
    requires Inv(st)
    ensures BaseInv(st)
  {
  }

  lemma ChosenAfterFrame(st: State, s: SessionId, data: bytes, max: nat, d: Dds,
                         sid: SessionId, t: bytes, y: bytes, q: QosSet, id: u32)
    requires Inv(st) && FreshAt(st, Frame(s, data, max, d)) && W.FindByTopic(st.writers, sid, t, y, q) == Some(id)
    requires Spares(Frame(s, data, max, d), sid, id)
    ensures W.FindByTopic(ProcessFrame(st, s, data, max, d).st.writers, sid, t, y, q) == Some(id)
  {
    hide Inv, ProcessFrame, W.FindByTopic, W.Register, W.Delete, ParseHeader, ParseDeleteWriter, FramePayload,
         ValidateClientHeader, W.Matches;
    InvParts(st);
    FrameWriters(st, s, data, max, d);
    var ws := ProcessFrame(st, s, data, max, d).st.writers;
    if ws != st.writers {
      var st' := Step(st, Frame(s, data, max, d));
      if w :| st'.nextWriterId == NextId(st.nextWriterId) && ws == W.Register(st.writers, st.nextWriterId, w, s) {
        W.FindAfterRegister(st.writers, st.nextWriterId, w, s, sid, t, y, q);
      } else {
        DeleteKeepsChosen(st.writers, ParseDeleteWriter(FramePayload(data)).value, s, sid, t, y, q, id);
      }
    }
  }

  lemma DeleteKeepsChosen(ws: W.State, x: u32, s: SessionId, sid: SessionId, t: bytes, y: bytes, q: QosSet, id: u32)
    requires W.Inv(ws) && W.FindByTopic(ws, sid, t, y, q) == Some(id) && !(s == sid && x == id)
    ensures W.FindByTopic(W.Delete(ws, x, s), sid, t, y, q) == Some(id)
  {
    hide W.Matches, W.FindIn;
    W.FindSound(W.Ids(ws, sid), ws.writers, t, y, q);
    if x != id { W.FindAfterDelete(ws, x, s, sid, t, y, q); }
  }

  ghost predicate SparesAll(es: seq<Event>, sid: SessionId, id: u32) {
    forall i :: 0 <= i < |es| ==> Spares(es[i], sid, id)
  }

  function RunFrom(st: State, es: seq<Event>): State {
    if es == [] then st else Step(RunFrom(st, es[..|es| - 1]), es[|es| - 1])
  }

  ghost predicate FreshFrom(st: State, es: seq<Event>) {
    es != [] ==> FreshFrom(st, es[..|es| - 1]) && FreshAt(RunFrom(st, es[..|es| - 1]), es[|es| - 1])
  }

  /** Over any run, all topic-name operations of the session whose QoS has the same effect use the one writer. */
  lemma {:induction false} ChosenWriterForRun(st: State, es: seq<Event>, sid: SessionId, t: bytes, y: bytes,
                                              q: QosSet, q': QosSet, id: u32)
    requires Inv(st) && FreshFrom(st, es) && SparesAll(es, sid, id)
    requires WellFormed(q) && WellFormed(q') && NormalizedEq(q, q')
    requires W.FindByTopic(st.writers, sid, t, y, Normalize(q)) == Some(id)
    ensures Inv(RunFrom(st, es))
    ensures W.FindByTopic(RunFrom(st, es).writers, sid, t, y, Normalize(q)) == Some(id)
    ensures W.FindByTopic(RunFrom(st, es).writers, sid, t, y, Normalize(q')) == Some(id)
  {
    hide Inv, FreshAt, Step, Spares, W.FindByTopic, Normalize, NormalizedEq, WellFormed;
    if es != [] {
      var prev, e := es[..|es| - 1], es[|es| - 1];
      ChosenWriterForRun(st, prev, sid, t, y, q, q', id);
      assert Spares(e, sid, id);
      StepInv(RunFrom(st, prev), e);
      ChosenWriterStable(RunFrom(st, prev), e, sid, t, y, Normalize(q), id);
    }
    SameChoice(RunFrom(st, es), sid, t, y, q, q');
  }

  /** If the operation registers a writer, its id is not in use. */
  predicate WriteFresh(st: State, sid: SessionId, m: WriteMode, d: Dds) {
    var r := DoWriteOp(st, sid, m, d);
    !r.WriteAborts? && r.st.nextWriterId != st.nextWriterId ==> Fresh(st)
  }

  lemma WriteOpInv(st: State, sid: SessionId, m: WriteMode, d: Dds)
    requires Inv(st) && (m.TopicName? ==> WellFormed(m.qos)) && WriteFresh(st, sid, m, d)
    ensures var r := DoWriteOp(st, sid, m, d); r.WriteAborts? || Inv(r.st)
  {
    hide W.Inv, BaseInv, EnsureWriter, W.FindByTopic, Normalize, WellFormed, W.Register;
    WriteOpBase(st, sid, m, d);
    if m.TopicName? {
      EnsureChange(st, sid, m, d);
      var r := EnsureWriter(st, sid, m, d);
      if !r.EnsureAborts? && r.st.writers != st.writers {
        var w :| r.st.writers == W.Register(st.writers, st.nextWriterId, w, sid);
        W.RegisterKeepsIff(st.writers, st.nextWriterId, w, sid);
      }
    }
  }

  /** The operation leaves `id` chosen, and the run after it spares `id`; registered writers get fresh ids. */
  ghost predicate FixesWriter(st: State, sid: SessionId, m: WriteMode, d: Dds, id: u32, es: seq<Event>)
    requires m.TopicName?
  {
    var r := DoWriteOp(st, sid, m, d);
    && WriteFresh(st, sid, m, d) && !r.WriteAborts?
    && W.FindByTopic(r.st.writers, sid, m.topicName, m.typeName, Normalize(m.qos)) == Some(id)
    && FreshFrom(r.st, es) && SparesAll(es, sid, id)
  }

  /** A topic-name operation that found or made a writer, even if DDS then failed, fixes it: however the run goes
      on, a later operation of the session on that topic and type with a QoS of the same effect registers nothing
      and uses the same writer. */
  lemma LaterWritesReuse(st: State, sid: SessionId, m: WriteMode, d: Dds, es: seq<Event>, m': WriteMode, d': Dds,
                         id: u32)
    requires Inv(st) && m.TopicName? && WellFormed(m.qos)
    requires m'.TopicName? && m'.topicName == m.topicName && m'.typeName == m.typeName
    requires WellFormed(m'.qos) && NormalizedEq(m.qos, m'.qos)
    ensures FixesWriter(st, sid, m, d, id, es) ==>
              var st2 := RunFrom(DoWriteOp(st, sid, m, d).st, es);
              var r := DoWriteOp(st2, sid, m', d');
              !r.WriteAborts? && r.st == st2 && r.Used() == Some(id)
  {
    hide Inv, WriteFresh, FreshFrom, RunFrom, Spares, W.FindByTopic, Normalize, NormalizedEq, WellFormed,
         GetOrCreateTopic;
    if FixesWriter(st, sid, m, d, id, es) {
      WriteOpInv(st, sid, m, d);
      ChosenWriterForRun(DoWriteOp(st, sid, m, d).st, es, sid, m.topicName, m.typeName, m.qos, m'.qos, id);
    }
  }

  lemma SameChoice(st: State, sid: SessionId, t: bytes, y: bytes, q: QosSet, q': QosSet)
    requires Inv(st) && WellFormed(q) && WellFormed(q') && NormalizedEq(q, q')
    ensures W.FindByTopic(st.writers, sid, t, y, Normalize(q)) == W.FindByTopic(st.writers, sid, t, y, Normalize(q'))
  {
    hide W.Inv, R.Inv, TopicsInv, SendersInv, Normalize, NormalizedEq, W.FindIn, Distinct, InRange;
    NormalizeWellFormed(q);
    NormalizeWellFormed(q');
    NormalizedEqOfNormalized(q, q');
    NormalizedEqOfNormalized(Normalize(q), q');
    W.FindSameEffect(W.Ids(st.writers, sid), st.writers.writers, t, y, Normalize(q), Normalize(q'));
  }

  // ---- Sessions ----

  /** Unregistering removes exactly the session's writers and sender; readers still listing it are its untracked
      ones. */
  lemma UnregisterExact(st: State, sid: SessionId, x: nat)
    requires Inv(st)
    ensures var st' := UnregisterSession(st, sid);
            && Inv(st') && sid !in st'.senders
            && (forall id :: id in st'.writers.writers <==>
                  id in st.writers.writers && st.writers.writers[id].owner != sid)
            && (forall id :: id in st'.writers.writers ==> st'.writers.writers[id] == st.writers.writers[id])
            && (R.Lists(st'.readers, sid, x) <==> R.Untracked(st.readers, sid, x))
            && (forall k :: k in st'.readers.subs ==> k.session != sid)
  {
    hide Inv, W.Inv, R.Inv, R.RemoveSession, W.RemoveSession, R.Lists, R.Untracked;
    InvParts(st);
    StepInv(st, Disconnect(sid));
    W.RemoveSessionExact(st.writers, sid);
    R.RemoveSessionLeaves(st.readers, sid, x);
  }

  /** A frame of one session leaves every other session's writers as they were. */
  lemma OtherWritersKept(st: State, s: SessionId, data: bytes, max: nat, d: Dds, id: u32)
    requires Inv(st) && id in st.writers.writers && st.writers.writers[id].owner != s
    ensures FreshAt(st, Frame(s, data, max, d)) ==>
              var ws := ProcessFrame(st, s, data, max, d).st.writers.writers;
              id in ws && ws[id] == st.writers.writers[id]
  {
    hide Inv, ProcessFrame, ParseHeader, ParseDeleteWriter, FramePayload, ValidateClientHeader;
    FrameWriters(st, s, data, max, d);
  }
}

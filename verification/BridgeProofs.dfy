/** What every step of the bridge keeps, and what its replies are. */
module BridgeProofs {
  import opened Bytes
  import opened Qos
  import opened QosEquality
  import opened Protocol
  import opened Entities
  import opened Bridge
  import W = Writers
  import R = Readers
  import Go = GoCodec

  /** The request id in a message's header. */
  function MsgId(m: bytes): u32 { if |m| < HEADER_SIZE then 0 else U32At(m[4..]) }

  lemma MsgIdBuild(t: MsgType, id: u32, p: bytes)
    ensures MsgId(BuildMessage(t, id, p)) == id
  {
    hide BuildMessage, U32At, MsgFromByte, MsgByte;
    Go.HeadersAgree(t, id, p);
  }

  // ---- The invariant ----

  ghost predicate TopicsInv(ts: map<(bytes, bytes), Topic>) {
    forall k :: k in ts ==> ts[k].topicName == k.0 && ts[k].typeName == k.1 && 0 !in k.1
  }

  ghost predicate WriterOk(w: W.Writer) { WellFormed(w.qos) && 0 !in w.topic.typeName }

  ghost predicate EntitiesInv(ws: W.State, rs: R.State) {
    && (forall x :: x in ws.writers ==> WriterOk(ws.writers[x].writer))
    && (forall x :: x in rs.readers ==> WellFormed(rs.readers[x].qos))
  }

  /** Queues never exceed their capacity and hold only notifications, which carry request id 0. */
  ghost predicate SenderOk(s: Sender) {
    |s.queue| <= s.capacity && forall i :: 0 <= i < |s.queue| ==> MsgId(s.queue[i]) == 0
  }

  ghost predicate SendersInv(ss: map<SessionId, Sender>) { forall s :: s in ss ==> SenderOk(ss[s]) }

  /** What holds whatever writer ids are handed out. */
  ghost predicate BaseInv(st: State) {
    R.Inv(st.readers) && TopicsInv(st.topics) && EntitiesInv(st.writers, st.readers) && SendersInv(st.senders)
  }

  ghost predicate Inv(st: State) { W.Inv(st.writers) && BaseInv(st) }

  lemma ParsedQos(payload: bytes)
    ensures ParseEndpoint(payload).Success? ==> WellFormed(ParseEndpoint(payload).value.qos)
    ensures ParseWriteMode(payload).Success? && ParseWriteMode(payload).value.TopicName? ==>
              WellFormed(ParseWriteMode(payload).value.qos)
  {
    hide ParseEndpoint, ParseWriteMode, Serialize, WellFormed, FlagAt;
    if ParseEndpoint(payload).Success? { EndpointCanonical(payload); }
    if ParseWriteMode(payload).Success? { WriteModeCanonical(payload); }
  }

  lemma TopicFound(ts: map<(bytes, bytes), Topic>, t: bytes, y: bytes, keyed: bool, keys: seq<KeyField>, h: int)
    requires TopicsInv(ts)
    ensures match GetOrCreateTopic(ts, t, y, keyed, keys, h)
            case Got(ts', topic) =>
              && TopicsInv(ts') && topic.topicName == t && topic.typeName == y && 0 !in y
              && (t, y) in ts' && ts'[(t, y)] == topic && (forall k :: k in ts ==> k in ts' && ts'[k] == ts[k])
              && ((t, y) !in ts ==> topic.isKeyed == keyed && topic.keys == keys)
            case TopicFailed => true
            case TopicAborts => 0 in y && 0 !in t
    ensures GetOrCreateTopic(ts, t, y, keyed, keys, h).TopicAborts? <==> 0 in y && 0 !in t
    ensures GetOrCreateTopic(ts, t, y, keyed, keys, h).Got? <==> (t, y) in ts || (0 !in t && 0 !in y && h >= 0)
  {
  }

  lemma SubscribeEntities(rs: R.State, t: Topic, q: QosSet, sid: SessionId, ok: bool)
    requires WellFormed(q) && forall x :: x in rs.readers ==> WellFormed(rs.readers[x].qos)
    ensures var rs' := R.Subscribe(rs, t, q, sid, ok); forall x :: x in rs'.readers ==> WellFormed(rs'.readers[x].qos)
  {
    hide WellFormed, Normalize, R.KeyOf;
    NormalizeWellFormed(q);
  }

  lemma DetachEntities(rs: R.State, rids: set<nat>, sid: SessionId)
    requires forall x :: x in rs.readers ==> WellFormed(rs.readers[x].qos)
    ensures var rs' := R.Detach(rs, rids, sid); forall x :: x in rs'.readers ==> WellFormed(rs'.readers[x].qos)
  {
    hide WellFormed;
  }

  lemma AddWriterBase(st: State, sid: SessionId, topic: Topic, q: QosSet)
    requires BaseInv(st) && WellFormed(q) && 0 !in topic.typeName
    ensures BaseInv(AddWriter(st, sid, topic, q))
  {
    hide W.Inv, R.Inv, WellFormed, Normalize, SendersInv, TopicsInv;
    NormalizeWellFormed(q);
  }

  lemma SubscribeBase(st: State, sid: SessionId, req: u32, payload: bytes, d: Dds)
    requires BaseInv(st)
    ensures BaseInv(HandleSubscribe(st, sid, req, payload, d).st)
  {
    hide W.Inv, R.Inv, WellFormed, SendersInv, ParseEndpoint, R.Subscribe, R.SubscribeResult, GetOrCreateTopic,
         ErrorReply, OkReply;
    ParsedQos(payload);
    if ParseEndpoint(payload).Success? {
      var e := ParseEndpoint(payload).value;
      TopicFound(st.topics, e.topicName, e.typeName, e.isKeyed, e.keys, d.topicHandle);
      match GetOrCreateTopic(st.topics, e.topicName, e.typeName, e.isKeyed, e.keys, d.topicHandle)
      case Got(_, topic) =>
        R.SubscribeInv(st.readers, topic, e.qos, sid, d.readerOk);
        SubscribeEntities(st.readers, topic, e.qos, sid, d.readerOk);
      case _ =>
    }
  }

  lemma UnsubscribeBase(st: State, sid: SessionId, req: u32, payload: bytes, d: Dds)
    requires BaseInv(st)
    ensures BaseInv(HandleUnsubscribe(st, sid, req, payload, d).st)
  {
    hide W.Inv, R.Inv, WellFormed, SendersInv, ParseUnsubscribe, R.Detach, ErrorReply, OkReply, TopicsInv;
    if ParseUnsubscribe(payload).Success? {
      var (t, y) := ParseUnsubscribe(payload).value;
      R.UnsubscribeInv(st.readers, t, y, sid);
      var sk := R.SubKey(sid, t, y);
      if sk in st.readers.subs {
        DetachEntities(st.readers.(subs := st.readers.subs - {sk}), {st.readers.subs[sk]}, sid);
      }
    }
  }

  lemma CreateWriterBase(st: State, sid: SessionId, req: u32, payload: bytes, d: Dds)
    requires BaseInv(st)
    ensures BaseInv(HandleCreateWriter(st, sid, req, payload, d).st)
  {
    hide W.Inv, R.Inv, WellFormed, SendersInv, ParseEndpoint, AddWriter, GetOrCreateTopic, ErrorReply, OkReply, Le;
    ParsedQos(payload);
    if ParseEndpoint(payload).Success? {
      var e := ParseEndpoint(payload).value;
      TopicFound(st.topics, e.topicName, e.typeName, e.isKeyed, e.keys, d.topicHandle);
      match GetOrCreateTopic(st.topics, e.topicName, e.typeName, e.isKeyed, e.keys, d.topicHandle)
      case Got(topics, topic) => AddWriterBase(st.(topics := topics), sid, topic, e.qos);
      case _ =>
    }
  }

  lemma DeleteWriterBase(st: State, sid: SessionId, req: u32, payload: bytes, d: Dds)
    requires BaseInv(st)
    ensures BaseInv(HandleDeleteWriter(st, sid, req, payload, d).st)
  {
    hide W.Inv, R.Inv, WellFormed, SendersInv, ParseDeleteWriter, ErrorReply, OkReply, TopicsInv;
  }

  lemma EnsureWriterBase(st: State, sid: SessionId, m: WriteMode, d: Dds)
    requires BaseInv(st) && m.TopicName? && WellFormed(m.qos)
    ensures var r := EnsureWriter(st, sid, m, d); r.EnsureAborts? || BaseInv(r.st)
  {
    hide W.Inv, R.Inv, WellFormed, SendersInv, AddWriter, GetOrCreateTopic, W.FindByTopic, Normalize;
    TopicFound(st.topics, m.topicName, m.typeName, m.keys != [], m.keys, d.topicHandle);
    match GetOrCreateTopic(st.topics, m.topicName, m.typeName, m.keys != [], m.keys, d.topicHandle)
    case Got(topics, topic) => AddWriterBase(st.(topics := topics), sid, topic, m.qos);
    case _ =>
  }

  lemma WriteOpBase(st: State, sid: SessionId, m: WriteMode, d: Dds)
    requires BaseInv(st) && (m.TopicName? ==> WellFormed(m.qos))
    ensures var r := DoWriteOp(st, sid, m, d); r.WriteAborts? || BaseInv(r.st)
  {
    hide BaseInv, EnsureWriter, W.FindByTopic, Normalize, WellFormed;
    if m.TopicName? { EnsureWriterBase(st, sid, m, d); }
  }

  lemma {:induction false} TrySendOk(s: Sender, m: bytes, n: nat)
    requires SenderOk(s) && MsgId(m) == 0
    ensures SenderOk(TrySendN(s, m, n))
  {
    hide MsgId;
    if n > 0 { TrySendOk(s, m, n - 1); }
  }

  lemma NotifyBase(st: State, sid: SessionId, t: bytes, y: bytes, m: bytes)
    requires SendersInv(st.senders) && MsgId(m) == 0
    ensures SendersInv(Notify(st, sid, t, y, m))
  {
    hide SenderOk, MsgId, Listing;
    forall s | s in st.senders ensures SenderOk(Notify(st, sid, t, y, m)[s]) {
      TrySendOk(st.senders[s], m, |Listing(st.readers, t, y, s)|);
    }
  }

  lemma RespBase(st: State, sid: SessionId, resp: bytes, m: WriteMode)
    requires BaseInv(st)
    ensures BaseInv(RespWithNotices(st, sid, resp, m).st)
  {
    hide W.Inv, R.Inv, TopicsInv, EntitiesInv, SendersInv, Notify, BuildMessage, Serialize, Listing;
    match Target(st, m)
    case None =>
    case Some((t, y)) =>
      MsgIdBuild(DataDisposed, 0, Serialize(StampedP(t, 0, m.data)));
      NotifyBase(st, sid, t, y, Notice(t, m.data));
  }

  lemma LoggedBase(st: State, r: WriteResult, kind: WriteKind, m: WriteMode)
    requires BaseInv(st)
    ensures BaseInv(Logged(st, r, kind, m))
  {
    hide R.Inv, TopicsInv, EntitiesInv, SendersInv;
  }

  lemma HandleWriteBase(st: State, sid: SessionId, req: u32, payload: bytes, d: Dds, kind: WriteKind)
    requires BaseInv(st)
    ensures BaseInv(HandleWriteOp(st, sid, req, payload, d, kind).st)
  {
    hide BaseInv, ParseWriteMode, DoWriteOp, RespWithNotices, WellFormed, ErrorReply, OkReply;
    ParsedQos(payload);
    if ParseWriteMode(payload).Success? {
      var m := ParseWriteMode(payload).value;
      WriteOpBase(st, sid, m, d);
      var r := DoWriteOp(st, sid, m, d);
      if !r.WriteAborts? { LoggedBase(r.st, r, kind, m); }
      if r.Wrote? { RespBase(Logged(r.st, r, kind, m), sid, OkReply(req, []), m); }
    }
  }

  lemma FrameBase(st: State, sid: SessionId, data: bytes, max: nat, d: Dds)
    requires BaseInv(st)
    ensures BaseInv(ProcessFrame(st, sid, data, max, d).st)
  {
    hide BaseInv, ParseHeader, ValidateClientHeader, FramePayload, ErrorReply, BuildMessage,
         HandleSubscribe, HandleUnsubscribe, HandleWriteOp, HandleCreateWriter, HandleDeleteWriter;
    if Dispatched(data, max) {
      var req, p := FrameId(data), FramePayload(data);
      match ParseHeader(data).value.msgType
      case Subscribe => SubscribeBase(st, sid, req, p, d);
      case Unsubscribe => UnsubscribeBase(st, sid, req, p, d);
      case Write => HandleWriteBase(st, sid, req, p, d, PlainWrite);
      case Dispose => HandleWriteBase(st, sid, req, p, d, PlainDispose);
      case WriteDispose => HandleWriteBase(st, sid, req, p, d, WriteAndDispose);
      case CreateWriter => CreateWriterBase(st, sid, req, p, d);
      case DeleteWriter => DeleteWriterBase(st, sid, req, p, d);
      case _ =>
    }
  }

  lemma SampleId(t: bytes, s: Sample)
    ensures MsgId(SampleMessage(t, s)) == 0
  {
    hide MsgId, BuildMessage, Serialize;
    var ts := s.timestamp % 0x1_0000_0000_0000_0000;
    MsgIdBuild(Data, 0, Serialize(StampedP(t, ts, s.data)));
    MsgIdBuild(DataDisposed, 0, Serialize(StampedP(t, ts, s.data)));
    MsgIdBuild(DataNoWriters, 0, Serialize(NoWritersP(t, s.data)));
  }

  lemma UnregisterBase(st: State, sid: SessionId)
    requires BaseInv(st)
    ensures BaseInv(UnregisterSession(st, sid))
  {
    hide W.Inv, R.Inv, WellFormed, TopicsInv, R.Detach, SenderOk;
    R.RemoveSessionInv(st.readers, sid);
    var rs := st.readers;
    DetachEntities(rs.(subs := rs.subs - R.SessionKeys(rs, sid)), R.SessionReaders(rs, sid), sid);
  }

  lemma QueueBase(st: State, e: Event)
    requires BaseInv(st) && (e.Connect? || e.Drain? || e.Hangup?)
    ensures BaseInv(Step(st, e))
  {
    hide W.Inv, R.Inv, TopicsInv, EntitiesInv, MsgId;
  }

  lemma PushBase(st: State, sid: SessionId, t: bytes, sample: Sample)
    requires BaseInv(st)
    ensures BaseInv(Step(st, Push(sid, t, sample)))
  {
    hide R.Inv, TopicsInv, EntitiesInv, MsgId, SampleMessage;
    SampleId(t, sample);
  }

  lemma StepBase(st: State, e: Event)
    requires BaseInv(st)
    ensures BaseInv(Step(st, e))
  {
    hide BaseInv, ProcessFrame, UnregisterSession;
    match e
    case Frame(sid, data, max, d) => FrameBase(st, sid, data, max, d);
    case Disconnect(sid) => UnregisterBase(st, sid);
    case Push(sid, t, sample) => PushBase(st, sid, t, sample);
    case _ => QueueBase(st, e);
  }

  /** What a frame of session `s` can do to the writers: nothing, register one under the next id, or delete one. */
  ghost predicate WritersChange(st: State, st': State, s: SessionId, data: bytes, max: nat) {
    || (st'.writers == st.writers && st'.nextWriterId == st.nextWriterId)
    || (st'.nextWriterId == NextId(st.nextWriterId)
        && exists w :: st'.writers == W.Register(st.writers, st.nextWriterId, w, s))
    || (st'.nextWriterId == st.nextWriterId && Dispatched(data, max)
        && ParseHeader(data).value.msgType == DeleteWriter && ParseDeleteWriter(FramePayload(data)).Success?
        && st'.writers == W.Delete(st.writers, ParseDeleteWriter(FramePayload(data)).value, s))
  }

  lemma EnsureChange(st: State, s: SessionId, m: WriteMode, d: Dds)
    requires m.TopicName?
    ensures var r := EnsureWriter(st, s, m, d);
            !r.EnsureAborts? ==>
              || (r.st.writers == st.writers && r.st.nextWriterId == st.nextWriterId)
              || (r.st.nextWriterId == NextId(st.nextWriterId)
                  && exists w :: r.st.writers == W.Register(st.writers, st.nextWriterId, w, s))
  {
    hide GetOrCreateTopic, W.FindByTopic, W.Register, Normalize;
    match GetOrCreateTopic(st.topics, m.topicName, m.typeName, m.keys != [], m.keys, d.topicHandle)
    case Got(_, topic) =>
      assert AddWriter(st, s, topic, m.qos).writers
          == W.Register(st.writers, st.nextWriterId, W.Writer(topic, Normalize(m.qos)), s);
    case _ =>
  }

  lemma FrameWriters(st: State, s: SessionId, data: bytes, max: nat, d: Dds)
    ensures WritersChange(st, ProcessFrame(st, s, data, max, d).st, s, data, max)
  {
    hide ParseEndpoint, ParseWriteMode, ParseUnsubscribe, ParseDeleteWriter, ParseHeader, ErrorReply, OkReply,
         BuildMessage, GetOrCreateTopic, EnsureWriter, W.FindByTopic, W.Register, W.Delete, W.Get, Normalize,
         R.Subscribe, R.Unsubscribe, R.SubscribeResult, R.Unsubscribed, Notify, Listing, ValidateClientHeader,
         FramePayload, Le, Notice, NextId;
    if Dispatched(data, max) {
      var p := FramePayload(data);
      var t := ParseHeader(data).value.msgType;
      var m := ParseWriteMode(p);
      if (t.Write? || t.Dispose? || t.WriteDispose?) && m.Success? && m.value.TopicName? {
        EnsureChange(st, s, ParseWriteMode(p).value, d);
      }
    }
  }

  /** The partition of the writers survives an event exactly when a writer it registers gets a fresh id. */
  lemma StepWriters(st: State, e: Event)
    requires W.Inv(st.writers)
    ensures W.Inv(Step(st, e).writers) <==> FreshAt(st, e)
  {
    hide W.Inv, ProcessFrame, R.RemoveSession, W.RemoveSession, W.Register, W.Delete, ParseHeader,
         ParseDeleteWriter, ValidateClientHeader, FramePayload;
    match e
    case Frame(sid, data, max, d) =>
      FrameWriters(st, sid, data, max, d);
      var st' := Step(st, e);
      var next := st.nextWriterId;
      if w :| st'.nextWriterId == NextId(next) && st'.writers == W.Register(st.writers, next, w, sid) {
        W.RegisterKeepsIff(st.writers, st.nextWriterId, w, sid);
      } else if st'.writers != st.writers {
        W.DeleteExact(st.writers, ParseDeleteWriter(FramePayload(data)).value, sid);
      }
    case Disconnect(sid) => W.RemoveSessionExact(st.writers, sid);
    case _ =>
  }

  /** Every event keeps the invariant, exactly when a writer it registers gets a fresh id. */
  lemma StepInv(st: State, e: Event)
    requires Inv(st)
    ensures BaseInv(Step(st, e))
    ensures Inv(Step(st, e)) <==> FreshAt(st, e)
  {
    hide W.Inv, BaseInv, FreshAt, Step;
    StepBase(st, e);
    StepWriters(st, e);
  }

  lemma FrameInv(st: State, sid: SessionId, data: bytes, max: nat, d: Dds)
    requires Inv(st) && FreshAt(st, Frame(sid, data, max, d))
    ensures Inv(ProcessFrame(st, sid, data, max, d).st)
  {
    hide Inv, FreshAt, ProcessFrame;
    StepInv(st, Frame(sid, data, max, d));
  }

  lemma ConnectInv(st: State, sid: SessionId, capacity: nat)
    requires Inv(st)
    ensures Inv(Step(st, Connect(sid, capacity)))
  {
    hide Inv;
    StepInv(st, Connect(sid, capacity));
  }

  /** A write operation leaves readers and queues alone. */
  lemma OnlyWriters(st: State, sid: SessionId, m: WriteMode, d: Dds)
    ensures var r := DoWriteOp(st, sid, m, d);
            !r.WriteAborts? ==> r.st.readers == st.readers && r.st.senders == st.senders
  {
    hide GetOrCreateTopic, W.FindByTopic, W.Register, W.Get, Normalize;
  }

  lemma WriteSenders(st: State, sid: SessionId, req: u32, payload: bytes, d: Dds, kind: WriteKind)
    requires SendersInv(st.senders)
    ensures SendersInv(HandleWriteOp(st, sid, req, payload, d, kind).st.senders)
  {
    hide ParseWriteMode, DoWriteOp, Notify, BuildMessage, Serialize, Listing, SendersInv, ErrorReply, OkReply, Copies;
    if ParseWriteMode(payload).Success? {
      var m := ParseWriteMode(payload).value;
      OnlyWriters(st, sid, m, d);
      var r := DoWriteOp(st, sid, m, d);
      if r.Wrote? && Target(Logged(r.st, r, kind, m), m).Some? {
        var (t, y) := Target(Logged(r.st, r, kind, m), m).value;
        MsgIdBuild(DataDisposed, 0, Serialize(StampedP(t, 0, m.data)));
        NotifyBase(Logged(r.st, r, kind, m), sid, t, y, Notice(t, m.data));
      }
    }
  }

  lemma FrameSenders(st: State, sid: SessionId, data: bytes, max: nat, d: Dds)
    requires SendersInv(st.senders)
    ensures SendersInv(ProcessFrame(st, sid, data, max, d).st.senders)
  {
    hide SendersInv, ParseHeader, ValidateClientHeader, FramePayload, ErrorReply, OkReply, BuildMessage, ParseEndpoint,
         ParseUnsubscribe, ParseDeleteWriter, GetOrCreateTopic, R.Subscribe, R.Unsubscribe, R.SubscribeResult,
         R.Unsubscribed, W.Get, W.Delete, W.Register, HandleWriteOp, Le, Normalize;
    if Dispatched(data, max) {
      WriteSenders(st, sid, FrameId(data), FramePayload(data), d, WriteKindOf(ParseHeader(data).value.msgType));
    }
  }

  /** The queues stay in order whatever the rest of the state is like. */
  lemma StepSenders(st: State, e: Event)
    requires SendersInv(st.senders)
    ensures SendersInv(Step(st, e).senders)
  {
    hide ProcessFrame, MsgId, SampleMessage;
    match e
    case Frame(sid, data, max, d) => FrameSenders(st, sid, data, max, d);
    case Push(sid, t, sample) => SampleId(t, sample);
    case _ =>
  }

  lemma InitInv() ensures Inv(INIT) {
    R.EmptyInv();
  }

  /** Over every run whose new writers get fresh ids, every reachable state satisfies the invariant. */
  lemma {:induction false} ReachableInv(es: seq<Event>)
    requires FreshRun(es)
    ensures Inv(Run(es))
  {
    hide Inv, FreshAt, Step;
    if es == [] { InitInv(); } else {
      ReachableInv(es[..|es| - 1]);
      StepInv(Run(es[..|es| - 1]), es[|es| - 1]);
    }
  }

  /** Over every run at all, everything but the partition of the writers holds. */
  lemma {:induction false} ReachableBase(es: seq<Event>)
    ensures BaseInv(Run(es))
  {
    hide BaseInv, Step;
    if es == [] { InitInv(); } else {
      ReachableBase(es[..|es| - 1]);
      StepBase(Run(es[..|es| - 1]), es[|es| - 1]);
    }
  }

  // ---- When ids are fresh ----

  ghost predicate BelowCounter(st: State) { forall x :: x in st.writers.writers ==> x < st.nextWriterId }

  /** Until the 32-bit counter wraps, all ids in use are below it, so the next one is fresh. */
  lemma FreshUntilWrap(st: State, e: Event)
    requires BelowCounter(st) && st.nextWriterId < 0xFFFF_FFFF
    ensures Fresh(st) && BelowCounter(Step(st, e))
    ensures Step(st, e).nextWriterId <= st.nextWriterId + if e.Frame? then 1 else 0
  {
    hide ProcessFrame, R.RemoveSession, ParseHeader, ParseDeleteWriter, ValidateClientHeader, FramePayload;
    if e.Frame? { FrameWriters(st, e.sid, e.data, e.max, e.dds); }
  }

  function FrameCount(es: seq<Event>): nat {
    if es == [] then 0 else FrameCount(es[..|es| - 1]) + if es[|es| - 1].Frame? then 1 else 0
  }

  /** So every run of fewer than 2^32 - 2 frames, whatever else happens in it, stays within the invariant. */
  lemma {:induction false} FewFramesInv(es: seq<Event>)
    requires FrameCount(es) < 0xFFFF_FFFE
    ensures FreshRun(es) && Inv(Run(es))
    ensures BelowCounter(Run(es)) && Run(es).nextWriterId <= 1 + FrameCount(es)
  {
    hide Inv, Fresh, Step, BelowCounter;
    if es == [] {
      InitInv();
      NoWriters();
    } else {
      var prev, e := es[..|es| - 1], es[|es| - 1];
      FewFramesInv(prev);
      FreshUntilWrap(Run(prev), e);
      StepInv(Run(prev), e);
    }
  }

  lemma NoWriters()
    ensures BelowCounter(INIT)
  {
  }
}

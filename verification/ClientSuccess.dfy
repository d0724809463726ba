/** When the client's calls and reconnects succeed: whenever the requests get through and DDS is willing. */
module ClientSuccess {
  import opened Bytes
  import opened QosEquality
  import opened Protocol
  import opened Entities
  import opened Client
  import opened ClientTheorems
  import opened ClientRuns
  import opened ClientSubs
  import A = Answers
  import B = Bridge
  import P = BridgeProofs
  import T = BridgeTheorems
  import W = Writers
  import R = Readers
  import Go = GoCodec

  // ---- Requests that get through ----

  /** Others act, and the session is not taken down. */
  predicate Calm(e: B.Event, sid: SessionId) { Foreign(e, sid) && !(e.Disconnect? && e.sid == sid) }

  predicate Through(n: Net, sid: SessionId) {
    n.delivered && n.answered && n.id != 0 && forall i :: 0 <= i < |n.env| ==> Calm(n.env[i], sid)
  }

  predicate Willing(d: B.Dds) { d.topicHandle >= 0 && d.writerOk && d.readerOk }

  lemma CalmStep(b: B.State, e: B.Event, sid: SessionId)
    requires sid in b.senders && Calm(e, sid)
    ensures sid in B.Step(b, e).senders
  {
    hide B.ProcessFrame, W.RemoveSession, R.RemoveSession, B.SampleMessage, B.TrySend;
    if e.Frame? { FrameReaders(b, e.sid, e.data, e.max, e.dds); }
  }

  lemma {:induction false} CalmArrival(b: B.State, es: seq<B.Event>, sid: SessionId)
    requires P.BaseInv(b) && sid in b.senders && forall i :: 0 <= i < |es| ==> Calm(es[i], sid)
    ensures P.BaseInv(T.RunFrom(b, es)) && sid in T.RunFrom(b, es).senders
  {
    hide P.BaseInv, B.Step, Calm;
    if es != [] {
      var prev, e := es[..|es| - 1], es[|es| - 1];
      CalmArrival(b, prev, sid);
      assert Calm(e, sid);
      CalmStep(T.RunFrom(b, prev), e, sid);
      P.StepBase(T.RunFrom(b, prev), e);
    }
  }

  /** Such a request is handled as it was sent, and the client reads the bridge's first message. */
  lemma Served(b: B.State, sid: SessionId, max: nat, t: MsgType, payload: bytes, n: Net)
    requires P.BaseInv(b) && sid in b.senders && Through(n, sid) && |payload| <= max && |payload| < 0x1_0000_0000
    ensures var b0, data := T.RunFrom(b, n.env), Frame(t, n.id, payload);
            var out := B.ProcessFrame(b0, sid, data, max, n.dds);
            && P.BaseInv(b0) && sid in b0.senders && B.Dispatched(data, max)
            && ParseHeader(data).value.msgType == t && B.FramePayload(data) == payload && B.FrameId(data) == n.id
            && sid in out.st.senders && P.BaseInv(out.st)
            && Request(b, sid, max, t, payload, n) ==
                 (out.st, if out.reply.Messages? && out.reply.ms != [] then ReadReply(out.reply.ms[0]) else None)
  {
    hide P.BaseInv, B.ProcessFrame, Frame, ReadReply, T.RunFrom, ParseHeader, ValidateClientHeader, B.FramePayload,
         Calm, B.Dispatched;
    CalmArrival(b, n.env, sid);
    var b0, data := T.RunFrom(b, n.env), Frame(t, n.id, payload);
    ShortFrameDispatched(t, n.id, payload, max);
    FrameRead(t, n.id, payload);
    WholePayload(payload);
    FrameReaders(b0, sid, data, max, n.dds);
    P.FrameBase(b0, sid, data, max, n.dds);
  }

  lemma WholePayload(payload: bytes)
    requires |payload| < 0x1_0000_0000
    ensures Received(payload) == payload
  {
    assert payload[..|payload|] == payload;
  }

  // ---- CREATE_WRITER ----

  /** The writer's endpoint is one the bridge takes. */
  ghost predicate Fitting(w: Writer, max: nat) {
    exists e :: Acceptable(e, max) && w.endpoint.(keys := []) == GoOf(e)
  }

  lemma WriterArrives(w: Writer, e: Endpoint, max: nat)
    requires Acceptable(e, max) && w.endpoint.(keys := []) == GoOf(e)
    ensures |WriterPayload(w)| <= max && |WriterPayload(w)| < 0x1_0000_0000
    ensures ParseEndpoint(WriterPayload(w)) == Success(e)
    ensures e.topicName == w.endpoint.topicName && e.typeName == w.endpoint.typeName
  {
    hide Acceptable, ParseEndpoint, Go.Encode, Serialize, Go.GoQosOf, Go.GoKeysOf;
    PayloadArrives(e, 0, max);
    PayloadShort(e, max);
    assert WriterPayload(w) == SubscribePayload(Sub(0, GoOf(e)));
  }

  /** It succeeds, with an id that is then registered to the session for the writer's topic and type. */
  lemma CreateSucceeds(b: B.State, sid: SessionId, max: nat, w: Writer, n: Net)
    requires P.BaseInv(b) && sid in b.senders && Fitting(w, max) && Through(n, sid) && Willing(n.dds)
    ensures var (b', r) := Request(b, sid, max, MsgType.CreateWriter, WriterPayload(w), n);
            && r == Some(Le(T.RunFrom(b, n.env).nextWriterId, 4))
            && sid in b'.senders && P.BaseInv(b')
            && OwnedBy(b', sid, T.RunFrom(b, n.env).nextWriterId, w.endpoint)
            && W.Ids(b'.writers, sid) == W.Ids(T.RunFrom(b, n.env).writers, sid) + [T.RunFrom(b, n.env).nextWriterId]
  {
    hide P.BaseInv, Through, Request, B.ProcessFrame, Frame, ReadReply, T.RunFrom, ParseHeader, B.FramePayload,
         B.Dispatched, B.FrameId, WriterPayload, Acceptable, GoOf, ParseEndpoint, Le;
    var e :| Acceptable(e, max) && w.endpoint.(keys := []) == GoOf(e);
    WriterArrives(w, e, max);
    NoNul(e, max);
    Served(b, sid, max, MsgType.CreateWriter, WriterPayload(w), n);
    var b0, data := T.RunFrom(b, n.env), Frame(MsgType.CreateWriter, n.id, WriterPayload(w));
    BaseTopics(b0);
    A.CreateAnswered(b0, sid, data, max, n.dds);
  }

  lemma BaseTopics(b: B.State)
    requires P.BaseInv(b)
    ensures P.TopicsInv(b.topics) && R.Inv(b.readers)
  {
  }

  // ---- SUBSCRIBE ----

  ghost predicate FittingSub(s: Sub, max: nat) { exists e :: Acceptable(e, max) && s.endpoint == GoOf(e) }

  /** It succeeds, and a live reader of the subscription's key lists the session. */
  lemma SubscribeGoesThrough(b: B.State, sid: SessionId, max: nat, s: Sub, n: Net)
    requires P.BaseInv(b) && sid in b.senders && FittingSub(s, max) && Through(n, sid) && Willing(n.dds)
    ensures var (b', r) := Request(b, sid, max, MsgType.Subscribe, SubscribePayload(s), n);
            r == Some([]) && sid in b'.senders && P.BaseInv(b') && LiveFor(b', sid, s)
  {
    hide P.BaseInv, Through, Request, B.ProcessFrame, Frame, ReadReply, T.RunFrom, ParseHeader, B.FramePayload,
         B.Dispatched, B.FrameId, SubscribePayload, Acceptable, ParseEndpoint, Received, KeyBytes, R.ReaderKeyOf,
         Go.GoQosOf, Go.GoKeysOf;
    var e :| Acceptable(e, max) && s.endpoint == GoOf(e);
    PayloadArrives(e, s.token, max);
    PayloadShort(e, max);
    NoNul(e, max);
    var payload := SubscribePayload(s);
    assert s == Sub(s.token, GoOf(e));
    Served(b, sid, max, MsgType.Subscribe, payload, n);
    var b0, data := T.RunFrom(b, n.env), Frame(MsgType.Subscribe, n.id, payload);
    A.SubscribeAnswered(b0, sid, data, max, n.dds);
    var rs := B.ProcessFrame(b0, sid, data, max, n.dds).st.readers;
    var x := rs.subs[R.SubKey(sid, e.topicName, e.typeName)];
    assert LiveReader(B.ProcessFrame(b0, sid, data, max, n.dds).st, sid, x, s.endpoint, e.qos);
  }

  // ---- Restoring and reconnecting ----

  ghost predicate NetsGood(nets: seq<Net>, n: nat, sid: SessionId) {
    n <= |nets| && forall i :: 0 <= i < n ==> Through(nets[i], sid) && Willing(nets[i].dds)
  }

  lemma NetsTail(nets: seq<Net>, n: nat, sid: SessionId)
    requires NetsGood(nets, n, sid) && n > 0
    ensures nets != [] && Through(nets[0], sid) && Willing(nets[0].dds) && NetsGood(nets[1..], n - 1, sid)
  {
    hide Through, Willing;
  }

  ghost predicate AllFitting(ws: seq<Writer>, max: nat) {
    forall i :: 0 <= i < |ws| && !ws[i].closed ==> Fitting(ws[i], max)
  }

  lemma {:induction false} WritersRestored(b: B.State, sid: SessionId, max: nat, ws: seq<Writer>, nets: seq<Net>)
    requires P.BaseInv(b) && sid in b.senders && AllFitting(ws, max) && NetsGood(nets, OpenCount(ws), sid)
    ensures var r := RestoreWriters(b, sid, max, ws, nets); r.ok && sid in r.b.senders && P.BaseInv(r.b)
    decreases |ws|
  {
    hide P.BaseInv, Request, NetsGood, Fitting, WriterPayload, U32At, Le, OwnedBy, Through, Willing, T.RunFrom;
    if ws != [] {
      assert AllFitting(ws[1..], max);
      if ws[0].closed {
        WritersRestored(b, sid, max, ws[1..], nets);
      } else {
        NetsTail(nets, OpenCount(ws), sid);
        CreateSucceeds(b, sid, max, ws[0], nets[0]);
        var b' := Request(b, sid, max, MsgType.CreateWriter, WriterPayload(ws[0]), nets[0]).0;
        WritersRestored(b', sid, max, ws[1..], nets[1..]);
      }
    }
  }

  ghost predicate AllFittingSubs(ss: seq<Sub>, max: nat) { forall i :: 0 <= i < |ss| ==> FittingSub(ss[i], max) }

  lemma {:induction false} SubsRestored(b: B.State, sid: SessionId, max: nat, ss: seq<Sub>, nets: seq<Net>)
    requires P.BaseInv(b) && sid in b.senders && AllFittingSubs(ss, max) && NetsGood(nets, |ss|, sid)
    ensures var (b', ok) := RestoreSubs(b, sid, max, ss, nets); ok && sid in b'.senders && P.BaseInv(b')
    decreases |ss|
  {
    hide P.BaseInv, Request, NetsGood, FittingSub, SubscribePayload, LiveFor, Through, Willing;
    if ss != [] {
      NetsTail(nets, |ss|, sid);
      SubscribeGoesThrough(b, sid, max, ss[0], nets[0]);
      var b' := Request(b, sid, max, MsgType.Subscribe, SubscribePayload(ss[0]), nets[0]).0;
      SubsRestored(b', sid, max, ss[1..], nets[1..]);
    }
  }

  /** The dial succeeds, everything to restore is something the bridge takes, and every request gets through to it with
      DDS willing. */
  ghost predicate Good(c: State, a: Attempt) {
    && a.dialOk && AllFitting(c.writers, a.max) && AllFittingSubs(c.subs, a.max)
    && NetsGood(a.forWriters, OpenCount(c.writers), a.sid) && NetsGood(a.forSubs, |c.subs|, a.sid)
  }

  /** Such an attempt ends connected, on its own session. */
  lemma AttemptSucceeds(c: State, b: B.State, a: Attempt)
    requires P.BaseInv(b) && Good(c, a)
    ensures var (c', b') := TryReconnect(c, b, a); c'.conn == Some(a.sid) && a.sid in b'.senders
  {
    hide P.BaseInv, RestoreWriters, RestoreSubs, AllFitting, AllFittingSubs, NetsGood;
    var e := B.Connect(a.sid, a.capacity);
    P.StepBase(b, e);
    var b1 := B.Step(b, e);
    WritersRestored(b1, a.sid, a.max, c.writers, a.forWriters);
    var r := RestoreWriters(b1, a.sid, a.max, c.writers, a.forWriters);
    SubsRestored(r.b, a.sid, a.max, c.subs, a.forSubs);
  }

  lemma RequestBase(b: B.State, sid: SessionId, max: nat, t: MsgType, payload: bytes, n: Net)
    requires P.BaseInv(b)
    ensures P.BaseInv(Request(b, sid, max, t, payload, n).0)
  {
    hide P.BaseInv, B.ProcessFrame, Frame, ReadReply, T.RunFrom;
    RunFromBase(b, n.env);
    P.FrameBase(T.RunFrom(b, n.env), sid, Frame(t, n.id, payload), max, n.dds);
  }

  lemma {:induction false} RunFromBase(b: B.State, es: seq<B.Event>)
    requires P.BaseInv(b)
    ensures P.BaseInv(T.RunFrom(b, es))
  {
    hide P.BaseInv, B.Step;
    if es != [] {
      RunFromBase(b, es[..|es| - 1]);
      P.StepBase(T.RunFrom(b, es[..|es| - 1]), es[|es| - 1]);
    }
  }

  lemma {:induction false} RestoreWritersBase(b: B.State, sid: SessionId, max: nat, ws: seq<Writer>, nets: seq<Net>)
    requires P.BaseInv(b)
    ensures var r := RestoreWriters(b, sid, max, ws, nets); P.BaseInv(r.b) && SameButIds(ws, r.writers)
    decreases |ws|
  {
    hide P.BaseInv, Request, WriterPayload, U32At;
    if ws != [] {
      if ws[0].closed {
        RestoreWritersBase(b, sid, max, ws[1..], nets);
      } else if nets != [] {
        RequestBase(b, sid, max, MsgType.CreateWriter, WriterPayload(ws[0]), nets[0]);
        var b' := Request(b, sid, max, MsgType.CreateWriter, WriterPayload(ws[0]), nets[0]).0;
        RestoreWritersBase(b', sid, max, ws[1..], nets[1..]);
      }
    }
  }

  lemma {:induction false} RestoreSubsBase(b: B.State, sid: SessionId, max: nat, ss: seq<Sub>, nets: seq<Net>)
    requires P.BaseInv(b)
    ensures P.BaseInv(RestoreSubs(b, sid, max, ss, nets).0)
    decreases |ss|
  {
    hide P.BaseInv, Request, SubscribePayload;
    if ss != [] && nets != [] {
      RequestBase(b, sid, max, MsgType.Subscribe, SubscribePayload(ss[0]), nets[0]);
      var b' := Request(b, sid, max, MsgType.Subscribe, SubscribePayload(ss[0]), nets[0]).0;
      RestoreSubsBase(b', sid, max, ss[1..], nets[1..]);
    }
  }

  /** A failed attempt leaves nothing behind that could make a later one fail. */
  lemma AttemptHarmless(c: State, b: B.State, a: Attempt)
    requires P.BaseInv(b)
    ensures var (c', b') := TryReconnect(c, b, a);
            P.BaseInv(b') && c'.subs == c.subs && SameButIds(c.writers, c'.writers)
  {
    hide P.BaseInv, RestoreWriters, RestoreSubs;
    if a.dialOk {
      var e := B.Connect(a.sid, a.capacity);
      P.StepBase(b, e);
      var b1 := B.Step(b, e);
      RestoreWritersBase(b1, a.sid, a.max, c.writers, a.forWriters);
      RestoreSubsBase(RestoreWriters(b1, a.sid, a.max, c.writers, a.forWriters).b, a.sid, a.max, c.subs, a.forSubs);
    }
  }

  lemma {:induction false} SameOpenCount(ws: seq<Writer>, ws': seq<Writer>)
    requires SameButIds(ws, ws')
    ensures OpenCount(ws) == OpenCount(ws')
  {
    if ws != [] {
      assert ws'[0].closed == ws[0].closed;
      assert SameButIds(ws[1..], ws'[1..]);
      SameOpenCount(ws[1..], ws'[1..]);
    }
  }

  lemma StaysGood(c: State, c': State, a: Attempt)
    requires Good(c, a) && c'.subs == c.subs && SameButIds(c.writers, c'.writers)
    ensures Good(c', a)
  {
    hide NetsGood, AllFittingSubs, Acceptable, GoOf;
    SameOpenCount(c.writers, c'.writers);
    forall i | 0 <= i < |c'.writers| && !c'.writers[i].closed ensures Fitting(c'.writers[i], a.max) {
      assert Fitting(c.writers[i], a.max);
      assert c'.writers[i].endpoint == c.writers[i].endpoint;
    }
  }

  /** If some attempt within the limit is good, reconnecting ends connected; if the attempts before it failed, however
      they failed, then on the session of that attempt. */
  lemma {:induction false} ReconnectSucceeds(c: State, b: B.State, tries: seq<Attempt>, limit: int, i: nat)
    requires P.BaseInv(b) && c.conn.None?
    requires i < |tries| && (limit < 0 || i < limit) && Good(c, tries[i])
    ensures Reconnect(c, b, tries, limit).0.conn.Some?
    ensures Reconnect(c, b, tries[..i], limit).0.conn.None? ==>
              Reconnect(c, b, tries, limit).0.conn == Some(tries[i].sid)
    decreases |tries|
  {
    hide P.BaseInv, Good, TryReconnect, SameButIds;
    var (c', b') := TryReconnect(c, b, tries[0]);
    if i == 0 {
      AttemptSucceeds(c, b, tries[0]);
    } else {
      AttemptHarmless(c, b, tries[0]);
      StaysGood(c, c', tries[i]);
      var first, l := tries[..i], if limit < 0 then limit else limit - 1;
      assert first[0] == tries[0] && first[1..] == tries[1..][..i - 1] && tries[1..][i - 1] == tries[i];
      assert Reconnect(c, b, first, limit) == Reconnect(c', b', first[1..], l);
      if c'.conn.None? { ReconnectSucceeds(c', b', tries[1..], l, i - 1); }
    }
  }

  // ---- Calls ----

  /** `CreateWriter` appends the writer, with an id its session owns for the writer's topic and type. */
  lemma CreateWriterCompletes(c: State, b: B.State, max: nat, w: Writer, n: Net)
    requires c.conn.Some? && P.BaseInv(b) && c.conn.value in b.senders && Fitting(w, max)
    requires Through(n, c.conn.value) && Willing(n.dds)
    ensures var (c', b') := Client.CreateWriter(c, b, max, w, n);
            var id := T.RunFrom(b, n.env).nextWriterId;
            c' == c.(writers := c.writers + [w.(writerId := id, closed := false)])
            && OwnedBy(b', c.conn.value, id, w.endpoint)
  {
    hide P.BaseInv, Fitting, Through, Willing, Request, WriterPayload, U32At, Le, T.RunFrom, OwnedBy;
    CreateSucceeds(b, c.conn.value, max, w, n);
    var id := T.RunFrom(b, n.env).nextWriterId;
    ReadLe32(id, []);
    assert Le(id, 4) + [] == Le(id, 4);
  }

  /** `Subscribe` appends the subscription, live. */
  lemma SubscribeCompletes(c: State, b: B.State, max: nat, s: Sub, n: Net)
    requires c.conn.Some? && P.BaseInv(b) && c.conn.value in b.senders && FittingSub(s, max)
    requires Through(n, c.conn.value) && Willing(n.dds)
    ensures var (c', b') := Client.Subscribe(c, b, max, s, n);
            c' == c.(subs := c.subs + [s]) && LiveFor(b', c.conn.value, s)
  {
    hide P.BaseInv, FittingSub, Through, Willing, Request, SubscribePayload, LiveFor;
    SubscribeGoesThrough(b, c.conn.value, max, s, n);
  }

  /** `Close` takes the first writer with the token out of the list, and once it gets through the session holds its
      id no more. */
  lemma CloseCompletes(c: State, b: B.State, max: nat, token: nat, n: Net)
    requires c.conn.Some? && P.Inv(b) && c.conn.value in b.senders && Through(n, c.conn.value) && max >= 4
    requires EnvOk(b, n.env, c.conn.value)
    ensures var i := IndexOf(c.writers, token);
            i < |c.writers| && !c.writers[i].closed ==>
              var (c', b') := CloseWriter(c, b, max, token, n);
              && c' == c.(writers := c.writers[..i] + c.writers[i + 1..])
              && !Holds(b', c.conn.value, c.writers[i].writerId)
  {
    hide P.Inv, EnvOk, Through, Request, T.RunFrom, Le, Go.Encode, Holds;
    var i := IndexOf(c.writers, token);
    if i < |c.writers| && !c.writers[i].closed { DeleteCompletes(b, c.conn.value, max, c.writers[i].writerId, n); }
  }

  lemma DeleteCompletes(b: B.State, sid: SessionId, max: nat, id: u32, n: Net)
    requires P.Inv(b) && sid in b.senders && Through(n, sid) && EnvOk(b, n.env, sid) && max >= 4
    ensures var payload := Go.Encode(Go.GoDeleteWriterP(id));
            !Holds(Request(b, sid, max, MsgType.DeleteWriter, payload, n).0, sid, id)
  {
    hide P.BaseInv, EnvOk, Through, Request, T.RunFrom, W.Inv, B.ProcessFrame, Frame, ParseHeader, B.FramePayload,
         B.Dispatched, B.FrameId, Le, ReadReply, W.Ids;
    var payload := Go.Encode(Go.GoDeleteWriterP(id));
    EnvKeeps(b, n.env, sid);
    Served(b, sid, max, MsgType.DeleteWriter, payload, n);
    var b0 := T.RunFrom(b, n.env);
    ReadLe32(id, []);
    assert Le(id, 4) + [] == Le(id, 4);
    A.DeleteAnswered(b0, sid, Frame(MsgType.DeleteWriter, n.id, payload), max, n.dds);
    HeldIsListed(b0, sid, id);
  }

  lemma HeldIsListed(b: B.State, sid: SessionId, id: u32)
    requires W.Inv(b.writers)
    ensures Holds(b, sid, id) <==> id in W.Ids(b.writers, sid)
  {
    W.DeleteExact(b.writers, id, sid);
  }

  /** `Unsubscribe` takes the first subscription with the token out of the list and leaves the rest in order. */
  lemma {:induction false} WithoutSubExact(ss: seq<Sub>, token: nat, i: nat)
    requires i <= |ss| && (forall j :: 0 <= j < i ==> ss[j].token != token) && (i < |ss| ==> ss[i].token == token)
    ensures WithoutSub(ss, token) == if i < |ss| then ss[..i] + ss[i + 1..] else ss
  {
    if i > 0 { WithoutSubExact(ss[1..], token, i - 1); }
  }

  // ---- Publishing through a writer ----

  function PublishPayload(id: u32, key: bytes, data: bytes): bytes { Go.Encode(Go.GoWriterWriteP(id, key, data)) }

  lemma PublishArrives(id: u32, key: bytes, data: bytes, max: nat)
    requires |key| + |data| + 9 <= max && |key| + |data| + 9 < 0x1_0000_0000
    ensures var p := PublishPayload(id, key, data);
            |p| <= max && |p| < 0x1_0000_0000 && ParseWriteMode(p) == Success(WriterId(id, key, data))
  {
    hide Le;
    Go.EncodersAgree(WriteP(WriterId(id, key, data)));
    WriteModeRoundTrip(WriterId(id, key, data));
  }

  /** Publishing through an open writer: DDS is asked for that operation on that writer, with exactly these bytes;
      and if it is a dispose that succeeds, every other session is sent one notice under the writer's own topic for
      each reader of its topic and type that lists it. */
  lemma PublishReachesDds(c: State, b: B.State, sid: SessionId, max: nat, w: Writer, t: MsgType, key: bytes,
                          data: bytes, n: Net, s: SessionId)
    requires P.Inv(b) && c.conn == Some(sid) && sid in b.senders && OwnedBy(b, sid, w.writerId, w.endpoint)
    requires Through(n, sid) && EnvOk(b, n.env, sid) && t in {MsgType.Write, MsgType.Dispose, MsgType.WriteDispose}
    requires |key| + |data| + 9 <= max && |key| + |data| + 9 < 0x1_0000_0000
    ensures var b0 := T.RunFrom(b, n.env);
            var (b', r) := Request(b, sid, max, t, PublishPayload(w.writerId, key, data), n);
            Client.Send(c, b, max, t, PublishPayload(w.writerId, key, data), n) == (c, b') &&
            var topic, typ := w.endpoint.topicName, w.endpoint.typeName;
            var notice := B.Notice(topic, data);
            && b'.calls == b0.calls + [B.DdsCall(w.writerId, A.KindFor(t), data, key)]
            && (n.dds.opOk <==> r == Some([]))
            && (n.dds.opOk && t != MsgType.Write && s in b0.senders && s != sid ==>
                  && |b0.senders[s].queue| <= b0.senders[s].capacity && s in b'.senders
                  && b'.senders[s] ==
                       T.Enqueued(b0.senders[s], B.Copies(notice, |B.Listing(b0.readers, topic, typ, s)|)))
  {
    hide P.BaseInv, EnvOk, Through, Request, T.RunFrom, W.Inv, B.ProcessFrame, Frame, ParseHeader, B.FramePayload,
         B.Dispatched, B.FrameId, ReadReply, W.Ids, KeepsReaders, PublishPayload, ParseWriteMode, T.Enqueued, B.Notice,
         B.Listing, B.Copies, KeepsWriters;
    var payload := PublishPayload(w.writerId, key, data);
    PublishArrives(w.writerId, key, data, max);
    EnvKeeps(b, n.env, sid);
    Served(b, sid, max, t, payload, n);
    var b0, frame := T.RunFrom(b, n.env), Frame(t, n.id, payload);
    OwnedKept(b, b0, sid, w.writerId, w.endpoint);
    HeldIsListed(b0, sid, w.writerId);
    A.WriteByIdAnswered(b0, sid, frame, max, n.dds);
    if n.dds.opOk && t != MsgType.Write && s in b0.senders { PublishNotices(b0, sid, max, w, t, key, data, n, s); }
  }

  lemma OwnedKept(b: B.State, b': B.State, sid: SessionId, id: u32, e: Go.GoEndpoint)
    requires KeepsWriters(b, b', sid, {}) && OwnedBy(b, sid, id, e)
    ensures OwnedBy(b', sid, id, e)
  {
  }

  lemma PublishNotices(b0: B.State, sid: SessionId, max: nat, w: Writer, t: MsgType, key: bytes, data: bytes, n: Net,
                       s: SessionId)
    requires P.BaseInv(b0) && OwnedBy(b0, sid, w.writerId, w.endpoint) && s in b0.senders && n.dds.opOk
    requires var f := Frame(t, n.id, PublishPayload(w.writerId, key, data));
             && B.Dispatched(f, max) && ParseHeader(f).value.msgType == t && (t.Dispose? || t.WriteDispose?)
             && ParseWriteMode(B.FramePayload(f)) == Success(WriterId(w.writerId, key, data))
    ensures var out := B.ProcessFrame(b0, sid, Frame(t, n.id, PublishPayload(w.writerId, key, data)), max, n.dds);
            var notice := B.Notice(w.endpoint.topicName, data);
            && |b0.senders[s].queue| <= b0.senders[s].capacity && s in out.st.senders
            && (s != sid ==> out.st.senders[s] == T.Enqueued(b0.senders[s],
                  B.Copies(notice, |B.Listing(b0.readers, w.endpoint.topicName, w.endpoint.typeName, s)|)))
  {
    hide R.Inv, P.TopicsInv, P.EntitiesInv, P.MsgId, Frame, ParseHeader, ValidateClientHeader, B.FramePayload,
         B.FrameId, PublishPayload, ParseWriteMode, T.Enqueued, B.Notice, B.Listing, B.Copies, B.HandleWriteOp;
    assert P.SenderOk(b0.senders[s]);
    var f := Frame(t, n.id, PublishPayload(w.writerId, key, data));
    T.DisposeFanOut(b0, sid, B.FrameId(f), B.FramePayload(f), n.dds, A.KindFor(t), s,
                    w.endpoint.topicName, w.endpoint.typeName);
  }
}

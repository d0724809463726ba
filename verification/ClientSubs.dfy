/** How long the client's subscriptions stay live on the bridge: until an UNSUBSCRIBE takes their reader away. */
module ClientSubs {
  import opened Bytes
  import opened Wire
  import opened Qos
  import opened QosEquality
  import opened Protocol
  import opened Entities
  import opened Client
  import opened ClientTheorems
  import opened ClientRuns
  import A = Answers
  import B = Bridge
  import P = BridgeProofs
  import T = BridgeTheorems
  import R = Readers
  import Go = GoCodec

  // ---- One UNSUBSCRIBE in the registry ----

  function KeyFor(s: Sub): Option<R.ReaderKey> {
    match ParseEndpoint(Received(SubscribePayload(s)))
    case Failure(_) => None
    case Success(e) => Some(R.ReaderKey(s.endpoint.topicName, s.endpoint.typeName, KeyBytes(e.qos)))
  }

  ghost predicate ListedAs(rs: R.State, sid: SessionId, key: R.ReaderKey) {
    exists x :: R.Lists(rs, sid, x) && R.ReaderKeyOf(rs.readers[x]) == key
  }

  /** The session's entry for the topic and type leads to the reader of this key. */
  predicate Entered(rs: R.State, sid: SessionId, t: bytes, y: bytes, key: R.ReaderKey) {
    var k := R.SubKey(sid, t, y);
    k in rs.subs && rs.subs[k] in rs.readers && R.ReaderKeyOf(rs.readers[rs.subs[k]]) == key
  }

  lemma LiveIsListed(b: B.State, sid: SessionId, s: Sub)
    ensures LiveFor(b, sid, s) <==> KeyFor(s).Some? && ListedAs(b.readers, sid, KeyFor(s).value)
  {
    hide R.ReaderKeyOf, ParseEndpoint, Received, SubscribePayload, KeyBytes;
    var p := ParseEndpoint(Received(SubscribePayload(s)));
    if LiveFor(b, sid, s) {
      var x :| LiveReader(b, sid, x, s.endpoint, p.value.qos);
    }
    if KeyFor(s).Some? && ListedAs(b.readers, sid, KeyFor(s).value) {
      var x :| R.Lists(b.readers, sid, x) && R.ReaderKeyOf(b.readers.readers[x]) == KeyFor(s).value;
      assert LiveReader(b, sid, x, s.endpoint, p.value.qos);
    }
  }

  /** An UNSUBSCRIBE ends a listing exactly if the entry it removes leads to that very reader. */
  lemma UnsubscribeEnds(rs: R.State, sid: SessionId, t: bytes, y: bytes, key: R.ReaderKey)
    requires R.Inv(rs)
    ensures ListedAs(R.Unsubscribe(rs, t, y, sid), sid, key) <==>
              ListedAs(rs, sid, key) && !Entered(rs, sid, t, y, key)
  {
    hide SerializeQos, R.SubsInv, R.ReadersInv;
    var rs' := R.Unsubscribe(rs, t, y, sid);
    if ListedAs(rs', sid, key) {
      var x :| R.Lists(rs', sid, x) && R.ReaderKeyOf(rs'.readers[x]) == key;
      assert R.Lists(rs, sid, x) && R.ReaderKeyOf(rs.readers[x]) == key;
    }
    if ListedAs(rs, sid, key) && !Entered(rs, sid, t, y, key) {
      var x :| R.Lists(rs, sid, x) && R.ReaderKeyOf(rs.readers[x]) == key;
      assert R.Lists(rs', sid, x) && R.ReaderKeyOf(rs'.readers[x]) == key;
    }
  }

  // ---- One UNSUBSCRIBE of the client ----

  /** The request reaches its handler with readable names. */
  ghost predicate Lands(b: B.State, sid: SessionId, max: nat, s: Sub, n: Net) {
    && n.delivered && sid in T.RunFrom(b, n.env).senders
    && B.Dispatched(Frame(MsgType.Unsubscribe, n.id, UnsubPayload(s)), max)
    && ParseUnsubscribe(Received(UnsubPayload(s))).Success?
  }

  /** Ending `s` takes the reader of `other` away. */
  ghost predicate TakesAway(b: B.State, sid: SessionId, max: nat, s: Sub, n: Net, other: Sub) {
    && Lands(b, sid, max, s, n) && KeyFor(other).Some?
    && Entered(T.RunFrom(b, n.env).readers, sid, s.endpoint.topicName, s.endpoint.typeName, KeyFor(other).value)
  }

  /** The bridge parses the client's UNSUBSCRIBE only to the client's own names. */
  lemma UnsubNames(s: Sub)
    requires NamesFit(s.endpoint)
    ensures var p := ParseUnsubscribe(Received(UnsubPayload(s)));
            p.Success? ==> p.value == (s.endpoint.topicName, s.endpoint.typeName)
  {
    hide ReadString, WriteString, Go.AppendString;
    var t, y := s.endpoint.topicName, s.endpoint.typeName;
    var b := UnsubPayload(s);
    Go.Append2([], t, y, []);
    assert b + [] == b && [] + (WriteString(t) + (WriteString(y) + [])) == WriteString(t) + (WriteString(y) + []);
    var n := |b| % 0x1_0000_0000;
    CutString(t, WriteString(y) + [], n);
    if ReadString(b[..n]).Parsed? { CutString(y, [], n - 4 - |t|); }
  }

  /** What an UNSUBSCRIBE frame does to the readers. */
  lemma UnsubServed(b0: B.State, sid: SessionId, max: nat, s: Sub, n: Net)
    requires NamesFit(s.endpoint)
    ensures var data := Frame(MsgType.Unsubscribe, n.id, UnsubPayload(s));
            B.ProcessFrame(b0, sid, data, max, n.dds).st.readers ==
              if B.Dispatched(data, max) && ParseUnsubscribe(Received(UnsubPayload(s))).Success?
              then R.Unsubscribe(b0.readers, s.endpoint.topicName, s.endpoint.typeName, sid) else b0.readers
  {
    hide Frame, Received, ParseHeader, ValidateClientHeader, B.FramePayload, B.ErrorReply, B.OkReply, ParseUnsubscribe,
         UnsubPayload, B.FrameId, R.Unsubscribe, R.Unsubscribed;
    FrameRead(MsgType.Unsubscribe, n.id, UnsubPayload(s));
    UnsubNames(s);
  }

  /** Exactly which subscriptions an UNSUBSCRIBE leaves live, among those live when it arrives. */
  lemma UnsubscribeExact(b: B.State, sid: SessionId, max: nat, s: Sub, n: Net, other: Sub)
    requires P.Inv(b) && EnvOk(b, n.env, sid) && NamesFit(s.endpoint)
    ensures var b' := Request(b, sid, max, MsgType.Unsubscribe, UnsubPayload(s), n).0;
            LiveFor(b', sid, other) <==>
              LiveFor(T.RunFrom(b, n.env), sid, other) && !TakesAway(b, sid, max, s, n, other)
  {
    hide P.Inv, B.FreshAt, EnvOk, B.ProcessFrame, Frame, Received, ReadReply, T.RunFrom, LiveFor, KeyFor, ListedAs,
         Entered, R.Unsubscribe, ParseUnsubscribe, UnsubPayload, B.Dispatched, R.Inv;
    EnvKeeps(b, n.env, sid);
    var b0 := T.RunFrom(b, n.env);
    var b' := Request(b, sid, max, MsgType.Unsubscribe, UnsubPayload(s), n).0;
    T.InvParts(b0);
    UnsubServed(b0, sid, max, s, n);
    LiveIsListed(b0, sid, other);
    LiveIsListed(b', sid, other);
    if KeyFor(other).Some? {
      UnsubscribeEnds(b0.readers, sid, s.endpoint.topicName, s.endpoint.typeName, KeyFor(other).value);
    }
  }

  /** Only a subscription to the same topic and type can be hit. */
  lemma OtherNamesSpared(b: B.State, sid: SessionId, max: nat, s: Sub, n: Net, other: Sub)
    requires P.BaseInv(T.RunFrom(b, n.env))
    requires other.endpoint.topicName != s.endpoint.topicName || other.endpoint.typeName != s.endpoint.typeName
    ensures !TakesAway(b, sid, max, s, n, other)
  {
    hide Lands, T.RunFrom, KeyBytes, ParseEndpoint, Received, SubscribePayload, SerializeQos, R.KeysInv, R.ReadersInv,
         P.TopicsInv, P.EntitiesInv, P.SendersInv;
  }

  // ---- Every act ----

  /** While the connection is set and its session registered, every subscription in the list is live. */
  ghost predicate SubsLive(c: State, b: B.State) {
    c.conn.Some? && c.conn.value in b.senders ==> AllLive(b, c.conn.value, c.subs)
  }

  /** An `Unsubscribe` call takes no other subscription's reader away. */
  ghost predicate SparesSubs(c: State, b: B.State, max: nat, a: Act) {
    a.Unsub? && c.conn.Some? && c.conn.value in Do(c, b, max, a).1.senders ==>
      forall i :: 0 <= i < |WithoutSub(c.subs, a.s.token)| ==>
        !TakesAway(b, c.conn.value, max, a.s, a.n, WithoutSub(c.subs, a.s.token)[i])
  }

  lemma AllLiveKept(b: B.State, b': B.State, sid: SessionId, ss: seq<Sub>)
    requires KeepsReaders(b, b', sid) && AllLive(b, sid, ss)
    ensures AllLive(b', sid, ss)
  {
    hide LiveFor, KeepsReaders;
    forall i | 0 <= i < |ss| ensures LiveFor(b', sid, ss[i]) { LiveKept(b, b', sid, ss[i]); }
  }

  lemma {:induction false} WithoutMembers(ss: seq<Sub>, token: nat, s: Sub)
    ensures s in WithoutSub(ss, token) ==> s in ss
  {
    if ss != [] && ss[0].token != token { WithoutMembers(ss[1..], token, s); }
  }

  lemma UnsubKeepsSubs(c: State, b: B.State, max: nat, s: Sub, n: Net)
    requires Inv(c, b) && SubsLive(c, b) && ActOk(c, b, max, Unsub(s, n)) && NamesFit(s.endpoint)
    ensures var (c', b') := Client.Unsubscribe(c, b, max, s, n);
            SubsLive(c', b') <==> SparesSubs(c, b, max, Unsub(s, n))
  {
    hide P.Inv, EnvOk, B.FreshAt, Request, LiveFor, TakesAway, NamesFit, UnsubPayload, WritersOwned, T.RunFrom,
         KeepsReaders;
    var ss := WithoutSub(c.subs, s.token);
    if c.conn.Some? {
      var sid := c.conn.value;
      UnsubCall(c, b, max, s, n);
      RequestKeeps(b, sid, max, MsgType.Unsubscribe, UnsubPayload(s), n);
      ArrivalKeeps(b, sid, max, MsgType.Unsubscribe, UnsubPayload(s), n);
      var b' := Request(b, sid, max, MsgType.Unsubscribe, UnsubPayload(s), n).0;
      if sid in b'.senders {
        AllLiveKept(b, T.RunFrom(b, n.env), sid, c.subs);
        forall i | 0 <= i < |ss|
          ensures LiveFor(b', sid, ss[i]) <==> !TakesAway(b, sid, max, s, n, ss[i])
        {
          WithoutMembers(c.subs, s.token, ss[i]);
          UnsubscribeExact(b, sid, max, s, n, ss[i]);
        }
      }
    }
  }

  lemma UnsubCall(c: State, b: B.State, max: nat, s: Sub, n: Net)
    requires c.conn.Some?
    ensures Client.Unsubscribe(c, b, max, s, n) ==
              (c.(subs := WithoutSub(c.subs, s.token)),
               Request(b, c.conn.value, max, MsgType.Unsubscribe, UnsubPayload(s), n).0)
  {
    hide Request, Go.Encode;
  }

  /** If the session is registered after a request, the events before the request kept its readers. */
  lemma ArrivalKeeps(b: B.State, sid: SessionId, max: nat, t: MsgType, payload: bytes, n: Net)
    requires P.Inv(b) && NetOk(b, sid, max, t, payload, n)
    ensures sid in Request(b, sid, max, t, payload, n).0.senders ==> KeepsReaders(b, T.RunFrom(b, n.env), sid)
  {
    hide P.Inv, B.FreshAt, EnvOk, B.ProcessFrame, Frame, ReadReply, T.RunFrom, KeepsReaders, KeepsWriters;
    EnvKeeps(b, n.env, sid);
    FrameReaders(T.RunFrom(b, n.env), sid, Frame(t, n.id, payload), max, n.dds);
  }

  lemma SubscribeKeepsSubs(c: State, b: B.State, max: nat, s: Sub, n: Net)
    requires Inv(c, b) && SubsLive(c, b) && ActOk(c, b, max, NewSub(s, n))
    ensures var (c', b') := Client.Subscribe(c, b, max, s, n); SubsLive(c', b')
  {
    hide P.Inv, NetOk, Request, NamesFit, SubscribePayload, WritersOwned, KeepsReaders, KeepsWriters, LiveFor;
    if c.conn.Some? {
      var sid := c.conn.value;
      SubscribeRequest(b, sid, max, s, n);
      var (b', r) := Request(b, sid, max, MsgType.Subscribe, SubscribePayload(s), n);
      if sid in b'.senders {
        AllLiveKept(b, b', sid, c.subs);
        assert r.Some? ==> AllLive(b', sid, c.subs + [s]);
      }
    }
  }

  lemma RequestKeepsSubs(c: State, b: B.State, max: nat, t: MsgType, payload: bytes, n: Net)
    requires Inv(c, b) && SubsLive(c, b) && CallOk(c, b, max, t, payload, n) && !t.Unsubscribe? && c.conn.Some?
    ensures SubsLive(c, Request(b, c.conn.value, max, t, payload, n).0)
  {
    hide P.Inv, NetOk, Request, WritersOwned, KeepsReaders, KeepsWriters, LiveFor, ParseDeleteWriter, Received;
    RequestKeeps(b, c.conn.value, max, t, payload, n);
    var b' := Request(b, c.conn.value, max, t, payload, n).0;
    if c.conn.value in b'.senders { AllLiveKept(b, b', c.conn.value, c.subs); }
  }

  lemma CallsKeepSubs(c: State, b: B.State, max: nat, a: Act)
    requires Inv(c, b) && SubsLive(c, b) && ActOk(c, b, max, a) && (a.NewWriter? || a.CloseOne? || a.Send?)
    ensures var (c', b') := Do(c, b, max, a); SubsLive(c', b')
  {
    hide Inv, NetOk, Request, AllLive, NamesFit, WriterPayload, Go.Encode, U32At;
    if c.conn.Some? {
      match a
      case NewWriter(w, n) => RequestKeepsSubs(c, b, max, MsgType.CreateWriter, WriterPayload(w), n);
      case CloseOne(token, n) => RequestKeepsSubs(c, b, max, MsgType.DeleteWriter, ClosePayload(c, token), n);
      case Send(t, payload, n) => RequestKeepsSubs(c, b, max, t, payload, n);
    }
  }

  lemma ElsewhereKeepsSubs(c: State, b: B.State, e: B.Event)
    requires Inv(c, b) && SubsLive(c, b) && B.FreshAt(b, e) && (c.conn.Some? ==> Foreign(e, c.conn.value))
    ensures SubsLive(c, B.Step(b, e))
  {
    hide P.Inv, B.Step, WritersOwned, KeepsReaders, KeepsWriters, Foreign, B.FreshAt, LiveFor;
    if c.conn.Some? {
      ForeignStep(b, e, c.conn.value);
      if c.conn.value in B.Step(b, e).senders { AllLiveKept(b, B.Step(b, e), c.conn.value, c.subs); }
    }
  }

  /** Every act keeps all listed subscriptions live, exactly unless it is an `Unsubscribe` that takes another one's
      reader away; a reconnect makes them live again whatever happened before. */
  lemma ActKeepsSubs(c: State, b: B.State, max: nat, a: Act)
    requires Inv(c, b) && SubsLive(c, b) && ActOk(c, b, max, a) && (a.Unsub? ==> NamesFit(a.s.endpoint))
    ensures var (c', b') := Do(c, b, max, a); SubsLive(c', b') <==> SparesSubs(c, b, max, a)
  {
    hide Inv, Client.CreateWriter, Client.Subscribe, CloseWriter, Client.Unsubscribe, Client.Send, Reconnect, B.Step,
         ReconnectOk, CallOk, NamesFit, TakesAway, AllLive;
    match a
    case Elsewhere(e) => ElsewhereKeepsSubs(c, b, e);
    case NewSub(s, n) => SubscribeKeepsSubs(c, b, max, s, n);
    case Unsub(s, n) => UnsubKeepsSubs(c, b, max, s, n);
    case Retry(tries, limit) => RetryKeepsSubs(c, b, tries, limit);
    case Lost =>
    case CloseAll =>
    case _ => CallsKeepSubs(c, b, max, a);
  }

  lemma RetryKeepsSubs(c: State, b: B.State, tries: seq<Attempt>, limit: int)
    requires Inv(c, b) && SubsLive(c, b) && ReconnectOk(c, b, tries, limit)
    ensures var (c', b') := Reconnect(c, b, tries, limit); SubsLive(c', b')
  {
    hide P.Inv, ClientFits, WritersOwned, AllLive, TryReconnect, SameButIds, ReconnectOk;
    if c.conn.None? { ReconnectRestoresAll(c, b, tries, limit); }
  }

  // ---- Whole runs ----

  ghost predicate SparingRun(c: State, b: B.State, max: nat, acts: seq<Act>)
    decreases |acts|
  {
    acts == [] ||
    (var n := |acts| - 1;
     SparingRun(c, b, max, acts[..n])
     && var (c', b') := Runs(c, b, max, acts[..n]);
        (acts[n].Unsub? ==> NamesFit(acts[n].s.endpoint)) && SparesSubs(c', b', max, acts[n]))
  }

  /** In every state of every run in which no `Unsubscribe` takes another subscription's reader away: while the
      connection is set and its session registered, every subscription in the list has a live reader listing the
      session. */
  lemma {:induction false} SubsStayLive(c: State, es: seq<B.Event>, max: nat, acts: seq<Act>)
    requires Started(c) && B.FreshRun(es) && RunsOk(c, B.Run(es), max, acts) && SparingRun(c, B.Run(es), max, acts)
    ensures var (c', b') := Runs(c, B.Run(es), max, acts); SubsLive(c', b')
    decreases |acts|
  {
    hide Inv, Do, ActOk, B.FreshRun, B.Run, NamesFit, SparesSubs, LiveFor;
    if acts != [] {
      var n := |acts| - 1;
      SubsStayLive(c, es, max, acts[..n]);
      WritersSurvive(c, es, max, acts[..n]);
      var (c', b') := Runs(c, B.Run(es), max, acts[..n]);
      ActKeepsSubs(c', b', max, acts[n]);
    }
  }

  // ---- What the client can see ----

  /** No other listed subscription has the topic and type of the one being ended. */
  ghost predicate Alone(c: State, a: Act) {
    a.Unsub? ==>
      && NamesFit(a.s.endpoint)
      && forall o :: o in WithoutSub(c.subs, a.s.token) ==>
           o.endpoint.topicName != a.s.endpoint.topicName || o.endpoint.typeName != a.s.endpoint.typeName
  }

  lemma AloneSpares(c: State, b: B.State, max: nat, a: Act)
    requires Inv(c, b) && ActOk(c, b, max, a) && Alone(c, a)
    ensures SparesSubs(c, b, max, a)
  {
    hide P.Inv, B.FreshAt, EnvOk, Do, TakesAway, ClientFits, WritersOwned, NamesFit, UnsubPayload, P.BaseInv;
    if a.Unsub? && c.conn.Some? {
      EnvKeeps(b, a.n.env, c.conn.value);
      T.InvBase(T.RunFrom(b, a.n.env));
      var ss := WithoutSub(c.subs, a.s.token);
      forall i | 0 <= i < |ss| ensures !TakesAway(b, c.conn.value, max, a.s, a.n, ss[i]) {
        OtherNamesSpared(b, c.conn.value, max, a.s, a.n, ss[i]);
      }
    }
  }

  /** At each `Unsubscribe` of the run the subscription is alone on its topic and type in the client's own list. */
  ghost predicate AloneRun(c: State, b: B.State, max: nat, acts: seq<Act>)
    decreases |acts|
  {
    acts == [] ||
    (var n := |acts| - 1;
     AloneRun(c, b, max, acts[..n]) && Alone(Runs(c, b, max, acts[..n]).0, acts[n]))
  }

  lemma {:induction false} AloneRunSpares(c: State, es: seq<B.Event>, max: nat, acts: seq<Act>)
    requires Started(c) && B.FreshRun(es) && RunsOk(c, B.Run(es), max, acts) && AloneRun(c, B.Run(es), max, acts)
    ensures SparingRun(c, B.Run(es), max, acts)
    decreases |acts|
  {
    hide Inv, Do, ActOk, B.FreshRun, B.Run, NamesFit, SparesSubs;
    if acts != [] {
      var n := |acts| - 1;
      AloneRunSpares(c, es, max, acts[..n]);
      WritersSurvive(c, es, max, acts[..n]);
      var (c', b') := Runs(c, B.Run(es), max, acts[..n]);
      AloneSpares(c', b', max, acts[n]);
    }
  }

  /** A client that never ends one of two subscriptions to the same topic and type has every listed subscription live in
      every state, while the connection is set and its session registered. */
  lemma AloneSubsStayLive(c: State, es: seq<B.Event>, max: nat, acts: seq<Act>)
    requires Started(c) && B.FreshRun(es) && RunsOk(c, B.Run(es), max, acts) && AloneRun(c, B.Run(es), max, acts)
    ensures var (c', b') := Runs(c, B.Run(es), max, acts); SubsLive(c', b')
  {
    hide Runs, RunsOk, AloneRun, SparingRun, B.FreshRun, B.Run, SubsLive;
    AloneRunSpares(c, es, max, acts);
    SubsStayLive(c, es, max, acts);
  }

  // ---- Two subscriptions to one topic ----

  function GoOf(e: Endpoint): Go.GoEndpoint {
    Go.GoEndpoint(e.topicName, e.typeName, Go.GoQosOf(e.qos), e.isKeyed, Go.GoKeysOf(e.keys))
  }

  /** What the wire can carry and the bridge takes, in one payload of at most `max` bytes. */
  ghost predicate Acceptable(e: Endpoint, max: nat) {
    && Valid(EndpointP(e)) && 0 !in e.topicName && 0 !in e.typeName
    && |Serialize(EndpointP(e))| <= max && |Serialize(EndpointP(e))| < 0x1_0000_0000
  }

  predicate GetsThrough(n: Net) { n.env == [] && n.delivered && n.answered && n.id != 0 }

  lemma PayloadArrives(e: Endpoint, token: nat, max: nat)
    requires Acceptable(e, max)
    ensures var s := Sub(token, GoOf(e));
            && SubscribePayload(s) == Serialize(EndpointP(e)) && Received(SubscribePayload(s)) == SubscribePayload(s)
            && ParseEndpoint(Received(SubscribePayload(s))) == Success(e)
  {
    hide Serialize, Valid, Go.Encode, ParseEndpoint, Go.GoQosOf, Go.GoKeysOf;
    Go.EncodersAgree(EndpointP(e));
    AcceptedBack(e);
    var p := Serialize(EndpointP(e));
    assert p[..|p|] == p;
  }

  lemma AcceptedBack(e: Endpoint)
    requires Valid(EndpointP(e))
    ensures ParseEndpoint(Serialize(EndpointP(e))) == Success(e)
  {
    hide ParseEndpoint, SerializeEndpoint, Encodable, WellFormed;
    EndpointRoundTrip(e);
  }

  lemma ShortFrameDispatched(t: MsgType, id: u32, payload: bytes, max: nat)
    requires id != 0 && |payload| <= max && |payload| < 0x1_0000_0000
    ensures B.Dispatched(Frame(t, id, payload), max)
  {
    hide BuildMessage, Go.GoBuildMessage, ParseHeader;
    Go.HeadersAgree(t, id, payload);
  }

  /** A SUBSCRIBE that gets through, for an endpoint the bridge takes and with DDS willing, succeeds, and the session's
      entry leads to the reader of its key. */
  lemma SubscribeSucceeds(b: B.State, sid: SessionId, max: nat, e: Endpoint, token: nat, n: Net)
    requires P.BaseInv(b) && sid in b.senders && Acceptable(e, max) && GetsThrough(n)
    requires n.dds.topicHandle >= 0 && n.dds.readerOk
    ensures var s := Sub(token, GoOf(e));
            var (b', r) := Request(b, sid, max, MsgType.Subscribe, SubscribePayload(s), n);
            && r == Some([]) && sid in b'.senders && KeyFor(s).Some?
            && Entered(b'.readers, sid, e.topicName, e.typeName, KeyFor(s).value)
  {
    hide Frame, ReadReply, Received, ParseHeader, ValidateClientHeader, B.FramePayload, ParseEndpoint, Acceptable,
         P.BaseInv, Go.Encode, B.FrameId, SubscribePayload, B.ProcessFrame, B.Dispatched, KeyBytes, R.ReaderKeyOf;
    var s := Sub(token, GoOf(e));
    var payload := SubscribePayload(s);
    var data := Frame(MsgType.Subscribe, n.id, payload);
    PayloadArrives(e, token, max);
    PayloadShort(e, max);
    NoNul(e, max);
    FrameRead(MsgType.Subscribe, n.id, payload);
    ShortFrameDispatched(MsgType.Subscribe, n.id, payload, max);
    A.SubscribeAnswered(b, sid, data, max, n.dds);
    FrameReaders(b, sid, data, max, n.dds);
  }

  lemma NoNul(e: Endpoint, max: nat)
    requires Acceptable(e, max)
    ensures 0 !in e.topicName && 0 !in e.typeName
  {
  }

  lemma PayloadShort(e: Endpoint, max: nat)
    requires Acceptable(e, max)
    ensures |Serialize(EndpointP(e))| <= max && |Serialize(EndpointP(e))| < 0x1_0000_0000
  {
  }

  lemma UnsubLands(b: B.State, sid: SessionId, max: nat, e: Endpoint, token: nat, n: Net)
    requires sid in b.senders && Acceptable(e, max) && GetsThrough(n)
    ensures Lands(b, sid, max, Sub(token, GoOf(e)), n)
  {
    hide Frame, ParseUnsubscribe, WellFormed, Encodable, Go.GoQosOf, Go.GoKeysOf, WriteString, SerializeQos,
         SerializeKeyDescriptors, B.Dispatched;
    var s := Sub(token, GoOf(e));
    var p := UnsubscribeP(e.topicName, e.typeName);
    Go.EncodersAgree(p);
    assert UnsubPayload(s) == WriteString(e.topicName) + WriteString(e.typeName);
    assert |UnsubPayload(s)| <= |Serialize(EndpointP(e))|;
    UnsubParses(e);
    assert UnsubPayload(s)[..|UnsubPayload(s)|] == UnsubPayload(s);
    ShortFrameDispatched(MsgType.Unsubscribe, n.id, UnsubPayload(s), max);
  }

  lemma UnsubParses(e: Endpoint)
    requires Encodable(e.topicName) && Encodable(e.typeName)
    ensures ParseUnsubscribe(WriteString(e.topicName) + WriteString(e.typeName)).Success?
  {
    hide ReadString, WriteString, Encodable;
    StringRoundTrip(e.topicName, WriteString(e.typeName));
    StringRoundTrip(e.typeName, []);
    assert WriteString(e.typeName) + [] == WriteString(e.typeName);
  }

  /** With two subscriptions to one endpoint, ending the first ends the second: it stays in the client's list and no
      reader lists the session for it any more. For every endpoint the bridge takes. */
  lemma TwinLost(b: B.State, sid: SessionId, max: nat, e: Endpoint, n: Net, n': Net)
    requires P.Inv(b) && sid in b.senders && Acceptable(e, max) && GetsThrough(n) && GetsThrough(n')
    requires n.dds.topicHandle >= 0 && n.dds.readerOk
    ensures var first, second := Sub(1, GoOf(e)), Sub(2, GoOf(e));
            var c := State(Some(sid), [first], []);
            var (c1, b1) := Client.Subscribe(c, b, max, second, n);
            var (c2, b2) := Client.Unsubscribe(c1, b1, max, first, n');
            && c1.subs == [first, second] && LiveFor(b1, sid, second)
            && c2.subs == [second] && !LiveFor(b2, sid, second)
  {
    hide P.Inv, Request, NetOk, Acceptable, SubscribePayload, KeyFor, Entered, LiveFor, Go.Encode, Go.GoQosOf,
         Go.GoKeysOf, TakesAway;
    var first, second := Sub(1, GoOf(e)), Sub(2, GoOf(e));
    T.InvBase(b);
    AcceptableFits(e, max);
    SubscribeSucceeds(b, sid, max, e, 2, n);
    QuietNet(b, sid, max, MsgType.Subscribe, SubscribePayload(second), n);
    SubscribeRequest(b, sid, max, second, n);
    var b1 := Request(b, sid, max, MsgType.Subscribe, SubscribePayload(second), n).0;
    UnsubLands(b1, sid, max, e, 1, n');
    TwinTaken(b1, sid, max, first, n', second);
    QuietNet(b1, sid, max, MsgType.Unsubscribe, UnsubPayload(first), n');
    UnsubscribeExact(b1, sid, max, first, n', second);
    assert WithoutSub([first, second], 1) == [second];
    UnsubCall(State(Some(sid), [first, second], []), b1, max, first, n');
  }

  lemma AcceptableFits(e: Endpoint, max: nat)
    requires Acceptable(e, max)
    ensures NamesFit(GoOf(e))
  {
    hide WellFormed, ValidUtf8, Serialize, Go.GoQosOf, Go.GoKeysOf;
  }

  lemma TwinTaken(b: B.State, sid: SessionId, max: nat, s: Sub, n: Net, other: Sub)
    requires n.env == []
    ensures Lands(b, sid, max, s, n) && KeyFor(other).Some?
            && Entered(b.readers, sid, s.endpoint.topicName, s.endpoint.typeName, KeyFor(other).value) ==>
              TakesAway(b, sid, max, s, n, other)
  {
    hide Lands, Entered, KeyFor;
  }

  /** SUBSCRIBE and UNSUBSCRIBE register no writer. */
  lemma QuietNet(b: B.State, sid: SessionId, max: nat, t: MsgType, payload: bytes, n: Net)
    requires n.env == [] && (t.Subscribe? || t.Unsubscribe?)
    ensures NetOk(b, sid, max, t, payload, n)
  {
    hide Frame, ParseHeader, ValidateClientHeader, B.FramePayload, B.ErrorReply, B.OkReply, ParseUnsubscribe,
         ParseEndpoint, R.Unsubscribe, R.Unsubscribed, R.Subscribe, R.SubscribeResult, B.GetOrCreateTopic, Received;
    FrameRead(t, n.id, payload);
  }
}

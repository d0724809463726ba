/** Whole runs of the client against the bridge, with other sessions acting in between. */
module ClientRuns {
  import opened Bytes
  import opened Protocol
  import opened Entities
  import opened Client
  import opened ClientTheorems
  import B = Bridge
  import P = BridgeProofs
  import T = BridgeTheorems
  import R = Readers
  import Go = GoCodec

  // ---- Restoring writers ----

  ghost predicate Fits(ws: seq<Writer>) { forall i :: 0 <= i < |ws| ==> NamesFit(ws[i].endpoint) }

  /** Every open writer holds an id of its own, registered to the session for the writer's topic and type. */
  ghost predicate WritersOwned(b: B.State, sid: SessionId, ws: seq<Writer>) {
    && (forall i :: 0 <= i < |ws| && !ws[i].closed ==> OwnedBy(b, sid, ws[i].writerId, ws[i].endpoint))
    && (forall i, j :: 0 <= i < j < |ws| && !ws[i].closed && !ws[j].closed ==> ws[i].writerId != ws[j].writerId)
  }

  /** The same writers in the same order, but for their ids. */
  ghost predicate SameButIds(ws: seq<Writer>, ws': seq<Writer>) {
    |ws| == |ws'| && forall i :: 0 <= i < |ws| ==> ws'[i] == ws[i].(writerId := ws'[i].writerId)
  }

  /** The requests of a restore meet fresh ids, and only the restoring client speaks for the new session. */
  ghost predicate WriterNetsOk(b: B.State, sid: SessionId, max: nat, ws: seq<Writer>, nets: seq<Net>)
    decreases |ws|
  {
    if ws == [] then true
    else if ws[0].closed then WriterNetsOk(b, sid, max, ws[1..], nets)
    else nets != [] ==>
      && NetOk(b, sid, max, MsgType.CreateWriter, WriterPayload(ws[0]), nets[0])
      && WriterNetsOk(Request(b, sid, max, MsgType.CreateWriter, WriterPayload(ws[0]), nets[0]).0, sid, max,
                      ws[1..], nets[1..])
  }

  lemma {:induction false} RestoredWriters(b: B.State, sid: SessionId, max: nat, ws: seq<Writer>, nets: seq<Net>)
    requires P.Inv(b) && Fits(ws) && WriterNetsOk(b, sid, max, ws, nets)
    ensures var r := RestoreWriters(b, sid, max, ws, nets);
            && P.Inv(r.b) && SameButIds(ws, r.writers)
            && (sid in r.b.senders ==> sid in b.senders && Keeps(b, r.b, sid))
            && (sid in r.b.senders && r.ok ==>
                  && WritersOwned(r.b, sid, r.writers)
                  && forall i :: 0 <= i < |ws| && !ws[i].closed ==> !Holds(b, sid, r.writers[i].writerId))
    decreases |ws|
  {
    hide P.Inv, NetOk, Request, R.Lists, KeepsReaders, NamesFit, U32At, WriterPayload, OwnedBy, KeepsWriters, Holds;
    if ws == [] {
      KeepsSelf(b, sid);
    } else if ws[0].closed {
      RestoredWriters(b, sid, max, ws[1..], nets);
    } else if nets == [] {
      KeepsSelf(b, sid);
    } else {
      CreateRequest(b, sid, max, ws[0], nets[0]);
      var (b', r) := Request(b, sid, max, MsgType.CreateWriter, WriterPayload(ws[0]), nets[0]);
      if r.Some? && |r.value| >= 4 {
        RestoredWriters(b', sid, max, ws[1..], nets[1..]);
        var t := RestoreWriters(b', sid, max, ws[1..], nets[1..]);
        KeepsTransitive(b, b', t.b, sid, {});
        var out := RestoreWriters(b, sid, max, ws, nets);
        assert out.writers == [ws[0].(writerId := U32At(r.value))] + t.writers;
        if sid in t.b.senders && t.ok {
          RestoredHead(b, b', t.b, sid, ws[0].(writerId := U32At(r.value)), t.writers);
        }
      }
    }
  }

  lemma KeepsSelf(b: B.State, sid: SessionId)
    ensures Keeps(b, b, sid)
  {
    hide R.Lists, R.ReaderKeyOf;
  }

  lemma RestoredHead(b: B.State, b': B.State, b2: B.State, sid: SessionId, w: Writer, ws: seq<Writer>)
    requires Keeps(b, b', sid) && Keeps(b', b2, sid)
    requires OwnedBy(b', sid, w.writerId, w.endpoint) && WritersOwned(b2, sid, ws)
    requires forall i :: 0 <= i < |ws| && !ws[i].closed ==> !Holds(b', sid, ws[i].writerId)
    ensures WritersOwned(b2, sid, [w] + ws)
    ensures forall i :: 0 <= i < |ws| && !ws[i].closed ==> !Holds(b, sid, ws[i].writerId)
  {
    hide R.Lists, R.ReaderKeyOf, KeepsReaders;
  }

  // ---- Restoring subscriptions ----

  ghost predicate SubsFit(ss: seq<Sub>) { forall i :: 0 <= i < |ss| ==> NamesFit(ss[i].endpoint) }

  ghost predicate AllLive(b: B.State, sid: SessionId, ss: seq<Sub>) {
    forall i :: 0 <= i < |ss| ==> LiveFor(b, sid, ss[i])
  }

  ghost predicate SubNetsOk(b: B.State, sid: SessionId, max: nat, ss: seq<Sub>, nets: seq<Net>)
    decreases |ss|
  {
    ss == [] || nets == [] ||
    (&& NetOk(b, sid, max, MsgType.Subscribe, SubscribePayload(ss[0]), nets[0])
     && SubNetsOk(Request(b, sid, max, MsgType.Subscribe, SubscribePayload(ss[0]), nets[0]).0, sid, max,
                  ss[1..], nets[1..]))
  }

  lemma {:induction false} RestoredSubs(b: B.State, sid: SessionId, max: nat, ss: seq<Sub>, nets: seq<Net>)
    requires P.Inv(b) && SubsFit(ss)
    ensures SubNetsOk(b, sid, max, ss, nets) ==>
              var (b', ok) := RestoreSubs(b, sid, max, ss, nets);
              && P.Inv(b')
              && (sid in b'.senders ==> sid in b.senders && Keeps(b, b', sid))
              && (sid in b'.senders && ok ==> AllLive(b', sid, ss))
    decreases |ss|
  {
    hide P.Inv, NetOk, Request, R.Lists, KeepsReaders, NamesFit, SubscribePayload, KeepsWriters, LiveFor;
    KeepsSelf(b, sid);
    if ss != [] && nets != [] && SubNetsOk(b, sid, max, ss, nets) {
      SubscribeRequest(b, sid, max, ss[0], nets[0]);
      var (b', r) := Request(b, sid, max, MsgType.Subscribe, SubscribePayload(ss[0]), nets[0]);
      if r.Some? {
        RestoredSubs(b', sid, max, ss[1..], nets[1..]);
        var (b2, ok) := RestoreSubs(b', sid, max, ss[1..], nets[1..]);
        KeepsTransitive(b, b', b2, sid, {});
        if sid in b2.senders && ok {
          LiveKept(b', b2, sid, ss[0]);
          assert forall i :: 1 <= i < |ss| ==> ss[i] == ss[1..][i - 1];
        }
      }
    }
  }

  // ---- Reconnecting ----

  ghost predicate AttemptOk(c: State, b: B.State, a: Attempt) {
    a.dialOk ==>
      var b1 := B.Step(b, B.Connect(a.sid, a.capacity));
      var r := RestoreWriters(b1, a.sid, a.max, c.writers, a.forWriters);
      && WriterNetsOk(b1, a.sid, a.max, c.writers, a.forWriters)
      && (r.ok ==> SubNetsOk(r.b, a.sid, a.max, c.subs, a.forSubs))
  }

  ghost predicate ClientFits(c: State) { Fits(c.writers) && SubsFit(c.subs) }

  /** The connection's writers are in place whenever its session is still registered. */
  ghost predicate Inv(c: State, b: B.State) {
    && P.Inv(b) && ClientFits(c)
    && (c.conn.Some? && c.conn.value in b.senders ==> WritersOwned(b, c.conn.value, c.writers))
  }

  /** A reconnect attempt publishes the connection only when every open writer and every subscription was restored
      on it. */
  lemma AttemptRestoresAll(c: State, b: B.State, a: Attempt)
    requires P.Inv(b) && ClientFits(c) && c.conn.None? && AttemptOk(c, b, a)
    ensures var (c', b') := TryReconnect(c, b, a);
            && Inv(c', b') && c'.subs == c.subs && SameButIds(c.writers, c'.writers)
            && (c'.conn == None || c'.conn == Some(a.sid))
            && (c'.conn.Some? && a.sid in b'.senders ==>
                  WritersOwned(b', a.sid, c'.writers) && AllLive(b', a.sid, c.subs))
  {
    hide P.Inv, B.Step, NetOk, RestoreWriters, RestoreSubs, WriterNetsOk, SubNetsOk, KeepsReaders, NamesFit, LiveFor;
    if a.dialOk {
      var b1 := B.Step(b, B.Connect(a.sid, a.capacity));
      P.ConnectInv(b, a.sid, a.capacity);
      RestoredWriters(b1, a.sid, a.max, c.writers, a.forWriters);
      var r := RestoreWriters(b1, a.sid, a.max, c.writers, a.forWriters);
      if r.ok {
        RestoredSubs(r.b, a.sid, a.max, c.subs, a.forSubs);
        var (b2, ok) := RestoreSubs(r.b, a.sid, a.max, c.subs, a.forSubs);
        if a.sid in b2.senders { OwnedStay(r.b, b2, a.sid, {}, r.writers); }
      }
    }
  }

  function OpenCount(ws: seq<Writer>): nat {
    if ws == [] then 0 else (if ws[0].closed then 0 else 1) + OpenCount(ws[1..])
  }

  ghost predicate AllAnswered(nets: seq<Net>, n: nat) {
    n <= |nets| && forall i :: 0 <= i < n ==> nets[i].delivered && nets[i].answered
  }

  /** One lost request or response, for any open writer or any subscription, and the attempt is not published. */
  lemma PublishedMeansAnswered(c: State, b: B.State, a: Attempt)
    requires c.conn.None?
    ensures TryReconnect(c, b, a).0.conn.Some? ==>
              a.dialOk && AllAnswered(a.forWriters, OpenCount(c.writers)) && AllAnswered(a.forSubs, |c.subs|)
  {
    hide B.Step, RestoreWriters, RestoreSubs;
    var b1 := B.Step(b, B.Connect(a.sid, a.capacity));
    WritersAnswered(b1, a.sid, a.max, c.writers, a.forWriters);
    SubsAnswered(RestoreWriters(b1, a.sid, a.max, c.writers, a.forWriters).b, a.sid, a.max, c.subs, a.forSubs);
  }

  lemma {:induction false} WritersAnswered(b: B.State, sid: SessionId, max: nat, ws: seq<Writer>, nets: seq<Net>)
    ensures RestoreWriters(b, sid, max, ws, nets).ok ==> AllAnswered(nets, OpenCount(ws))
    decreases |ws|
  {
    hide B.ProcessFrame, T.RunFrom, ReadReply, Frame, WriterPayload;
    if ws != [] {
      if ws[0].closed {
        WritersAnswered(b, sid, max, ws[1..], nets);
      } else if nets != [] {
        var b' := Request(b, sid, max, MsgType.CreateWriter, WriterPayload(ws[0]), nets[0]).0;
        WritersAnswered(b', sid, max, ws[1..], nets[1..]);
      }
    }
  }

  lemma {:induction false} SubsAnswered(b: B.State, sid: SessionId, max: nat, ss: seq<Sub>, nets: seq<Net>)
    ensures RestoreSubs(b, sid, max, ss, nets).1 ==> AllAnswered(nets, |ss|)
    decreases |ss|
  {
    hide B.ProcessFrame, T.RunFrom, ReadReply, Frame, SubscribePayload;
    if ss != [] && nets != [] {
      var b' := Request(b, sid, max, MsgType.Subscribe, SubscribePayload(ss[0]), nets[0]).0;
      SubsAnswered(b', sid, max, ss[1..], nets[1..]);
    }
  }

  lemma OwnedStay(b: B.State, b': B.State, sid: SessionId, but: set<u32>, ws: seq<Writer>)
    requires WritersOwned(b, sid, ws) && KeepsWriters(b, b', sid, but)
    requires forall i :: 0 <= i < |ws| && !ws[i].closed ==> ws[i].writerId !in but
    ensures WritersOwned(b', sid, ws)
  {
  }

  ghost predicate ReconnectOk(c: State, b: B.State, tries: seq<Attempt>, limit: int)
    decreases |tries|
  {
    tries == [] || limit == 0 || c.conn.Some? ||
    (&& AttemptOk(c, b, tries[0])
     && var (c', b') := TryReconnect(c, b, tries[0]);
        ReconnectOk(c', b', tries[1..], if limit < 0 then limit else limit - 1))
  }

  /** However many attempts fail half-way, the one that is published has everything in place on its own session. */
  lemma {:induction false} ReconnectRestoresAll(c: State, b: B.State, tries: seq<Attempt>, limit: int)
    requires P.Inv(b) && ClientFits(c) && c.conn.None? && ReconnectOk(c, b, tries, limit)
    ensures var (c', b') := Reconnect(c, b, tries, limit);
            && Inv(c', b') && c'.subs == c.subs && SameButIds(c.writers, c'.writers)
            && (c'.conn.Some? && c'.conn.value in b'.senders ==>
                  WritersOwned(b', c'.conn.value, c'.writers) && AllLive(b', c'.conn.value, c.subs))
            && (c'.conn.Some? ==>
                  exists i :: 0 <= i < |tries| && (limit < 0 || i < limit) && c'.conn.value == tries[i].sid)
    decreases |tries|
  {
    hide P.Inv, TryReconnect, AttemptOk, NamesFit, LiveFor, OwnedBy;
    if tries != [] && limit != 0 {
      AttemptRestoresAll(c, b, tries[0]);
      var (c', b') := TryReconnect(c, b, tries[0]);
      if c'.conn.None? {
        ReconnectRestoresAll(c', b', tries[1..], if limit < 0 then limit else limit - 1);
        assert forall i :: 0 <= i < |tries[1..]| ==> tries[1..][i] == tries[i + 1];
      }
    }
  }

  // ---- Every public call ----

  datatype Act =
    | Elsewhere(e: B.Event)
    | NewWriter(w: Writer, n: Net)
    | NewSub(s: Sub, n: Net)
    | CloseOne(token: nat, n: Net)
    | Unsub(s: Sub, n: Net)
    | Send(t: MsgType, payload: bytes, n: Net)
    | Lost
    | Retry(tries: seq<Attempt>, limit: int)
    | CloseAll

  function Do(c: State, b: B.State, max: nat, a: Act): (State, B.State) {
    match a
    case Elsewhere(e) => (c, B.Step(b, e))
    case NewWriter(w, n) => Client.CreateWriter(c, b, max, w, n)
    case NewSub(s, n) => Client.Subscribe(c, b, max, s, n)
    case CloseOne(token, n) => CloseWriter(c, b, max, token, n)
    case Unsub(s, n) => Client.Unsubscribe(c, b, max, s, n)
    case Send(t, payload, n) => Client.Send(c, b, max, t, payload, n)
    case Lost => (c.(conn := None), b)
    case Retry(tries, limit) => Reconnect(c, b, tries, limit)
    case CloseAll => (State(None, [], []), b)
  }

  ghost predicate CallOk(c: State, b: B.State, max: nat, t: MsgType, payload: bytes, n: Net) {
    c.conn.Some? ==> NetOk(b, c.conn.value, max, t, payload, n)
  }

  /** The requests that close a writer and end a subscription. */
  function ClosePayload(c: State, token: nat): bytes {
    var i := IndexOf(c.writers, token);
    Go.Encode(Go.GoDeleteWriterP(if i < |c.writers| then c.writers[i].writerId else 0))
  }

  function UnsubPayload(s: Sub): bytes { Go.Encode(Go.GoUnsubscribeP(s.endpoint.topicName, s.endpoint.typeName)) }

  /** Writer ids are fresh, only this client speaks for its session, and names have a length the wire can carry. */
  ghost predicate ActOk(c: State, b: B.State, max: nat, a: Act) {
    match a
    case Elsewhere(e) => B.FreshAt(b, e) && (c.conn.Some? ==> Foreign(e, c.conn.value))
    case NewWriter(w, n) => CallOk(c, b, max, MsgType.CreateWriter, WriterPayload(w), n) && NamesFit(w.endpoint)
    case NewSub(s, n) => CallOk(c, b, max, MsgType.Subscribe, SubscribePayload(s), n) && NamesFit(s.endpoint)
    case CloseOne(token, n) => CallOk(c, b, max, MsgType.DeleteWriter, ClosePayload(c, token), n)
    case Unsub(s, n) => CallOk(c, b, max, MsgType.Unsubscribe, UnsubPayload(s), n)
    case Send(t, p, n) =>
      CallOk(c, b, max, t, p, n) && t in {MsgType.Write, MsgType.Dispose, MsgType.WriteDispose, MsgType.Ping}
    case Lost => true
    case Retry(tries, limit) => ReconnectOk(c, b, tries, limit)
    case CloseAll => true
  }

  lemma CreateKeepsInv(c: State, b: B.State, max: nat, w: Writer, n: Net)
    requires Inv(c, b) && ActOk(c, b, max, NewWriter(w, n))
    ensures var (c', b') := Client.CreateWriter(c, b, max, w, n); Inv(c', b')
  {
    hide P.Inv, NetOk, Request, NamesFit, U32At, WriterPayload, OwnedBy, KeepsReaders, Holds, KeepsWriters;
    if c.conn.Some? {
      var sid := c.conn.value;
      CreateRequest(b, sid, max, w, n);
      var (b', r) := Request(b, sid, max, MsgType.CreateWriter, WriterPayload(w), n);
      if sid in b'.senders {
        OwnedStay(b, b', sid, {}, c.writers);
        if r.Some? && |r.value| >= 4 {
          OwnedAppend(b, b', sid, c.writers, w.(writerId := U32At(r.value), closed := false));
        }
      }
    }
  }

  lemma OwnedAppend(b: B.State, b': B.State, sid: SessionId, ws: seq<Writer>, w: Writer)
    requires WritersOwned(b, sid, ws) && WritersOwned(b', sid, ws)
    requires OwnedBy(b', sid, w.writerId, w.endpoint) && !Holds(b, sid, w.writerId)
    ensures WritersOwned(b', sid, ws + [w])
  {
  }

  lemma SubscribeKeepsInv(c: State, b: B.State, max: nat, s: Sub, n: Net)
    requires Inv(c, b) && ActOk(c, b, max, NewSub(s, n))
    ensures var (c', b') := Client.Subscribe(c, b, max, s, n); Inv(c', b')
  {
    hide P.Inv, NetOk, Request, NamesFit, SubscribePayload, OwnedBy, KeepsReaders, KeepsWriters, LiveFor;
    if c.conn.Some? {
      SubscribeRequest(b, c.conn.value, max, s, n);
      var (c', b') := Client.Subscribe(c, b, max, s, n);
      if c.conn.value in b'.senders { OwnedStay(b, b', c.conn.value, {}, c.writers); }
    }
  }

  /** The bridge deletes the id the client sent. */
  lemma DeleteRead(id: u32)
    ensures ParseDeleteWriter(Received(Go.Encode(Go.GoDeleteWriterP(id)))) == Success(id)
  {
    ReadLe32(id, []);
    assert Received(Go.Encode(Go.GoDeleteWriterP(id))) == Le(id, 4) + [];
  }

  lemma CloseKeepsInv(c: State, b: B.State, max: nat, token: nat, n: Net)
    requires Inv(c, b) && ActOk(c, b, max, CloseOne(token, n))
    ensures var (c', b') := CloseWriter(c, b, max, token, n); Inv(c', b')
  {
    hide P.Inv, NetOk, Request, NamesFit, OwnedBy, KeepsReaders, KeepsWriters, ParseDeleteWriter, Received, Go.Encode;
    var i := IndexOf(c.writers, token);
    if i < |c.writers| && !c.writers[i].closed {
      var ws := c.writers[..i] + c.writers[i + 1..];
      if c.conn.Some? {
        var id := c.writers[i].writerId;
        DeleteRead(id);
        RequestKeeps(b, c.conn.value, max, MsgType.DeleteWriter, Go.Encode(Go.GoDeleteWriterP(id)), n);
        var b' := CloseWriter(c, b, max, token, n).1;
        if c.conn.value in b'.senders { OwnedStay(b, b', c.conn.value, {id}, ws); }
      }
    }
  }

  lemma SendKeepsInv(c: State, b: B.State, max: nat, t: MsgType, payload: bytes, n: Net)
    requires Inv(c, b) && CallOk(c, b, max, t, payload, n) && !t.DeleteWriter?
    ensures var (c', b') := Client.Send(c, b, max, t, payload, n); Inv(c', b')
  {
    hide P.Inv, NetOk, Request, NamesFit, OwnedBy, KeepsReaders, KeepsWriters, ParseDeleteWriter, Received;
    if c.conn.Some? {
      RequestKeeps(b, c.conn.value, max, t, payload, n);
      var b' := Client.Send(c, b, max, t, payload, n).1;
      if c.conn.value in b'.senders { OwnedStay(b, b', c.conn.value, {}, c.writers); }
    }
  }

  lemma UnsubKeepsInv(c: State, b: B.State, max: nat, s: Sub, n: Net)
    requires Inv(c, b) && CallOk(c, b, max, MsgType.Unsubscribe, UnsubPayload(s), n)
    ensures var (c', b') := Client.Unsubscribe(c, b, max, s, n); Inv(c', b')
  {
    hide P.Inv, CallOk, Request, NamesFit, WritersOwned, Go.Encode;
    WithoutFits(c.subs, s.token);
    SendKeepsInv(c, b, max, MsgType.Unsubscribe, UnsubPayload(s), n);
  }

  lemma {:induction false} WithoutFits(ss: seq<Sub>, token: nat)
    requires SubsFit(ss)
    ensures SubsFit(WithoutSub(ss, token))
  {
    hide NamesFit;
    if ss != [] && ss[0].token != token { WithoutFits(ss[1..], token); }
  }

  /** Every step, of this client or of anyone else, keeps the invariant. */
  lemma ActKeepsInv(c: State, b: B.State, max: nat, a: Act)
    requires Inv(c, b) && ActOk(c, b, max, a)
    ensures var (c', b') := Do(c, b, max, a); Inv(c', b')
  {
    hide Inv, Client.CreateWriter, Client.Subscribe, CloseWriter, Client.Unsubscribe, Client.Send, Reconnect, B.Step,
         ReconnectOk, CallOk, NamesFit;
    match a
    case Elsewhere(e) => ElsewhereKeepsInv(c, b, e);
    case NewWriter(w, n) => CreateKeepsInv(c, b, max, w, n);
    case NewSub(s, n) => SubscribeKeepsInv(c, b, max, s, n);
    case CloseOne(token, n) => CloseKeepsInv(c, b, max, token, n);
    case Unsub(s, n) => UnsubKeepsInv(c, b, max, s, n);
    case Send(t, payload, n) => SendKeepsInv(c, b, max, t, payload, n);
    case Lost => LostKeepsInv(c, b);
    case Retry(tries, limit) => RetryKeepsInv(c, b, tries, limit);
    case CloseAll => LostKeepsInv(c, b);
  }

  lemma ElsewhereKeepsInv(c: State, b: B.State, e: B.Event)
    requires Inv(c, b) && B.FreshAt(b, e) && (c.conn.Some? ==> Foreign(e, c.conn.value))
    ensures Inv(c, B.Step(b, e))
  {
    hide P.Inv, B.Step, NamesFit, OwnedBy, KeepsReaders, KeepsWriters, Foreign, B.FreshAt;
    P.StepInv(b, e);
    if c.conn.Some? {
      ForeignStep(b, e, c.conn.value);
      var b' := B.Step(b, e);
      if c.conn.value in b'.senders { OwnedStay(b, b', c.conn.value, {}, c.writers); }
    }
  }

  lemma LostKeepsInv(c: State, b: B.State)
    requires Inv(c, b)
    ensures Inv(c.(conn := None), b) && Inv(State(None, [], []), b)
  {
    hide P.Inv, NamesFit;
  }

  lemma RetryKeepsInv(c: State, b: B.State, tries: seq<Attempt>, limit: int)
    requires Inv(c, b) && ReconnectOk(c, b, tries, limit)
    ensures var (c', b') := Reconnect(c, b, tries, limit); Inv(c', b')
  {
    hide P.Inv, NamesFit, WritersOwned, AllLive, TryReconnect, SameButIds, ReconnectOk;
    if c.conn.None? { ReconnectRestoresAll(c, b, tries, limit); }
  }

  // ---- Whole runs ----

  /** A client that has just dialled a bridge which may already serve others. */
  predicate Started(c: State) { c.writers == [] && c.subs == [] }

  function Runs(c: State, b: B.State, max: nat, acts: seq<Act>): (State, B.State)
    decreases |acts|
  {
    if acts == [] then (c, b)
    else
      var n := |acts| - 1;
      var (c', b') := Runs(c, b, max, acts[..n]);
      Do(c', b', max, acts[n])
  }

  ghost predicate RunsOk(c: State, b: B.State, max: nat, acts: seq<Act>)
    decreases |acts|
  {
    acts == [] ||
    (var n := |acts| - 1;
     RunsOk(c, b, max, acts[..n])
     && var (c', b') := Runs(c, b, max, acts[..n]);
        ActOk(c', b', max, acts[n]))
  }

  /** In every state of every run: while the client's connection is set and its session registered, each open writer
      holds its own id, owned by that session for the writer's topic and type. */
  lemma {:induction false} WritersSurvive(c: State, es: seq<B.Event>, max: nat, acts: seq<Act>)
    requires Started(c) && B.FreshRun(es) && RunsOk(c, B.Run(es), max, acts)
    ensures var (c', b') := Runs(c, B.Run(es), max, acts);
            && Inv(c', b')
            && (c'.conn.Some? && c'.conn.value in b'.senders ==> WritersOwned(b', c'.conn.value, c'.writers))
    decreases |acts|
  {
    hide P.Inv, Do, ActOk, B.FreshAt, B.Step, OwnedBy, NamesFit;
    if acts == [] {
      P.ReachableInv(es);
    } else {
      var n := |acts| - 1;
      WritersSurvive(c, es, max, acts[..n]);
      var (c', b') := Runs(c, B.Run(es), max, acts[..n]);
      ActKeepsInv(c', b', max, acts[n]);
    }
  }

  /** After any run, a reconnect that ends connected leaves every snapshotted subscription on a live reader of its own
      key that lists the new session, and every writer on it. */
  lemma SubscriptionsSurvive(c: State, es: seq<B.Event>, max: nat, acts: seq<Act>, tries: seq<Attempt>, limit: int)
    requires Started(c) && B.FreshRun(es) && RunsOk(c, B.Run(es), max, acts)
    requires var (c1, b1) := Runs(c, B.Run(es), max, acts); c1.conn.None? && ReconnectOk(c1, b1, tries, limit)
    ensures var (c1, b1) := Runs(c, B.Run(es), max, acts);
            var (c', b') := Reconnect(c1, b1, tries, limit);
            && c'.subs == c1.subs && SameButIds(c1.writers, c'.writers)
            && (c'.conn.Some? && c'.conn.value in b'.senders ==>
                  WritersOwned(b', c'.conn.value, c'.writers) && AllLive(b', c'.conn.value, c'.subs))
  {
    hide P.Inv, Runs, RunsOk, Reconnect, ReconnectOk, NamesFit, WritersOwned, AllLive, SameButIds;
    WritersSurvive(c, es, max, acts);
    var (c1, b1) := Runs(c, B.Run(es), max, acts);
    ReconnectRestoresAll(c1, b1, tries, limit);
  }
}

/** The way of a message: from DDS or a dispose, through the session's queues and the wire, to a client subscription
    (src/bridge.rs, ddswsclient/conn.go, ddswsclient/client.go). */
module DataPath {
  import opened Bytes
  import opened Wire
  import opened Protocol
  import opened Entities
  import opened Subsequences
  import opened Conn
  import opened Correlation
  import opened ClientCalls
  import B = Bridge
  import P = BridgeProofs
  import T = BridgeTheorems
  import CT = ClientTheorems
  import R = Readers
  import W = Writers
  import D = Delivery
  import Go = GoCodec

  // ---- What an event puts in a session's way ----

  /** The notices that a frame of session `from` owes session `s`. */
  function NoticesOf(st: B.State, from: SessionId, data: bytes, max: nat, d: B.Dds, s: SessionId): seq<bytes> {
    if !B.Dispatched(data, max) then []
    else
      var t := ParseHeader(data).value.msgType;
      if t.Dispose? || t.WriteDispose? then OpNotices(st, from, B.FramePayload(data), d, s) else []
  }

  function OpNotices(st: B.State, from: SessionId, payload: bytes, d: B.Dds, s: SessionId): seq<bytes> {
    match ParseWriteMode(payload)
    case Failure(_) => []
    case Success(m) =>
      if !B.DoWriteOp(st, from, m, d).Wrote? then []
      else match m
        case TopicName(t, y, _, _, data) => NoticesFor(st, t, y, data, s)
        case WriterId(id, _, data) =>
          if id !in st.writers.writers then []
          else
            var topic := st.writers.writers[id].writer.topic;
            NoticesFor(st, topic.topicName, topic.typeName, data, s)
  }

  /** One notice for each reader of the topic and type that lists the session. */
  function NoticesFor(st: B.State, t: bytes, y: bytes, data: bytes, s: SessionId): seq<bytes> {
    B.Copies(B.Notice(t, data), |B.Listing(st.readers, t, y, s)|)
  }

  /** What an event offers to a session's outbound queue: a sample pushed to it, or notices of another session's
      dispose. */
  function Offer(st: B.State, e: B.Event, s: SessionId): seq<bytes> {
    match e
    case Push(sid, t, sample) => if sid == s then [B.SampleMessage(t, sample)] else []
    case Frame(sid, data, max, d) => if sid == s then [] else NoticesOf(st, sid, data, max, d, s)
    case _ => []
  }

  lemma WriteOpNotices(st: B.State, from: SessionId, req: u32, payload: bytes, d: B.Dds, kind: B.WriteKind,
                       s: SessionId)
    requires !kind.PlainWrite? && (s in st.senders ==> |st.senders[s].queue| <= st.senders[s].capacity)
    ensures var out := B.HandleWriteOp(st, from, req, payload, d, kind);
            && (s in st.senders ==>
                  && s in out.st.senders
                  && out.st.senders[s] == if s == from then st.senders[s]
                                          else T.Enqueued(st.senders[s], OpNotices(st, from, payload, d, s)))
            && (out.reply.Messages? ==>
                  |out.reply.ms| >= 1 && out.reply.ms[1..] == OpNotices(st, from, payload, d, from))
  {
    hide ParseWriteMode, B.DoWriteOp, B.OkReply, B.ErrorReply, B.Notice, B.Listing, B.Copies, T.Enqueued, B.TrySendN;
    if s in st.senders { T.EnqueueNone(st.senders[s]); }
    if ParseWriteMode(payload).Success? {
      var m := ParseWriteMode(payload).value;
      P.OnlyWriters(st, from, m, d);
      if B.DoWriteOp(st, from, m, d).Wrote? {
        var t, y := AboutNames(st, from, m, d);
        T.DisposeFanOut(st, from, req, payload, d, kind, s, t, y);
      }
    }
  }

  lemma AboutNames(st: B.State, from: SessionId, m: WriteMode, d: B.Dds) returns (t: bytes, y: bytes)
    requires B.DoWriteOp(st, from, m, d).Wrote?
    ensures T.About(st, m, t, y)
  {
    hide B.EnsureWriter;
    match m
    case TopicName(topicName, typeName, _, _, _) => return topicName, typeName;
    case WriterId(id, _, _) =>
      var topic := st.writers.writers[id].writer.topic;
      return topic.topicName, topic.typeName;
  }

  lemma PlainWrite(st: B.State, from: SessionId, req: u32, payload: bytes, d: B.Dds)
    ensures var out := B.HandleWriteOp(st, from, req, payload, d, B.PlainWrite);
            out.st.senders == st.senders && (out.reply.Messages? ==> |out.reply.ms| == 1)
  {
    hide ParseWriteMode, B.DoWriteOp, B.OkReply, B.ErrorReply;
    if ParseWriteMode(payload).Success? { P.OnlyWriters(st, from, ParseWriteMode(payload).value, d); }
  }

  /** A frame's reply carries after the answer exactly the requester's notices; every other queue gets its own. */
  lemma FrameNotices(st: B.State, from: SessionId, data: bytes, max: nat, d: B.Dds, s: SessionId)
    requires s in st.senders ==> |st.senders[s].queue| <= st.senders[s].capacity
    ensures var out := B.ProcessFrame(st, from, data, max, d);
            && (s in st.senders ==>
                  && s in out.st.senders
                  && out.st.senders[s] == if s == from then st.senders[s]
                                          else T.Enqueued(st.senders[s], NoticesOf(st, from, data, max, d, s)))
            && (out.reply.Messages? ==>
                  |out.reply.ms| >= 1 && out.reply.ms[1..] == NoticesOf(st, from, data, max, d, from))
  {
    hide ParseHeader, ValidateClientHeader, B.FramePayload, ParseEndpoint, ParseUnsubscribe, ParseDeleteWriter,
         B.GetOrCreateTopic, B.OkReply, B.ErrorReply, BuildMessage, R.Subscribe, R.Unsubscribe, R.SubscribeResult,
         R.Unsubscribed, T.Enqueued, Le, OpNotices, B.HandleWriteOp, W.Register, W.Get, W.Delete, B.NextId;
    if s in st.senders { T.EnqueueNone(st.senders[s]); }
    if B.Dispatched(data, max) {
      var id, p := B.FrameId(data), B.FramePayload(data);
      var kind := B.WriteKindOf(ParseHeader(data).value.msgType);
      if !kind.PlainWrite? { WriteOpNotices(st, from, id, p, d, kind, s); }
      PlainWrite(st, from, id, p, d);
    }
  }

  /** Between its registration and its end, an event appends to a session's queue what it offers, as far as there is
      room; only its own writer task takes from it. */
  lemma StepOffers(st: B.State, e: B.Event, s: SessionId)
    requires P.SendersInv(st.senders) && s in st.senders
    requires !(e.Connect? && e.sid == s) && !(e.Drain? && e.sid == s) && !(e.Disconnect? && e.sid == s)
    ensures var st' := B.Step(st, e);
            && s in st'.senders && |st.senders[s].queue| <= st.senders[s].capacity
            && st'.senders[s].queue == T.Enqueued(st.senders[s], Offer(st, e, s)).queue
  {
    hide P.MsgId, B.ProcessFrame, NoticesOf, B.SampleMessage, R.RemoveSession;
    assert P.SenderOk(st.senders[s]);
    T.EnqueueNone(st.senders[s]);
    match e
    case Frame(sid, data, max, d) => FrameNotices(st, sid, data, max, d, s);
    case Push(sid, t, sample) => if sid == s { EnqueueSingle(st.senders[s], B.SampleMessage(t, sample)); }
    case _ =>
  }

  lemma EnqueueSingle(q: B.Sender, m: bytes)
    requires |q.queue| <= q.capacity
    ensures T.Enqueued(q, [m]) == B.TrySend(q, m)
  {
    T.EnqueueOne(q, m, []);
    T.EnqueueNone(B.TrySend(q, m));
    assert [m] + [] == [m];
  }

  lemma EnqueuedIsPrefix(q: B.Sender, ms: seq<bytes>)
    requires |q.queue| <= q.capacity
    ensures exists taken :: taken <= ms && T.Enqueued(q, ms).queue == q.queue + taken
  {
    var room := q.capacity - |q.queue|;
    var taken := if !q.open then [] else if |ms| <= room then ms else ms[..room];
    assert taken <= ms && q.queue + [] == q.queue;
    assert T.Enqueued(q, ms).queue == q.queue + taken;
  }

  // ---- Along a run of client, wire and bridge ----

  function OfferAt(s: Sys, m: Move): seq<bytes> { if m.Elsewhere? then Offer(s.bridge, m.e, s.sid) else [] }

  /** Everything offered to the session's queue in the first `n` moves. */
  function Offers(ss: seq<Sys>, ms: seq<Move>, n: nat): seq<bytes>
    requires n <= |ms| < |ss|
    decreases n
  {
    if n == 0 then []
    else
      var s, m := ss[n - 1], ms[n - 1];
      Offers(ss, ms, n - 1) + OfferAt(s, m)
  }

  /** The notices of the client's own disposes, which travel behind the answers. */
  function OwnNotices(ss: seq<Sys>, ms: seq<Move>, n: nat): seq<bytes>
    requires n <= |ms| < |ss|
    decreases n
  {
    if n == 0 then []
    else
      var s, m := ss[n - 1], ms[n - 1];
      OwnNotices(ss, ms, n - 1) + OwnAt(s, m)
  }

  function OwnAt(s: Sys, m: Move): seq<bytes> { if m.Serve? && s.toBridge != [] then Replied(s, m.dds) else [] }

  function Replied(s: Sys, d: B.Dds): seq<bytes>
    requires s.toBridge != []
  {
    var data := s.toBridge[0].msg;
    if B.ProcessFrame(s.bridge, s.sid, data, s.max, d).reply.Messages?
    then NoticesOf(s.bridge, s.sid, data, s.max, d, s.sid) else []
  }

  /** What the writer task has taken from the queue. */
  function Taken(ss: seq<Sys>, ms: seq<Move>, n: nat): seq<bytes>
    requires n <= |ms| < |ss|
    decreases n
  {
    if n == 0 then []
    else
      var s, m := ss[n - 1], ms[n - 1];
      Taken(ss, ms, n - 1) + TakenAt(s, m)
  }

  function TakenAt(s: Sys, m: Move): seq<bytes> { if m.SendNotice? && Queued(s) != [] then [Queued(s)[0]] else [] }

  function Queued(s: Sys): seq<bytes> { if s.sid in s.bridge.senders then s.bridge.senders[s.sid].queue else [] }

  /** The notifications in a queue of messages. */
  function Unmarked(q: seq<Tagged>): seq<bytes> {
    if q == [] then [] else (if q[0].call == 0 then [q[0].msg] else []) + Unmarked(q[1..])
  }

  lemma {:induction false} UnmarkedConcat(a: seq<Tagged>, b: seq<Tagged>)
    ensures Unmarked(a + b) == Unmarked(a) + Unmarked(b)
  {
    if a == [] {
      assert a + b == b;
    } else {
      UnmarkedConcat(a[1..], b);
      assert (a + b)[0] == a[0] && (a + b)[1..] == a[1..] + b;
      var head := if a[0].call == 0 then [a[0].msg] else [];
      assert Unmarked(a) == head + Unmarked(a[1..]) && Unmarked(a + b) == head + Unmarked(a[1..] + b);
      hide Unmarked;
      assert head + (Unmarked(a[1..]) + Unmarked(b)) == head + Unmarked(a[1..]) + Unmarked(b);
    }
  }

  lemma UnmarkedOne(x: Tagged)
    ensures Unmarked([x]) == if x.call == 0 then [x.msg] else []
  {
    assert [x][1..] == [];
  }

  lemma {:induction false} UnmarkedNotifications(ms: seq<bytes>)
    ensures Unmarked(Notifications(ms)) == ms
  {
    if ms != [] {
      UnmarkedNotifications(ms[1..]);
      UnmarkedConcat([Tagged(0, ms[0])], Notifications(ms[1..]));
      UnmarkedOne(Tagged(0, ms[0]));
    }
  }

  /** The notifications the client has received, in order. */
  function Got(ss: seq<Sys>, ms: seq<Move>, n: nat): seq<bytes>
    requires n <= |ms| < |ss|
    decreases n
  {
    if n == 0 then []
    else
      var s, m := ss[n - 1], ms[n - 1];
      Got(ss, ms, n - 1) + GotAt(s, m)
  }

  function GotAt(s: Sys, m: Move): seq<bytes> {
    if m.Receive? && s.toClient != [] && s.toClient[0].call == 0 then [s.toClient[0].msg] else []
  }

  /** The notifications the writer task has taken from the responses. */
  function SentNotices(ss: seq<Sys>, ms: seq<Move>, n: nat): seq<bytes>
    requires n <= |ms| < |ss|
    decreases n
  {
    if n == 0 then []
    else
      var s, m := ss[n - 1], ms[n - 1];
      SentNotices(ss, ms, n - 1) + SentAt(s, m)
  }

  function SentAt(s: Sys, m: Move): seq<bytes> {
    if m.SendResponse? && s.responses != [] && s.responses[0].call == 0 then [s.responses[0].msg] else []
  }

  // ---- Three invariants, one for each stretch of the way ----

  /** What left the queue and what is in it is, in order, part of what was offered to it. */
  ghost predicate QueueStretch(ss: seq<Sys>, ms: seq<Move>, n: nat)
    requires n <= |ms| < |ss|
  {
    Subsequence(Taken(ss, ms, n) + Queued(ss[n]), Offers(ss, ms, n))
  }

  /** The responses pass on every own notice, in order. */
  ghost predicate ReplyStretch(ss: seq<Sys>, ms: seq<Move>, n: nat)
    requires n <= |ms| < |ss|
  {
    OwnNotices(ss, ms, n) == SentNotices(ss, ms, n) + Unmarked(ss[n].responses)
  }

  /** What reached the client or is on the wire is the two merged. */
  ghost predicate WireStretch(ss: seq<Sys>, ms: seq<Move>, n: nat)
    requires n <= |ms| < |ss|
  {
    Shuffle(Got(ss, ms, n) + Unmarked(ss[n].toClient), Taken(ss, ms, n), SentNotices(ss, ms, n))
  }

  lemma {:induction false} QueueHolds(ss: seq<Sys>, ms: seq<Move>, n: nat)
    requires Run(ss, ms) && n <= |ms| && Queued(ss[0]) == []
    ensures QueueStretch(ss, ms, n)
    decreases n
  {
    hide Enabled, Next, Inv, Subsequence, Queued, TakenAt, OfferAt;
    if n == 0 {
      var none: seq<bytes> := [];
      SubsequenceNone(none);
      assert none + none == none;
    } else {
      QueueHolds(ss, ms, n - 1);
      RunInv(ss, ms, n - 1);
      QueueStep(ss[n - 1], ms[n - 1], Taken(ss, ms, n - 1), Offers(ss, ms, n - 1));
    }
  }

  lemma QueueStep(s: Sys, m: Move, taken: seq<bytes>, offers: seq<bytes>)
    requires Inv(s) && Enabled(s, m) && Subsequence(taken + Queued(s), offers)
    ensures Subsequence(taken + TakenAt(s, m) + Queued(Next(s, m)), offers + OfferAt(s, m))
  {
    hide P.SendersInv, WireInv, OnceInv, TableInv, SlotInv, ResultInv, CycleInv, Subsequence, B.ProcessFrame,
         Go.GoBuildMessage, Begin, Finish, Accept, Blocks, Notifications, Window, Offer, T.Enqueued, B.Step;
    assert offers + [] == offers && taken + [] == taken;
    match m
    case Elsewhere(e) => QueueElsewhere(s, e, taken, offers);
    case Serve(d) => ServeQueue(s, d);
    case SendNotice => DrainQueue(s, taken);
    case _ =>
  }

  lemma ServeQueue(s: Sys, d: B.Dds)
    requires P.SendersInv(s.bridge.senders) && Enabled(s, Serve(d))
    ensures Queued(Next(s, Serve(d))) == Queued(s)
  {
    hide P.MsgId, B.ProcessFrame, Notifications, NoticesOf, T.Enqueued;
    assert P.SenderOk(s.bridge.senders[s.sid]);
    FrameNotices(s.bridge, s.sid, s.toBridge[0].msg, s.max, d, s.sid);
  }

  lemma DrainQueue(s: Sys, taken: seq<bytes>)
    requires Enabled(s, SendNotice)
    ensures taken + [s.bridge.senders[s.sid].queue[0]] + Queued(Next(s, SendNotice)) == taken + Queued(s)
  {
    var q := s.bridge.senders[s.sid].queue;
    assert Queued(Next(s, SendNotice)) == q[1..];
    assert q == [q[0]] + q[1..];
  }

  lemma QueueElsewhere(s: Sys, e: B.Event, taken: seq<bytes>, offers: seq<bytes>)
    requires P.SendersInv(s.bridge.senders) && Enabled(s, Elsewhere(e)) && Subsequence(taken + Queued(s), offers)
    ensures Subsequence(taken + Queued(Next(s, Elsewhere(e))), offers + Offer(s.bridge, e, s.sid))
  {
    hide P.SendersInv, Subsequence, Offer, T.Enqueued, B.ProcessFrame;
    var offer := Offer(s.bridge, e, s.sid);
    if s.sid !in s.bridge.senders || (e.Disconnect? && e.sid == s.sid) {
      GoneQueue(s, e);
      QueuedPrefix(taken, Queued(s), offers);
      SubsequencePrefix(taken, offers, [], offer);
      assert taken + [] == taken;
    } else {
      hide B.Step;
      StepOffers(s.bridge, e, s.sid);
      var q := s.bridge.senders[s.sid];
      EnqueuedIsPrefix(q, offer);
      var fit :| fit <= offer && T.Enqueued(q, offer).queue == q.queue + fit;
      SubsequencePrefix(taken + Queued(s), offers, fit, offer);
      assert taken + Queued(s) + fit == taken + (q.queue + fit);
    }
  }

  /** A session without a sender does not get one back. */
  lemma GoneQueue(s: Sys, e: B.Event)
    requires Enabled(s, Elsewhere(e)) && (s.sid !in s.bridge.senders || (e.Disconnect? && e.sid == s.sid))
    ensures Queued(Next(s, Elsewhere(e))) == []
  {
    hide Window;
    if e.Frame? { CT.FrameReaders(s.bridge, e.sid, e.data, e.max, e.dds); }
    hide B.ProcessFrame;
  }

  lemma QueuedPrefix(a: seq<bytes>, b: seq<bytes>, c: seq<bytes>)
    requires Subsequence(a + b, c)
    ensures Subsequence(a, c)
  {
    var at: seq<nat> :| Picks(a + b, c, at);
    assert Picks(a, c, at[..|a|]);
  }

  lemma {:induction false} RepliesHold(ss: seq<Sys>, ms: seq<Move>, n: nat)
    requires Run(ss, ms) && n <= |ms|
    ensures ReplyStretch(ss, ms, n)
    decreases n
  {
    hide Enabled, Next, Inv, OwnAt, SentAt, Unmarked;
    if n == 0 {
      NoNotices(ss[0]);
    } else {
      RepliesHold(ss, ms, n - 1);
      RunInv(ss, ms, n - 1);
      var s, m := ss[n - 1], ms[n - 1];
      ReplyStep(s, m);
      var sent := SentNotices(ss, ms, n - 1);
      assert sent + Unmarked(s.responses) + OwnAt(s, m) == sent + (Unmarked(s.responses) + OwnAt(s, m));
      assert sent + (SentAt(s, m) + Unmarked(ss[n].responses)) == sent + SentAt(s, m) + Unmarked(ss[n].responses);
    }
  }

  lemma NoNotices(s: Sys)
    requires Correlation.Fresh(s)
    ensures [] == [] + Unmarked(s.responses)
  {
  }

  /** The responses gain the own notices of a handled frame, and lose what is sent. */
  lemma ReplyStep(s: Sys, m: Move)
    requires Inv(s) && Enabled(s, m)
    ensures Unmarked(s.responses) + OwnAt(s, m) == SentAt(s, m) + Unmarked(Next(s, m).responses)
  {
    hide P.SendersInv, WireInv, OnceInv, TableInv, SlotInv, ResultInv, CycleInv, B.ProcessFrame, Go.GoBuildMessage,
         Begin, Finish, Accept, Blocks, Notifications, Window, B.Step, Unmarked, Replied;
    assert Unmarked(s.responses) + [] == [] + Unmarked(s.responses);
    match m
    case Serve(d) => ServeReplies(s, d);
    case SendResponse =>
      var x := s.responses[0];
      assert s.responses == [x] + s.responses[1..];
      UnmarkedConcat([x], s.responses[1..]);
      UnmarkedOne(x);
    case _ =>
  }

  lemma ServeReplies(s: Sys, d: B.Dds)
    requires Inv(s) && Enabled(s, Serve(d))
    ensures Unmarked(Next(s, Serve(d)).responses) == Unmarked(s.responses) + Replied(s, d)
  {
    hide P.SendersInv, OnceInv, TableInv, SlotInv, ResultInv, CycleInv, B.ProcessFrame, NoticesOf, Notifications,
         Unmarked, T.Enqueued, WireInv;
    BoundedQueue(s);
    FrameUnanswered(s);
    var x := s.toBridge[0];
    var r := B.ProcessFrame(s.bridge, s.sid, x.msg, s.max, d).reply;
    FrameNotices(s.bridge, s.sid, x.msg, s.max, d, s.sid);
    if r.Messages? {
      var a, rest := [Tagged(x.call, r.ms[0])], Notifications(r.ms[1..]);
      UnmarkedConcat(s.responses, a + rest);
      UnmarkedConcat(a, rest);
      UnmarkedOne(a[0]);
      UnmarkedNotifications(r.ms[1..]);
    }
  }

  lemma BoundedQueue(s: Sys)
    requires Inv(s)
    ensures s.sid in s.bridge.senders ==>
              |s.bridge.senders[s.sid].queue| <= s.bridge.senders[s.sid].capacity
  {
    hide P.MsgId, WireInv, OnceInv, TableInv, SlotInv, ResultInv, CycleInv;
    if s.sid in s.bridge.senders { assert P.SenderOk(s.bridge.senders[s.sid]); }
  }

  lemma {:induction false} WireHolds(ss: seq<Sys>, ms: seq<Move>, n: nat)
    requires Run(ss, ms) && n <= |ms|
    ensures WireStretch(ss, ms, n)
    decreases n
  {
    hide Enabled, Next, Inv, Unmarked, Shuffle, GotAt, TakenAt, SentAt;
    if n == 0 {
      WireStart(ss[0]);
    } else {
      WireHolds(ss, ms, n - 1);
      RunInv(ss, ms, n - 1);
      var s, m := ss[n - 1], ms[n - 1];
      WireStep(s, m);
      var got, x, y := Got(ss, ms, n - 1), TakenAt(s, m), SentAt(s, m);
      ShuffleMore(got + Unmarked(s.toClient), Taken(ss, ms, n - 1), SentNotices(ss, ms, n - 1), x, y);
      assert got + Unmarked(s.toClient) + x + y == got + (Unmarked(s.toClient) + x + y);
      assert got + (GotAt(s, m) + Unmarked(ss[n].toClient)) == got + GotAt(s, m) + Unmarked(ss[n].toClient);
    }
  }

  lemma WireStart(s: Sys)
    requires Correlation.Fresh(s)
    ensures Shuffle([] + Unmarked(s.toClient), [], [])
  {
  }

  lemma ShuffleMore(c: seq<bytes>, a: seq<bytes>, b: seq<bytes>, x: seq<bytes>, y: seq<bytes>)
    requires Shuffle(c, a, b) && |x| + |y| <= 1
    ensures Shuffle(c + x + y, a + x, b + y)
  {
    hide Shuffle;
    assert c + [] == c && a + [] == a && b + [] == b;
    if |x| == 1 {
      ShuffleAppend(c, a, b, x[0]);
      assert c + x + y == c + [x[0]] && a + x == a + [x[0]];
    } else if |y| == 1 {
      ShuffleAppend(c, a, b, y[0]);
      assert c + x + y == c + [y[0]] && b + y == b + [y[0]];
    }
  }

  /** The wire gains at its end what the writer task takes, from one queue or the other, and loses what is received. */
  lemma WireStep(s: Sys, m: Move)
    requires Inv(s) && Enabled(s, m)
    ensures |TakenAt(s, m)| + |SentAt(s, m)| <= 1
    ensures GotAt(s, m) + Unmarked(Next(s, m).toClient) == Unmarked(s.toClient) + TakenAt(s, m) + SentAt(s, m)
  {
    hide P.SendersInv, WireInv, OnceInv, TableInv, SlotInv, ResultInv, CycleInv, B.ProcessFrame, Go.GoBuildMessage,
         Begin, Finish, Accept, Blocks, Notifications, Window, B.Step, Unmarked;
    var u := Unmarked(s.toClient);
    assert [] + u == u && u + [] + [] == u;
    match m
    case Receive => WireReceive(s);
    case SendNotice => WireSend(s.toClient, Tagged(0, s.bridge.senders[s.sid].queue[0]));
    case SendResponse => WireSend(s.toClient, s.responses[0]);
    case _ =>
  }

  lemma WireReceive(s: Sys)
    requires Inv(s) && s.toClient != []
    ensures GotAt(s, Receive) + Unmarked(Next(s, Receive).toClient) == Unmarked(s.toClient)
  {
    hide Inv, Blocks, Accept, Unmarked;
    OwnResponseOnly(s);
    var x := s.toClient[0];
    assert s.toClient == [x] + s.toClient[1..];
    UnmarkedConcat([x], s.toClient[1..]);
    UnmarkedOne(x);
  }

  lemma WireSend(q: seq<Tagged>, x: Tagged)
    ensures Unmarked(q + [x]) == Unmarked(q) + if x.call == 0 then [x.msg] else []
  {
    hide Unmarked;
    UnmarkedConcat(q, [x]);
    UnmarkedOne(x);
  }

  // ---- At the client ----

  /** The data message in a notification, if it is one. */
  function DataIn(b: bytes): seq<DataMessage> {
    match Dispatch(map[], b) case Deliver(d) => [d] case _ => []
  }

  function Decoded(bs: seq<bytes>): seq<DataMessage> {
    if bs == [] then [] else Decoded(bs[..|bs| - 1]) + DataIn(bs[|bs| - 1])
  }

  /** What the receive loop hands to `deliverData` in the first `n` moves. */
  function Deliveries(ss: seq<Sys>, ms: seq<Move>, n: nat): seq<DataMessage>
    requires n <= |ms| < |ss|
    decreases n
  {
    if n == 0 then []
    else
      var s, m := ss[n - 1], ms[n - 1];
      Deliveries(ss, ms, n - 1) + DeliveredAt(s, m)
  }

  function DeliveredAt(s: Sys, m: Move): seq<DataMessage> {
    if m.Receive? && s.toClient != [] then Delivered(s.conn.pending, s.toClient[0].msg) else []
  }

  function Delivered(pending: map<u32, nat>, b: bytes): seq<DataMessage> {
    match Dispatch(pending, b) case Deliver(d) => [d] case _ => []
  }

  lemma NotificationDelivered(pending: map<u32, nat>, b: bytes)
    requires P.MsgId(b) == 0
    ensures Delivered(pending, b) == DataIn(b)
  {
    hide Unsolicited, U32At;
  }

  /** An answer is never data. */
  lemma AnswerNotDelivered(pending: map<u32, nat>, b: bytes)
    requires P.MsgId(b) != 0 && T.IsAnswer(b)
    ensures Delivered(pending, b) == []
  {
    hide U32At, Go.Decode;
  }

  /** The data handed on are those in the notifications received, in order: answers carry none. */
  lemma {:induction false} DeliveriesAreDecoded(ss: seq<Sys>, ms: seq<Move>, n: nat)
    requires Run(ss, ms) && n <= |ms|
    ensures Deliveries(ss, ms, n) == Decoded(Got(ss, ms, n))
    decreases n
  {
    hide Enabled, Next, Inv, Delivered, DataIn, Traced;
    if n > 0 {
      assert Got(ss, ms, n - 1) + [] == Got(ss, ms, n - 1);
      DeliveriesAreDecoded(ss, ms, n - 1);
      RunInv(ss, ms, n - 1);
      var s, got := ss[n - 1], Got(ss, ms, n - 1);
      if ms[n - 1].Receive? && s.toClient != [] {
        ReceivedKind(ss, ms, n - 1);
        var b := s.toClient[0].msg;
        if s.toClient[0].call == 0 {
          NotificationDelivered(s.conn.pending, b);
          assert (got + [b])[..|got|] == got;
        } else {
          AnswerNotDelivered(s.conn.pending, b);
        }
      }
    }
  }

  lemma ReceivedKind(ss: seq<Sys>, ms: seq<Move>, n: nat)
    requires Run(ss, ms) && n < |ss| && Inv(ss[n]) && ss[n].toClient != []
    ensures var x := ss[n].toClient[0];
            if x.call == 0 then P.MsgId(x.msg) == 0 else P.MsgId(x.msg) != 0 && T.IsAnswer(x.msg)
  {
    hide Next, Enabled, P.SendersInv, OnceInv, TableInv, SlotInv, ResultInv, CycleInv, P.MsgId, T.IsAnswer,
         B.ProcessFrame, AnsweredAt;
    var s := ss[n];
    var x := s.toClient[0];
    assert x in s.toClient && GoodMessage(s.issued, s.answers, x);
    if x.call != 0 {
      RunTraced(ss, ms, n);
      assert AnswerOfCall(ss, ms, n, x.call, s.answers[x.call]);
      var c: nat, j: nat :| j < n && AnsweredAt(ss, ms, c, j, x.call, x.msg);
      AnswerKind(ss, ms, c, j, x.call, x.msg);
    }
  }

  lemma {:induction false} DecodedMembers(bs: seq<bytes>, d: DataMessage)
    requires d in Decoded(bs)
    ensures exists b :: b in bs && DataIn(b) == [d]
  {
    hide DataIn;
    var n := |bs| - 1;
    if d in Decoded(bs[..n]) {
      DecodedMembers(bs[..n], d);
      var b :| b in bs[..n] && DataIn(b) == [d];
      assert b in bs;
    } else {
      assert d in DataIn(bs[n]);
      DataInOne(bs[n]);
    }
  }

  lemma DataInOne(b: bytes)
    ensures |DataIn(b)| <= 1
  {
  }

  // ---- In a subscription ----

  /** All data messages of a delivery run, in order. */
  function DataOf(es: seq<D.Event>): seq<DataMessage> {
    if es == [] then []
    else DataOf(es[..|es| - 1]) + if es[|es| - 1].Data? then [es[|es| - 1].m] else []
  }

  lemma {:induction false} OfferedIsData(es: seq<D.Event>, j: nat)
    requires j < |D.Run(es)|
    ensures Subsequence(D.Offered(es, j), DataOf(es))
    ensures forall m :: m in D.Offered(es, j) ==> m.topicName == D.Run(es)[j].topic
  {
    hide D.Step, Subsequence;
    var prev, e := es[..|es| - 1], es[|es| - 1];
    if j < |D.Run(prev)| {
      OfferedIsData(prev, j);
      TopicStays(D.Run(prev), e, j);
      if e.Data? {
        SubsequenceAppend(D.Offered(prev, j), DataOf(prev), e.m);
      } else {
        assert DataOf(prev) + [] == DataOf(prev);
      }
    } else {
      SubsequenceNone(DataOf(es));
    }
  }

  lemma TopicStays(subs: seq<D.Sub>, e: D.Event, j: nat)
    requires j < |subs|
    ensures j < |D.Step(subs, e)| && D.Step(subs, e)[j].topic == subs[j].topic
  {
    hide D.Deliver;
    match e
    case Join(_) =>
    case Consumer(a) => D.ActQuiet(subs, a);
    case Data(m, sched) => D.DeliverTopics(subs, m, sched, j);
  }

  /** From end to end, on every run: what a subscription keeps is, in order, part of the data the client received,
      all of it for the subscription's topic. The client received the notifications of two ways merged: through the
      session's queue, in order, part of the samples pushed to the session and of the notices of others' disposes;
      and behind the answers, in order, the notices of its own disposes. */
  lemma EndToEnd(ss: seq<Sys>, ms: seq<Move>, n: nat, es: seq<D.Event>, j: nat)
    requires Run(ss, ms) && n <= |ms| && Queued(ss[0]) == []
    requires DataOf(es) == Deliveries(ss, ms, n) && j < |D.Run(es)|
    ensures var s, got := D.Run(es)[j], Got(ss, ms, n);
            && Subsequence(D.Kept(s), Decoded(got))
            && (forall m :: m in D.Kept(s) ==> m.topicName == s.topic)
            && exists a, b :: Subsequence(a, Offers(ss, ms, n)) && b <= OwnNotices(ss, ms, n) && Shuffle(got, a, b)
  {
    hide Next, Enabled, Shuffle, Subsequence, Decoded, Deliveries, Offers, OwnNotices, Taken, SentNotices, Unmarked,
         Queued, D.Run, D.Offered, DataOf, D.Kept;
    D.RunSound(es, j);
    OfferedIsData(es, j);
    DeliveriesAreDecoded(ss, ms, n);
    SubsequenceTransitive(D.Kept(D.Run(es)[j]), D.Offered(es, j), DataOf(es));
    SubsequenceMembers(D.Kept(D.Run(es)[j]), D.Offered(es, j));
    Arrived(ss, ms, n);
  }

  lemma Arrived(ss: seq<Sys>, ms: seq<Move>, n: nat)
    requires Run(ss, ms) && n <= |ms| && Queued(ss[0]) == []
    ensures exists a, b ::
              Subsequence(a, Offers(ss, ms, n)) && b <= OwnNotices(ss, ms, n) && Shuffle(Got(ss, ms, n), a, b)
  {
    hide Next, Enabled, Shuffle, Offers, OwnNotices, Taken, SentNotices, Unmarked, Queued, Got;
    QueueHolds(ss, ms, n);
    RepliesHold(ss, ms, n);
    WireHolds(ss, ms, n);
    var got, rest := Got(ss, ms, n), Unmarked(ss[n].toClient);
    ShufflePrefix(got + rest, Taken(ss, ms, n), SentNotices(ss, ms, n), |got|);
    assert (got + rest)[..|got|] == got;
    var a, b :| a <= Taken(ss, ms, n) && b <= SentNotices(ss, ms, n) && Shuffle(got, a, b);
    var t := Taken(ss, ms, n);
    assert t + Queued(ss[n]) == a + (t[|a|..] + Queued(ss[n]));
    QueuedPrefix(a, t[|a|..] + Queued(ss[n]), Offers(ss, ms, n));
  }

  /** So every message kept is the content of a sample pushed to the session or of a dispose notice for it. */
  lemma KeptCameFrom(ss: seq<Sys>, ms: seq<Move>, n: nat, es: seq<D.Event>, j: nat, m: DataMessage)
    requires Run(ss, ms) && n <= |ms| && Queued(ss[0]) == []
    requires DataOf(es) == Deliveries(ss, ms, n) && j < |D.Run(es)| && m in D.Kept(D.Run(es)[j])
    ensures m.topicName == D.Run(es)[j].topic
    ensures exists b :: (b in Offers(ss, ms, n) || b in OwnNotices(ss, ms, n)) && DataIn(b) == [m]
  {
    hide Next, Enabled, Shuffle, Subsequence, Decoded, Deliveries, Offers, OwnNotices, Queued, D.Run, DataOf, D.Kept,
         DataIn;
    EndToEnd(ss, ms, n, es, j);
    var got := Got(ss, ms, n);
    SubsequenceMembers(D.Kept(D.Run(es)[j]), Decoded(got));
    DecodedMembers(got, m);
    var b :| b in got && DataIn(b) == [m];
    var x, y :| Subsequence(x, Offers(ss, ms, n)) && y <= OwnNotices(ss, ms, n) && Shuffle(got, x, y);
    ShuffleMembers(got, x, y, b);
    SubsequenceMembers(x, Offers(ss, ms, n));
  }

  // ---- Content ----

  function StateOf(i: B.InstanceState): InstanceState {
    match i case Alive => StateAlive case Disposed => StateDisposed case NoWriters => StateNoWriters
  }

  /** A sample arrives as it was taken: topic, time stamp, bytes and instance state. */
  lemma SampleArrives(t: bytes, x: B.Sample)
    requires Encodable(t) && |t| + |x.data| + 12 < 0x1_0000_0000
    ensures DataIn(B.SampleMessage(t, x)) ==
              [DataMessage(t, if x.instance.NoWriters? then 0 else x.timestamp % 0x1_0000_0000_0000_0000, x.data,
                           StateOf(x.instance))]
  {
    hide BuildMessage, Serialize, Go.Decode, Go.DecodeHeader, Encodable;
    var ts := x.timestamp % 0x1_0000_0000_0000_0000;
    match x.instance
    case Alive => StampedArrives(MsgType.Data, t, ts, x.data);
    case Disposed => StampedArrives(MsgType.DataDisposed, t, ts, x.data);
    case NoWriters => NoWritersArrives(t, x.data);
  }

  /** A notice arrives as a disposed instance of the topic, with the bytes of the dispose. */
  lemma NoticeArrives(t: bytes, data: bytes)
    requires Encodable(t) && |t| + |data| + 12 < 0x1_0000_0000
    ensures DataIn(B.Notice(t, data)) == [DataMessage(t, 0, data, StateDisposed)]
  {
    hide BuildMessage, Serialize, Go.Decode, Go.DecodeHeader, Encodable;
    StampedArrives(MsgType.DataDisposed, t, 0, data);
  }

  lemma StampedArrives(k: MsgType, t: bytes, ts: u64, data: bytes)
    requires Encodable(t) && |t| + |data| + 12 < 0x1_0000_0000 && (k.Data? || k.DataDisposed?)
    ensures DataIn(BuildMessage(k, 0, Serialize(StampedP(t, ts, data)))) ==
              [DataMessage(t, ts, data, if k.Data? then StateAlive else StateDisposed)]
  {
    hide BuildMessage, Go.Decode, Go.DecodeHeader, ParsePayload, Encodable;
    var p := StampedP(t, ts, data);
    var b := Serialize(p);
    assert |b| == |t| + |data| + 12;
    PayloadRoundTrip(p);
    Go.DecodersAgree(StampedK, b);
    Go.HeadersAgree(k, 0, b);
    var m := BuildMessage(k, 0, b);
    assert m[12..12 + |b|] == m[12..][..|b|] == b;
  }

  lemma NoWritersArrives(t: bytes, data: bytes)
    requires Encodable(t) && |t| + |data| + 12 < 0x1_0000_0000
    ensures DataIn(BuildMessage(MsgType.DataNoWriters, 0, Serialize(NoWritersP(t, data)))) ==
              [DataMessage(t, 0, data, StateNoWriters)]
  {
    hide BuildMessage, Go.Decode, Go.DecodeHeader, ParsePayload, Encodable;
    var p := NoWritersP(t, data);
    var b := Serialize(p);
    assert |b| == |t| + |data| + 4;
    PayloadRoundTrip(p);
    Go.DecodersAgree(NoWritersK, b);
    Go.HeadersAgree(MsgType.DataNoWriters, 0, b);
    var m := BuildMessage(MsgType.DataNoWriters, 0, b);
    assert m[12..12 + |b|] == m[12..][..|b|] == b;
  }
}

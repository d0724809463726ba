/** One call of the client, seen twice: as a whole (`Client.Request`) and as its moves on the wire (`Correlation`). */
module ClientCalls {
  import opened Bytes
  import opened Protocol
  import opened Conn
  import opened Correlation
  import B = Bridge
  import C = Client
  import CT = ClientTheorems
  import P = BridgeProofs
  import T = BridgeTheorems
  import Go = GoCodec

  /** Move `c` of the run issues call `k`. */
  ghost predicate Issues(ss: seq<Sys>, ms: seq<Move>, c: nat, k: nat) {
    c < |ms| < |ss| && ms[c].Call? && ss[c].issued + 1 == k
  }

  /** The frame call `k` sends. */
  function CallBytes(m: Move, k: nat): bytes
    requires m.Call? && k >= 1
  {
    C.Frame(m.t, IdOf(k), m.payload)
  }

  /** What a move is for the bridge. */
  function BridgeEvent(s: Sys, m: Move): seq<B.Event> {
    match m
    case Serve(d) => if s.toBridge != [] then [B.Frame(s.sid, s.toBridge[0].msg, s.max, d)] else []
    case Elsewhere(e) => [e]
    case SendNotice => [B.Drain(s.sid)]
    case _ => []
  }

  /** The bridge's events between two points of the run. */
  function Between(ss: seq<Sys>, ms: seq<Move>, c: nat, j: nat): seq<B.Event>
    requires c <= j <= |ms| < |ss|
    decreases j
  {
    if c == j then [] else Between(ss, ms, c, j - 1) + BridgeEvent(ss[j - 1], ms[j - 1])
  }

  lemma StepIsEvent(s: Sys, m: Move)
    requires Enabled(s, m)
    ensures var es := BridgeEvent(s, m);
            && |es| <= 1 && Next(s, m).sid == s.sid && Next(s, m).max == s.max
            && Next(s, m).bridge == if es == [] then s.bridge else B.Step(s.bridge, es[0])
  {
    hide B.ProcessFrame, Go.GoBuildMessage, Begin, Finish, Accept, Blocks, Notifications, Window;
  }

  /** The bridge moves from one point to another by those events. */
  lemma {:induction false} BridgeBetween(ss: seq<Sys>, ms: seq<Move>, c: nat, j: nat)
    requires Run(ss, ms) && c <= j <= |ms|
    ensures ss[j].bridge == T.RunFrom(ss[c].bridge, Between(ss, ms, c, j))
    ensures ss[j].sid == ss[c].sid && ss[j].max == ss[c].max
    decreases j
  {
    hide Enabled, Next, BridgeEvent, B.Step, Fresh;
    if c < j {
      BridgeBetween(ss, ms, c, j - 1);
      var s, m := ss[j - 1], ms[j - 1];
      StepIsEvent(s, m);
      var es, last := Between(ss, ms, c, j - 1), BridgeEvent(s, m);
      if last == [] {
        assert es + last == es;
      } else {
        assert (es + last)[..|es + last| - 1] == es && (es + last)[|es + last| - 1] == last[0];
      }
    }
  }

  /** Unless another call of the client is handled in between, they are all events of others. */
  lemma {:induction false} BetweenForeign(ss: seq<Sys>, ms: seq<Move>, c: nat, j: nat)
    requires Run(ss, ms) && c <= j <= |ms| && forall i :: c <= i < j ==> !ms[i].Serve?
    ensures forall e :: e in Between(ss, ms, c, j) ==> CT.Foreign(e, ss[c].sid)
    decreases j
  {
    hide Fresh, Next, Enabled, BridgeEvent, CT.Foreign;
    if c < j {
      BetweenForeign(ss, ms, c, j - 1);
      BridgeBetween(ss, ms, c, j - 1);
      EventForeign(ss[j - 1], ms[j - 1]);
    }
  }

  lemma EventForeign(s: Sys, m: Move)
    requires Enabled(s, m) && !m.Serve?
    ensures forall e :: e in BridgeEvent(s, m) ==> CT.Foreign(e, s.sid)
  {
    hide Window;
  }

  // ---- Frames and answers remember their call ----

  ghost predicate FrameOfCall(ss: seq<Sys>, ms: seq<Move>, i: nat, x: Tagged) {
    exists c: nat :: c < i && Issues(ss, ms, c, x.call) && x.call >= 1 && x.msg == CallBytes(ms[c], x.call)
  }

  /** The answer to call `k` is what the bridge replied, at move `j`, to the frame that call `k` sent at move `c`. */
  ghost predicate AnsweredAt(ss: seq<Sys>, ms: seq<Move>, c: nat, j: nat, k: nat, answer: bytes) {
    && c < j < |ms| && k >= 1 && Issues(ss, ms, c, k) && ms[j].Serve?
    && ss[j].sid in ss[j].bridge.senders && ss[j].toBridge != [] && ss[j].toBridge[0] == Tagged(k, CallBytes(ms[c], k))
    && var r := B.ProcessFrame(ss[j].bridge, ss[j].sid, CallBytes(ms[c], k), ss[j].max, ms[j].dds).reply;
       r.Messages? && |r.ms| >= 1 && r.ms[0] == answer
  }

  ghost predicate AnswerOfCall(ss: seq<Sys>, ms: seq<Move>, i: nat, k: nat, answer: bytes) {
    exists c: nat, j: nat :: j < i && AnsweredAt(ss, ms, c, j, k, answer)
  }

  ghost predicate Traced(ss: seq<Sys>, ms: seq<Move>, i: nat)
    requires i < |ss|
  {
    && (forall x :: x in ss[i].toBridge ==> FrameOfCall(ss, ms, i, x))
    && (forall k :: k in ss[i].answers ==> AnswerOfCall(ss, ms, i, k, ss[i].answers[k]))
  }

  lemma {:induction false} RunTraced(ss: seq<Sys>, ms: seq<Move>, i: nat)
    requires Run(ss, ms) && i < |ss|
    ensures Traced(ss, ms, i)
  {
    hide Enabled, Next, FrameOfCall, AnswerOfCall;
    if i > 0 {
      RunTraced(ss, ms, i - 1);
      RunInv(ss, ms, i - 1);
      StepTraced(ss, ms, i - 1);
    }
  }

  lemma StepTraced(ss: seq<Sys>, ms: seq<Move>, i: nat)
    requires i < |ms| && |ss| == |ms| + 1 && Traced(ss, ms, i) && Inv(ss[i])
    requires Enabled(ss[i], ms[i]) && ss[i + 1] == Next(ss[i], ms[i])
    ensures Traced(ss, ms, i + 1)
  {
    hide Inv, FrameOfCall, AnswerOfCall, Next, Enabled;
    var s, s', m := ss[i], ss[i + 1], ms[i];
    match m {
      case Call(_, _, _) => CallTraced(ss, ms, i);
      case Serve(_) => ServeTraced(ss, ms, i);
      case _ => OtherMoves(s, m);
    }
    forall x | x in s'.toBridge ensures FrameOfCall(ss, ms, i + 1, x) {
      if x in s.toBridge { FrameLater(ss, ms, i, x); }
    }
    forall k | k in s'.answers ensures AnswerOfCall(ss, ms, i + 1, k, s'.answers[k]) {
      if k in s.answers && s'.answers[k] == s.answers[k] { AnswerLater(ss, ms, i, k, s.answers[k]); }
    }
  }

  lemma FrameLater(ss: seq<Sys>, ms: seq<Move>, i: nat, x: Tagged)
    requires FrameOfCall(ss, ms, i, x)
    ensures FrameOfCall(ss, ms, i + 1, x)
  {
    hide CallBytes;
  }

  lemma AnswerLater(ss: seq<Sys>, ms: seq<Move>, i: nat, k: nat, a: bytes)
    requires AnswerOfCall(ss, ms, i, k, a)
    ensures AnswerOfCall(ss, ms, i + 1, k, a)
  {
    hide AnsweredAt;
  }

  lemma OtherMoves(s: Sys, m: Move)
    requires Enabled(s, m) && !m.Call? && !m.Serve?
    ensures Next(s, m).toBridge == s.toBridge && Next(s, m).answers == s.answers
  {
    hide B.Step, Begin, Finish, Accept, Blocks, Window;
  }

  lemma CallTraced(ss: seq<Sys>, ms: seq<Move>, i: nat)
    requires i < |ms| && |ss| == |ms| + 1 && Inv(ss[i]) && ms[i].Call?
    requires Enabled(ss[i], ms[i]) && ss[i + 1] == Next(ss[i], ms[i])
    ensures ss[i + 1].answers == ss[i].answers
    ensures forall x :: x in ss[i + 1].toBridge ==> x in ss[i].toBridge || FrameOfCall(ss, ms, i + 1, x)
  {
    hide WireInv, OnceInv, SlotInv, ResultInv, CycleInv, Go.GoBuildMessage, Window;
    var k := ss[i].issued + 1;
    CounterSteps(ss[i].issued);
    assert Issues(ss, ms, i, k);
    var x := Tagged(k, CallBytes(ms[i], k));
    assert ss[i + 1].toBridge == ss[i].toBridge + [x];
    assert FrameOfCall(ss, ms, i + 1, x);
  }

  lemma ServeTraced(ss: seq<Sys>, ms: seq<Move>, i: nat)
    requires i < |ms| && |ss| == |ms| + 1 && ms[i].Serve? && Traced(ss, ms, i)
    requires Enabled(ss[i], ms[i]) && ss[i + 1] == Next(ss[i], ms[i])
    ensures forall x :: x in ss[i + 1].toBridge ==> x in ss[i].toBridge
    ensures forall k :: k in ss[i + 1].answers ==>
              || (k in ss[i].answers && ss[i + 1].answers[k] == ss[i].answers[k])
              || AnswerOfCall(ss, ms, i + 1, k, ss[i + 1].answers[k])
  {
    hide B.ProcessFrame, Notifications, CallBytes;
    var s := ss[i];
    var x := s.toBridge[0];
    assert x in s.toBridge;
    var c: nat :| c < i && Issues(ss, ms, c, x.call) && x.call >= 1 && x.msg == CallBytes(ms[c], x.call);
    if x.call in ss[i + 1].answers && (x.call !in s.answers || ss[i + 1].answers[x.call] != s.answers[x.call]) {
      assert AnsweredAt(ss, ms, c, i, x.call, ss[i + 1].answers[x.call]);
    }
  }

  // ---- The two views agree ----

  /** Call `k`, issued at move `c`, ended for its caller as the request as a whole says. */
  ghost predicate IsRequest(ss: seq<Sys>, ms: seq<Move>, c: nat, k: nat, n: C.Net, result: Option<bytes>)
    requires c < |ms| < |ss| && ms[c].Call?
  {
    && n.id == Counter(k)
    && C.Request(ss[c].bridge, ss[c].sid, ss[c].max, ms[c].t, ms[c].payload, n).1 == result
  }

  /** In every run, every caller that returned got what its request as a whole gives on the bridge as it was when
      the call was made, for some events in between: the bridge's events up to its own frame. They are events of
      others if no other call of the client was handled in between. */
  lemma ReturnedIsRequest(ss: seq<Sys>, ms: seq<Move>, i: nat, k: nat)
    requires Run(ss, ms) && i < |ss| && k in ss[i].results
    ensures exists c: nat, n: C.Net :: c < i && Issues(ss, ms, c, k) && n.delivered && n.answered
                           && IsRequest(ss, ms, c, k, n, C.ReadReply(ss[i].results[k]))
  {
    hide Run, Enabled, Next, Inv, B.ProcessFrame, C.Frame, C.ReadReply, T.RunFrom, Issues;
    CorrelationHolds(ss, ms, i);
    RunTraced(ss, ms, i);
    var a := ss[i].answers[k];
    assert AnswerOfCall(ss, ms, i, k, a);
    var c: nat, j: nat :| j < i && AnsweredAt(ss, ms, c, j, k, a);
    var n := ServedRequest(ss, ms, c, j, k, a, true);
  }

  /** A call whose frame was handled and whose caller gave up is a request whose answer did not come back. */
  lemma ServedRequest(ss: seq<Sys>, ms: seq<Move>, c: nat, j: nat, k: nat, a: bytes, back: bool) returns (n: C.Net)
    requires Run(ss, ms) && AnsweredAt(ss, ms, c, j, k, a)
    ensures n == C.Net(Between(ss, ms, c, j), Counter(k), true, back, ms[j].dds)
    ensures IsRequest(ss, ms, c, k, n, if back then C.ReadReply(a) else None)
    ensures (forall i :: c <= i < j ==> !ms[i].Serve?) ==> forall e :: e in n.env ==> CT.Foreign(e, ss[c].sid)
    ensures C.Request(ss[c].bridge, ss[c].sid, ss[c].max, ms[c].t, ms[c].payload, n).0 == ss[j + 1].bridge
  {
    hide Enabled, Inv, B.ProcessFrame, C.Frame, C.ReadReply, T.RunFrom, Fresh;
    BridgeBetween(ss, ms, c, j);
    if forall i :: c <= i < j ==> !ms[i].Serve? { BetweenForeign(ss, ms, c, j); }
    n := C.Net(Between(ss, ms, c, j), Counter(k), true, back, ms[j].dds);
  }

  // ---- A call that nothing stops does return ----

  /** On every run, the receive loop puts an answer whose caller still waits into that caller's channel, from where the
      caller returns it. */
  lemma AnswerReachesWaiter(ss: seq<Sys>, ms: seq<Move>, i: nat)
    requires Run(ss, ms) && i < |ms| && ms[i].Receive?
    ensures var x := ss[i].toClient[0];
            x.call in ss[i].conn.slots ==>
              && ss[i + 1].conn.slots[x.call] == Some(x.msg) && Enabled(ss[i + 1], Return(x.call))
              && Next(ss[i + 1], Return(x.call)).results[x.call] == x.msg
              && x.call in ss[i].answers && ss[i].answers[x.call] == x.msg
  {
    hide P.SendersInv, B.ProcessFrame, T.IsAnswer, AnsweredAt, WireInv, OnceInv, SlotInv, ResultInv, CycleInv, Finish,
         Blocks, Accept, P.MsgId;
    assert Enabled(ss[i], ms[i]) && ss[i + 1] == Next(ss[i], ms[i]);
    RunInv(ss, ms, i);
    var x := ss[i].toClient[0];
    if x.call in ss[i].conn.slots {
      OnWireAnswered(ss[i], x);
      RunTraced(ss, ms, i);
      assert AnswerOfCall(ss, ms, i, x.call, x.msg);
      var c: nat, j: nat :| j < i && AnsweredAt(ss, ms, c, j, x.call, x.msg);
      AnswerKind(ss, ms, c, j, x.call, x.msg);
      AnswerComplete(x.msg);
      ResponseFills(ss[i]);
    }
  }

  lemma AnswerComplete(m: bytes)
    requires T.IsAnswer(m)
    ensures T.Complete(m)
  {
    hide T.Complete;
  }

  lemma OnWireAnswered(s: Sys, x: Tagged)
    requires WireInv(s) && TableInv(s.conn, s.issued) && x in s.toClient && x.call in s.conn.slots
    ensures x.call in s.answers && s.answers[x.call] == x.msg
  {
    hide P.MsgId, IdOf, Counter;
    assert GoodMessage(s.issued, s.answers, x);
  }

  lemma AnswerKind(ss: seq<Sys>, ms: seq<Move>, c: nat, j: nat, k: nat, a: bytes)
    requires j < |ms| < |ss| && AnsweredAt(ss, ms, c, j, k, a)
    ensures T.IsAnswer(a)
  {
    hide B.ProcessFrame, CallBytes, T.IsAnswer;
    T.FrameAnsweredOnce(ss[j].bridge, ss[j].sid, CallBytes(ms[c], k), ss[j].max, ms[j].dds);
  }

  /** Nothing of this client is under way, and its session is up. */
  ghost predicate Idle(s: Sys) {
    && s.toBridge == s.responses == s.toClient == [] && s.conn.slots == map[] && s.alive && s.sid in s.bridge.senders
  }

  /** The moves of one undisturbed call. */
  function CallMoves(t: MsgType, payload: bytes, d: B.Dds, k: nat): seq<Move> {
    [Call(t, payload, true), Serve(d), SendResponse, Receive, Return(k)]
  }

  ghost predicate AllEnabled(s: Sys, ms: seq<Move>)
    decreases |ms|
  {
    ms == [] || (Enabled(s, ms[0]) && AllEnabled(Next(s, ms[0]), ms[1..]))
  }

  ghost function After(s: Sys, ms: seq<Move>): Sys
    requires AllEnabled(s, ms)
    decreases |ms|
  {
    if ms == [] then s else After(Next(s, ms[0]), ms[1..])
  }

  /** The moves can be made, and then call `k` has returned this answer. */
  ghost predicate Returns(s: Sys, ms: seq<Move>, k: nat, answer: bytes) {
    AllEnabled(s, ms) && k in After(s, ms).results && After(s, ms).results[k] == answer
  }

  /** From every idle state within the invariant a call can go all the way: unless the session task aborts on it, its
      moves are enabled one after another and its caller is given the bridge's answer. */
  lemma CallCompletes(s: Sys, t: MsgType, payload: bytes, d: B.Dds)
    requires Inv(s) && Idle(s)
    ensures var k := s.issued + 1;
            var r := B.ProcessFrame(s.bridge, s.sid, C.Frame(t, IdOf(k), payload), s.max, d).reply;
            r.Messages? ==> r.ms != [] && Returns(s, CallMoves(t, payload, d, k), k, r.ms[0])
  {
    hide Inv, B.ProcessFrame, C.Frame, Next, Enabled, AllEnabled, After;
    var k := s.issued + 1;
    var data := C.Frame(t, IdOf(k), payload);
    var r := B.ProcessFrame(s.bridge, s.sid, data, s.max, d).reply;
    if r.Messages? {
      T.FrameAnsweredOnce(s.bridge, s.sid, data, s.max, d);
      IdleCall(s, t, payload);
      var s1 := Next(s, Call(t, payload, true));
      NextInv(s, Call(t, payload, true));
      IdleServe(s1, k, data, d);
      var s2 := Next(s1, Serve(d));
      NextInv(s1, Serve(d));
      IdleSend(s2, k, r.ms[0]);
      var s3 := Next(s2, SendResponse);
      NextInv(s2, SendResponse);
      IdleReceive(s3, k, r.ms[0]);
      var s4 := Next(s3, Receive);
      IdleReturn(s4, k, r.ms[0]);
      FiveMoves(s, CallMoves(t, payload, d, k));
    }
  }

  lemma FiveMoves(s: Sys, ms: seq<Move>)
    requires |ms| == 5 && Enabled(s, ms[0])
    requires var s1 := Next(s, ms[0]); Enabled(s1, ms[1])
    requires var s2 := Next(Next(s, ms[0]), ms[1]); Enabled(s2, ms[2])
    requires var s3 := Next(Next(Next(s, ms[0]), ms[1]), ms[2]); Enabled(s3, ms[3])
    requires var s4 := Next(Next(Next(Next(s, ms[0]), ms[1]), ms[2]), ms[3]); Enabled(s4, ms[4])
    ensures AllEnabled(s, ms)
    ensures After(s, ms) == Next(Next(Next(Next(Next(s, ms[0]), ms[1]), ms[2]), ms[3]), ms[4])
  {
    hide Enabled, Next;
    var s1 := Next(s, ms[0]);
    var s2 := Next(s1, ms[1]);
    var s3 := Next(s2, ms[2]);
    var s4 := Next(s3, ms[3]);
    var s5 := Next(s4, ms[4]);
    assert ms[4..][1..] == [] && ms[3..][1..] == ms[4..] && ms[2..][1..] == ms[3..] && ms[1..][1..] == ms[2..];
    assert AllEnabled(s5, []) && After(s5, []) == s5;
    assert AllEnabled(s4, ms[4..]) && After(s4, ms[4..]) == s5;
    assert AllEnabled(s3, ms[3..]) && After(s3, ms[3..]) == s5;
    assert AllEnabled(s2, ms[2..]) && After(s2, ms[2..]) == s5;
    assert AllEnabled(s1, ms[1..]) && After(s1, ms[1..]) == s5;
  }

  lemma IdleCall(s: Sys, t: MsgType, payload: bytes)
    requires Inv(s) && Idle(s)
    ensures Enabled(s, Call(t, payload, true))
    ensures var k, s1 := s.issued + 1, Next(s, Call(t, payload, true));
            && s1.toBridge == [Tagged(k, C.Frame(t, IdOf(k), payload))] && s1.responses == s1.toClient == []
            && k in s1.conn.slots && s1.alive && s1.bridge == s.bridge && s1.sid == s.sid && s1.max == s.max
  {
    hide P.SendersInv, WireInv, OnceInv, SlotInv, ResultInv, CycleInv, Go.GoBuildMessage;
    CounterSteps(s.issued);
  }

  lemma IdleServe(s: Sys, k: nat, data: bytes, d: B.Dds)
    requires s.toBridge == [Tagged(k, data)] && s.responses == s.toClient == [] && k in s.conn.slots && s.alive
    requires s.sid in s.bridge.senders
    requires var r := B.ProcessFrame(s.bridge, s.sid, data, s.max, d).reply; r.Messages? && |r.ms| >= 1
    ensures Enabled(s, Serve(d))
    ensures var s' := Next(s, Serve(d));
            && s'.responses != [] && s'.toClient == [] && k in s'.conn.slots
            && s'.responses[0] == Tagged(k, B.ProcessFrame(s.bridge, s.sid, data, s.max, d).reply.ms[0])
  {
    hide B.ProcessFrame, Notifications;
  }

  lemma IdleSend(s: Sys, k: nat, a: bytes)
    requires s.responses != [] && s.responses[0] == Tagged(k, a) && s.toClient == [] && k in s.conn.slots
    ensures Enabled(s, SendResponse)
    ensures var s' := Next(s, SendResponse); s'.toClient == [Tagged(k, a)] && k in s'.conn.slots
  {
  }

  lemma IdleReceive(s: Sys, k: nat, a: bytes)
    requires Inv(s) && s.toClient == [Tagged(k, a)] && k in s.conn.slots && T.IsAnswer(a)
    ensures Enabled(s, Receive)
    ensures var s' := Next(s, Receive); k in s'.conn.slots && s'.conn.slots[k] == Some(a)
  {
    hide Inv, Next, T.IsAnswer;
    AnswerComplete(a);
    ResponseFills(s);
  }

  lemma IdleReturn(s: Sys, k: nat, a: bytes)
    requires k in s.conn.slots && s.conn.slots[k] == Some(a)
    ensures Enabled(s, Return(k))
    ensures var s' := Next(s, Return(k)); k in s'.results && s'.results[k] == a
  {
  }
}

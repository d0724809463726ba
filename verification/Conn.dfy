/** One client connection: request ids, waiters and the receive loop (ddswsclient/conn.go). */
module Conn {
  import opened Bytes
  import opened Protocol
  import Go = GoCodec

  const LAST_ID: u32 := 0xFFFF_FFFF

  /** The id after `n`: the 32-bit counter skips 0. */
  function NextReq(n: u32): u32 { if n == LAST_ID then 1 else n + 1 }

  /** The id of the k-th call on a connection. */
  function IdOf(k: nat): (id: u32)
    requires k >= 1
    ensures id != 0
  {
    (k - 1) % LAST_ID + 1
  }

  /** The counter after `k` calls. */
  function Counter(k: nat): u32 { if k == 0 then 0 else IdOf(k) }

  lemma CounterSteps(k: nat)
    ensures NextReq(Counter(k)) == IdOf(k + 1) == Counter(k + 1)
  {
  }

  /** No id repeats within 2^32 - 1 consecutive calls, and it does repeat after exactly that many. */
  lemma IdsRepeatOnlyAfterAll(j: nat, k: nat)
    requires 1 <= j <= k
    ensures k - j < LAST_ID ==> (IdOf(j) == IdOf(k) <==> j == k)
    ensures IdOf(j + LAST_ID) == IdOf(j)
  {
    var a, b := (j - 1) % LAST_ID, (k - 1) % LAST_ID;
    var p, q := (j - 1) / LAST_ID, (k - 1) / LAST_ID;
    assert j - 1 == LAST_ID * p + a && k - 1 == LAST_ID * q + b;
    assert (j - 1 + LAST_ID) % LAST_ID == a;
  }

  datatype InstanceState = StateAlive | StateDisposed | StateNoWriters
  datatype DataMessage = DataMessage(topicName: bytes, timestamp: u64, data: bytes, state: InstanceState)

  /** What the receive loop does with one frame. A waiter is named by the call it belongs to. */
  datatype Action = Skip | ToWaiter(call: nat) | Deliver(msg: DataMessage) | RaiseError(payload: bytes)

  function Unsolicited(t: u8, payload: bytes): (a: Action)
    ensures !a.ToWaiter?
  {
    if t == 0xC0 then
      (match Go.Decode(StampedK, payload)
       case Some(GoStampedP(n, ts, d)) => Deliver(DataMessage(n, ts, d, StateAlive)) case _ => Skip)
    else if t == 0xC1 then
      (match Go.Decode(StampedK, payload)
       case Some(GoStampedP(n, ts, d)) => Deliver(DataMessage(n, ts, d, StateDisposed)) case _ => Skip)
    else if t == 0xC2 then
      (match Go.Decode(NoWritersK, payload)
       case Some(GoNoWritersP(n, d)) => Deliver(DataMessage(n, 0, d, StateNoWriters)) case _ => Skip)
    else if t == 0xFE then RaiseError(payload)
    else Skip
  }

  /** Only a frame whose header names a pending id reaches a waiter, the one stored under that id. */
  function Dispatch(pending: map<u32, nat>, data: bytes): (a: Action)
    ensures a.ToWaiter? ==>
              |data| >= HEADER_SIZE && U32At(data[4..]) != 0 && U32At(data[4..]) in pending
              && a.call == pending[U32At(data[4..])]
  {
    match Go.DecodeHeader(data)
    case None => Skip
    case Some(h) =>
      if h.payloadLength > |data| - HEADER_SIZE then Skip
      else
        var payload := data[HEADER_SIZE..HEADER_SIZE + h.payloadLength];
        if h.requestId != 0 && h.requestId in pending then ToWaiter(pending[h.requestId])
        else if h.requestId != 0 && h.msgType == 0x80 then Skip
        else if h.requestId != 0 && h.msgType == 0xFE then RaiseError(payload)
        else Unsolicited(h.msgType, payload)
  }

  /** A complete frame whose non-zero id is pending goes to the waiter stored under it, whatever its type. */
  lemma PendingReached(pending: map<u32, nat>, data: bytes)
    requires |data| >= HEADER_SIZE && U32At(data[4..]) != 0 && U32At(data[4..]) in pending
    ensures Go.DecodeHeader(data).Some? && Go.DecodeHeader(data).value.payloadLength <= |data| - HEADER_SIZE ==>
              Dispatch(pending, data) == ToWaiter(pending[U32At(data[4..])])
  {
    hide U32At, Unsolicited;
  }

  /** What becomes of every message the bridge can build. Data is for `deliverData` under any id that is not pending. */
  lemma DispatchTable(pending: map<u32, nat>, t: MsgType, id: u32, p: bytes)
    requires |p| < 0x1_0000_0000
    ensures var a := Dispatch(pending, BuildMessage(t, id, p));
            if id != 0 && id in pending then a == ToWaiter(pending[id])
            else match t
              case ErrorMsg => a == RaiseError(p)
              case Data => a == Delivers(StampedK, p, StateAlive)
              case DataDisposed => a == Delivers(StampedK, p, StateDisposed)
              case DataNoWriters => a == Delivers(NoWritersK, p, StateNoWriters)
              case _ => a == Skip
  {
    hide BuildMessage, Go.DecodeHeader, Go.Decode;
    Go.HeadersAgree(t, id, p);
    var m := BuildMessage(t, id, p);
    assert m[12..12 + |p|] == m[12..][..|p|] == p;
  }

  /** A payload that decodes is delivered with the state its type stands for; one that does not is dropped. */
  function Delivers(k: Kind, p: bytes, state: InstanceState): Action {
    match Go.Decode(k, p)
    case Some(GoStampedP(n, ts, d)) => if k == StampedK then Deliver(DataMessage(n, ts, d, state)) else Skip
    case Some(GoNoWritersP(n, d)) => if k == NoWritersK then Deliver(DataMessage(n, 0, d, state)) else Skip
    case _ => Skip
  }

  /** `slots` holds the one-message response channel of every call still waiting. */
  datatype State = State(nextId: u32, pending: map<u32, nat>, slots: map<nat, Option<bytes>>)

  /** `sendAndWait` up to its send: take an id, make a channel, store it under the id. */
  function Begin(c: State, call: nat, wait: bool): State {
    var id := NextReq(c.nextId);
    if wait then State(id, c.pending[id := call], c.slots[call := None]) else c.(nextId := id)
  }

  /** Every way out of `sendAndWait` deletes the entry stored under the call's id. */
  function Finish(c: State, call: nat, id: u32): State {
    c.(pending := c.pending - {id}, slots := c.slots - {call})
  }

  /** The receive loop would wait for room in a channel that is already full. */
  predicate Blocks(c: State, data: bytes) {
    var a := Dispatch(c.pending, data);
    a.ToWaiter? && !(a.call in c.slots && c.slots[a.call].None?)
  }

  function Accept(c: State, data: bytes): State {
    var a := Dispatch(c.pending, data);
    if a.ToWaiter? && !Blocks(c, data) then c.(slots := c.slots[a.call := Some(data)]) else c
  }

  class Connection {
    var nextID: u32
    var pending: map<u32, nat>
    var slots: map<nat, Option<bytes>>

    function View(): State
      reads this
    {
      State(nextID, pending, slots)
    }

    constructor ()
      ensures View() == State(0, map[], map[])
    {
      nextID, pending, slots := 0, map[], map[];
    }

    /** `nextRequestID`: add 1 modulo 2^32 until the result is not 0. */
    method NextRequestID() returns (id: u32)
      modifies this`nextID
      ensures id == nextID == NextReq(old(nextID)) && id != 0
    {
      id := 0;
      while id == 0
        invariant nextID == (if id == 0 then nextID else id)
        invariant id == 0 ==> nextID == old(nextID) || (old(nextID) == LAST_ID && nextID == 0)
        invariant id != 0 ==> id == NextReq(old(nextID))
        decreases id == 0, nextID
      {
        nextID := (nextID + 1) % 0x1_0000_0000;
        id := nextID;
      }
    }

    method StartCall(call: nat) returns (id: u32)
      modifies this
      ensures View() == Begin(old(View()), call, true) && id == nextID
    {
      id := NextRequestID();
      pending := pending[id := call];
      slots := slots[call := None];
    }

    method EndCall(call: nat, id: u32)
      modifies this
      ensures View() == Finish(old(View()), call, id)
    {
      pending := pending - {id};
      slots := slots - {call};
    }

    /** One turn of `recvLoop` on a frame that does not block it. */
    method ReceiveOne(data: bytes) returns (a: Action)
      requires !Blocks(View(), data)
      modifies this
      ensures a == Dispatch(old(pending), data)
      ensures View() == Accept(old(View()), data)
    {
      a := Dispatch(pending, data);
      if a.ToWaiter? { slots := slots[a.call := Some(data)]; }
    }
  }
}

/** Client connection, wire and bridge together: which response reaches which caller. */
module Correlation {
  import opened Bytes
  import opened Protocol
  import opened Entities
  import opened Conn
  import B = Bridge
  import P = BridgeProofs
  import T = BridgeTheorems
  import Go = GoCodec

  /** A message on the wire, marked with the call it belongs to; 0 marks a notification. The mark is bookkeeping only:
      no step reads it to decide anything. */
  datatype Tagged = Tagged(call: nat, msg: bytes)

  datatype Sys = Sys(
    sid: SessionId,
    max: nat,
    conn: Conn.State,
    issued: nat,                     // calls made so far
    toBridge: seq<Tagged>,           // frames sent and not yet handled
    responses: seq<Tagged>,          // the session's response channel
    toClient: seq<Tagged>,           // messages on their way to the client
    bridge: B.State,
    alive: bool,                     // the session task has not aborted
    answers: map<nat, bytes>,        // the first message the bridge gave for each handled call
    results: map<nat, bytes>)        // what each finished caller was given

  datatype Move =
    | Call(t: MsgType, payload: bytes, wait: bool)   // a request, waited for or fire-and-forget
    | Serve(dds: B.Dds)                              // the bridge handles the oldest frame
    | Elsewhere(e: B.Event)                          // other sessions, polling, disconnects
    | SendResponse | SendNotice                      // the session's writer task picks either queue
    | Receive                                        // one turn of the receive loop
    | Return(call: nat)                              // a caller takes the response from its channel
    | GiveUp(call: nat)                              // a caller times out, or its send failed

  ghost predicate Outstanding(s: Sys, k: nat) { k in s.conn.slots || (k >= 1 && Flight(s, k) >= 1) }

  /** Fewer than 2^32 - 1 ids are issued while a call is outstanding. */
  ghost predicate Window(s: Sys) { forall k :: Outstanding(s, k) ==> s.issued - k < LAST_ID - 1 }

  ghost predicate Enabled(s: Sys, m: Move) {
    match m
    case Call(_, _, _) => Window(s)
    case Serve(_) => s.alive && s.toBridge != [] && s.sid in s.bridge.senders
    case Elsewhere(e) => e.sid != s.sid || e.Push? || e.Hangup? || e.Disconnect?
    case SendResponse => s.responses != []
    case SendNotice => s.sid in s.bridge.senders && s.bridge.senders[s.sid].queue != []
    case Receive => s.toClient != []
    case Return(k) => k in s.conn.slots && s.conn.slots[k].Some?
    case GiveUp(k) => k in s.conn.slots
  }

  function Notifications(ms: seq<bytes>): seq<Tagged> {
    if ms == [] then [] else [Tagged(0, ms[0])] + Notifications(ms[1..])
  }

  ghost function Next(s: Sys, m: Move): Sys
    requires Enabled(s, m)
  {
    match m
    case Call(t, payload, wait) =>
      var k := s.issued + 1;
      var c := Begin(s.conn, k, wait);
      s.(conn := c, issued := k, toBridge := s.toBridge + [Tagged(k, Go.GoBuildMessage(MsgByte(t), c.nextId, payload))])
    case Serve(d) =>
      var x := s.toBridge[0];
      var out := B.ProcessFrame(s.bridge, s.sid, x.msg, s.max, d);
      var s' := s.(toBridge := s.toBridge[1..], bridge := out.st);
      if out.reply.Messages? && |out.reply.ms| >= 1
      then s'.(answers := s.answers[x.call := out.reply.ms[0]],
               responses := s.responses + ([Tagged(x.call, out.reply.ms[0])] + Notifications(out.reply.ms[1..])))
      else s'.(alive := false)
    case Elsewhere(e) => s.(bridge := B.Step(s.bridge, e))
    case SendResponse => s.(responses := s.responses[1..], toClient := s.toClient + [s.responses[0]])
    case SendNotice =>
      s.(bridge := B.Step(s.bridge, B.Drain(s.sid)),
         toClient := s.toClient + [Tagged(0, s.bridge.senders[s.sid].queue[0])])
    case Receive =>
      if Blocks(s.conn, s.toClient[0].msg) then s
      else s.(conn := Accept(s.conn, s.toClient[0].msg), toClient := s.toClient[1..])
    case Return(k) =>
      s.(results := s.results[k := s.conn.slots[k].value], conn := Finish(s.conn, k, Counter(k)))
    case GiveUp(k) => s.(conn := Finish(s.conn, k, Counter(k)))
  }

  // ---- Marks in flight ----

  /** How many messages in a queue carry the mark `k`. */
  ghost function Count(q: seq<Tagged>, k: nat): (n: nat)
    ensures n == 0 <==> forall x :: x in q ==> x.call != k
  {
    if q == [] then 0 else (if q[0].call == k then 1 else 0) + Count(q[1..], k)
  }

  lemma {:induction false} CountConcat(a: seq<Tagged>, b: seq<Tagged>, k: nat)
    ensures Count(a + b, k) == Count(a, k) + Count(b, k)
  {
    if a == [] {
      assert a + b == b;
    } else {
      CountConcat(a[1..], b, k);
      assert (a + b)[1..] == a[1..] + b;
    }
  }

  lemma CountOne(x: Tagged, k: nat)
    ensures Count([x], k) == if x.call == k then 1 else 0
  {
    assert [x][1..] == [];
  }

  lemma CountHead(q: seq<Tagged>, k: nat)
    requires q != []
    ensures Count(q, k) == (if q[0].call == k then 1 else 0) + Count(q[1..], k)
  {
  }

  lemma {:induction false} NotificationMarks(ms: seq<bytes>)
    ensures forall x :: x in Notifications(ms) ==> x.call == 0 && x.msg in ms
  {
    if ms != [] {
      NotificationMarks(ms[1..]);
      assert Notifications(ms) == [Tagged(0, ms[0])] + Notifications(ms[1..]);
    }
  }

  ghost function Flight(s: Sys, k: nat): nat { Count(s.toClient, k) + Count(s.responses, k) + Count(s.toBridge, k) }

  // ---- The invariant ----

  ghost predicate GoodMessage(issued: nat, answers: map<nat, bytes>, x: Tagged) {
    if x.call == 0 then P.MsgId(x.msg) == 0
    else x.call <= issued && P.MsgId(x.msg) == IdOf(x.call) && x.call in answers && answers[x.call] == x.msg
  }

  ghost predicate GoodFrame(issued: nat, answers: map<nat, bytes>, x: Tagged) {
    1 <= x.call <= issued && B.FrameId(x.msg) == IdOf(x.call) && x.call !in answers
  }

  ghost predicate GoodMessages(issued: nat, answers: map<nat, bytes>, q: seq<Tagged>) {
    forall x :: x in q ==> GoodMessage(issued, answers, x)
  }

  ghost predicate GoodFrames(issued: nat, answers: map<nat, bytes>, q: seq<Tagged>) {
    forall x :: x in q ==> GoodFrame(issued, answers, x)
  }

  ghost predicate WireInv(s: Sys) {
    && GoodMessages(s.issued, s.answers, s.toClient)
    && GoodMessages(s.issued, s.answers, s.responses)
    && GoodFrames(s.issued, s.answers, s.toBridge)
  }

  ghost predicate OnceInv(s: Sys) { forall k :: k >= 1 ==> Flight(s, k) <= 1 }

  /** The pending table and the waiting calls are inverse to each other through the calls' ids. */
  ghost predicate TableInv(c: Conn.State, issued: nat) {
    && c.nextId == Counter(issued)
    && (forall id :: id in c.pending ==> c.pending[id] in c.slots && Counter(c.pending[id]) == id)
    && (forall k :: k in c.slots ==> 1 <= k <= issued && Counter(k) in c.pending && c.pending[Counter(k)] == k)
  }

  /** A full channel holds the bridge's answer to its own call, and nothing more is coming for that call. */
  ghost predicate SlotInv(s: Sys) {
    forall k :: k in s.conn.slots && s.conn.slots[k].Some? ==>
      k in s.answers && s.answers[k] == s.conn.slots[k].value && Flight(s, k) == 0
  }

  ghost predicate ResultInv(s: Sys) {
    && (forall k :: k in s.results ==> k in s.answers && s.results[k] == s.answers[k])
    && (forall k :: k in s.answers ==> 1 <= k <= s.issued)
  }

  /** Outstanding calls lie within one cycle of the counter. */
  ghost predicate CycleInv(s: Sys) { forall k :: Outstanding(s, k) ==> s.issued - k < LAST_ID }

  ghost predicate Inv(s: Sys) {
    && WireInv(s) && OnceInv(s) && TableInv(s.conn, s.issued) && SlotInv(s) && ResultInv(s) && CycleInv(s)
    && P.SendersInv(s.bridge.senders)
  }

  // ---- Receiving ----

  /** The heart of correlation: whatever is next on the wire, if it reaches a waiter it is that waiter's own response,
      and the waiter's channel is empty. */
  lemma OwnResponseOnly(s: Sys)
    requires Inv(s) && s.toClient != []
    ensures var x := s.toClient[0];
            var a := Dispatch(s.conn.pending, x.msg);
            && !Blocks(s.conn, x.msg)
            && (a.ToWaiter? ==> x.call >= 1 && a.call == x.call && a.call in s.conn.slots && s.conn.slots[a.call].None?)
            && (x.call == 0 ==> !a.ToWaiter?)
  {
    hide P.SendersInv, Dispatch, U32At, IdOf, Count;
    var x := s.toClient[0];
    assert x in s.toClient;
    assert GoodMessage(s.issued, s.answers, x);
    var a := Dispatch(s.conn.pending, x.msg);
    if a.ToWaiter? {
      var k := a.call;
      assert Counter(k) == P.MsgId(x.msg);
      assert Flight(s, x.call) >= 1;
      assert Outstanding(s, k) && Outstanding(s, x.call);
      if k <= x.call { IdsRepeatOnlyAfterAll(k, x.call); } else { IdsRepeatOnlyAfterAll(x.call, k); }
    }
  }

  /** A response that reaches the receive loop while its caller waits ends up in that caller's channel. */
  lemma ResponseFills(s: Sys)
    requires Inv(s) && s.toClient != []
    ensures var x := s.toClient[0];
            x.call in s.conn.slots && T.Complete(x.msg) ==>
              var s' := Next(s, Receive);
              s'.toClient == s.toClient[1..] && s'.conn.slots == s.conn.slots[x.call := Some(x.msg)]
  {
    hide P.SendersInv, Dispatch, Unsolicited, Go.DecodeHeader, Count, U32At;
    OwnResponseOnly(s);
    var x := s.toClient[0];
    assert x in s.toClient;
    assert GoodMessage(s.issued, s.answers, x);
    if x.call in s.conn.slots && T.Complete(x.msg) {
      LongEnough(x.msg);
      PendingReached(s.conn.pending, x.msg);
    }
  }

  lemma LongEnough(m: bytes)
    requires T.Complete(m)
    ensures |m| >= HEADER_SIZE
  {
  }

  lemma ReceiveInv(s: Sys)
    requires Inv(s) && Enabled(s, Receive)
    ensures Inv(Next(s, Receive))
  {
    hide P.SendersInv, Dispatch, WireInv, Count, Counter;
    OwnResponseOnly(s);
    var x := s.toClient[0];
    var s' := Next(s, Receive);
    forall k ensures Flight(s, k) == Flight(s', k) + (if x.call == k then 1 else 0) { CountHead(s.toClient, k); }
    WireShorter(s, s');
    assert x in s.toClient;
    ReceivedAnswer(s, x);
    assert forall k :: Outstanding(s', k) ==> Outstanding(s, k);
    ReceiveSlots(s, s', x);
  }

  lemma WireShorter(s: Sys, s': Sys)
    requires WireInv(s) && s.toClient != [] && s'.issued == s.issued && s'.answers == s.answers
    requires s'.toClient == s.toClient[1..] && s'.responses == s.responses && s'.toBridge == s.toBridge
    ensures WireInv(s')
  {
    hide GoodMessage, GoodFrame;
    assert forall y :: y in s'.toClient ==> y in s.toClient;
  }

  lemma ReceivedAnswer(s: Sys, x: Tagged)
    requires WireInv(s) && x in s.toClient
    ensures x.call >= 1 ==> x.call in s.answers && s.answers[x.call] == x.msg
  {
    hide P.MsgId, IdOf;
  }

  lemma ReceiveSlots(s: Sys, s': Sys, x: Tagged)
    requires SlotInv(s) && OnceInv(s) && s'.answers == s.answers
    requires x.call >= 1 ==> x.call in s.answers && s.answers[x.call] == x.msg
    requires s'.conn == s.conn || (x.call >= 1 && s'.conn == s.conn.(slots := s.conn.slots[x.call := Some(x.msg)]))
    requires forall k :: Flight(s, k) == Flight(s', k) + (if x.call == k then 1 else 0)
    ensures SlotInv(s')
  {
    hide Flight;
  }

  lemma FinishInv(s: Sys, k: nat, m: Move)
    requires Inv(s) && Enabled(s, m) && (m == Return(k) || m == GiveUp(k))
    ensures Inv(Next(s, m))
  {
    hide P.SendersInv, WireInv, Count, Counter, TableInv;
    var s' := Next(s, m);
    FinishTable(s.conn, s.issued, k);
    assert forall j :: Outstanding(s', j) ==> Outstanding(s, j);
    assert forall j :: Flight(s', j) == Flight(s, j);
    WireSame(s, s');
  }

  lemma WireSame(s: Sys, s': Sys)
    requires WireInv(s) && s'.issued == s.issued && s'.answers == s.answers
    requires s'.toClient == s.toClient && s'.responses == s.responses && s'.toBridge == s.toBridge
    ensures WireInv(s')
  {
    hide GoodMessage, GoodFrame;
  }

  lemma FinishTable(c: Conn.State, issued: nat, k: nat)
    requires TableInv(c, issued) && k in c.slots
    ensures TableInv(Finish(c, k, Counter(k)), issued)
  {
    hide Counter;
    assert forall j :: j in c.slots && j != k ==> Counter(j) != Counter(k);
  }

  // ---- Sending ----

  lemma CallFrame(t: MsgType, payload: bytes, id: u32)
    ensures B.FrameId(Go.GoBuildMessage(MsgByte(t), id, payload)) == id
  {
    hide BuildMessage, Go.GoBuildMessage, ParseHeader;
    Go.HeadersAgree(t, id, payload);
  }

  lemma CallInv(s: Sys, m: Move)
    requires Inv(s) && m.Call? && Enabled(s, m)
    ensures Inv(Next(s, m))
  {
    hide P.SendersInv, Go.GoBuildMessage, IdOf, Counter, Count, GoodMessage, GoodFrame, GoodMessages, GoodFrames,
         TableInv;
    var s', k := Next(s, m), s.issued + 1;
    CallTable(s, m);
    CallWire(s, m);
    CallFlight(s, m);
    forall j | Outstanding(s', j) ensures s'.issued - j < LAST_ID { assert j == k || Outstanding(s, j); }
    assert k !in s.answers;
  }

  lemma CallFlight(s: Sys, m: Move)
    requires Inv(s) && m.Call? && Enabled(s, m)
    ensures var s', k := Next(s, m), s.issued + 1;
            && Flight(s, k) == 0
            && forall j :: Flight(s', j) == Flight(s, j) + (if j == k then 1 else 0)
  {
    hide P.SendersInv, Go.GoBuildMessage, IdOf, Counter, Count, P.MsgId, B.FrameId;
    var s', k := Next(s, m), s.issued + 1;
    var f := Tagged(k, Go.GoBuildMessage(MsgByte(m.t), s'.conn.nextId, m.payload));
    forall j ensures Flight(s', j) == Flight(s, j) + (if j == k then 1 else 0) {
      CountConcat(s.toBridge, [f], j);
      CountOne(f, j);
    }
    assert forall x :: x in s.toClient ==> GoodMessage(s.issued, s.answers, x);
    assert forall x :: x in s.responses ==> GoodMessage(s.issued, s.answers, x);
    assert forall x :: x in s.toBridge ==> GoodFrame(s.issued, s.answers, x);
  }

  lemma CallWire(s: Sys, m: Move)
    requires Inv(s) && m.Call? && Enabled(s, m)
    ensures WireInv(Next(s, m))
  {
    hide P.SendersInv, Go.GoBuildMessage, Counter, P.MsgId, B.FrameId, IdOf, OnceInv, SlotInv, CycleInv, Window, Flight;
    var s', k := Next(s, m), s.issued + 1;
    CounterSteps(s.issued);
    CallFrame(m.t, m.payload, s'.conn.nextId);
    assert k !in s.answers;
    forall x | x in s'.toBridge ensures GoodFrame(s'.issued, s'.answers, x) {
      if x in s.toBridge { assert GoodFrame(s.issued, s.answers, x); }
    }
    forall x | x in s.toClient || x in s.responses ensures GoodMessage(s'.issued, s'.answers, x) {
      assert GoodMessage(s.issued, s.answers, x);
    }
  }

  lemma CallTable(s: Sys, m: Move)
    requires Inv(s) && m.Call? && Enabled(s, m)
    ensures TableInv(Next(s, m).conn, s.issued + 1)
  {
    hide P.SendersInv, Go.GoBuildMessage, IdOf, Counter, WireInv, OnceInv, SlotInv, ResultInv, Count;
    var c, k := Next(s, m).conn, s.issued + 1;
    CounterSteps(s.issued);
    forall j | j in s.conn.slots ensures Counter(j) != c.nextId {
      assert Outstanding(s, j);
      OtherId(j, k);
    }
    assert c.nextId !in s.conn.pending;
  }

  lemma OtherId(j: nat, k: nat)
    requires 1 <= j < k && k - j < LAST_ID
    ensures Counter(j) != Counter(k)
  {
    hide IdOf;
    IdsRepeatOnlyAfterAll(j, k);
  }

  // ---- The bridge's side ----

  /** Handling a frame keeps the number of messages in flight for every call, or drops it when the session task
      aborts. */
  lemma ServeFlight(s: Sys, d: B.Dds)
    requires Enabled(s, Serve(d))
    ensures var s' := Next(s, Serve(d)); forall k :: k >= 1 ==> Flight(s', k) <= Flight(s, k)
  {
    hide B.ProcessFrame, Count;
    var x := s.toBridge[0];
    var out := B.ProcessFrame(s.bridge, s.sid, x.msg, s.max, d);
    var s' := Next(s, Serve(d));
    forall k | k >= 1 ensures Flight(s', k) <= Flight(s, k) {
      CountHead(s.toBridge, k);
      if out.reply.Messages? && |out.reply.ms| >= 1 {
        var a, n := Tagged(x.call, out.reply.ms[0]), Notifications(out.reply.ms[1..]);
        NotificationMarks(out.reply.ms[1..]);
        CountConcat(s.responses, [a] + n, k);
        CountConcat([a], n, k);
        CountOne(a, k);
      }
    }
  }

  lemma ServeInv(s: Sys, d: B.Dds)
    requires Inv(s) && Enabled(s, Serve(d))
    ensures Inv(Next(s, Serve(d)))
  {
    hide P.SendersInv, B.ProcessFrame, Count, IdOf, T.AnswersOnce, TableInv, WireInv, B.FrameId, Notifications;
    var x, s' := s.toBridge[0], Next(s, Serve(d));
    P.FrameSenders(s.bridge, s.sid, x.msg, s.max, d);
    ServeFlight(s, d);
    ServeWire(s, d);
    FrameUnanswered(s);
    assert forall k :: Outstanding(s', k) ==> Outstanding(s, k);
    assert forall k :: k in s.conn.slots && s.conn.slots[k].Some? ==> k != x.call;
  }

  lemma FrameUnanswered(s: Sys)
    requires Inv(s) && s.toBridge != []
    ensures var x := s.toBridge[0]; 1 <= x.call <= s.issued && x.call !in s.answers && Flight(s, x.call) >= 1
  {
    hide P.SendersInv, B.FrameId, IdOf, Count;
    assert s.toBridge[0] in s.toBridge;
    assert GoodFrame(s.issued, s.answers, s.toBridge[0]);
  }

  lemma ServeWire(s: Sys, d: B.Dds)
    requires Inv(s) && Enabled(s, Serve(d))
    ensures WireInv(Next(s, Serve(d)))
  {
    hide P.SendersInv, P.MsgId, B.FrameId, B.ProcessFrame, Count, IdOf, Notifications, CycleInv, SlotInv, TableInv;
    var x := s.toBridge[0];
    var out := B.ProcessFrame(s.bridge, s.sid, x.msg, s.max, d);
    var s' := Next(s, Serve(d));
    assert x in s.toBridge && GoodFrame(s.issued, s.answers, x);
    OthersUnmarked(s);
    T.FrameAnsweredOnce(s.bridge, s.sid, x.msg, s.max, d);
    forall y | y in s'.toBridge ensures GoodFrame(s'.issued, s'.answers, y) {
      assert y in s.toBridge;
      assert GoodFrame(s.issued, s.answers, y);
    }
    forall y | y in s.toClient || y in s.responses ensures GoodMessage(s'.issued, s'.answers, y) {
      assert GoodMessage(s.issued, s.answers, y);
    }
    if out.reply.Messages? { ServeResponses(s, d); }
  }

  lemma ServeResponses(s: Sys, d: B.Dds)
    requires Enabled(s, Serve(d)) && 1 <= s.toBridge[0].call <= s.issued
    requires B.FrameId(s.toBridge[0].msg) == IdOf(s.toBridge[0].call)
    requires var s' := Next(s, Serve(d)); forall y :: y in s.responses ==> GoodMessage(s'.issued, s'.answers, y)
    requires var r := B.ProcessFrame(s.bridge, s.sid, s.toBridge[0].msg, s.max, d).reply;
             r.Messages? && T.AnswersOnce(r, B.FrameId(s.toBridge[0].msg))
    ensures var s' := Next(s, Serve(d)); forall y :: y in s'.responses ==> GoodMessage(s'.issued, s'.answers, y)
  {
    hide P.MsgId, B.FrameId, B.ProcessFrame, IdOf, Notifications;
    var x := s.toBridge[0];
    var ms := B.ProcessFrame(s.bridge, s.sid, x.msg, s.max, d).reply.ms;
    var s' := Next(s, Serve(d));
    NotificationMarks(ms[1..]);
    forall y | y in Notifications(ms[1..]) ensures GoodMessage(s'.issued, s'.answers, y) {
      var i :| 0 <= i < |ms[1..]| && ms[1..][i] == y.msg;
      assert ms[i + 1] == y.msg;
    }
  }

  /** The frame being handled is the only thing in flight for its call. */
  lemma OthersUnmarked(s: Sys)
    requires WireInv(s) && OnceInv(s) && s.toBridge != []
    ensures var x := s.toBridge[0];
            forall y :: y in s.toBridge[1..] || y in s.responses || y in s.toClient ==> y.call != x.call
  {
    hide P.MsgId, B.FrameId, IdOf, Count, GoodMessages;
    var x := s.toBridge[0];
    assert x in s.toBridge && GoodFrame(s.issued, s.answers, x);
    CountHead(s.toBridge, x.call);
    assert Flight(s, x.call) <= 1;
  }

  lemma SendResponseInv(s: Sys)
    requires Inv(s) && Enabled(s, SendResponse)
    ensures Inv(Next(s, SendResponse))
  {
    hide P.SendersInv, Count, Counter, GoodMessage, GoodFrame;
    var x, s' := s.responses[0], Next(s, SendResponse);
    forall k ensures Flight(s', k) == Flight(s, k) {
      CountHead(s.responses, k);
      CountConcat(s.toClient, [x], k);
      CountOne(x, k);
    }
    assert x in s.responses;
    assert forall y :: y in s'.responses ==> y in s.responses;
    assert forall k :: Outstanding(s', k) ==> Outstanding(s, k);
  }

  lemma SendNoticeInv(s: Sys)
    requires Inv(s) && Enabled(s, SendNotice)
    ensures Inv(Next(s, SendNotice))
  {
    hide P.SendersInv, Count, Counter, GoodMessage, GoodFrame, B.Step;
    var s' := Next(s, SendNotice);
    var x := Tagged(0, s.bridge.senders[s.sid].queue[0]);
    P.StepSenders(s.bridge, B.Drain(s.sid));
    forall k ensures Flight(s', k) == Flight(s, k) + (if k == 0 then 1 else 0) {
      CountConcat(s.toClient, [x], k);
      CountOne(x, k);
    }
    QueuedNotice(s.bridge, s.sid);
    NoticeGood(s.issued, s.answers, x);
    assert forall k :: Outstanding(s', k) ==> Outstanding(s, k);
  }

  lemma QueuedNotice(b: B.State, sid: SessionId)
    requires P.SendersInv(b.senders) && sid in b.senders && b.senders[sid].queue != []
    ensures P.MsgId(b.senders[sid].queue[0]) == 0
  {
    hide P.MsgId;
    assert P.SenderOk(b.senders[sid]);
  }

  lemma NoticeGood(issued: nat, answers: map<nat, bytes>, x: Tagged)
    requires x.call == 0 && P.MsgId(x.msg) == 0
    ensures GoodMessage(issued, answers, x)
  {
  }

  lemma ElsewhereInv(s: Sys, e: B.Event)
    requires Inv(s) && Enabled(s, Elsewhere(e))
    ensures Inv(Next(s, Elsewhere(e)))
  {
    hide P.SendersInv, Count, Counter, GoodMessage, GoodFrame, B.Step;
    P.StepSenders(s.bridge, e);
    var s' := Next(s, Elsewhere(e));
    assert forall k :: Flight(s', k) == Flight(s, k);
    assert forall k :: Outstanding(s', k) ==> Outstanding(s, k);
  }

  lemma NextInv(s: Sys, m: Move)
    requires Inv(s) && Enabled(s, m)
    ensures Inv(Next(s, m))
  {
    hide Inv, Next, Enabled;
    match m
    case Call(_, _, _) => CallInv(s, m);
    case Serve(d) => ServeInv(s, d);
    case Elsewhere(e) => ElsewhereInv(s, e);
    case SendResponse => SendResponseInv(s);
    case SendNotice => SendNoticeInv(s);
    case Receive => ReceiveInv(s);
    case Return(k) => FinishInv(s, k, m);
    case GiveUp(k) => FinishInv(s, k, m);
  }

  // ---- Whole runs ----

  /** A new connection to a bridge that has just registered the session. */
  ghost predicate Fresh(s: Sys) {
    && s.conn == Conn.State(0, map[], map[]) && s.issued == 0
    && s.toBridge == s.responses == s.toClient == [] && s.answers == s.results == map[]
    && P.SendersInv(s.bridge.senders)
  }

  ghost predicate Run(ss: seq<Sys>, ms: seq<Move>) {
    && |ss| == |ms| + 1 && Fresh(ss[0])
    && forall i :: 0 <= i < |ms| ==> Enabled(ss[i], ms[i]) && ss[i + 1] == Next(ss[i], ms[i])
  }

  lemma {:induction false} RunInv(ss: seq<Sys>, ms: seq<Move>, i: nat)
    requires Run(ss, ms) && i < |ss|
    ensures Inv(ss[i])
  {
    hide Inv, Enabled, Next, Fresh;
    if i == 0 {
      FreshInv(ss[0]);
    } else {
      RunInv(ss, ms, i - 1);
      NextInv(ss[i - 1], ms[i - 1]);
    }
  }

  lemma FreshInv(s: Sys)
    requires Fresh(s)
    ensures Inv(s)
  {
    hide P.SendersInv, GoodMessage, GoodFrame;
  }

  /** On every run in which fewer ids than a full cycle are issued while a call is outstanding: every caller that
      returned was given exactly the bridge's answer to its own request, the receive loop never blocks on a full
      channel, and notifications never reach a waiter. */
  lemma CorrelationHolds(ss: seq<Sys>, ms: seq<Move>, i: nat)
    requires Run(ss, ms) && i < |ss|
    ensures var s := ss[i];
            && (forall k :: k in s.results ==> k in s.answers && s.results[k] == s.answers[k])
            && (s.toClient != [] ==> !Blocks(s.conn, s.toClient[0].msg))
            && (s.toClient != [] && s.toClient[0].call == 0 ==> !Dispatch(s.conn.pending, s.toClient[0].msg).ToWaiter?)
  {
    hide P.SendersInv, Dispatch, Run, WireInv, OnceInv, TableInv, SlotInv, CycleInv, Blocks;
    RunInv(ss, ms, i);
    if ss[i].toClient != [] { OwnResponseOnly(ss[i]); }
  }
}

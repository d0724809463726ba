/** Promises about whole runs of the bridge: one writer for a topic, clean sessions, one notice for each subscriber. */
module BridgeRuns {
  import opened Bytes
  import opened Qos
  import opened QosEquality
  import opened Protocol
  import opened Entities
  import opened Bridge
  import opened BridgeProofs
  import opened BridgeTheorems
  import W = Writers
  import R = Readers

  // ---- Topic-name operations of one session ----

  /** Whose writer is meant: a session, a topic, a type and a QoS, up to its effect. */
  datatype Purpose = Purpose(sid: SessionId, t: bytes, y: bytes, q: QosSet)

  function Chosen(st: State, p: Purpose): Option<u32> { W.FindByTopic(st.writers, p.sid, p.t, p.y, Normalize(p.q)) }

  predicate IsWriteOp(t: MsgType) { t.Write? || t.Dispose? || t.WriteDispose? }

  /** A WRITE, DISPOSE or WRITE_DISPOSE of the session in topic-name mode, with a QoS of the same effect. */
  predicate Serves(e: Event, p: Purpose) {
    && e.Frame? && e.sid == p.sid && Dispatched(e.data, e.max) && IsWriteOp(ParseHeader(e.data).value.msgType)
    && var m := ParseWriteMode(FramePayload(e.data));
       && m.Success? && m.value.TopicName? && m.value.topicName == p.t && m.value.typeName == p.y
       && NormalizedEq(p.q, m.value.qos)
  }

  /** The writer such an operation calls DDS on, whether the call succeeds or fails. */
  function WriterUsed(st: State, e: Event, p: Purpose): Option<u32> {
    if Serves(e, p) then DoWriteOp(st, p.sid, ParseWriteMode(FramePayload(e.data)).value, e.dds).Used() else None
  }

  predicate Registers(st: State, e: Event) { Step(st, e).nextWriterId != st.nextWriterId }

  function Added(st: State, es: seq<Event>, p: Purpose): nat {
    if es == [] then 0
    else
      var prev, e := es[..|es| - 1], es[|es| - 1];
      Added(st, prev, p) + if Serves(e, p) && Registers(RunFrom(st, prev), e) then 1 else 0
  }

  /** No event deletes the writer chosen at that point, nor ends the session. */
  ghost predicate SparesChosen(st: State, es: seq<Event>, p: Purpose) {
    forall i :: 0 <= i < |es| ==>
      var c := Chosen(RunFrom(st, es[..i]), p); c.Some? ==> Spares(es[i], p.sid, c.value)
  }

  /** One operation: it registers only if nothing was chosen, and it uses what is chosen afterwards. */
  lemma ServesStep(st: State, e: Event, p: Purpose)
    requires Inv(st) && WellFormed(p.q)
    ensures Serves(e, p) && FreshAt(st, e) && Registers(st, e) ==>
              Chosen(st, p).None? && Chosen(Step(st, e), p).Some?
    ensures FreshAt(st, e) && WriterUsed(st, e, p).Some? ==> WriterUsed(st, e, p) == Chosen(Step(st, e), p)
  {
    hide W.Inv, BaseInv, W.FindByTopic, NormalizedEq, WellFormed, Normalize, ParseWriteMode, ParseHeader, FramePayload,
         ValidateClientHeader, DoWriteOp, TopicsInv;
    if Serves(e, p) && FreshAt(st, e) {
      var m := ParseWriteMode(FramePayload(e.data)).value;
      ParsedQos(FramePayload(e.data));
      FrameIsWriteOp(st, e, p);
      StepInv(st, e);
      InvTopics(st);
      ServesResult(st, p.sid, m, e.dds);
      SameChoice(st, p.sid, p.t, p.y, p.q, m.qos);
      SameChoice(Step(st, e), p.sid, p.t, p.y, p.q, m.qos);
    }
  }

  lemma InvTopics(st: State)
    requires BaseInv(st)
    ensures TopicsInv(st.topics)
  {
  }

  /** What the operation leaves in the writer registry is what `do_write_op` leaves. */
  lemma FrameIsWriteOp(st: State, e: Event, p: Purpose)
    ensures Serves(e, p) ==>
            var r := DoWriteOp(st, p.sid, ParseWriteMode(FramePayload(e.data)).value, e.dds);
            var st' := Step(st, e);
            && (!r.WriteAborts? ==> st'.writers == r.st.writers && st'.nextWriterId == r.st.nextWriterId)
            && (r.WriteAborts? ==> st' == st)
  {
    hide DoWriteOp, ParseWriteMode, ParseHeader, FramePayload, ValidateClientHeader, NormalizedEq, ErrorReply, OkReply,
         Listing, Notify, Notice, Copies;
  }

  lemma ServesResult(st: State, sid: SessionId, m: WriteMode, d: Dds)
    requires TopicsInv(st.topics) && m.TopicName?
    ensures var r := DoWriteOp(st, sid, m, d);
            var q := Normalize(m.qos);
            !r.WriteAborts? ==>
              && (r.st.nextWriterId != st.nextWriterId ==>
                    && W.FindByTopic(st.writers, sid, m.topicName, m.typeName, q).None?
                    && W.FindByTopic(r.st.writers, sid, m.topicName, m.typeName, q).Some?)
              && (r.Used().Some? ==> r.Used() == W.FindByTopic(r.st.writers, sid, m.topicName, m.typeName, q))
  {
    hide W.FindByTopic, Normalize, GetOrCreateTopic, TopicsInv, W.Register;
    SecondLookupSucceeds(st, sid, m, d);
  }

  /** Over any run, whatever other sessions do and whichever operations fail in DDS: the session's topic-name operations
      of one effect register at most one writer, none if one was chosen before, and all of them use the same one. */
  lemma {:induction false} OneWriterForTopic(st: State, es: seq<Event>, p: Purpose)
    requires Inv(st) && FreshFrom(st, es) && SparesChosen(st, es, p) && WellFormed(p.q)
    ensures Inv(RunFrom(st, es))
    ensures Added(st, es, p) <= 1 && (Chosen(st, p).Some? ==> Added(st, es, p) == 0)
    ensures Chosen(st, p).Some? || Added(st, es, p) > 0 ==> Chosen(RunFrom(st, es), p).Some?
    ensures Chosen(st, p).Some? ==> Chosen(RunFrom(st, es), p) == Chosen(st, p)
    ensures forall i :: 0 <= i < |es| ==>
              var used := WriterUsed(RunFrom(st, es[..i]), es[i], p);
              used.Some? ==> used == Chosen(RunFrom(st, es), p)
  {
    hide Inv, FreshAt, Step, Spares, Chosen, Serves, WriterUsed, Registers, WellFormed;
    if es != [] {
      var n := |es| - 1;
      var prev, e := es[..n], es[n];
      SparesInit(st, es, p);
      OneWriterForTopic(st, prev, p);
      var s0 := RunFrom(st, prev);
      StepInv(s0, e);
      ServesStep(s0, e, p);
      if Chosen(s0, p).Some? { ChosenKept(s0, e, p); }
      forall i | 0 <= i < |es|
        ensures var used := WriterUsed(RunFrom(st, es[..i]), es[i], p);
                used.Some? ==> used == Chosen(RunFrom(st, es), p)
      {
        if i < n { assert prev[..i] == es[..i] && prev[i] == es[i]; }
      }
    }
  }

  lemma ChosenKept(st: State, e: Event, p: Purpose)
    requires Inv(st) && FreshAt(st, e) && Chosen(st, p).Some? && Spares(e, p.sid, Chosen(st, p).value)
    ensures Chosen(Step(st, e), p) == Chosen(st, p)
  {
    hide Inv, FreshAt, Step, Spares, W.FindByTopic, Normalize;
    ChosenWriterStable(st, e, p.sid, p.t, p.y, Normalize(p.q), Chosen(st, p).value);
  }

  lemma SparesInit(st: State, es: seq<Event>, p: Purpose)
    requires es != [] && SparesChosen(st, es, p)
    ensures SparesChosen(st, es[..|es| - 1], p)
    ensures var c := Chosen(RunFrom(st, es[..|es| - 1]), p); c.Some? ==> Spares(es[|es| - 1], p.sid, c.value)
  {
    hide Chosen, Spares, RunFrom;
    var n := |es| - 1;
    forall i | 0 <= i < n ensures es[..n][..i] == es[..i] && es[..n][i] == es[i] {}
  }

  // ---- The reader registry inside a run ----

  /** The reader operation an event amounts to, if any. */
  function ReaderOps(st: State, e: Event): seq<R.Op> {
    match e
    case Frame(sid, data, max, d) =>
      if !Dispatched(data, max) then []
      else if ParseHeader(data).value.msgType == Subscribe then SubscribeOps(st, sid, FramePayload(data), d)
      else if ParseHeader(data).value.msgType == Unsubscribe then UnsubscribeOps(sid, FramePayload(data))
      else []
    case Disconnect(sid) => [R.Remove(sid)]
    case _ => []
  }

  function SubscribeOps(st: State, sid: SessionId, payload: bytes, d: Dds): seq<R.Op> {
    match ParseEndpoint(payload)
    case Failure(_) => []
    case Success(e) =>
      match GetOrCreateTopic(st.topics, e.topicName, e.typeName, e.isKeyed, e.keys, d.topicHandle)
      case Got(_, topic) => [R.Sub(topic, e.qos, sid, d.readerOk)]
      case _ => []
  }

  function UnsubscribeOps(sid: SessionId, payload: bytes): seq<R.Op> {
    match ParseUnsubscribe(payload)
    case Failure(_) => []
    case Success((t, y)) => [R.Unsub(t, y, sid)]
  }

  function AllReaderOps(es: seq<Event>): seq<R.Op> {
    if es == [] then []
    else
      var prev := es[..|es| - 1];
      AllReaderOps(prev) + ReaderOps(Run(prev), es[|es| - 1])
  }

  lemma StepReaders(st: State, e: Event)
    ensures var ops := ReaderOps(st, e);
            |ops| <= 1 && Step(st, e).readers == if ops == [] then st.readers else R.Step(st.readers, ops[0])
  {
    hide ParseEndpoint, ParseWriteMode, ParseUnsubscribe, ParseDeleteWriter, ParseHeader, ErrorReply, OkReply,
         BuildMessage, GetOrCreateTopic, W.Register, W.Delete, W.Get, Normalize, R.Subscribe, R.Unsubscribe,
         R.SubscribeResult, R.Unsubscribed, ValidateClientHeader, FramePayload, Le, NextId, HandleWriteOp,
         R.RemoveSession, W.RemoveSession;
    if e.Frame? && Dispatched(e.data, e.max) {
      var h := ParseHeader(e.data).value;
      WriteOpReaders(st, e.sid, FrameId(e.data), FramePayload(e.data), e.dds, WriteKindOf(h.msgType));
    }
  }

  lemma WriteOpReaders(st: State, s: SessionId, req: u32, payload: bytes, d: Dds, kind: WriteKind)
    ensures var st' := HandleWriteOp(st, s, req, payload, d, kind).st;
            st'.readers == st.readers && st'.senders.Keys == st.senders.Keys
  {
    hide ParseWriteMode, ErrorReply, OkReply, BuildMessage, GetOrCreateTopic, W.FindByTopic, W.Register, W.Get,
         Normalize, Listing, Le, Notice, NextId, TrySendN;
  }

  /** In every run of the bridge the readers are those of a run of the reader registry alone, so what is proved of
      registry runs holds of them. */
  lemma {:induction false} RunReaders(es: seq<Event>)
    ensures Run(es).readers == R.Run(AllReaderOps(es))
  {
    hide Step, ReaderOps, R.Step;
    if es != [] {
      var prev, e := es[..|es| - 1], es[|es| - 1];
      RunReaders(prev);
      StepReaders(Run(prev), e);
      var ops, last := AllReaderOps(prev), ReaderOps(Run(prev), e);
      if last == [] {
        assert ops + last == ops;
      } else {
        assert (ops + last)[..|ops| + 1 - 1] == ops && (ops + last)[|ops|] == last[0];
      }
    }
  }

  /** No session re-subscribes a held topic and type under another reader key. */
  ghost predicate ConflictFreeRun(es: seq<Event>) { R.ConflictFree(AllReaderOps(es)) }

  lemma NothingUntracked(es: seq<Event>)
    requires ConflictFreeRun(es)
    ensures R.Inv(Run(es).readers) && forall s, x :: !R.Untracked(Run(es).readers, s, x)
  {
    hide Run, R.Run, AllReaderOps, R.Untracked, R.Inv, R.SetRun, R.ConflictFree;
    RunReaders(es);
    R.Refinement(AllReaderOps(es));
  }

  /** After any conflict-free run, unregistering a session leaves no trace of it in the whole state. */
  lemma UnregisterClean(es: seq<Event>, sid: SessionId)
    requires FreshRun(es) && ConflictFreeRun(es)
    ensures var st := UnregisterSession(Run(es), sid);
            && sid !in st.senders
            && (forall id :: id in st.writers.writers ==> st.writers.writers[id].owner != sid)
            && (forall k :: k in st.readers.subs ==> k.session != sid)
            && (forall x :: !R.Lists(st.readers, sid, x))
  {
    hide Run, FreshRun, ConflictFreeRun, UnregisterSession, R.Lists, R.Untracked, R.Inv, Inv;
    ReachableInv(es);
    NothingUntracked(es);
    UnregisterExact(Run(es), sid, 0);
    forall x ensures !R.Lists(UnregisterSession(Run(es), sid).readers, sid, x) { UnregisterExact(Run(es), sid, x); }
  }

  // ---- Dispose notices in a run ----

  function Once(m: bytes, really: bool): seq<bytes> { if really then [m] else [] }

  predicate Subscribed(st: State, s: SessionId, t: bytes, y: bytes) { R.SubKey(s, t, y) in st.readers.subs }

  /** After any conflict-free run, a successful DISPOSE or WRITE_DISPOSE about a topic and type is answered, with
      one notice after the answer if the requester subscribes to them; one notice enters the queue of every other
      subscriber, if there is room, and no other queue changes. */
  lemma DisposeNoticeOnce(es: seq<Event>, sid: SessionId, req: u32, payload: bytes, d: Dds, kind: WriteKind,
                          s: SessionId, t: bytes, y: bytes)
    requires ConflictFreeRun(es) && ParseWriteMode(payload).Success? && !kind.PlainWrite?
    ensures var st, m := Run(es), ParseWriteMode(payload).value;
            var out := HandleWriteOp(st, sid, req, payload, d, kind);
            var notice := Notice(t, m.data);
            DoWriteOp(st, sid, m, d).Wrote? && About(st, m, t, y) ==>
              && out.reply == Messages([OkReply(req, [])] + Once(notice, Subscribed(st, sid, t, y)))
              && out.st.senders.Keys == st.senders.Keys
              && (s in st.senders && s != sid ==>
                    && |st.senders[s].queue| <= st.senders[s].capacity
                    && out.st.senders[s] == Enqueued(st.senders[s], Once(notice, Subscribed(st, s, t, y))))
              && (sid in st.senders ==> out.st.senders[sid] == st.senders[sid])
  {
    hide Run, ConflictFreeRun, ParseWriteMode, DoWriteOp, OkReply, Notice, Listing, HandleWriteOp, Enqueued,
         R.Untracked, R.Inv, SenderOk, Copies, About;
    var st, m := Run(es), ParseWriteMode(payload).value;
    ReachableBase(es);
    QueuesFit(st);
    NothingUntracked(es);
    DisposeFanOut(st, sid, req, payload, d, kind, s, t, y);
    DisposeFanOut(st, sid, req, payload, d, kind, sid, t, y);
    ListedOnce(st.readers, t, y, s);
    ListedOnce(st.readers, t, y, sid);
    CopiesFew(Notice(t, m.data));
  }

  lemma CopiesFew(m: bytes)
    ensures Copies(m, 0) == [] && Copies(m, 1) == [m]
  {
  }

  lemma QueuesFit(st: State)
    requires BaseInv(st)
    ensures forall s :: s in st.senders ==> |st.senders[s].queue| <= st.senders[s].capacity
  {
    hide R.Inv, TopicsInv, EntitiesInv, MsgId;
    forall s | s in st.senders ensures |st.senders[s].queue| <= st.senders[s].capacity {
      assert SenderOk(st.senders[s]);
    }
  }
}

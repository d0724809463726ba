/** The bridge as the source keeps it: a lock-protected object holding the participant, both registries and the
    senders, whose methods change them in place (src/bridge.rs, src/dds/participant.rs). */
module BridgeObject {
  import opened Bytes
  import opened Qos
  import opened QosEquality
  import opened Protocol
  import opened Entities
  import opened Bridge
  import opened BridgeTheorems
  import W = Writers
  import R = Readers

  class Participant {
    var topics: map<(bytes, bytes), Topic>

    constructor ()
      ensures topics == map[]
    {
      topics := map[];
    }

    method GetOrCreate(t: bytes, y: bytes, keyed: bool, keys: seq<KeyField>, handle: int) returns (r: TopicResult)
      modifies this
      ensures r == GetOrCreateTopic(old(topics), t, y, keyed, keys, handle)
      ensures topics == if r.Got? then r.topics else old(topics)
    {
      var key := (t, y);
      if key in topics { return Got(topics, topics[key]); }
      if 0 in t { return TopicFailed; }
      if 0 in y { return TopicAborts; }
      if handle < 0 { return TopicFailed; }
      var topic := Topic(handle, t, y, keyed, keys);
      topics := topics[key := topic];
      r := Got(topics, topic);
    }
  }

  class BridgeInner {
    const participant: Participant
    const writers: W.WriterRegistry
    const readers: R.ReaderRegistry
    var nextWriterId: u32
    var senders: map<SessionId, Sender>
    var calls: seq<DdsCall>

    function View(): State
      reads this, participant, writers, readers
    {
      State(participant.topics, writers.View(), nextWriterId, readers.View(), senders, calls)
    }

    constructor ()
      ensures View() == INIT && fresh(participant) && fresh(writers) && fresh(readers)
    {
      participant := new Participant();
      writers := new W.WriterRegistry();
      readers := new R.ReaderRegistry();
      nextWriterId, senders, calls := 1, map[], [];
    }

    method CreateWriterFor(topic: Topic, q: QosSet, sid: SessionId) returns (id: u32)
      modifies this, writers
      ensures id == old(nextWriterId)
      ensures View() == AddWriter(old(View()), sid, topic, q)
    {
      id := nextWriterId;
      nextWriterId := NextId(nextWriterId);
      writers.RegisterWriter(id, W.Writer(topic, Normalize(q)), sid);
    }

    method OnSubscribe(sid: SessionId, req: u32, payload: bytes, d: Dds) returns (r: Reply)
      modifies this, participant, readers
      ensures Outcome(View(), r) == HandleSubscribe(old(View()), sid, req, payload, d)
    {
      hide ParseEndpoint, R.Subscribe, R.SubscribeResult, GetOrCreateTopic, ErrorReply, OkReply;
      var p := ParseEndpoint(payload);
      if p.Failure? { return Messages([ErrorReply(req, InvalidMessage, d.text)]); }
      var e := p.value;
      var topic := participant.GetOrCreate(e.topicName, e.typeName, e.isKeyed, e.keys, d.topicHandle);
      if topic.TopicAborts? { return Aborted; }
      if topic.TopicFailed? { return Messages([ErrorReply(req, DdsError, d.text)]); }
      var reader := readers.SubscribeSession(topic.topic, e.qos, sid, d.readerOk);
      if reader.None? { return Messages([ErrorReply(req, DdsError, d.text)]); }
      r := Messages([OkReply(req, [])]);
    }

    method OnUnsubscribe(sid: SessionId, req: u32, payload: bytes, d: Dds) returns (r: Reply)
      modifies readers
      ensures Outcome(View(), r) == HandleUnsubscribe(old(View()), sid, req, payload, d)
    {
      hide ParseUnsubscribe, R.Unsubscribe, R.Unsubscribed, ErrorReply, OkReply;
      var p := ParseUnsubscribe(payload);
      if p.Failure? { return Messages([ErrorReply(req, InvalidMessage, d.text)]); }
      var (t, y) := p.value;
      var found := readers.UnsubscribeSession(t, y, sid);
      if !found { return Messages([ErrorReply(req, ReaderNotFound, d.text)]); }
      r := Messages([OkReply(req, [])]);
    }

    method OnCreateWriter(sid: SessionId, req: u32, payload: bytes, d: Dds) returns (r: Reply)
      modifies this, participant, writers
      ensures Outcome(View(), r) == HandleCreateWriter(old(View()), sid, req, payload, d)
    {
      hide ParseEndpoint, AddWriter, GetOrCreateTopic, ErrorReply, OkReply, Le;
      var p := ParseEndpoint(payload);
      if p.Failure? { return Messages([ErrorReply(req, InvalidMessage, d.text)]); }
      var e := p.value;
      var topic := participant.GetOrCreate(e.topicName, e.typeName, e.isKeyed, e.keys, d.topicHandle);
      if topic.TopicAborts? { return Aborted; }
      if topic.TopicFailed? || !d.writerOk { return Messages([ErrorReply(req, DdsError, d.text)]); }
      var id := CreateWriterFor(topic.topic, e.qos, sid);
      r := Messages([OkReply(req, Le(id, 4))]);
    }

    method OnDeleteWriter(sid: SessionId, req: u32, payload: bytes, d: Dds) returns (r: Reply)
      modifies writers
      ensures Outcome(View(), r) == HandleDeleteWriter(old(View()), sid, req, payload, d)
    {
      hide ParseDeleteWriter, ErrorReply, OkReply, W.Without;
      var p := ParseDeleteWriter(payload);
      if p.Failure? { return Messages([ErrorReply(req, InvalidMessage, d.text)]); }
      var found := writers.DeleteWriter(p.value, sid);
      if !found.Found? { return Messages([ErrorReply(req, WriterNotFound, d.text)]); }
      r := Messages([OkReply(req, [])]);
    }

    /** `do_write_op`: in topic-name mode look the writer up, create it if there is none, and look it up again. */
    method WriteOp(sid: SessionId, m: WriteMode, d: Dds) returns (r: WriteResult)
      modifies this, participant, writers
      ensures r == DoWriteOp(old(View()), sid, m, d)
      ensures r.WriteAborts? ==> View() == old(View())
      ensures !r.WriteAborts? ==> View() == r.st
    {
      hide GetOrCreateTopic, W.FindByTopic, AddWriter, Normalize;
      match m
      case TopicName(t, y, q, keys, _) =>
        var normalized := Normalize(q);
        var found := writers.Find(sid, t, y, normalized);
        if found.None? {
          var topic := participant.GetOrCreate(t, y, keys != [], keys, d.topicHandle);
          if topic.TopicAborts? { return WriteAborts; }
          if topic.TopicFailed? || !d.writerOk { return WriteFailed(View(), DdsError, None); }
          var id := CreateWriterFor(topic.topic, q, sid);
        }
        found := writers.Find(sid, t, y, normalized);
        if found.None? { return WriteFailed(View(), InternalError, None); }
        r := Execute(View(), found.value, d);
      case WriterId(id, _, _) =>
        if !W.Get(writers.View(), id, sid).Found? { return WriteFailed(View(), WriterNotFound, None); }
        r := Execute(View(), id, d);
    }

    /** One reader's part of the fan-out: the requester's copy is counted, the others are sent. */
    method NotifyReader(subscribers: set<SessionId>, sid: SessionId, m: bytes) returns (own: bool)
      modifies this`senders
      ensures senders == SendAll(old(senders), subscribers - {sid}, m)
      ensures own == (sid in subscribers)
    {
      var rest := subscribers;
      own := false;
      ghost var before := senders;
      while rest != {}
        invariant rest <= subscribers
        invariant senders == SendAll(before, subscribers - rest - {sid}, m)
        invariant own == (sid in subscribers - rest)
      {
        R.NonEmpty(rest);
        var s :| s in rest;
        if s == sid {
          own := true;
        } else if s in senders {
          senders := senders[s := TrySend(senders[s], m)];
        }
        rest := rest - {s};
      }
      assert subscribers - {} - {sid} == subscribers - {sid};
    }

    /** `resp_with_dispose_notification`: walk all readers, in whatever order the map gives them. */
    method RespWithDisposeNotification(sid: SessionId, resp: bytes, m: WriteMode) returns (messages: seq<bytes>)
      modifies this`senders
      ensures Outcome(View(), Messages(messages)) == RespWithNotices(old(View()), sid, resp, m)
    {
      hide Notice;
      var target := Target(View(), m);
      if target.None? { return [resp]; }
      var (t, y) := target.value;
      var notice := Notice(t, m.data);
      ghost var st0 := View();
      var rs := readers.View();
      var rest := rs.readers.Keys;
      messages := [resp];
      ghost var done: set<nat> := {};
      EmptyFanOut(st0, sid, t, y, notice);
      while rest != {}
        invariant rest <= rs.readers.Keys && done == rs.readers.Keys - rest
        invariant senders == NotifyPart(st0, done, sid, t, y, notice)
        invariant messages == [resp] + Copies(notice, |ListingIn(rs, done, t, y, sid)|)
      {
        R.NonEmpty(rest);
        var x :| x in rest;
        FanOutStep(st0, done, x, sid, t, y, notice);
        if On(rs.readers[x], t, y) {
          var own := NotifyReader(rs.readers[x].subscribers, sid, notice);
          if own { messages := messages + [notice]; }
        }
        rest := rest - {x};
        done := done + {x};
      }
      assert done == rs.readers.Keys;
      WholeFanOut(st0, sid, t, y, notice);
    }

    method OnWriteOp(sid: SessionId, req: u32, payload: bytes, d: Dds, kind: WriteKind) returns (r: Reply)
      modifies this, participant, writers
      ensures Outcome(View(), r) == HandleWriteOp(old(View()), sid, req, payload, d, kind)
    {
      hide ParseWriteMode, DoWriteOp, RespWithNotices, ErrorReply, OkReply;
      var p := ParseWriteMode(payload);
      if p.Failure? { return Messages([ErrorReply(req, InvalidMessage, d.text)]); }
      var w := WriteOp(sid, p.value, d);
      if w.WriteAborts? { return Aborted; }
      if w.Used().Some? {
        var keyBytes := if p.value.WriterId? then p.value.keyBytes else [];
        calls := calls + [DdsCall(w.Used().value, kind, p.value.data, keyBytes)];
      }
      if w.WriteFailed? { return Messages([ErrorReply(req, w.code, d.text)]); }
      if !kind.PlainWrite? {
        var messages := RespWithDisposeNotification(sid, OkReply(req, []), p.value);
        return Messages(messages);
      }
      r := Messages([OkReply(req, [])]);
    }

    method ProcessBinaryFrame(sid: SessionId, data: bytes, max: nat, d: Dds) returns (r: Reply)
      modifies this, participant, writers, readers
      ensures Outcome(View(), r) == ProcessFrame(old(View()), sid, data, max, d)
    {
      hide ParseHeader, ValidateClientHeader, FramePayload, ErrorReply, BuildMessage, FrameId,
           HandleSubscribe, HandleUnsubscribe, HandleWriteOp, HandleCreateWriter, HandleDeleteWriter;
      if !Dispatched(data, max) { return Messages([ErrorReply(FrameId(data), InvalidMessage, d.text)]); }
      var req, payload := FrameId(data), FramePayload(data);
      match ParseHeader(data).value.msgType
      case Subscribe => r := OnSubscribe(sid, req, payload, d);
      case Unsubscribe => r := OnUnsubscribe(sid, req, payload, d);
      case Write => r := OnWriteOp(sid, req, payload, d, PlainWrite);
      case Dispose => r := OnWriteOp(sid, req, payload, d, PlainDispose);
      case WriteDispose => r := OnWriteOp(sid, req, payload, d, WriteAndDispose);
      case CreateWriter => r := OnCreateWriter(sid, req, payload, d);
      case DeleteWriter => r := OnDeleteWriter(sid, req, payload, d);
      case Ping => r := Messages([BuildMessage(Pong, req, [])]);
      case _ => r := Messages([ErrorReply(req, InvalidMessage, d.text)]);
    }

    method Register(sid: SessionId, capacity: nat)
      modifies this
      ensures View() == Step(old(View()), Connect(sid, capacity))
    {
      senders := senders[sid := Sender(capacity, true, [])];
    }

    method Unregister(sid: SessionId)
      modifies this, writers, readers
      ensures View() == UnregisterSession(old(View()), sid)
    {
      hide W.RemoveSession, R.RemoveSession;
      senders := senders - {sid};
      writers.RemoveSessionWriters(sid);
      readers.RemoveSessionReaders(sid);
    }

    /** `reader_poll_loop` under the lock: one send for each sample and subscriber that has a sender. */
    method CollectRound(batches: seq<(nat, seq<Sample>)>) returns (pending: seq<Event>)
      ensures AllPush(pending)
      ensures forall s :: Pushed(pending, s) == if s in senders then Owed(readers.View(), batches, s) else []
    {
      hide SampleMessages, Pushed;
      NoPushes();
      pending := [];
      ghost var rs := readers.View();
      for i := 0 to |batches|
        invariant AllPush(pending)
        invariant forall s :: Pushed(pending, s) == if s in senders then Owed(rs, batches[..i], s) else []
      {
        var (rid, samples) := batches[i];
        var more: seq<Event> := [];
        if rid in readers.readers {
          var r := readers.readers[rid];
          more := PushesForReader(r.subscribers * senders.Keys, r.topic.topicName, samples);
        }
        forall s
          ensures AllPush(pending + more)
          ensures Pushed(pending + more, s) == if s in senders then Owed(rs, batches[..i + 1], s) else []
        {
          PushedConcat(pending, more, s);
          OwedConcat(rs, batches[..i], [batches[i]], s);
          assert batches[..i + 1] == batches[..i] + [batches[i]];
          OwedOne(rs, batches[i], s);
        }
        pending := pending + more;
      }
      assert batches[..|batches|] == batches;
    }

    /** After the lock: each message goes out on its own, and is dropped if the queue is full. */
    method PushOne(e: Event)
      requires e.Push?
      modifies this`senders
      ensures View() == Step(old(View()), e)
    {
      if e.sid in senders {
        senders := senders[e.sid := TrySend(senders[e.sid], SampleMessage(e.topicName, e.sample))];
      }
    }

    /** One undisturbed round. */
    method PollRound(batches: seq<(nat, seq<Sample>)>)
      requires forall s :: s in senders ==> |senders[s].queue| <= senders[s].capacity
      modifies this`senders
      ensures senders.Keys == old(senders.Keys)
      ensures forall s :: s in senders ==>
                senders[s] == Enqueued(old(senders[s]), Owed(readers.View(), batches, s))
    {
      hide Enqueued, Owed, Pushed, Step;
      var pending := CollectRound(batches);
      ghost var st := View();
      for i := 0 to |pending|
        invariant View() == RunFrom(st, pending[..i])
      {
        assert pending[..i + 1][..i] == pending[..i];
        PushOne(pending[i]);
      }
      assert pending[..|pending|] == pending;
      forall s | s in st.senders
        ensures senders.Keys == st.senders.Keys
        ensures senders[s] == Enqueued(st.senders[s], Owed(readers.View(), batches, s))
      {
        PushesExact(st, pending, s);
      }
      PushesKeepSessions(st, pending);
    }
  }

  method PushesForReader(subs: set<SessionId>, t: bytes, samples: seq<Sample>) returns (ps: seq<Event>)
    ensures AllPush(ps) && forall s :: Pushed(ps, s) == if s in subs then SampleMessages(t, samples) else []
  {
    hide SampleMessage, Pushed;
    NoPushes();
    ps := [];
    for j := 0 to |samples|
      invariant AllPush(ps)
      invariant forall s :: Pushed(ps, s) == if s in subs then SampleMessages(t, samples[..j]) else []
    {
      var more := PushesForSample(subs, t, samples[j]);
      forall s
        ensures AllPush(ps + more)
        ensures Pushed(ps + more, s) == if s in subs then SampleMessages(t, samples[..j + 1]) else []
      {
        PushedConcat(ps, more, s);
        SampleMessagesConcat(t, samples[..j], [samples[j]]);
        assert samples[..j + 1] == samples[..j] + [samples[j]] && [samples[j]][1..] == [];
      }
      ps := ps + more;
    }
    assert samples[..|samples|] == samples;
  }

  method PushesForSample(subs: set<SessionId>, t: bytes, sample: Sample) returns (ps: seq<Event>)
    ensures AllPush(ps) && forall s :: Pushed(ps, s) == if s in subs then [SampleMessage(t, sample)] else []
  {
    hide SampleMessage;
    var todo := subs;
    ps := [];
    while todo != {}
      invariant todo <= subs && AllPush(ps)
      invariant forall s :: Pushed(ps, s) == if s in subs && s !in todo then [SampleMessage(t, sample)] else []
      decreases |todo|
    {
      var sid :| sid in todo;
      ghost var before := ps;
      ps := ps + [Push(sid, t, sample)];
      assert ps[..|ps| - 1] == before;
      todo := todo - {sid};
    }
  }

  lemma OwedOne(rs: R.State, b: (nat, seq<Sample>), s: SessionId)
    ensures Owed(rs, [b], s) == if R.Lists(rs, s, b.0) then SampleMessages(rs.readers[b.0].topic.topicName, b.1) else []
  {
    hide SampleMessages;
    var one := [b];
    assert Owed(rs, one[1..], s) == [];
  }

  lemma NoPushes()
    ensures AllPush([]) && forall s :: Pushed([], s) == []
  {
  }

  lemma {:induction false} PushesKeepSessions(st: State, ps: seq<Event>)
    requires AllPush(ps)
    ensures RunFrom(st, ps).senders.Keys == st.senders.Keys
  {
    hide SampleMessage, TrySend;
    if ps != [] { PushesKeepSessions(st, ps[..|ps| - 1]); }
  }

  // ---- The fan-out over part of the readers ----

  ghost function ListingIn(rs: R.State, part: set<nat>, t: bytes, y: bytes, s: SessionId): set<nat> {
    set x | x in part && x in rs.readers && On(rs.readers[x], t, y) && s in rs.readers[x].subscribers
  }

  ghost function NotifyPart(st: State, part: set<nat>, sid: SessionId, t: bytes, y: bytes, m: bytes):
      map<SessionId, Sender>
  {
    map s | s in st.senders ::
      if s == sid then st.senders[s] else TrySendN(st.senders[s], m, |ListingIn(st.readers, part, t, y, s)|)
  }

  lemma EmptyFanOut(st: State, sid: SessionId, t: bytes, y: bytes, m: bytes)
    ensures NotifyPart(st, {}, sid, t, y, m) == st.senders
    ensures ListingIn(st.readers, {}, t, y, sid) == {}
  {
    forall s ensures ListingIn(st.readers, {}, t, y, s) == {} {}
  }

  lemma WholeFanOut(st: State, sid: SessionId, t: bytes, y: bytes, m: bytes)
    ensures NotifyPart(st, st.readers.readers.Keys, sid, t, y, m) == Notify(st, sid, t, y, m)
    ensures ListingIn(st.readers, st.readers.readers.Keys, t, y, sid) == Listing(st.readers, t, y, sid)
  {
    forall s ensures ListingIn(st.readers, st.readers.readers.Keys, t, y, s) == Listing(st.readers, t, y, s) {}
  }

  lemma FanOutStep(st: State, part: set<nat>, x: nat, sid: SessionId, t: bytes, y: bytes, m: bytes)
    requires x !in part && x in st.readers.readers
    ensures var r := st.readers.readers[x];
            var before, after := NotifyPart(st, part, sid, t, y, m), NotifyPart(st, part + {x}, sid, t, y, m);
            var n, n' := |ListingIn(st.readers, part, t, y, sid)|, |ListingIn(st.readers, part + {x}, t, y, sid)|;
            if On(r, t, y)
            then after == SendAll(before, r.subscribers - {sid}, m) && n' == n + (if sid in r.subscribers then 1 else 0)
            else after == before && n' == n
  {
    hide TrySend;
    forall s ensures |ListingIn(st.readers, part + {x}, t, y, s)|
                  == |ListingIn(st.readers, part, t, y, s)|
                     + (if On(st.readers.readers[x], t, y) && s in st.readers.readers[x].subscribers then 1 else 0)
    {
      ListingGrows(st.readers, part, x, t, y, s);
    }
  }

  lemma ListingGrows(rs: R.State, part: set<nat>, x: nat, t: bytes, y: bytes, s: SessionId)
    requires x !in part && x in rs.readers
    ensures |ListingIn(rs, part + {x}, t, y, s)|
         == |ListingIn(rs, part, t, y, s)|
            + (if On(rs.readers[x], t, y) && s in rs.readers[x].subscribers then 1 else 0)
  {
    var a, b := ListingIn(rs, part, t, y, s), ListingIn(rs, part + {x}, t, y, s);
    if On(rs.readers[x], t, y) && s in rs.readers[x].subscribers {
      assert b == a + {x};
    } else {
      assert b == a;
    }
  }
}

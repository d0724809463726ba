/** The shared-reader registry: three interlinked maps (src/dds/reader.rs). */
module Readers {
  import opened Bytes
  import opened Qos
  import opened QosEquality
  import opened Entities

  datatype ReaderKey = ReaderKey(topicName: bytes, typeName: bytes, qosBytes: bytes)
  datatype SubKey = SubKey(session: SessionId, topicName: bytes, typeName: bytes)
  datatype Reader = Reader(topic: Topic, qos: QosSet, subscribers: set<SessionId>)

  /** `nextId` is the reader id counter; an id is taken only when the DDS reader was created. */
  datatype State = State(readers: map<nat, Reader>, keys: map<ReaderKey, nat>, subs: map<SubKey, nat>, nextId: nat)

  const EMPTY := State(map[], map[], map[], 1)

  function KeyOf(t: Topic, q: QosSet): ReaderKey { ReaderKey(t.topicName, t.typeName, KeyBytes(q)) }

  function ReaderKeyOf(r: Reader): ReaderKey { ReaderKey(r.topic.topicName, r.topic.typeName, SerializeQos(r.qos)) }

  function SubKeyOf(s: SessionId, t: Topic): SubKey { SubKey(s, t.topicName, t.typeName) }

  /** The reader a SUBSCRIBE would join, if there is one. */
  function Shared(st: State, key: ReaderKey): Option<nat> {
    if key in st.keys && st.keys[key] in st.readers then Some(st.keys[key]) else None
  }

  function Attach(st: State, rid: nat, t: Topic, sid: SessionId): State
    requires rid in st.readers
  {
    var r := st.readers[rid];
    st.(readers := st.readers[rid := r.(subscribers := r.subscribers + {sid})],
        subs := st.subs[SubKeyOf(sid, t) := rid])
  }

  function Create(st: State, t: Topic, q: QosSet, sid: SessionId): State {
    State(st.readers[st.nextId := Reader(t, Normalize(q), {sid})], st.keys[KeyOf(t, q) := st.nextId],
          st.subs[SubKeyOf(sid, t) := st.nextId], st.nextId + 1)
  }

  /** `created` tells whether DDS would create a reader, should one be needed. */
  function Subscribe(st: State, t: Topic, q: QosSet, sid: SessionId, created: bool): State {
    match Shared(st, KeyOf(t, q))
    case Some(rid) => Attach(st, rid, t, sid)
    case None => if created then Create(st, t, q, sid) else st
  }

  function SubscribeResult(st: State, t: Topic, q: QosSet, created: bool): Option<nat> {
    match Shared(st, KeyOf(t, q))
    case Some(rid) => Some(rid)
    case None => if created then Some(st.nextId) else None
  }

  /** The readers among `rids` that lose their last subscriber when `sid` leaves. */
  function Emptied(st: State, rids: set<nat>, sid: SessionId): set<nat> {
    set rid | rid in rids && rid in st.readers && st.readers[rid].subscribers <= {sid}
  }

  function Leave(r: Reader, sid: SessionId): Reader { r.(subscribers := r.subscribers - {sid}) }

  function Detach(st: State, rids: set<nat>, sid: SessionId): State {
    var gone := Emptied(st, rids, sid);
    st.(readers := map rid | rid in st.readers && rid !in gone ::
                     if rid in rids then Leave(st.readers[rid], sid) else st.readers[rid],
        keys := map k | k in st.keys && st.keys[k] !in gone :: st.keys[k])
  }

  function Unsubscribe(st: State, t: bytes, y: bytes, sid: SessionId): State {
    var sk := SubKey(sid, t, y);
    if sk !in st.subs then st
    else Detach(st.(subs := st.subs - {sk}), {st.subs[sk]}, sid)
  }

  /** `unsubscribe` reports success when the entry existed and its reader was still there. */
  predicate Unsubscribed(st: State, t: bytes, y: bytes, sid: SessionId) {
    var sk := SubKey(sid, t, y);
    sk in st.subs && st.subs[sk] in st.readers
  }

  function SessionKeys(st: State, sid: SessionId): set<SubKey> { set k | k in st.subs && k.session == sid }

  function SessionReaders(st: State, sid: SessionId): set<nat> { set k | k in SessionKeys(st, sid) :: st.subs[k] }

  function RemoveSession(st: State, sid: SessionId): State {
    Detach(st.(subs := st.subs - SessionKeys(st, sid)), SessionReaders(st, sid), sid)
  }

  // ---- The invariant of the three maps ----

  ghost predicate KeysInv(st: State) {
    && (forall k :: k in st.keys ==> st.keys[k] in st.readers && ReaderKeyOf(st.readers[st.keys[k]]) == k)
    && (forall rid :: rid in st.readers ==>
          var k := ReaderKeyOf(st.readers[rid]); k in st.keys && st.keys[k] == rid)
  }

  ghost predicate ReadersInv(st: State) {
    forall rid :: rid in st.readers ==> rid < st.nextId && st.readers[rid].subscribers != {}
  }

  ghost predicate Names(k: SubKey, t: Topic) { k.topicName == t.topicName && k.typeName == t.typeName }

  ghost predicate SubsInv(st: State) {
    forall k :: k in st.subs ==>
      && st.subs[k] in st.readers
      && Names(k, st.readers[st.subs[k]].topic)
      && k.session in st.readers[st.subs[k]].subscribers
  }

  /** `key_to_reader` and the live readers' keys are inverse maps; every live reader has a subscriber; every tracked
      subscription points to a live reader of its topic and type that lists the session. */
  ghost predicate Inv(st: State) { KeysInv(st) && ReadersInv(st) && SubsInv(st) }

  lemma AttachInv(st: State, rid: nat, t: Topic, q: QosSet, sid: SessionId)
    requires Inv(st) && Shared(st, KeyOf(t, q)) == Some(rid)
    ensures Inv(Attach(st, rid, t, sid))
  {
    hide KeyBytes, SerializeQos;
    var st' := Attach(st, rid, t, sid);
    assert ReaderKeyOf(st.readers[rid]) == KeyOf(t, q);
    forall k | k in st'.subs
      ensures st'.subs[k] in st'.readers && Names(k, st'.readers[st'.subs[k]].topic)
           && k.session in st'.readers[st'.subs[k]].subscribers
    {
      if k != SubKeyOf(sid, t) { assert k in st.subs; }
    }
    assert sid in st'.readers[rid].subscribers;
  }

  lemma CreateInv(st: State, t: Topic, q: QosSet, sid: SessionId)
    requires Inv(st) && Shared(st, KeyOf(t, q)).None?
    ensures Inv(Create(st, t, q, sid))
  {
    CreateKeysInv(st, t, q, sid);
    hide KeysInv, KeyOf, Normalize, Shared;
    var st' := Create(st, t, q, sid);
    assert sid in st'.readers[st.nextId].subscribers;
  }

  lemma CreateKeysInv(st: State, t: Topic, q: QosSet, sid: SessionId)
    requires Inv(st) && Shared(st, KeyOf(t, q)).None?
    ensures KeysInv(Create(st, t, q, sid))
  {
    hide KeyBytes, SerializeQos, Normalize, SubsInv;
    KeyOfNew(t, q, sid);
    assert KeyOf(t, q) !in st.keys;
  }

  lemma KeyOfNew(t: Topic, q: QosSet, sid: SessionId)
    ensures ReaderKeyOf(Reader(t, Normalize(q), {sid})) == KeyOf(t, q)
  {
    hide Normalize, SerializeQos;
  }

  lemma SubscribeInv(st: State, t: Topic, q: QosSet, sid: SessionId, created: bool)
    requires Inv(st)
    ensures Inv(Subscribe(st, t, q, sid, created))
  {
    hide Inv, Attach, Create;
    match Shared(st, KeyOf(t, q))
    case Some(rid) => AttachInv(st, rid, t, q, sid);
    case None => if created { CreateInv(st, t, q, sid); }
  }

  /** Dropping `sid` from some readers is safe once no tracked entry of `sid` points to them any more. */
  lemma DetachInv(st: State, rids: set<nat>, sid: SessionId)
    requires Inv(st) && forall k :: k in st.subs && k.session == sid ==> st.subs[k] !in rids
    ensures Inv(Detach(st, rids, sid))
  {
    hide ReaderKeyOf;
    DetachKeysInv(st, rids, sid);
    var st' := Detach(st, rids, sid);
    forall k | k in st'.subs
      ensures st'.subs[k] in st'.readers && Names(k, st'.readers[st'.subs[k]].topic)
           && k.session in st'.readers[st'.subs[k]].subscribers
    {
      assert k in st.subs && st.subs[k] in st.readers;
    }
  }

  lemma DetachKeysInv(st: State, rids: set<nat>, sid: SessionId)
    requires KeysInv(st)
    ensures KeysInv(Detach(st, rids, sid))
  {
    hide SerializeQos;
    var st' := Detach(st, rids, sid);
    forall k | k in st'.keys ensures st'.keys[k] in st'.readers && ReaderKeyOf(st'.readers[st'.keys[k]]) == k {
      assert k in st.keys;
    }
    forall rid | rid in st'.readers
      ensures var k := ReaderKeyOf(st'.readers[rid]); k in st'.keys && st'.keys[k] == rid
    {
      assert ReaderKeyOf(st'.readers[rid]) == ReaderKeyOf(st.readers[rid]);
    }
  }

  lemma UnsubscribeInv(st: State, t: bytes, y: bytes, sid: SessionId)
    requires Inv(st)
    ensures Inv(Unsubscribe(st, t, y, sid))
  {
    hide ReaderKeyOf, Detach;
    var sk := SubKey(sid, t, y);
    if sk in st.subs {
      var mid := st.(subs := st.subs - {sk});
      forall k | k in mid.subs && k.session == sid ensures mid.subs[k] !in {st.subs[sk]} {
        OneEntryPerReader(st, k, sk);
      }
      DetachInv(mid, {st.subs[sk]}, sid);
    }
  }

  /** A session tracks a reader under one entry only: the reader's own topic and type. */
  lemma OneEntryPerReader(st: State, k: SubKey, k': SubKey)
    requires SubsInv(st) && k in st.subs && k' in st.subs && k.session == k'.session
    ensures st.subs[k] == st.subs[k'] ==> k == k'
  {
  }

  lemma RemoveSessionInv(st: State, sid: SessionId)
    requires Inv(st)
    ensures Inv(RemoveSession(st, sid))
  {
    hide ReaderKeyOf, Detach;
    var mid := st.(subs := st.subs - SessionKeys(st, sid));
    assert Inv(mid);
    DetachInv(mid, SessionReaders(st, sid), sid);
  }

  // ---- Untracked pairs ----

  predicate Lists(st: State, s: SessionId, rid: nat) { rid in st.readers && s in st.readers[rid].subscribers }

  predicate Tracked(st: State, s: SessionId, rid: nat)
    requires rid in st.readers
  {
    var k := SubKeyOf(s, st.readers[rid].topic);
    k in st.subs && st.subs[k] == rid
  }

  /** The reader lists the session, but the session's entry for that topic and type does not lead to it. */
  predicate Untracked(st: State, s: SessionId, rid: nat) { Lists(st, s, rid) && !Tracked(st, s, rid) }

  /** The reader an accepted SUBSCRIBE takes the session's entry away from. */
  function Displaced(st: State, t: Topic, q: QosSet, sid: SessionId, created: bool): Option<nat> {
    var k := SubKeyOf(sid, t);
    var r := SubscribeResult(st, t, q, created);
    if r.Some? && k in st.subs && st.subs[k] != r.value then Some(st.subs[k]) else None
  }

  /** A SUBSCRIBE makes exactly the displaced pair untracked, and re-tracks the pair it subscribes. */
  lemma UntrackedAfterSubscribe(st: State, t: Topic, q: QosSet, sid: SessionId, created: bool, s: SessionId, x: nat)
    requires Inv(st)
    ensures var r := SubscribeResult(st, t, q, created);
            Untracked(Subscribe(st, t, q, sid, created), s, x) <==>
              || (Untracked(st, s, x) && !(s == sid && r == Some(x)))
              || (s == sid && Displaced(st, t, q, sid, created) == Some(x))
  {
    hide KeyBytes, SerializeQos, Normalize;
    var st' := Subscribe(st, t, q, sid, created);
    match Shared(st, KeyOf(t, q))
    case Some(rid) =>
      assert ReaderKeyOf(st.readers[rid]) == KeyOf(t, q);
      UntrackedAttach(st, rid, t, sid, s, x);
    case None =>
      if created { UntrackedCreate(st, t, q, sid, s, x); }
  }

  lemma UntrackedAttach(st: State, rid: nat, t: Topic, sid: SessionId, s: SessionId, x: nat)
    requires Inv(st) && rid in st.readers
    requires st.readers[rid].topic.topicName == t.topicName && st.readers[rid].topic.typeName == t.typeName
    ensures Untracked(Attach(st, rid, t, sid), s, x) <==>
              || (Untracked(st, s, x) && !(s == sid && rid == x))
              || (s == sid && x != rid && SubKeyOf(sid, t) in st.subs && st.subs[SubKeyOf(sid, t)] == x)
  {
    hide ReaderKeyOf;
  }

  lemma UntrackedCreate(st: State, t: Topic, q: QosSet, sid: SessionId, s: SessionId, x: nat)
    requires Inv(st)
    ensures Untracked(Create(st, t, q, sid), s, x) <==>
              || Untracked(st, s, x)
              || (s == sid && SubKeyOf(sid, t) in st.subs && st.subs[SubKeyOf(sid, t)] == x)
  {
    hide ReaderKeyOf, KeyOf, Normalize;
    assert st.nextId !in st.readers;
  }

  /** Leaving changes no untracked pair: neither UNSUBSCRIBE nor session removal can clean one up. */
  lemma UntrackedAfterUnsubscribe(st: State, t: bytes, y: bytes, sid: SessionId, s: SessionId, x: nat)
    requires Inv(st)
    ensures Untracked(Unsubscribe(st, t, y, sid), s, x) <==> Untracked(st, s, x)
  {
    hide ReaderKeyOf;
  }

  lemma UntrackedAfterRemove(st: State, sid: SessionId, s: SessionId, x: nat)
    requires Inv(st)
    ensures Untracked(RemoveSession(st, sid), s, x) <==> Untracked(st, s, x)
  {
    hide ReaderKeyOf;
    TrackedReaders(st, sid, x);
  }

  /** The readers a session's entries lead to are exactly those that list it and that it tracks. */
  lemma TrackedReaders(st: State, sid: SessionId, x: nat)
    requires Inv(st)
    ensures x in SessionReaders(st, sid) <==> Lists(st, sid, x) && Tracked(st, sid, x)
  {
    hide ReaderKeyOf;
    if Lists(st, sid, x) && Tracked(st, sid, x) {
      assert SubKeyOf(sid, st.readers[x].topic) in SessionKeys(st, sid);
    }
  }

  /** After removal the readers still listing the session are exactly its untracked ones, and no entry is left. */
  lemma RemoveSessionLeaves(st: State, sid: SessionId, x: nat)
    requires Inv(st)
    ensures Lists(RemoveSession(st, sid), sid, x) <==> Untracked(st, sid, x)
    ensures forall k :: k in RemoveSession(st, sid).subs ==> k.session != sid
  {
    hide ReaderKeyOf;
    TrackedReaders(st, sid, x);
  }

  /** Another session keeps every reader it was in, and every entry with the reader it leads to. */
  lemma RemoveSessionFrame(st: State, sid: SessionId, s: SessionId, x: nat)
    requires s != sid
    ensures Lists(RemoveSession(st, sid), s, x) <==> Lists(st, s, x)
    ensures var subs := RemoveSession(st, sid).subs;
            forall k: SubKey :: k.session == s ==>
              (k in subs <==> k in st.subs) && (k in subs ==> subs[k] == st.subs[k])
  {
  }

  // ---- Runs ----

  datatype Op =
    | Sub(topic: Topic, qos: QosSet, sid: SessionId, created: bool)
    | Unsub(topicName: bytes, typeName: bytes, sid: SessionId)
    | Remove(sid: SessionId)

  function Step(st: State, op: Op): State {
    match op
    case Sub(t, q, sid, c) => Subscribe(st, t, q, sid, c)
    case Unsub(t, y, sid) => Unsubscribe(st, t, y, sid)
    case Remove(sid) => RemoveSession(st, sid)
  }

  function Run(ops: seq<Op>): State {
    if ops == [] then EMPTY else Step(Run(ops[..|ops| - 1]), ops[|ops| - 1])
  }

  lemma StepInv(st: State, op: Op)
    requires Inv(st)
    ensures Inv(Step(st, op))
  {
    hide Inv, Subscribe, Unsubscribe, RemoveSession;
    match op
    case Sub(t, q, sid, c) => SubscribeInv(st, t, q, sid, c);
    case Unsub(t, y, sid) => UnsubscribeInv(st, t, y, sid);
    case Remove(sid) => RemoveSessionInv(st, sid);
  }

  lemma EmptyInv() ensures Inv(EMPTY) {}

  /** The invariant holds in every reachable state, whatever DDS answers. */
  lemma {:induction false} ReachableInv(ops: seq<Op>)
    ensures Inv(Run(ops))
  {
    hide Inv, Step;
    if ops == [] { EmptyInv(); } else {
      ReachableInv(ops[..|ops| - 1]);
      StepInv(Run(ops[..|ops| - 1]), ops[|ops| - 1]);
    }
  }

  /** The pair an operation displaces, if any. */
  function DisplacedBy(st: State, op: Op): Option<(SessionId, nat)> {
    match op
    case Sub(t, q, sid, c) => (match Displaced(st, t, q, sid, c) case None => None case Some(x) => Some((sid, x)))
    case _ => None
  }

  /** On every run the untracked pairs can grow only by the pair that a re-subscribe displaces. */
  lemma UntrackedGrowsOnlyByDisplaced(ops: seq<Op>, op: Op, s: SessionId, x: nat)
    ensures var st := Run(ops);
            Untracked(Step(st, op), s, x) && !Untracked(st, s, x) ==> DisplacedBy(st, op) == Some((s, x))
    ensures var st := Run(ops);
            DisplacedBy(st, op) == Some((s, x)) ==> Untracked(Step(st, op), s, x)
  {
    hide Run, Inv, Untracked, Subscribe, Unsubscribe, RemoveSession, Displaced, SubscribeResult;
    var st := Run(ops);
    ReachableInv(ops);
    match op
    case Sub(t, q, sid, c) => UntrackedAfterSubscribe(st, t, q, sid, c, s, x);
    case Unsub(t, y, sid) => UntrackedAfterUnsubscribe(st, t, y, sid, s, x);
    case Remove(sid) => UntrackedAfterRemove(st, sid, s, x);
  }

  // ---- Refinement of a plain set of subscriptions ----

  datatype Entry = Entry(sub: SubKey, key: ReaderKey)

  ghost predicate Live(a: set<Entry>, key: ReaderKey) { exists e :: e in a && e.key == key }

  /** The plain set: add, remove one, remove a session. A new key needs DDS to create a reader. */
  ghost function SetStep(a: set<Entry>, op: Op): set<Entry> {
    match op
    case Sub(t, q, sid, c) =>
      if c || Live(a, KeyOf(t, q)) then a + {Entry(SubKeyOf(sid, t), KeyOf(t, q))} else a
    case Unsub(t, y, sid) => set e | e in a && e.sub != SubKey(sid, t, y)
    case Remove(sid) => set e | e in a && e.sub.session != sid
  }

  ghost function SetRun(ops: seq<Op>): set<Entry> {
    if ops == [] then {} else SetStep(SetRun(ops[..|ops| - 1]), ops[|ops| - 1])
  }

  /** A re-subscribe of a held topic and type with another reader key. */
  ghost predicate Conflicts(a: set<Entry>, op: Op) {
    op.Sub? && exists e :: e in a && e.sub == SubKeyOf(op.sid, op.topic) && e.key != KeyOf(op.topic, op.qos)
  }

  ghost predicate ConflictFree(ops: seq<Op>) {
    ops != [] ==> ConflictFree(ops[..|ops| - 1]) && !Conflicts(SetRun(ops[..|ops| - 1]), ops[|ops| - 1])
  }

  /** The registry is the plain set: same subscriptions, a reader live exactly when some entry has its key, and its
      subscribers exactly the sessions of those entries. */
  ghost predicate Refines(st: State, a: set<Entry>) {
    && Inv(st)
    && (forall k, key :: Entry(k, key) in a <==> k in st.subs && ReaderKeyOf(st.readers[st.subs[k]]) == key)
    && (forall s, x :: !Untracked(st, s, x))
  }

  lemma RefinesMeans(st: State, a: set<Entry>, key: ReaderKey)
    requires Refines(st, a)
    ensures Live(a, key) <==> key in st.keys
    ensures key in st.keys ==> forall s :: s in st.readers[st.keys[key]].subscribers <==>
              Entry(SubKey(s, key.topicName, key.typeName), key) in a
  {
    hide SerializeQos;
    if key in st.keys {
      var rid := st.keys[key];
      assert ReaderKeyOf(st.readers[rid]) == key;
      forall s ensures s in st.readers[rid].subscribers <==> Entry(SubKey(s, key.topicName, key.typeName), key) in a {
        assert !Untracked(st, s, rid);
      }
      var s :| s in st.readers[rid].subscribers;
      assert Entry(SubKey(s, key.topicName, key.typeName), key) in a;
    }
    if Live(a, key) {
      var e :| e in a && e.key == key;
      assert Entry(e.sub, e.key) in a;
    }
  }

  lemma RefinesSub(st: State, a: set<Entry>, op: Op)
    requires Refines(st, a) && op.Sub? && !Conflicts(a, op)
    ensures Refines(Step(st, op), SetStep(a, op))
  {
    hide SerializeQos, KeyBytes, Normalize, KeysInv, ReadersInv;
    var t, q, sid, c := op.topic, op.qos, op.sid, op.created;
    var st', a' := Step(st, op), SetStep(a, op);
    var key, sk := KeyOf(t, q), SubKeyOf(sid, t);
    RefinesMeans(st, a, key);
    SubscribeInv(st, t, q, sid, c);
    forall s, x ensures !Untracked(st', s, x) {
      UntrackedAfterSubscribe(st, t, q, sid, c, s, x);
      NoDisplacement(st, a, op);
    }
    SubscribeEntries(st, t, q, sid, c);
    forall k, key' ensures Entry(k, key') in a' <==> k in st'.subs && ReaderKeyOf(st'.readers[st'.subs[k]]) == key' {
      if k == sk { NoConflictEntry(st, a, op, key'); }
    }
  }

  lemma NoDisplacement(st: State, a: set<Entry>, op: Op)
    requires Refines(st, a) && op.Sub? && !Conflicts(a, op)
    ensures Displaced(st, op.topic, op.qos, op.sid, op.created).None?
  {
    hide SerializeQos, KeyBytes, Normalize;
    var sk := SubKeyOf(op.sid, op.topic);
    if sk in st.subs {
      var r := st.readers[st.subs[sk]];
      assert Entry(sk, ReaderKeyOf(r)) in a;
      assert ReaderKeyOf(r) == KeyOf(op.topic, op.qos);
    }
  }

  lemma NoConflictEntry(st: State, a: set<Entry>, op: Op, key: ReaderKey)
    requires Refines(st, a) && op.Sub? && !Conflicts(a, op)
    ensures Entry(SubKeyOf(op.sid, op.topic), key) in a ==> key == KeyOf(op.topic, op.qos)
  {
    hide Refines, KeyOf;
    var sk := SubKeyOf(op.sid, op.topic);
    if Entry(sk, key) in a { assert Entry(sk, key).sub == sk; }
  }

  /** An accepted SUBSCRIBE sets the session's entry to a reader of that key; other entries keep their readers' keys. */
  lemma SubscribeEntries(st: State, t: Topic, q: QosSet, sid: SessionId, c: bool)
    requires Inv(st)
    ensures var st' := Subscribe(st, t, q, sid, c);
            && (forall k :: k in st.subs && k != SubKeyOf(sid, t) ==>
                  k in st'.subs && st'.subs[k] in st'.readers && st.subs[k] in st.readers
                  && ReaderKeyOf(st'.readers[st'.subs[k]]) == ReaderKeyOf(st.readers[st.subs[k]]))
            && (forall k :: k in st'.subs && k != SubKeyOf(sid, t) ==> k in st.subs)
            && (c || KeyOf(t, q) in st.keys ==>
                  SubKeyOf(sid, t) in st'.subs && st'.subs[SubKeyOf(sid, t)] in st'.readers
                  && ReaderKeyOf(st'.readers[st'.subs[SubKeyOf(sid, t)]]) == KeyOf(t, q))
            && (!(c || KeyOf(t, q) in st.keys) ==> st' == st)
  {
    hide SerializeQos, KeyBytes, Normalize;
    KeyOfNew(t, q, sid);
  }

  lemma RefinesLeave(st: State, a: set<Entry>, op: Op)
    requires Refines(st, a) && !op.Sub?
    ensures Refines(Step(st, op), SetStep(a, op))
  {
    hide SerializeQos, KeysInv, ReadersInv;
    var st', a' := Step(st, op), SetStep(a, op);
    StepInv(st, op);
    forall s, x ensures !Untracked(st', s, x) {
      match op
      case Unsub(t, y, sid) => UntrackedAfterUnsubscribe(st, t, y, sid, s, x);
      case Remove(sid) => UntrackedAfterRemove(st, sid, s, x);
    }
    forall k, key ensures Entry(k, key) in a' <==> k in st'.subs && ReaderKeyOf(st'.readers[st'.subs[k]]) == key {
      LeaveEntries(st, op, k);
    }
  }

  predicate Stays(op: Op, k: SubKey)
    requires !op.Sub?
  {
    if op.Unsub? then k != SubKey(op.sid, op.topicName, op.typeName) else k.session != op.sid
  }

  lemma LeaveEntries(st: State, op: Op, k: SubKey)
    requires Inv(st) && !op.Sub?
    ensures var st' := Step(st, op);
            && (k in st'.subs <==> k in st.subs && Stays(op, k))
            && (k in st'.subs ==>
                  st'.subs[k] in st'.readers && st.subs[k] in st.readers
                  && ReaderKeyOf(st'.readers[st'.subs[k]]) == ReaderKeyOf(st.readers[st.subs[k]]))
  {
    hide SerializeQos;
    StepInv(st, op);
  }

  /** On every run without a conflicting re-subscribe the registry refines the plain set. */
  lemma {:induction false} Refinement(ops: seq<Op>)
    requires ConflictFree(ops)
    ensures Refines(Run(ops), SetRun(ops))
  {
    hide Refines, Step, SetStep, Conflicts;
    if ops == [] { EmptyRefines(); } else {
      var prev, op := ops[..|ops| - 1], ops[|ops| - 1];
      Refinement(prev);
      if op.Sub? { RefinesSub(Run(prev), SetRun(prev), op); } else { RefinesLeave(Run(prev), SetRun(prev), op); }
    }
  }

  lemma EmptyRefines() ensures Refines(EMPTY, {}) {}

  /** So there `remove_session` leaves no trace of the session in any of the maps. */
  lemma RemoveSessionClean(ops: seq<Op>, sid: SessionId)
    requires ConflictFree(ops)
    ensures var st := RemoveSession(Run(ops), sid);
            (forall x :: !Lists(st, sid, x)) && (forall k :: k in st.subs ==> k.session != sid)
  {
    hide Run, SetRun, RemoveSession, Lists, Inv;
    Refinement(ops);
    forall x ensures !Lists(RemoveSession(Run(ops), sid), sid, x) {
      assert !Untracked(Run(ops), sid, x);
      RemoveSessionLeaves(Run(ops), sid, x);
    }
    RemoveSessionLeaves(Run(ops), sid, 0);
  }

  /** A conflicting re-subscribe does leave one: the first reader keeps listing a removed session for ever. */
  lemma ResubscribeLeavesTrace(t: Topic, q: QosSet, q': QosSet, sid: SessionId)
    requires KeyOf(t, q) != KeyOf(t, q')
    ensures var ops := [Sub(t, q, sid, true), Sub(t, q', sid, true)];
            Lists(RemoveSession(Run(ops), sid), sid, 1)
  {
    hide KeyOf, Normalize, RemoveSession, Inv;
    var a, b := Sub(t, q, sid, true), Sub(t, q', sid, true);
    var st1, st2 := Subscribe(EMPTY, t, q, sid, true), Run([a, b]);
    assert [a, b][..1] == [a] && [a][..0] == [];
    assert Run([a]) == st1;
    assert st1 == Create(EMPTY, t, q, sid);
    EmptyInv();
    SubscribeInv(EMPTY, t, q, sid, true);
    UntrackedAfterSubscribe(st1, t, q', sid, true, sid, 1);
    ReachableInv([a, b]);
    RemoveSessionLeaves(st2, sid, 1);
  }

  // ---- The registry object ----

  lemma NonEmpty(s: set<nat>)
    ensures s != {} ==> exists x :: x in s
  {
    if forall x :: x !in s { assert s == {}; }
  }

  class ReaderRegistry {
    var readers: map<nat, Reader>
    var keyToReader: map<ReaderKey, nat>
    var subscriptions: map<SubKey, nat>
    var nextId: nat

    function View(): State
      reads this
    {
      State(readers, keyToReader, subscriptions, nextId)
    }

    constructor ()
      ensures View() == EMPTY
    {
      readers, keyToReader, subscriptions, nextId := map[], map[], map[], 1;
    }

    method SubscribeSession(t: Topic, q: QosSet, sid: SessionId, created: bool) returns (r: Option<nat>)
      modifies this
      ensures r == SubscribeResult(old(View()), t, q, created)
      ensures View() == Subscribe(old(View()), t, q, sid, created)
    {
      hide KeyBytes, Normalize;
      var key := KeyOf(t, q);
      if key in keyToReader {
        var rid := keyToReader[key];
        if rid in readers {
          var reader := readers[rid];
          readers := readers[rid := reader.(subscribers := reader.subscribers + {sid})];
          subscriptions := subscriptions[SubKeyOf(sid, t) := rid];
          return Some(rid);
        }
      }
      if !created { return None; }
      var rid := nextId;
      nextId := nextId + 1;
      subscriptions := subscriptions[SubKeyOf(sid, t) := rid];
      keyToReader := keyToReader[key := rid];
      readers := readers[rid := Reader(t, Normalize(q), {sid})];
      r := Some(rid);
    }

    method UnsubscribeSession(t: bytes, y: bytes, sid: SessionId) returns (found: bool)
      modifies this
      ensures found == Unsubscribed(old(View()), t, y, sid)
      ensures View() == Unsubscribe(old(View()), t, y, sid)
    {
      var sk := SubKey(sid, t, y);
      if sk !in subscriptions { return false; }
      var rid := subscriptions[sk];
      subscriptions := subscriptions - {sk};
      ghost var mid := View();
      if rid !in readers {
        DetachNothing(mid, rid, sid);
        return false;
      }
      var left := Leave(readers[rid], sid);
      readers := readers[rid := left];
      if left.subscribers == {} {
        readers := readers - {rid};
        keyToReader := map k | k in keyToReader && keyToReader[k] != rid :: keyToReader[k];
      }
      DetachOne(mid, rid, sid);
      found := true;
    }

    method RemoveSessionReaders(sid: SessionId)
      modifies this
      ensures View() == RemoveSession(old(View()), sid)
    {
      hide Detach;
      var affected := ForgetEntries(sid);
      DropSubscriber(affected, sid);
    }

    /** The first loop of `remove_session`: drop the session's entries, collecting the readers they led to. */
    method ForgetEntries(sid: SessionId) returns (affected: set<nat>)
      modifies this
      ensures View() == old(View()).(subs := old(subscriptions) - SessionKeys(old(View()), sid))
      ensures affected == SessionReaders(old(View()), sid)
    {
      ghost var st0 := View();
      var todo := set k | k in subscriptions && k.session == sid;
      affected := {};
      while todo != {}
        invariant todo <= SessionKeys(st0, sid)
        invariant View() == st0.(subs := st0.subs - (SessionKeys(st0, sid) - todo))
        invariant affected == set k | k in SessionKeys(st0, sid) - todo :: st0.subs[k]
      {
        var k :| k in todo;
        affected := affected + {subscriptions[k]};
        subscriptions := subscriptions - {k};
        todo := todo - {k};
      }
    }

    /** The remaining loops: drop the session from those readers, then the readers left empty and their keys. */
    method DropSubscriber(rids: set<nat>, sid: SessionId)
      modifies this
      ensures View() == Detach(old(View()), rids, sid)
    {
      ghost var st0 := View();
      var rest := rids;
      var emptied: set<nat> := {};
      while rest != {}
        invariant rest <= rids
        invariant nextId == st0.nextId && keyToReader == st0.keys && subscriptions == st0.subs
        invariant emptied == Emptied(st0, rids - rest, sid)
        invariant readers.Keys == st0.readers.Keys
        invariant forall x :: x in readers ==>
                    readers[x] == if x in rids - rest then Leave(st0.readers[x], sid) else st0.readers[x]
      {
        NonEmpty(rest);
        var rid :| rid in rest;
        if rid in readers {
          var left := Leave(readers[rid], sid);
          readers := readers[rid := left];
          assert left.subscribers == {} <==> st0.readers[rid].subscribers <= {sid};
          if left.subscribers == {} { emptied := emptied + {rid}; }
        }
        rest := rest - {rid};
      }
      assert rids - {} == rids;
      readers := readers - emptied;
      keyToReader := map k | k in keyToReader && keyToReader[k] !in emptied :: keyToReader[k];
      assert readers == Detach(st0, rids, sid).readers;
      assert keyToReader == Detach(st0, rids, sid).keys;
    }
  }

  lemma DetachNothing(st: State, rid: nat, sid: SessionId)
    requires rid !in st.readers
    ensures Detach(st, {rid}, sid) == st
  {
    assert Emptied(st, {rid}, sid) == {};
    assert Detach(st, {rid}, sid).readers == st.readers;
    assert Detach(st, {rid}, sid).keys == st.keys;
  }

  lemma DetachOne(st: State, rid: nat, sid: SessionId)
    requires rid in st.readers
    ensures var left := Leave(st.readers[rid], sid);
            Detach(st, {rid}, sid) ==
              if left.subscribers == {}
              then st.(readers := st.readers - {rid}, keys := map k | k in st.keys && st.keys[k] != rid :: st.keys[k])
              else st.(readers := st.readers[rid := left])
  {
    var left := Leave(st.readers[rid], sid);
    var st' := Detach(st, {rid}, sid);
    if left.subscribers == {} {
      assert st.readers[rid].subscribers <= {sid};
      assert Emptied(st, {rid}, sid) == {rid};
      assert st'.readers == st.readers - {rid};
    } else {
      assert Emptied(st, {rid}, sid) == {};
      assert st'.readers == st.readers[rid := left];
      assert st'.keys == st.keys;
    }
  }
}

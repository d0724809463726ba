/** Topics shared by the registries. */
module Entities {
  import opened Bytes
  import opened Protocol

  type SessionId = nat

  datatype Topic = Topic(handle: int, topicName: bytes, typeName: bytes, isKeyed: bool, keys: seq<KeyField>)
}

/** The writer registry: writers by id, and for each session the list of ids it owns (src/dds/writer.rs). */
module Writers {
  import opened Bytes
  import opened Qos
  import opened QosEquality
  import opened Entities

  datatype Writer = Writer(topic: Topic, qos: QosSet)
  datatype Owned = Owned(writer: Writer, owner: SessionId)
  datatype State = State(writers: map<u32, Owned>, sessions: map<SessionId, seq<u32>>)

  datatype Lookup = Found(writer: Writer) | NotFound | NotOwner

  const EMPTY := State(map[], map[])

  function Ids(st: State, sid: SessionId): seq<u32> {
    if sid in st.sessions then st.sessions[sid] else []
  }

  function Register(st: State, id: u32, w: Writer, sid: SessionId): State {
    State(st.writers[id := Owned(w, sid)], st.sessions[sid := Ids(st, sid) + [id]])
  }

  function Get(st: State, id: u32, sid: SessionId): Lookup {
    if id !in st.writers then NotFound
    else if st.writers[id].owner != sid then NotOwner
    else Found(st.writers[id].writer)
  }

  function Without(ids: seq<u32>, x: u32): (r: seq<u32>)
    ensures forall y :: y in r <==> y in ids && y != x
  {
    if ids == [] then []
    else if ids[0] == x then Without(ids[1..], x)
    else [ids[0]] + Without(ids[1..], x)
  }

  function Delete(st: State, id: u32, sid: SessionId): State {
    if !Get(st, id, sid).Found? then st
    else State(st.writers - {id},
               if sid in st.sessions then st.sessions[sid := Without(st.sessions[sid], id)] else st.sessions)
  }

  function RemoveSession(st: State, sid: SessionId): State {
    State(st.writers - (set x | x in Ids(st, sid)), st.sessions - {sid})
  }

  predicate Matches(w: Writer, t: bytes, y: bytes, q: QosSet) {
    w.topic.topicName == t && w.topic.typeName == y && NormalizedEq(w.qos, q)
  }

  function FindIn(ids: seq<u32>, m: map<u32, Owned>, t: bytes, y: bytes, q: QosSet): Option<u32> {
    if ids == [] then None
    else if ids[0] in m && Matches(m[ids[0]].writer, t, y, q) then Some(ids[0])
    else FindIn(ids[1..], m, t, y, q)
  }

  function FindByTopic(st: State, sid: SessionId, t: bytes, y: bytes, q: QosSet): Option<u32> {
    FindIn(Ids(st, sid), st.writers, t, y, q)
  }

  ghost predicate NoDup(s: seq<u32>) { forall i, j :: 0 <= i < j < |s| ==> s[i] != s[j] }

  ghost predicate NoDuplicates(st: State) { forall s :: s in st.sessions ==> NoDup(st.sessions[s]) }

  ghost predicate ListedAreOwned(st: State) {
    forall s, x :: s in st.sessions && x in st.sessions[s] ==> x in st.writers && st.writers[x].owner == s
  }

  ghost predicate OwnedAreListed(st: State) { forall x :: x in st.writers ==> x in Ids(st, st.writers[x].owner) }

  /** The lists are duplicate-free and partition the registered writers by owner. */
  ghost predicate Inv(st: State) { NoDuplicates(st) && ListedAreOwned(st) && OwnedAreListed(st) }

  /** Registering keeps the partition exactly when the id is fresh; a reused id always breaks it. */
  lemma RegisterKeepsIff(st: State, id: u32, w: Writer, sid: SessionId)
    requires Inv(st)
    ensures Inv(Register(st, id, w, sid)) <==> id !in st.writers
  {
    hide Inv, Register;
    if id in st.writers { ReusedIdBreaks(st, id, w, sid); } else { FreshIdKeeps(st, id, w, sid); }
  }

  lemma ReusedIdBreaks(st: State, id: u32, w: Writer, sid: SessionId)
    requires Inv(st) && id in st.writers
    ensures !Inv(Register(st, id, w, sid))
  {
    var st' := Register(st, id, w, sid);
    var before, o := Ids(st, sid), st.writers[id].owner;
    assert id in Ids(st, o);
    if o == sid {
      var i :| 0 <= i < |before| && before[i] == id;
      assert st'.sessions[sid][i] == st'.sessions[sid][|before|];
      assert !NoDup(st'.sessions[sid]);
    } else {
      assert id in st'.sessions[o] && st'.writers[id].owner != o;
    }
  }

  lemma FreshIdKeeps(st: State, id: u32, w: Writer, sid: SessionId)
    requires Inv(st) && id !in st.writers
    ensures Inv(Register(st, id, w, sid))
  {
    var st' := Register(st, id, w, sid);
    var before := Ids(st, sid);
    assert st'.sessions[sid] == before + [id] && id !in before;
    assert NoDup(before + [id]);
    assert OwnedAreListed(st') by {
      forall x | x in st'.writers ensures x in Ids(st', st'.writers[x].owner) {
        if x == id { assert (before + [id])[|before|] == id; } else { assert x in Ids(st, st.writers[x].owner); }
      }
    }
  }

  lemma {:induction false} WithoutNoDup(ids: seq<u32>, x: u32)
    requires NoDup(ids)
    ensures NoDup(Without(ids, x))
  {
    if ids != [] {
      WithoutNoDup(ids[1..], x);
      var w := Without(ids[1..], x);
      assert forall k :: 0 <= k < |w| ==> w[k] in w;
      assert forall y :: y in ids[1..] ==> y != ids[0];
    }
  }

  lemma DeleteInv(st: State, id: u32, sid: SessionId)
    requires Inv(st) && id in Ids(st, sid)
    ensures Inv(Delete(st, id, sid))
  {
    DeleteIs(st, id, sid);
    hide Delete, Without;
    DeleteListed(st, id, sid);
    DeleteOwned(st, id, sid);
    WithoutNoDup(st.sessions[sid], id);
    hide ListedAreOwned, NoDup, Ids;
    assert NoDuplicates(Delete(st, id, sid));
  }

  lemma DeleteIs(st: State, id: u32, sid: SessionId)
    requires Inv(st) && id in Ids(st, sid)
    ensures Delete(st, id, sid) == State(st.writers - {id}, st.sessions[sid := Without(st.sessions[sid], id)])
  {
    hide NoDuplicates, OwnedAreListed;
  }

  lemma DeleteListed(st: State, id: u32, sid: SessionId)
    requires Inv(st) && id in Ids(st, sid)
    ensures ListedAreOwned(Delete(st, id, sid))
  {
    hide Inv, Delete, Without;
    DeleteIs(st, id, sid);
    var st' := Delete(st, id, sid);
    forall s, x | s in st'.sessions && x in st'.sessions[s] ensures x in st'.writers && st'.writers[x].owner == s {
      StillListed(st, id, sid, s, x);
    }
  }

  lemma StillListed(st: State, id: u32, sid: SessionId, s: SessionId, x: u32)
    requires Inv(st) && id in Ids(st, sid) && s in st.sessions
    requires x in (if s == sid then Without(st.sessions[sid], id) else st.sessions[s])
    ensures x in st.writers && st.writers[x].owner == s && x != id
  {
    hide Without, NoDuplicates, OwnedAreListed;
    assert st.writers[id].owner == sid;
    assert x in st.sessions[s];
  }

  lemma DeleteOwned(st: State, id: u32, sid: SessionId)
    requires Inv(st) && id in Ids(st, sid)
    ensures OwnedAreListed(Delete(st, id, sid))
  {
    DeleteIs(st, id, sid);
    hide NoDuplicates, Delete, Without, ListedAreOwned;
    var st', rest := Delete(st, id, sid), Without(st.sessions[sid], id);
    forall x | x in st'.writers ensures x in Ids(st', st'.writers[x].owner) {
      assert x in Ids(st, st.writers[x].owner) && x != id;
      if st.writers[x].owner == sid { assert x in rest; }
    }
  }

  /** Deleting succeeds exactly for the owner of a registered writer, and removes that writer only. */
  lemma DeleteExact(st: State, id: u32, sid: SessionId)
    requires Inv(st)
    ensures Inv(Delete(st, id, sid))
    ensures Get(st, id, sid).Found? <==> id in Ids(st, sid)
    ensures id in Ids(st, sid) ==> Delete(st, id, sid).writers == st.writers - {id}
    ensures id !in Ids(st, sid) ==> Delete(st, id, sid) == st
    ensures forall s :: s != sid ==> Ids(Delete(st, id, sid), s) == Ids(st, s)
  {
    hide NoDup, Without;
    if id in Ids(st, sid) { DeleteInv(st, id, sid); }
  }

  lemma RemovedWriters(st: State, sid: SessionId)
    requires Inv(st)
    ensures var st' := RemoveSession(st, sid);
            forall x :: x in st'.writers <==> x in st.writers && st.writers[x].owner != sid
  {
    forall x | x in st.writers ensures x in Ids(st, sid) <==> st.writers[x].owner == sid {
      assert x in Ids(st, st.writers[x].owner);
    }
  }

  /** Removing a session removes exactly its writers and changes no other session. */
  lemma RemoveSessionExact(st: State, sid: SessionId)
    requires Inv(st)
    ensures var st' := RemoveSession(st, sid);
            && Inv(st') && sid !in st'.sessions
            && (forall x :: x in st'.writers <==> x in st.writers && st.writers[x].owner != sid)
            && (forall x :: x in st'.writers ==> st'.writers[x] == st.writers[x])
            && (forall s :: s != sid ==> Ids(st', s) == Ids(st, s))
  {
    RemovedWriters(st, sid);
    var st' := RemoveSession(st, sid);
    hide NoDup;
    forall s, x | s in st'.sessions && x in st'.sessions[s] ensures x in st'.writers && st'.writers[x].owner == s {
      assert s in st.sessions && x in st.sessions[s];
    }
    forall x | x in st'.writers ensures x in Ids(st', st'.writers[x].owner) {
      assert x in Ids(st, st.writers[x].owner);
    }
  }

  // ---- Choosing the implicit writer ----

  lemma {:induction false} FindSound(ids: seq<u32>, m: map<u32, Owned>, t: bytes, y: bytes, q: QosSet)
    ensures var r := FindIn(ids, m, t, y, q);
            r.Some? ==> r.value in ids && r.value in m && Matches(m[r.value].writer, t, y, q)
    ensures FindIn(ids, m, t, y, q).None? <==>
            forall x :: x in ids && x in m ==> !Matches(m[x].writer, t, y, q)
  {
    hide Matches;
    if ids != [] {
      FindSound(ids[1..], m, t, y, q);
      assert ids == [ids[0]] + ids[1..];
    }
  }

  lemma {:induction false} FindFrame(ids: seq<u32>, m: map<u32, Owned>, m': map<u32, Owned>, t: bytes, y: bytes,
                                     q: QosSet)
    requires forall x :: x in ids ==> (x in m <==> x in m') && (x in m ==> m'[x] == m[x])
    ensures FindIn(ids, m', t, y, q) == FindIn(ids, m, t, y, q)
  {
    hide Matches;
    if ids != [] { FindFrame(ids[1..], m, m', t, y, q); }
  }

  lemma {:induction false} FindAppend(ids: seq<u32>, x: u32, m: map<u32, Owned>, t: bytes, y: bytes, q: QosSet)
    ensures var r := FindIn(ids, m, t, y, q);
            FindIn(ids + [x], m, t, y, q)
            == if r.Some? then r else if x in m && Matches(m[x].writer, t, y, q) then Some(x) else None
  {
    hide Matches;
    if ids == [] {
      assert ids + [x] == [x];
      assert [x][1..] == [];
    } else {
      FindAppend(ids[1..], x, m, t, y, q);
      assert (ids + [x])[1..] == ids[1..] + [x];
    }
  }

  lemma {:induction false} FindWithout(ids: seq<u32>, x: u32, m: map<u32, Owned>, t: bytes, y: bytes, q: QosSet)
    requires FindIn(ids, m, t, y, q).Some? && FindIn(ids, m, t, y, q).value != x
    ensures FindIn(Without(ids, x), m - {x}, t, y, q) == FindIn(ids, m, t, y, q)
  {
    hide Matches;
    if ids[0] in m && Matches(m[ids[0]].writer, t, y, q) {
    } else {
      FindWithout(ids[1..], x, m, t, y, q);
      var r := [ids[0]] + Without(ids[1..], x);
      assert r[1..] == Without(ids[1..], x);
    }
  }

  /** A fresh registration is found at once by its own session, and never hides an earlier match. */
  lemma FindAfterRegister(st: State, id: u32, w: Writer, sid: SessionId, s: SessionId, t: bytes, y: bytes, q: QosSet)
    requires Inv(st) && id !in st.writers
    ensures var r := FindByTopic(st, s, t, y, q);
            FindByTopic(Register(st, id, w, sid), s, t, y, q)
            == if r.None? && s == sid && Matches(w, t, y, q) then Some(id) else r
  {
    hide Matches, FindIn;
    var st' := Register(st, id, w, sid);
    assert id !in Ids(st, s);
    FindFrame(Ids(st, s), st.writers, st'.writers, t, y, q);
    if s == sid { FindAppend(Ids(st, s), id, st'.writers, t, y, q); }
  }

  lemma FindAfterDelete(st: State, id: u32, sid: SessionId, s: SessionId, t: bytes, y: bytes, q: QosSet)
    requires Inv(st) && FindByTopic(st, s, t, y, q).Some? && FindByTopic(st, s, t, y, q) != Some(id)
    ensures FindByTopic(Delete(st, id, sid), s, t, y, q) == FindByTopic(st, s, t, y, q)
  {
    hide Matches, FindIn;
    if Get(st, id, sid).Found? {
      if s == sid {
        FindSound(Ids(st, s), st.writers, t, y, q);
        FindWithout(Ids(st, s), id, st.writers, t, y, q);
      } else {
        FindFrame(Ids(st, s), st.writers, st.writers - {id}, t, y, q);
      }
    }
  }

  lemma FindAfterRemoveSession(st: State, sid: SessionId, s: SessionId, t: bytes, y: bytes, q: QosSet)
    requires Inv(st) && s != sid
    ensures FindByTopic(RemoveSession(st, sid), s, t, y, q) == FindByTopic(st, s, t, y, q)
  {
    hide Matches, FindIn, RemoveSession, Inv;
    RemoveSessionExact(st, sid);
    OtherSessionKept(st, sid, s);
    FindFrame(Ids(st, s), st.writers, RemoveSession(st, sid).writers, t, y, q);
  }

  lemma OtherSessionKept(st: State, sid: SessionId, s: SessionId)
    requires Inv(st) && s != sid
    ensures forall x :: x in Ids(st, s) ==> x in st.writers && st.writers[x].owner != sid
  {
  }

  /** Sets with the same effect choose the same writer. */
  lemma {:induction false} FindSameEffect(ids: seq<u32>, m: map<u32, Owned>, t: bytes, y: bytes, q: QosSet, q': QosSet)
    requires Distinct(q) && Distinct(q') && NormalizedEq(q, q')
    requires forall x :: x in m ==> Distinct(m[x].writer.qos)
    ensures FindIn(ids, m, t, y, q) == FindIn(ids, m, t, y, q')
  {
    hide NormalizedEq, Distinct;
    if ids != [] {
      if ids[0] in m {
        var o := m[ids[0]].writer.qos;
        NormalizedEqTransitive(o, q, q');
        NormalizedEqSymmetric(q, q');
        NormalizedEqTransitive(o, q', q);
      }
      FindSameEffect(ids[1..], m, t, y, q, q');
    }
  }

  // ---- The registry object ----

  class WriterRegistry {
    var writers: map<u32, Owned>
    var sessionWriters: map<SessionId, seq<u32>>

    function View(): State
      reads this
    {
      State(writers, sessionWriters)
    }

    constructor ()
      ensures View() == EMPTY
    {
      writers, sessionWriters := map[], map[];
    }

    method RegisterWriter(id: u32, w: Writer, sid: SessionId)
      modifies this
      ensures View() == Register(old(View()), id, w, sid)
    {
      if sid !in sessionWriters { sessionWriters := sessionWriters[sid := []]; }
      sessionWriters := sessionWriters[sid := sessionWriters[sid] + [id]];
      writers := writers[id := Owned(w, sid)];
    }

    method DeleteWriter(id: u32, sid: SessionId) returns (r: Lookup)
      modifies this
      ensures r == Get(old(View()), id, sid)
      ensures View() == Delete(old(View()), id, sid)
    {
      if id !in writers { return NotFound; }
      if writers[id].owner != sid { return NotOwner; }
      r := Found(writers[id].writer);
      writers := writers - {id};
      if sid in sessionWriters {
        sessionWriters := sessionWriters[sid := Without(sessionWriters[sid], id)];
      }
    }

    method RemoveSessionWriters(sid: SessionId)
      modifies this
      ensures View() == RemoveSession(old(View()), sid)
    {
      if sid in sessionWriters {
        var ids := sessionWriters[sid];
        sessionWriters := sessionWriters - {sid};
        for i := 0 to |ids|
          invariant sessionWriters == old(sessionWriters) - {sid}
          invariant writers == old(writers) - (set x | x in ids[..i])
        {
          writers := writers - {ids[i]};
          assert ids[..i + 1] == ids[..i] + [ids[i]];
        }
        assert ids[..|ids|] == ids;
      } else {
        assert writers == writers - {};
        assert sessionWriters == sessionWriters - {sid};
        assert (set x | x in Ids(View(), sid)) == {};
      }
    }

    /** `find_by_topic`: the first match in the session's list. */
    method Find(sid: SessionId, t: bytes, y: bytes, q: QosSet) returns (r: Option<u32>)
      ensures r == FindByTopic(View(), sid, t, y, q)
    {
      if sid !in sessionWriters { return None; }
      var ids := sessionWriters[sid];
      for i := 0 to |ids|
        invariant FindIn(ids, writers, t, y, q) == FindIn(ids[i..], writers, t, y, q)
      {
        assert ids[i..][1..] == ids[i + 1..];
        if ids[i] in writers && Matches(writers[ids[i]].writer, t, y, q) { return Some(ids[i]); }
      }
      return None;
    }
  }
}

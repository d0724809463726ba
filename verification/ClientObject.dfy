/** The client as it is written: lists and a connection updated in place, with retry and restore loops
    (ddswsclient/client.go). The bridge at the far end of the connection is the value `remote`. */
module ClientObject {
  import opened Bytes
  import opened Protocol
  import opened Entities
  import C = Client
  import B = Bridge
  import Go = GoCodec

  class Client {
    var conn: Option<SessionId>
    var subs: seq<C.Sub>
    var writers: seq<C.Writer>
    var remote: B.State
    const max: nat
    const maxReconnects: int

    ghost function View(): (C.State, B.State)
      reads this
    {
      (C.State(conn, subs, writers), remote)
    }

    constructor (sid: SessionId, bridge: B.State, limit: nat, reconnects: int)
      ensures View() == (C.State(Some(sid), [], []), bridge) && max == limit && maxReconnects == reconnects
    {
      conn, subs, writers, remote := Some(sid), [], [], bridge;
      max, maxReconnects := limit, reconnects;
    }

    method Request(sid: SessionId, t: MsgType, payload: bytes, n: C.Net) returns (r: Option<bytes>)
      modifies this`remote
      ensures (remote, r) == C.Request(old(remote), sid, max, t, payload, n)
    {
      var (b, p) := C.Request(remote, sid, max, t, payload, n);
      remote, r := b, p;
    }

    method CreateWriter(w: C.Writer, n: C.Net) returns (ok: bool)
      modifies this`writers, this`remote
      ensures View() == C.CreateWriter(old(View().0), old(remote), max, w, n)
      ensures ok <==> |writers| > |old(writers)|
    {
      hide C.Request, C.WriterPayload, U32At;
      if conn.None? { return false; }
      var r := Request(conn.value, MsgType.CreateWriter, C.WriterPayload(w), n);
      if r.None? || |r.value| < 4 { return false; }
      writers := writers + [w.(writerId := U32At(r.value), closed := false)];
      return true;
    }

    method Subscribe(s: C.Sub, n: C.Net) returns (ok: bool)
      modifies this`subs, this`remote
      ensures View() == C.Subscribe(old(View().0), old(remote), max, s, n)
      ensures ok <==> |subs| > |old(subs)|
    {
      hide C.Request, C.SubscribePayload;
      if conn.None? { return false; }
      var r := Request(conn.value, MsgType.Subscribe, C.SubscribePayload(s), n);
      if r.None? { return false; }
      subs := subs + [s];
      return true;
    }

    /** `Writer.Close` with `removeWriter`: leave the list, then ask the bridge to delete the id. */
    method CloseWriter(token: nat, n: C.Net)
      modifies this`writers, this`remote
      ensures View() == C.CloseWriter(old(View().0), old(remote), max, token, n)
    {
      hide C.Request, Go.Encode;
      var i := 0;
      while i < |writers| && writers[i].token != token
        invariant 0 <= i <= |writers| && View() == old(View())
        invariant C.IndexOf(writers, token) == i + C.IndexOf(writers[i..], token)
      {
        assert writers[i..][1..] == writers[i + 1..];
        i := i + 1;
      }
      if i == |writers| || writers[i].closed { return; }
      var id := writers[i].writerId;
      writers := writers[..i] + writers[i + 1..];
      if conn.Some? {
        var _ := Request(conn.value, MsgType.DeleteWriter, Go.Encode(Go.GoDeleteWriterP(id)), n);
      }
    }

    method RemoveSub(token: nat)
      modifies this`subs
      ensures subs == C.WithoutSub(old(subs), token)
    {
      var i := 0;
      while i < |subs|
        invariant 0 <= i <= |subs| && subs == old(subs)
        invariant C.WithoutSub(subs, token) == subs[..i] + C.WithoutSub(subs[i..], token)
      {
        assert subs[i..][1..] == subs[i + 1..];
        if subs[i].token == token {
          subs := subs[..i] + subs[i + 1..];
          return;
        }
        i := i + 1;
      }
    }

    method Unsubscribe(s: C.Sub, n: C.Net)
      modifies this`subs, this`remote
      ensures View() == C.Unsubscribe(old(View().0), old(remote), max, s, n)
    {
      hide C.Request, Go.Encode, C.WithoutSub;
      RemoveSub(s.token);
      if conn.Some? {
        var _ := Request(conn.value, MsgType.Unsubscribe,
                         Go.Encode(Go.GoUnsubscribeP(s.endpoint.topicName, s.endpoint.typeName)), n);
      }
    }

    /** `restoreState`: every open writer is re-created and every subscription renewed, or an error is reported. */
    method RestoreState(a: C.Attempt) returns (ok: bool)
      requires a.max == max
      modifies this`writers, this`remote
      ensures var r := C.RestoreWriters(old(remote), a.sid, max, old(writers), a.forWriters);
              && writers == r.writers
              && (remote, ok) == if r.ok then C.RestoreSubs(r.b, a.sid, max, subs, a.forSubs) else (r.b, false)
    {
      hide C.RestoreWriters, C.RestoreSubs;
      ok := RestoreWriters(a);
      if ok { ok := RestoreSubs(a); }
    }

    ghost predicate WritersLeft(r: C.Restored, a: C.Attempt, i: nat, k: nat)
      reads this
      requires i <= |writers| && k <= |a.forWriters|
    {
      var t := C.RestoreWriters(remote, a.sid, max, writers[i..], a.forWriters[k..]);
      r == C.Restored(t.b, writers[..i] + t.writers, t.ok)
    }

    method RestoreWriters(a: C.Attempt) returns (ok: bool)
      requires a.max == max
      modifies this`writers, this`remote
      ensures C.Restored(remote, writers, ok) == C.RestoreWriters(old(remote), a.sid, max, old(writers), a.forWriters)
    {
      hide C.RestoreWriters;
      ghost var r := C.RestoreWriters(remote, a.sid, max, writers, a.forWriters);
      var i: nat, k: nat := 0, 0;
      assert writers[0..] == writers && a.forWriters[0..] == a.forWriters;
      while i < |writers|
        invariant 0 <= i <= |writers| && k <= |a.forWriters| && WritersLeft(r, a, i, k)
        decreases |writers| - i
      {
        var moved, more := RestoreWriter(r, a, i, k);
        if !more { return false; }
        i, k := i + 1, moved;
      }
      C.RestoreNone(remote, a.sid, max, a.forWriters[k..]);
      assert writers[i..] == [] && writers[..i] == writers;
      return true;
    }

    /** One turn of the loop over the writers. */
    method RestoreWriter(ghost r: C.Restored, a: C.Attempt, i: nat, k: nat) returns (moved: nat, more: bool)
      requires a.max == max && i < |writers| && k <= |a.forWriters|
      modifies this`writers, this`remote
      ensures |writers| == |old(writers)| && moved <= |a.forWriters|
      ensures old(WritersLeft(r, a, i, k)) ==>
                if more then WritersLeft(r, a, i + 1, moved) else C.Restored(remote, writers, false) == r
    {
      hide C.Request, C.WriterPayload, U32At;
      assert writers[i..][1..] == writers[i + 1..];
      ghost var ws := writers;
      if writers[i].closed { return k, true; }
      if k == |a.forWriters| { return k, false; }
      assert a.forWriters[k..][1..] == a.forWriters[k + 1..];
      var p := Request(a.sid, MsgType.CreateWriter, C.WriterPayload(writers[i]), a.forWriters[k]);
      if p.None? || |p.value| < 4 { return k, false; }
      writers := writers[i := writers[i].(writerId := U32At(p.value))];
      assert writers[i + 1..] == ws[i + 1..] && writers[..i + 1] == ws[..i] + [writers[i]];
      return k + 1, true;
    }

    method RestoreSubs(a: C.Attempt) returns (ok: bool)
      requires a.max == max
      modifies this`remote
      ensures (remote, ok) == C.RestoreSubs(old(remote), a.sid, max, subs, a.forSubs)
    {
      hide C.Request, C.SubscribePayload;
      var j := 0;
      while j < |subs|
        invariant 0 <= j <= |subs| && j <= |a.forSubs|
        invariant C.RestoreSubs(old(remote), a.sid, max, subs, a.forSubs)
               == C.RestoreSubs(remote, a.sid, max, subs[j..], a.forSubs[j..])
      {
        if j == |a.forSubs| { return false; }
        assert subs[j..][1..] == subs[j + 1..] && a.forSubs[j..][1..] == a.forSubs[j + 1..];
        var r := Request(a.sid, MsgType.Subscribe, C.SubscribePayload(subs[j]), a.forSubs[j]);
        if r.None? { return false; }
        j := j + 1;
      }
      return true;
    }

    /** `reconnect`: dial and restore until one attempt succeeds; the connection is set last. */
    method Reconnect(tries: seq<C.Attempt>) returns (ok: bool)
      requires conn.None? && forall i :: 0 <= i < |tries| ==> tries[i].max == max
      modifies this
      ensures View() == C.Reconnect(old(View().0), old(remote), tries, maxReconnects)
      ensures ok <==> conn.Some?
    {
      hide C.RestoreWriters, C.RestoreSubs, B.Step;
      var attempts := 0;
      while attempts < |tries| && (maxReconnects < 0 || attempts < maxReconnects)
        invariant 0 <= attempts <= |tries| && (maxReconnects < 0 || attempts <= maxReconnects) && conn.None?
        invariant C.Reconnect(old(View().0), old(remote), tries, maxReconnects)
               == C.Reconnect(View().0, remote, tries[attempts..],
                              if maxReconnects < 0 then maxReconnects else maxReconnects - attempts)
      {
        var a := tries[attempts];
        assert tries[attempts..][1..] == tries[attempts + 1..];
        attempts := attempts + 1;
        if a.dialOk {
          remote := B.Step(remote, B.Connect(a.sid, a.capacity));
          var restored := RestoreState(a);
          if restored {
            conn := Some(a.sid);
            return true;
          }
        }
      }
      return false;
    }

    /** `watchLoop`, once the receive loop has ended. */
    method ConnectionLost(tries: seq<C.Attempt>) returns (ok: bool)
      requires forall i :: 0 <= i < |tries| ==> tries[i].max == max
      modifies this
      ensures View() == C.Reconnect(old(View().0).(conn := None), old(remote), tries, maxReconnects)
      ensures ok <==> conn.Some?
    {
      conn := None;
      ok := Reconnect(tries);
    }

    method Close()
      modifies this
      ensures View() == (C.State(None, [], []), old(remote))
    {
      conn, subs, writers := None, [], [];
    }
  }
}

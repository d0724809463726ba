/** Delivery of data messages into bounded subscription channels while consumers read
    (ddswsclient/client.go). */
module Delivery {
  import opened Bytes
  import opened Subsequences
  import C = Conn

  type Message = C.DataMessage

  const CAPACITY: nat := 256

  /** `queue` is the buffered channel, `received` what its consumer has read so far. */
  datatype Sub = Sub(topic: bytes, unsubscribed: bool, queue: seq<Message>, received: seq<Message>)

  /** What is not lost, in channel order. */
  function Kept(s: Sub): seq<Message> { s.received + s.queue }

  function Receive(s: Sub): Sub {
    if s.queue == [] then s else s.(queue := s.queue[1..], received := s.received + [s.queue[0]])
  }

  function DropOldest(s: Sub): Sub { if s.queue == [] then s else s.(queue := s.queue[1..]) }

  function Push(s: Sub, m: Message): Sub { s.(queue := s.queue + [m]) }

  // ---- Consumers ----

  datatype Action = Read(i: nat) | Leave(i: nat)

  function Act(subs: seq<Sub>, a: Action): (r: seq<Sub>)
    ensures |r| == |subs|
  {
    if a.i >= |subs| then subs
    else if a.Read? then subs[a.i := Receive(subs[a.i])]
    else subs[a.i := subs[a.i].(unsubscribed := true)]
  }

  function Acts(subs: seq<Sub>, actions: seq<Action>): (r: seq<Sub>)
    ensures |r| == |subs|
    decreases |actions|
  {
    if actions == [] then subs else Acts(Act(subs, actions[0]), actions[1..])
  }

  function Reads(subs: seq<Sub>, readers: seq<nat>): (r: seq<Sub>)
    ensures |r| == |subs|
    decreases |readers|
  {
    if readers == [] then subs else Reads(Act(subs, Read(readers[0])), readers[1..])
  }

  /** What consumers do before a target's check, before the drop and before the second send. Nobody unsubscribes
      between the check and the sends. */
  datatype Gaps = Gaps(before: seq<Action>, middle: seq<nat>, late: seq<nat>)

  // ---- Delivering ----

  function DeliverTo(subs: seq<Sub>, i: nat, m: Message, g: Gaps): (r: seq<Sub>)
    requires i < |subs|
    ensures |r| == |subs|
  {
    var s1 := Acts(subs, g.before);
    if s1[i].unsubscribed then s1
    else if |s1[i].queue| < CAPACITY then s1[i := Push(s1[i], m)]
    else
      var s2 := Reads(s1, g.middle);
      var s3 := Reads(s2[i := DropOldest(s2[i])], g.late);
      if |s3[i].queue| < CAPACITY then s3[i := Push(s3[i], m)] else s3
  }

  function Matching(subs: seq<Sub>, topic: bytes, from: nat): (r: seq<nat>)
    ensures forall k :: 0 <= k < |r| ==> from <= r[k] < |subs|
    decreases |subs| - from
  {
    if from >= |subs| then []
    else
      (if subs[from].topic == topic && !subs[from].unsubscribed then [from] else [])
      + Matching(subs, topic, from + 1)
  }

  function GapsAt(sched: seq<Gaps>, k: nat): Gaps { if k < |sched| then sched[k] else Gaps([], [], []) }

  function DeliverEach(subs: seq<Sub>, targets: seq<nat>, m: Message, sched: seq<Gaps>, k: nat): (r: seq<Sub>)
    requires forall t :: 0 <= t < |targets| ==> targets[t] < |subs|
    ensures |r| == |subs|
    decreases |targets| - k
  {
    if k >= |targets| then subs
    else DeliverEach(DeliverTo(subs, targets[k], m, GapsAt(sched, k)), targets, m, sched, k + 1)
  }

  /** `deliverData`: pick the targets, then try each of them in turn. */
  function Deliver(subs: seq<Sub>, m: Message, sched: seq<Gaps>): (r: seq<Sub>)
    ensures |r| == |subs|
  {
    DeliverEach(subs, Matching(subs, m.topicName, 0), m, sched, 0)
  }

  // ---- What a delivery does to one subscription ----

  /** Consumers move messages from the queue to the received ones; nothing is lost. */
  ghost predicate Quiet(s: Sub, s': Sub) {
    && s'.topic == s.topic && (s.unsubscribed ==> s'.unsubscribed)
    && Kept(s') == Kept(s) && |s.received| <= |s'.received|
  }

  /** The message is kept last. Only if the queue was full may another be lost, and then the oldest one unread. */
  ghost predicate Took(s: Sub, s': Sub, m: Message) {
    && s'.topic == s.topic && (s.unsubscribed ==> s'.unsubscribed) && |s'.queue| <= CAPACITY
    && |s.received| <= |s'.received|
    && (Kept(s') == Kept(s) + [m] || (|s.queue| == CAPACITY && exists k :: LostAt(s, s', m, k)))
  }

  ghost predicate LostAt(s: Sub, s': Sub, m: Message, k: nat) {
    |s.received| <= k < |Kept(s)| && k <= |s'.received| && Kept(s') == Without(Kept(s), k) + [m]
  }

  ghost predicate AllQuiet(a: seq<Sub>, b: seq<Sub>) {
    |a| == |b| && forall j :: 0 <= j < |a| ==> Quiet(a[j], b[j])
  }

  lemma ReceiveQuiet(s: Sub)
    ensures Quiet(s, Receive(s))
  {
    if s.queue != [] {
      assert s.received + [s.queue[0]] + s.queue[1..] == s.received + s.queue;
    }
  }

  lemma ActQuiet(subs: seq<Sub>, a: Action)
    ensures AllQuiet(subs, Act(subs, a))
    ensures a.Read? ==> forall j :: 0 <= j < |subs| ==> Act(subs, a)[j].unsubscribed == subs[j].unsubscribed
  {
    if a.i < |subs| { ReceiveQuiet(subs[a.i]); }
  }

  lemma {:induction false} ActsQuiet(subs: seq<Sub>, actions: seq<Action>)
    ensures AllQuiet(subs, Acts(subs, actions))
    decreases |actions|
  {
    if actions != [] {
      ActQuiet(subs, actions[0]);
      ActsQuiet(Act(subs, actions[0]), actions[1..]);
    }
  }

  lemma {:induction false} ReadsQuiet(subs: seq<Sub>, readers: seq<nat>)
    ensures AllQuiet(subs, Reads(subs, readers))
    ensures forall j :: 0 <= j < |subs| ==> Reads(subs, readers)[j].unsubscribed == subs[j].unsubscribed
    decreases |readers|
  {
    if readers != [] {
      ActQuiet(subs, Read(readers[0]));
      ReadsQuiet(Act(subs, Read(readers[0])), readers[1..]);
    }
  }

  /** One target: everyone else only sees their consumers at work, and the target takes the message unless it left. */
  lemma DeliverToEffect(subs: seq<Sub>, i: nat, m: Message, g: Gaps)
    requires i < |subs| && |subs[i].queue| <= CAPACITY
    ensures var r := DeliverTo(subs, i, m, g);
            && (forall j :: 0 <= j < |subs| && j != i ==> Quiet(subs[j], r[j]))
            && (if Acts(subs, g.before)[i].unsubscribed then Quiet(subs[i], r[i]) else Took(subs[i], r[i], m))
  {
    var s1 := Acts(subs, g.before);
    ActsQuiet(subs, g.before);
    if !s1[i].unsubscribed && |s1[i].queue| >= CAPACITY {
      var s2 := Reads(s1, g.middle);
      ReadsQuiet(s1, g.middle);
      var s2' := s2[i := DropOldest(s2[i])];
      ReadsQuiet(s2', g.late);
      OverflowTakes(subs[i], s2[i], Reads(s2', g.late)[i], m);
    }
  }

  /** The second send cannot fail: between a drop and it, consumers only make more room. */
  lemma OverflowTakes(s: Sub, s2: Sub, s3: Sub, m: Message)
    requires Quiet(s, s2) && Quiet(DropOldest(s2), s3) && |s.queue| == CAPACITY
    ensures |s3.queue| < CAPACITY && Took(s, Push(s3, m), m)
  {
    var r := Push(s3, m);
    assert Kept(r) == Kept(s3) + [m];
    if s2.queue != [] {
      assert Kept(DropOldest(s2)) == Without(Kept(s2), |s2.received|);
      assert LostAt(s, r, m, |s2.received|);
    }
  }

  lemma QuietThenTook(a: Sub, b: Sub, c: Sub, m: Message)
    ensures Quiet(a, b) && Took(b, c, m) && |a.queue| <= CAPACITY ==> Took(a, c, m)
    ensures Took(a, b, m) && Quiet(b, c) ==> Took(a, c, m)
  {
    if Quiet(a, b) && Took(b, c, m) && |a.queue| <= CAPACITY && Kept(c) != Kept(b) + [m] {
      var k :| LostAt(b, c, m, k);
      assert LostAt(a, c, m, k);
    }
    if Took(a, b, m) && Quiet(b, c) && Kept(b) != Kept(a) + [m] {
      var k :| LostAt(a, b, m, k);
      assert LostAt(a, c, m, k);
    }
  }

  /** The rest of the delivery loop: a target not yet visited takes the message or has left; others stay quiet. */
  lemma {:induction false} DeliverEachEffect(subs: seq<Sub>, ts: seq<nat>, m: Message, sched: seq<Gaps>, k: nat, j: nat)
    requires forall t :: 0 <= t < |ts| ==> ts[t] < |subs|
    requires forall t, u :: 0 <= t < u < |ts| ==> ts[t] < ts[u]
    requires j < |subs| && forall i :: 0 <= i < |subs| ==> |subs[i].queue| <= CAPACITY
    ensures var r := DeliverEach(subs, ts, m, sched, k);
            if k < |ts| && j in ts[k..] then Took(subs[j], r[j], m) || (Quiet(subs[j], r[j]) && r[j].unsubscribed)
            else Quiet(subs[j], r[j])
    decreases |ts| - k
  {
    hide DeliverTo, Took;
    if k < |ts| {
      DeliverToEffect(subs, ts[k], m, GapsAt(sched, k));
      var s1 := DeliverTo(subs, ts[k], m, GapsAt(sched, k));
      ActsQuiet(subs, GapsAt(sched, k).before);
      forall i | 0 <= i < |subs| ensures |s1[i].queue| <= CAPACITY { QueueBound(subs[i], s1[i], m); }
      LeftStays(subs, ts[k], m, GapsAt(sched, k));
      DeliverEachEffect(s1, ts, m, sched, k + 1, j);
      QuietThenTook(subs[j], s1[j], DeliverEach(s1, ts, m, sched, k + 1)[j], m);
      assert k + 1 < |ts| ==> ts[k..] == [ts[k]] + ts[k + 1..];
      assert ts[k] in ts[k..];
      if k + 1 == |ts| { assert ts[k..] == [ts[k]]; }
    }
  }

  lemma QueueBound(s: Sub, s': Sub, m: Message)
    ensures Took(s, s', m) || (Quiet(s, s') && |s.queue| <= CAPACITY) ==> |s'.queue| <= CAPACITY
  {
  }

  lemma LeftStays(subs: seq<Sub>, i: nat, m: Message, g: Gaps)
    requires i < |subs|
    ensures Acts(subs, g.before)[i].unsubscribed ==> DeliverTo(subs, i, m, g)[i].unsubscribed
  {
  }

  lemma MatchingExact(subs: seq<Sub>, topic: bytes, from: nat)
    ensures var r := Matching(subs, topic, from);
            && (forall t, u :: 0 <= t < u < |r| ==> r[t] < r[u])
            && (forall j :: j in r <==> from <= j < |subs| && subs[j].topic == topic && !subs[j].unsubscribed)
  {
    hide Matching;
    MatchingAscends(subs, topic, from);
    var r := Matching(subs, topic, from);
    forall j: int ensures j in r <==> from <= j < |subs| && subs[j].topic == topic && !subs[j].unsubscribed {
      if j >= 0 {
        MatchingHas(subs, topic, from, j);
      } else {
        assert forall k :: 0 <= k < |r| ==> r[k] != j;
      }
    }
  }

  ghost predicate Ascending(r: seq<nat>) { forall t, u :: 0 <= t < u < |r| ==> r[t] < r[u] }

  lemma AscendingCons(x: nat, rest: seq<nat>)
    requires Ascending(rest) && forall u :: 0 <= u < |rest| ==> x < rest[u]
    ensures Ascending([x] + rest)
  {
  }

  lemma {:induction false} MatchingAscends(subs: seq<Sub>, topic: bytes, from: nat)
    ensures Ascending(Matching(subs, topic, from))
    decreases |subs| - from
  {
    hide Ascending;
    if from < |subs| {
      MatchingAscends(subs, topic, from + 1);
      var rest := Matching(subs, topic, from + 1);
      AscendingCons(from, rest);
      assert [] + rest == rest;
    } else {
      NoneAscends();
    }
  }

  lemma NoneAscends()
    ensures Ascending([])
  {
  }

  lemma {:induction false} MatchingHas(subs: seq<Sub>, topic: bytes, from: nat, j: nat)
    ensures j in Matching(subs, topic, from) <==>
              from <= j < |subs| && subs[j].topic == topic && !subs[j].unsubscribed
    decreases |subs| - from
  {
    if from < |subs| { MatchingHas(subs, topic, from + 1, j); }
  }

  /** A delivery addresses exactly the subscriptions of its topic. Each keeps the message as its newest, losing at most
      the oldest unread one and only from a full queue, unless it was unsubscribed on the way. */
  lemma DeliverEffect(subs: seq<Sub>, m: Message, sched: seq<Gaps>, j: nat)
    requires j < |subs| && forall i :: 0 <= i < |subs| ==> |subs[i].queue| <= CAPACITY
    ensures var r := Deliver(subs, m, sched);
            if subs[j].topic == m.topicName && !subs[j].unsubscribed
            then Took(subs[j], r[j], m) || (Quiet(subs[j], r[j]) && r[j].unsubscribed)
            else Quiet(subs[j], r[j])
  {
    hide Took, Quiet;
    MatchingExact(subs, m.topicName, 0);
    var ts := Matching(subs, m.topicName, 0);
    DeliverEachEffect(subs, ts, m, sched, 0, j);
    assert ts[0..] == ts;
    if ts == [] { DeliverEachEffect(subs, ts, m, sched, 0, j); }
  }

  /** Nothing a delivery does changes what a subscription is for. */
  lemma DeliverTopics(subs: seq<Sub>, m: Message, sched: seq<Gaps>, j: nat)
    requires j < |subs|
    ensures Deliver(subs, m, sched)[j].topic == subs[j].topic
  {
    EachTopics(subs, Matching(subs, m.topicName, 0), m, sched, 0, j);
  }

  lemma {:induction false} EachTopics(subs: seq<Sub>, ts: seq<nat>, m: Message, sched: seq<Gaps>, k: nat, j: nat)
    requires j < |subs| && forall t :: 0 <= t < |ts| ==> ts[t] < |subs|
    ensures DeliverEach(subs, ts, m, sched, k)[j].topic == subs[j].topic
    decreases |ts| - k
  {
    hide DeliverTo;
    if k < |ts| {
      OneTopics(subs, ts[k], m, GapsAt(sched, k), j);
      EachTopics(DeliverTo(subs, ts[k], m, GapsAt(sched, k)), ts, m, sched, k + 1, j);
    }
  }

  lemma OneTopics(subs: seq<Sub>, i: nat, m: Message, g: Gaps, j: nat)
    requires i < |subs| && j < |subs|
    ensures DeliverTo(subs, i, m, g)[j].topic == subs[j].topic
  {
    var s1 := Acts(subs, g.before);
    ActsQuiet(subs, g.before);
    ReadsQuiet(s1, g.middle);
    var s2 := Reads(s1, g.middle);
    ReadsQuiet(s2[i := DropOldest(s2[i])], g.late);
  }

  // ---- Whole runs ----

  datatype Event = Join(topic: bytes) | Consumer(a: Action) | Data(m: Message, sched: seq<Gaps>)

  function Step(subs: seq<Sub>, e: Event): seq<Sub> {
    match e
    case Join(t) => subs + [Sub(t, false, [], [])]
    case Consumer(a) => Act(subs, a)
    case Data(m, sched) => Deliver(subs, m, sched)
  }

  function Run(es: seq<Event>): seq<Sub> {
    if es == [] then [] else Step(Run(es[..|es| - 1]), es[|es| - 1])
  }

  /** The messages of the subscription's topic that arrived since it was made. */
  function Offered(es: seq<Event>, j: nat): seq<Message>
    requires j < |Run(es)|
  {
    if es == [] then []
    else
      var prev, e := es[..|es| - 1], es[|es| - 1];
      if j >= |Run(prev)| then []
      else if e.Data? && e.m.topicName == Run(prev)[j].topic then Offered(prev, j) + [e.m]
      else Offered(prev, j)
  }

  /** How many of those arrived while the queue was full. */
  function FullArrivals(es: seq<Event>, j: nat): nat
    requires j < |Run(es)|
  {
    if es == [] then 0
    else
      var prev, e := es[..|es| - 1], es[|es| - 1];
      if j >= |Run(prev)| then 0
      else FullArrivals(prev, j)
           + (if e.Data? && e.m.topicName == Run(prev)[j].topic && |Run(prev)[j].queue| == CAPACITY then 1 else 0)
  }

  ghost predicate Sound(es: seq<Event>, j: nat)
    requires j < |Run(es)|
  {
    var s := Run(es)[j];
    && |s.queue| <= CAPACITY
    && Subsequence(Kept(s), Offered(es, j))
    && (!s.unsubscribed ==> |Offered(es, j)| <= |Kept(s)| + FullArrivals(es, j))
  }

  lemma StepSound(es: seq<Event>, prev: seq<Event>, j: nat)
    requires es != [] && prev == es[..|es| - 1] && j < |Run(prev)| <= |Run(es)|
    requires forall i :: 0 <= i < |Run(prev)| ==> Sound(prev, i)
    ensures Sound(es, j)
  {
    hide Deliver, Act, Subsequence, Run;
    var e := es[|es| - 1];
    assert Sound(prev, j);
    StepIs(es);
    var s, s' := Run(prev)[j], Run(es)[j];
    match e
    case Join(_) =>
    case Consumer(a) => ActQuiet(Run(prev), a);
    case Data(m, sched) =>
      assert forall i :: 0 <= i < |Run(prev)| ==> Sound(prev, i) ==> |Run(prev)[i].queue| <= CAPACITY;
      DeliverEffect(Run(prev), m, sched, j);
      SubsequenceAppend(Kept(s), Offered(prev, j), m);
  }

  lemma StepIs(es: seq<Event>)
    requires es != []
    ensures Run(es) == Step(Run(es[..|es| - 1]), es[|es| - 1])
  {
  }

  /** In every state of every run, whatever the consumers do and when: the queue holds at most 256 messages; what was
      read and what is queued form an in-order subsequence of what arrived for the topic; and a live subscription has
      lost at most one message per arrival that found its queue full. */
  lemma {:induction false} RunSound(es: seq<Event>, j: nat)
    requires j < |Run(es)|
    ensures Sound(es, j)
  {
    var prev, e := es[..|es| - 1], es[|es| - 1];
    if j < |Run(prev)| {
      forall i | 0 <= i < |Run(prev)| ensures Sound(prev, i) { RunSound(prev, i); }
      StepSound(es, prev, j);
    } else {
      SubsequenceNone(Offered(es, j));
    }
  }

  /** The newest message is never the one that is dropped. */
  lemma NewestKept(es: seq<Event>, m: Message, sched: seq<Gaps>, j: nat)
    requires j < |Run(es)| && Run(es)[j].topic == m.topicName
    ensures var s := Run(es + [Data(m, sched)])[j];
            !s.unsubscribed ==> Kept(s) != [] && Kept(s)[|Kept(s)| - 1] == m
  {
    hide Deliver;
    var es' := es + [Data(m, sched)];
    assert es'[..|es'| - 1] == es;
    forall i | 0 <= i < |Run(es)| ensures |Run(es)[i].queue| <= CAPACITY { RunSound(es, i); }
    DeliverEffect(Run(es), m, sched, j);
  }

  /** A subscription that has left gets nothing more. */
  lemma LeavingStops(subs: seq<Sub>, m: Message, sched: seq<Gaps>, j: nat)
    requires j < |subs| && forall i :: 0 <= i < |subs| ==> |subs[i].queue| <= CAPACITY
    ensures var r := Deliver(Act(subs, Leave(j)), m, sched); r[j].unsubscribed && Kept(r[j]) == Kept(subs[j])
  {
    hide Deliver;
    DeliverEffect(Act(subs, Leave(j)), m, sched, j);
  }

  /** A consumer that reads on gets everything kept, in order. */
  lemma {:induction false} ReadingGetsAll(subs: seq<Sub>, j: nat)
    requires j < |subs|
    ensures var r := Reads(subs, Times(j, |subs[j].queue|)); r[j].received == Kept(subs[j]) && r[j].queue == []
    decreases |subs[j].queue|
  {
    var s := subs[j];
    if s.queue == [] {
      assert s.received + [] == s.received;
    } else {
      var next := Act(subs, Read(j));
      assert next[j].queue == s.queue[1..];
      ReadingGetsAll(next, j);
      assert Times(j, |s.queue|)[0] == j && Times(j, |s.queue|)[1..] == Times(j, |s.queue| - 1);
      assert s.received + [s.queue[0]] + s.queue[1..] == Kept(s);
    }
  }

  function Times(j: nat, n: nat): (r: seq<nat>)
    ensures |r| == n
  {
    if n == 0 then [] else [j] + Times(j, n - 1)
  }

  // ---- The loops ----

  class Mailboxes {
    var subs: seq<Sub>

    constructor ()
      ensures subs == []
    {
      subs := [];
    }

    method DeliverData(m: Message, sched: seq<Gaps>)
      modifies this
      ensures subs == Deliver(old(subs), m, sched)
    {
      hide DeliverTo, Matching;
      var targets := Targets(m.topicName);
      var k := 0;
      while k < |targets|
        invariant 0 <= k <= |targets| && |subs| == |old(subs)|
        invariant DeliverEach(old(subs), targets, m, sched, 0) == DeliverEach(subs, targets, m, sched, k)
      {
        Offer(targets[k], m, GapsAt(sched, k));
        k := k + 1;
      }
    }

    method Targets(topic: bytes) returns (targets: seq<nat>)
      ensures targets == Matching(subs, topic, 0)
    {
      targets := [];
      for i := 0 to |subs|
        invariant Matching(subs, topic, 0) == targets + Matching(subs, topic, i)
      {
        ghost var rest := Matching(subs, topic, i + 1);
        if subs[i].topic == topic && !subs[i].unsubscribed {
          assert targets + ([i] + rest) == targets + [i] + rest;
          targets := targets + [i];
        } else {
          assert [] + rest == rest;
        }
      }
    }

    /** The check and the three channel attempts for one target. */
    method Offer(i: nat, m: Message, g: Gaps)
      requires i < |subs|
      modifies this
      ensures subs == DeliverTo(old(subs), i, m, g)
    {
      subs := Acts(subs, g.before);
      if subs[i].unsubscribed { return; }
      var sent := TrySend(i, m);
      if !sent {
        subs := Reads(subs, g.middle);
        subs := subs[i := DropOldest(subs[i])];
        subs := Reads(subs, g.late);
        sent := TrySend(i, m);
      }
    }

    method TrySend(i: nat, m: Message) returns (sent: bool)
      requires i < |subs|
      modifies this
      ensures sent <==> |old(subs)[i].queue| < CAPACITY
      ensures subs == if sent then old(subs)[i := Push(old(subs)[i], m)] else old(subs)
    {
      sent := |subs[i].queue| < CAPACITY;
      if sent { subs := subs[i := Push(subs[i], m)]; }
    }
  }
}

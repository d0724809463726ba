/** QoS policies, their binary form and their normalized equality (src/qos.rs). */
module Qos {
  import opened Bytes
  import opened Wire

  datatype QosPolicy =
    | Reliability(relKind: u8, maxBlockingMs: u32)
    | Durability(durKind: u8)
    | History(histKind: u8, depth: u32)
    | Deadline(periodMs: u32)
    | LatencyBudget(durationMs: u32)
    | OwnershipStrength(strength: u32)
    | Liveliness(liveKind: u8, leaseMs: u32)
    | DestinationOrder(orderKind: u8)
    | Presentation(accessScope: u8, coherent: u8, ordered: u8)
    | Partition(partitions: seq<bytes>)
    | Ownership(ownKind: u8)
    | WriterDataLifecycle(autodispose: u8)
    | TimeBasedFilter(separationMs: u32)

  type QosSet = seq<QosPolicy>

  function PolicyId(p: QosPolicy): (id: u8)
    ensures 1 <= id <= 13
  {
    match p
    case Reliability(_, _) => 0x01
    case Durability(_) => 0x02
    case History(_, _) => 0x03
    case Deadline(_) => 0x04
    case LatencyBudget(_) => 0x05
    case OwnershipStrength(_) => 0x06
    case Liveliness(_, _) => 0x07
    case DestinationOrder(_) => 0x08
    case Presentation(_, _, _) => 0x09
    case Partition(_) => 0x0A
    case Ownership(_) => 0x0B
    case WriterDataLifecycle(_) => 0x0C
    case TimeBasedFilter(_) => 0x0D
  }

  predicate IsDefault(p: QosPolicy) {
    match p
    case Reliability(k, t) => k == 1 && t == 100
    case Durability(k) => k == 0
    case History(k, d) => k == 0 && d == 1
    case Deadline(t) => t == 0
    case LatencyBudget(t) => t == 0
    case OwnershipStrength(v) => v == 0
    case Liveliness(k, t) => k == 0 && t == 0
    case DestinationOrder(k) => k == 0
    case Presentation(a, c, o) => a == 0 && c == 0 && o == 0
    case Partition(ps) => ps == []
    case Ownership(k) => k == 0
    case WriterDataLifecycle(v) => v == 1
    case TimeBasedFilter(t) => t == 0
  }

  /** The values the parser admits: kinds in range, partitions countable in a byte and encodable. */
  predicate InRange(p: QosPolicy) {
    match p
    case Reliability(k, _) => k <= 1
    case Durability(k) => k <= 3
    case History(k, _) => k <= 1
    case Liveliness(k, _) => k <= 2
    case DestinationOrder(k) => k <= 1
    case Presentation(a, c, o) => a <= 2 && c <= 1 && o <= 1
    case Partition(ps) => |ps| <= 255 && forall i :: 0 <= i < |ps| ==> Encodable(ps[i])
    case Ownership(k) => k <= 1
    case WriterDataLifecycle(v) => v <= 1
    case _ => true
  }

  ghost predicate Distinct(q: QosSet) {
    forall i, j :: 0 <= i < j < |q| ==> PolicyId(q[i]) != PolicyId(q[j])
  }

  /** Exactly the sets that `parse_qos` can produce. */
  ghost predicate WellFormed(q: QosSet) {
    Distinct(q) && forall i :: 0 <= i < |q| ==> InRange(q[i])
  }

  // ---- Serializing ----

  function SerializeStrings(ss: seq<bytes>): bytes {
    if ss == [] then [] else WriteString(ss[0]) + SerializeStrings(ss[1..])
  }

  function PolicyData(p: QosPolicy): bytes {
    match p
    case Reliability(k, t) => [k] + Le(t, 4)
    case Durability(k) => [k]
    case History(k, d) => [k] + Le(d, 4)
    case Deadline(t) => Le(t, 4)
    case LatencyBudget(t) => Le(t, 4)
    case OwnershipStrength(v) => Le(v, 4)
    case Liveliness(k, t) => [k] + Le(t, 4)
    case DestinationOrder(k) => [k]
    case Presentation(a, c, o) => [a, c, o]
    case Partition(ps) => [|ps| % 256] + SerializeStrings(ps)
    case Ownership(k) => [k]
    case WriterDataLifecycle(v) => [v]
    case TimeBasedFilter(t) => Le(t, 4)
  }

  function SerializePolicies(q: QosSet): bytes {
    if q == [] then [] else [PolicyId(q[0])] + PolicyData(q[0]) + SerializePolicies(q[1..])
  }

  function SerializeQos(q: QosSet): bytes { [|q| % 256] + SerializePolicies(q) }

  // ---- Parsing ----

  function ReadStrings(n: nat, b: bytes): Parsed<seq<bytes>> {
    if n == 0 then Parsed([], b) else
    var (s, b1) :- ReadString(b);
    var (ss, b2) :- ReadStrings(n - 1, b1);
    Parsed([s] + ss, b2)
  }

  /** One byte that must not exceed `max`, as a policy. */
  function ReadKind(b: bytes, max: u8): Parsed<u8> {
    if |b| < 1 then Bad(Truncated) else if b[0] > max then Bad(InvalidQosValue) else Parsed(b[0], b[1..])
  }

  /** A range-checked byte followed by a 32-bit value; five bytes are demanded before anything is read. */
  function ReadKindU32(b: bytes, max: u8): Parsed<(u8, u32)> {
    if |b| < 5 then Bad(Truncated) else if b[0] > max then Bad(InvalidQosValue)
    else Parsed((b[0], U32At(b[1..])), b[5..])
  }

  function ParsePolicyData(id: u8, b: bytes): Parsed<QosPolicy> {
    match id
    case 0x01 => var (v, r) :- ReadKindU32(b, 1); Parsed(Reliability(v.0, v.1), r)
    case 0x02 => var (v, r) :- ReadKind(b, 3); Parsed(Durability(v), r)
    case 0x03 => var (v, r) :- ReadKindU32(b, 1); Parsed(History(v.0, v.1), r)
    case 0x04 => var (v, r) :- ReadU32(b); Parsed(Deadline(v), r)
    case 0x05 => var (v, r) :- ReadU32(b); Parsed(LatencyBudget(v), r)
    case 0x06 => var (v, r) :- ReadU32(b); Parsed(OwnershipStrength(v), r)
    case 0x07 => var (v, r) :- ReadKindU32(b, 2); Parsed(Liveliness(v.0, v.1), r)
    case 0x08 => var (v, r) :- ReadKind(b, 1); Parsed(DestinationOrder(v), r)
    case 0x09 =>
      if |b| < 3 then Bad(Truncated)
      else if b[0] > 2 || b[1] > 1 || b[2] > 1 then Bad(InvalidQosValue)
      else Parsed(Presentation(b[0], b[1], b[2]), b[3..])
    case 0x0A =>
      var (n, r) :- ReadU8(b);
      var (ps, r') :- ReadStrings(n, r);
      Parsed(Partition(ps), r')
    case 0x0B => var (v, r) :- ReadKind(b, 1); Parsed(Ownership(v), r)
    case 0x0C => var (v, r) :- ReadKind(b, 1); Parsed(WriterDataLifecycle(v), r)
    case 0x0D => var (v, r) :- ReadU32(b); Parsed(TimeBasedFilter(v), r)
    case _ => Bad(InvalidQosPolicyId)
  }

  function ParsePolicies(n: nat, seen: set<u8>, b: bytes): Parsed<QosSet> {
    if n == 0 then Parsed([], b)
    else if |b| < 1 then Bad(Truncated)
    else if b[0] in seen then Bad(DuplicateQosPolicy)
    else
      var (p, b1) :- ParsePolicyData(b[0], b[1..]);
      var (ps, b2) :- ParsePolicies(n - 1, seen + {b[0]}, b1);
      Parsed([p] + ps, b2)
  }

  function ParseQos(b: bytes): Parsed<QosSet> {
    if |b| < 1 then Bad(Truncated) else ParsePolicies(b[0], {}, b[1..])
  }

  // ---- Printer and parser are inverse ----

  lemma {:induction false} StringsCanonical(n: nat, b: bytes)
    requires ReadStrings(n, b).Parsed?
    ensures var r := ReadStrings(n, b);
            |r.value| == n && b == SerializeStrings(r.value) + r.rest
            && forall i :: 0 <= i < n ==> Encodable(r.value[i])
  {
    hide ReadString, WriteString, Encodable;
    if n > 0 {
      StringCanonical(b);
      var s := ReadString(b);
      StringsCanonical(n - 1, s.rest);
      var r := ReadStrings(n, b);
      assert r.value[1..] == ReadStrings(n - 1, s.rest).value;
    }
  }

  lemma {:induction false} StringsRoundTrip(ss: seq<bytes>, rest: bytes)
    requires forall i :: 0 <= i < |ss| ==> Encodable(ss[i])
    ensures ReadStrings(|ss|, SerializeStrings(ss) + rest) == Parsed(ss, rest)
  {
    hide ReadString, WriteString, Encodable;
    if ss == [] {
      assert SerializeStrings(ss) + rest == rest;
    } else {
      var tail := SerializeStrings(ss[1..]) + rest;
      StringRoundTrip(ss[0], tail);
      StringsRoundTrip(ss[1..], rest);
      assert SerializeStrings(ss) + rest == WriteString(ss[0]) + tail;
      assert ss == [ss[0]] + ss[1..];
    }
  }

  /** The bytes a policy reader consumed are the printed form of the policy it returned. */
  ghost predicate Canonical(id: u8, b: bytes, r: Parsed<QosPolicy>) {
    r.Parsed? ==> PolicyId(r.value) == id && InRange(r.value) && b == PolicyData(r.value) + r.rest
  }

  lemma PolicyCanonical(id: u8, b: bytes)
    ensures Canonical(id, b, ParsePolicyData(id, b))
  {
    hide Canonical, ReadString, WriteString, ReadStrings, SerializeStrings, Encodable, U32At, Le, FromLe,
         ReadKind, ReadKindU32, ReadU32, InRange, PolicyData;
    match id
    case 0x01 => KindU32Canonical(id, b);
    case 0x02 => KindCanonical(id, b);
    case 0x03 => KindU32Canonical(id, b);
    case 0x04 => WordCanonical(id, b);
    case 0x05 => WordCanonical(id, b);
    case 0x06 => WordCanonical(id, b);
    case 0x07 => KindU32Canonical(id, b);
    case 0x08 => KindCanonical(id, b);
    case 0x09 => PresentationCanonical(b);
    case 0x0A => PartitionCanonical(b);
    case 0x0B => KindCanonical(id, b);
    case 0x0C => KindCanonical(id, b);
    case 0x0D => WordCanonical(id, b);
    case _ => UnknownCanonical(id, b);
  }

  lemma UnknownCanonical(id: u8, b: bytes)
    requires id == 0 || id > 13
    ensures Canonical(id, b, ParsePolicyData(id, b))
  {
  }

  lemma KindU32Canonical(id: u8, b: bytes)
    requires id in {1, 3, 7}
    ensures Canonical(id, b, ParsePolicyData(id, b))
  {
    hide U32At, Le, FromLe;
    if |b| >= 5 {
      U32Canonical(b[1..]);
      assert b == [b[0]] + Le(U32At(b[1..]), 4) + b[5..];
    }
  }

  lemma KindCanonical(id: u8, b: bytes)
    requires id in {2, 8, 11, 12}
    ensures Canonical(id, b, ParsePolicyData(id, b))
  {
    if |b| >= 1 { assert b == [b[0]] + b[1..]; }
  }

  lemma WordCanonical(id: u8, b: bytes)
    requires id in {4, 5, 6, 13}
    ensures Canonical(id, b, ParsePolicyData(id, b))
  {
    hide U32At, Le, FromLe;
    if |b| >= 4 { U32Canonical(b); }
  }

  lemma PresentationCanonical(b: bytes)
    ensures Canonical(9, b, ParsePolicyData(9, b))
  {
    if |b| >= 3 { assert b == [b[0], b[1], b[2]] + b[3..]; }
  }

  lemma PartitionCanonical(b: bytes)
    ensures Canonical(10, b, ParsePolicyData(10, b))
  {
    hide ReadString, WriteString, Encodable, ReadStrings, SerializeStrings;
    if ParsePolicyData(10, b).Parsed? {
      StringsCanonical(b[0], b[1..]);
      assert b == [b[0]] + b[1..];
    }
  }

  lemma PartitionRoundTrip(ps: seq<bytes>, rest: bytes)
    requires InRange(Partition(ps))
    ensures ParsePolicyData(0x0A, PolicyData(Partition(ps)) + rest) == Parsed(Partition(ps), rest)
  {
    hide ReadStrings, SerializeStrings, Encodable;
    var b := PolicyData(Partition(ps)) + rest;
    StringsRoundTrip(ps, rest);
    assert b[1..] == SerializeStrings(ps) + rest;
  }

  lemma PolicyRoundTrip(p: QosPolicy, rest: bytes)
    requires InRange(p)
    ensures ParsePolicyData(PolicyId(p), PolicyData(p) + rest) == Parsed(p, rest)
  {
    hide ReadString, WriteString, ReadStrings, SerializeStrings, Encodable, U32At, Le;
    var b := PolicyData(p) + rest;
    match p
    case Reliability(k, t) => KindU32RoundTrip(k, t, rest);
    case History(k, t) => KindU32RoundTrip(k, t, rest);
    case Liveliness(k, t) => KindU32RoundTrip(k, t, rest);
    case Deadline(t) => U32Codec(t, rest);
    case LatencyBudget(t) => U32Codec(t, rest);
    case OwnershipStrength(t) => U32Codec(t, rest);
    case TimeBasedFilter(t) => U32Codec(t, rest);
    case Partition(ps) => PartitionRoundTrip(ps, rest);
    case Presentation(x, y, z) => assert b[3..] == rest;
    case _ => assert b[1..] == rest;
  }

  lemma KindU32RoundTrip(k: u8, t: u32, rest: bytes)
    ensures var b := [k] + Le(t, 4) + rest;
            b[0] == k && U32At(b[1..]) == t && b[5..] == rest
  {
    var b := [k] + Le(t, 4) + rest;
    assert b[1..] == Le(t, 4) + rest;
    ReadLe32(t, rest);
    assert b[5..] == b[1..][4..];
  }

  lemma WellFormedCons(p: QosPolicy, ps: QosSet)
    requires WellFormed(ps) && InRange(p)
    requires forall i :: 0 <= i < |ps| ==> PolicyId(ps[i]) != PolicyId(p)
    ensures WellFormed([p] + ps)
  {
    hide InRange, PolicyId;
  }

  lemma {:induction false} PoliciesCanonical(n: nat, seen: set<u8>, b: bytes)
    requires ParsePolicies(n, seen, b).Parsed?
    ensures var r := ParsePolicies(n, seen, b);
            |r.value| == n && WellFormed(r.value) && b == SerializePolicies(r.value) + r.rest
            && forall i :: 0 <= i < n ==> PolicyId(r.value[i]) !in seen
  {
    hide ParsePolicyData, PolicyData, InRange, PolicyId, WellFormed;
    if n == 0 {
      assert b == SerializePolicies([]) + b;
      EmptyWellFormed();
    } else {
      PolicyCanonical(b[0], b[1..]);
      var p := ParsePolicyData(b[0], b[1..]);
      PoliciesCanonical(n - 1, seen + {b[0]}, p.rest);
      var ps := ParsePolicies(n - 1, seen + {b[0]}, p.rest);
      WellFormedCons(p.value, ps.value);
      SerializeStep(p.value, ps.value, ps.rest);
      assert b == [b[0]] + b[1..];
    }
  }

  lemma EmptyWellFormed()
    ensures WellFormed([])
  {
  }

  lemma SerializeStep(p: QosPolicy, ps: QosSet, rest: bytes)
    ensures SerializePolicies([p] + ps) + rest == [PolicyId(p)] + (PolicyData(p) + (SerializePolicies(ps) + rest))
  {
    hide PolicyId, PolicyData;
    assert ([p] + ps)[1..] == ps;
  }

  lemma WellFormedTail(q: QosSet)
    requires WellFormed(q) && q != []
    ensures WellFormed(q[1..])
    ensures forall i :: 0 <= i < |q| - 1 ==> PolicyId(q[1..][i]) != PolicyId(q[0])
  {
  }

  /** One iteration of the parse loop on a stream that starts with policy `id`. */
  lemma PoliciesStep(n: nat, seen: set<u8>, id: u8, b: bytes)
    requires id !in seen && ParsePolicyData(id, b).Parsed?
    requires ParsePolicies(n, seen + {id}, ParsePolicyData(id, b).rest).Parsed?
    ensures var p := ParsePolicyData(id, b);
            var ps := ParsePolicies(n, seen + {id}, p.rest);
            ParsePolicies(n + 1, seen, [id] + b) == Parsed([p.value] + ps.value, ps.rest)
  {
    hide ParsePolicyData;
    assert ([id] + b)[1..] == b;
  }

  lemma PoliciesCons(q: QosSet, rest: bytes)
    requires q != []
    ensures SerializePolicies(q) + rest == [PolicyId(q[0])] + (PolicyData(q[0]) + (SerializePolicies(q[1..]) + rest))
  {
    hide PolicyData, PolicyId;
  }

  lemma {:induction false} PoliciesRoundTrip(q: QosSet, seen: set<u8>, rest: bytes)
    requires WellFormed(q)
    requires forall i :: 0 <= i < |q| ==> PolicyId(q[i]) !in seen
    ensures ParsePolicies(|q|, seen, SerializePolicies(q) + rest) == Parsed(q, rest)
  {
    hide ParsePolicyData, PolicyData, InRange, PolicyId;
    if q == [] {
      assert SerializePolicies(q) + rest == rest;
    } else {
      var id, tail := PolicyId(q[0]), SerializePolicies(q[1..]) + rest;
      PolicyRoundTrip(q[0], tail);
      WellFormedTail(q);
      PoliciesRoundTrip(q[1..], seen + {id}, rest);
      PoliciesCons(q, rest);
      PoliciesStep(|q| - 1, seen, id, PolicyData(q[0]) + tail);
      assert q == [q[0]] + q[1..];
    }
  }

  /** Distinct policy ids are at most thirteen, by the pigeonhole principle. */
  lemma DistinctAtMost13(q: QosSet)
    requires Distinct(q)
    ensures |q| <= 13
  {
    IdSetCard(q);
    BoundedCard(IdSet(q), 13);
  }

  ghost function IdSet(q: QosSet): set<int> { set i | 0 <= i < |q| :: PolicyId(q[i]) as int }

  lemma {:induction false} IdSetCard(q: QosSet)
    requires Distinct(q)
    ensures |IdSet(q)| == |q|
  {
    hide PolicyId;
    if q != [] {
      var n := |q| - 1;
      IdSetCard(q[..n]);
      assert IdSet(q) == IdSet(q[..n]) + {PolicyId(q[n]) as int};
    }
  }

  lemma {:induction false} BoundedCard(s: set<int>, n: nat)
    requires forall x :: x in s ==> 1 <= x <= n
    ensures |s| <= n
  {
    if n == 0 {
      if forall x :: x !in s {
        assert s == {};
      }
    } else {
      BoundedCard(s - {n}, n - 1);
    }
  }

  /** Whatever `parse_qos` accepts is canonical: the bytes consumed are the serialization of the result. */
  lemma QosCanonical(b: bytes)
    requires ParseQos(b).Parsed?
    ensures var r := ParseQos(b);
            WellFormed(r.value) && |r.value| <= 13 && b == SerializeQos(r.value) + r.rest
  {
    hide SerializePolicies, ParsePolicies, PolicyId, InRange;
    PoliciesCanonical(b[0], {}, b[1..]);
    DistinctAtMost13(ParseQos(b).value);
    assert b == [b[0]] + b[1..];
  }

  /** A set survives the wire, whatever follows it, exactly when it is well formed. */
  lemma QosRoundTrip(q: QosSet, rest: bytes)
    ensures ParseQos(SerializeQos(q) + rest) == Parsed(q, rest) <==> WellFormed(q)
  {
    hide SerializePolicies, ParsePolicies, PolicyId, InRange;
    var b := SerializeQos(q) + rest;
    if WellFormed(q) {
      DistinctAtMost13(q);
      PoliciesRoundTrip(q, {}, rest);
      assert b[1..] == SerializePolicies(q) + rest;
    } else if ParseQos(b) == Parsed(q, rest) {
      QosCanonical(b);
    }
  }

  /** Serialization is injective on well-formed sets. */
  lemma SerializeInjective(a: QosSet, b: QosSet)
    requires WellFormed(a) && WellFormed(b)
    requires SerializeQos(a) == SerializeQos(b)
    ensures a == b
  {
    QosRoundTrip(a, []);
    QosRoundTrip(b, []);
  }

  // ---- The loops of the source ----

  /** A result of the remaining iterations, with the policies already read put in front. */
  function Prepend(done: QosSet, r: Parsed<QosSet>): Parsed<QosSet> {
    if r.Bad? then r else Parsed(done + r.value, r.rest)
  }

  function Bit(id: u8): bv16
    requires id <= 13
  {
    (1 as bv16) << id
  }

  /** `seen_ids` holds exactly the policy ids met so far. */
  ghost predicate Mask(mask: bv16, seen: set<u8>) {
    forall id: u8 :: 1 <= id <= 13 ==> ((mask & Bit(id)) != 0 <==> id in seen)
  }

  lemma MaskAdd(mask: bv16, seen: set<u8>, id: u8)
    requires 1 <= id <= 13 && Mask(mask, seen)
    ensures Mask(mask | Bit(id), seen + {id})
    ensures (mask & Bit(id)) != 0 <==> id in seen
  {
    forall j: u8 | 1 <= j <= 13
      ensures ((mask | Bit(id)) & Bit(j)) != 0 <==> j in seen + {id}
    {
      BitIndependent(mask, id, j);
    }
  }

  lemma BitIndependent(mask: bv16, id: u8, j: u8)
    requires 1 <= id <= 13 && 1 <= j <= 13
    ensures ((mask | Bit(id)) & Bit(j)) != 0 <==> id == j || (mask & Bit(j)) != 0
  {
    var a, b := Bit(id), Bit(j);
    BitValue(id);
    BitValue(j);
    if id == j { OrSelf(mask, a); } else { OrOther(mask, a, b); }
  }

  function Weight(id: u8): bv16 {
    match id
    case 1 => 0x2 case 2 => 0x4 case 3 => 0x8 case 4 => 0x10 case 5 => 0x20 case 6 => 0x40 case 7 => 0x80
    case 8 => 0x100 case 9 => 0x200 case 10 => 0x400 case 11 => 0x800 case 12 => 0x1000 case 13 => 0x2000
    case _ => 0
  }

  lemma BitValue(id: u8)
    requires 1 <= id <= 13
    ensures Bit(id) == Weight(id)
  {
    if id == 1 {} else if id == 2 {} else if id == 3 {} else if id == 4 {} else if id == 5 {}
    else if id == 6 {} else if id == 7 {} else if id == 8 {} else if id == 9 {} else if id == 10 {}
    else if id == 11 {} else if id == 12 {} else {}
  }

  lemma OrSelf(m: bv16, a: bv16) ensures (m | a) & a == a {}

  lemma OrOther(m: bv16, a: bv16, b: bv16)
    requires a & b == 0
    ensures (m | a) & b == m & b
  {
  }

  /** `parse_qos`: a cursor, a bitmask of ids seen and a growing vector. */
  method ParseQosLoop(buf: bytes) returns (r: Parsed<QosSet>)
    ensures r == ParseQos(buf)
  {
    hide ParsePolicyData, Bit, Mask, ParsePolicies, Prepend;
    if |buf| < 1 { return Bad(Truncated); }
    var count, cur := buf[0], buf[1..];
    var policies: QosSet := [];
    var mask: bv16 := 0;
    ghost var seen: set<u8> := {};
    LoopStart(count, cur);
    for i := 0 to count
      invariant Mask(mask, seen)
      invariant forall id :: id in seen ==> 1 <= id <= 13
      invariant ParseQos(buf) == Prepend(policies, ParsePolicies(count - i, seen, cur))
    {
      LoopExit(policies, count - i - 1, seen, cur);
      if |cur| < 1 { return Bad(Truncated); }
      var id := cur[0];
      if 1 <= id <= 13 {
        MaskAdd(mask, seen, id);
        if mask & Bit(id) != 0 { return Bad(DuplicateQosPolicy); }
        mask := mask | Bit(id);
      }
      var p := ParsePolicyData(id, cur[1..]);
      if p.Bad? { return Bad(p.error); }
      KnownId(id, cur[1..]);
      LoopStep(policies, count - i - 1, seen, cur);
      policies, cur, seen := policies + [p.value], p.rest, seen + {id};
    }
    LoopEnd(policies, seen, cur);
    r := Parsed(policies, cur);
  }

  lemma LoopStart(n: nat, cur: bytes)
    ensures ParsePolicies(n, {}, cur) == Prepend([], ParsePolicies(n, {}, cur))
    ensures Mask(0, {})
  {
    hide ParsePolicies, Bit;
    var r := ParsePolicies(n, {}, cur);
    assert r.Parsed? ==> [] + r.value == r.value;
  }

  lemma LoopEnd(done: QosSet, seen: set<u8>, cur: bytes)
    ensures Prepend(done, ParsePolicies(0, seen, cur)) == Parsed(done, cur)
  {
    assert done + [] == done;
  }

  lemma LoopExit(done: QosSet, n: nat, seen: set<u8>, cur: bytes)
    ensures var r := Prepend(done, ParsePolicies(n + 1, seen, cur));
            if |cur| < 1 then r == Bad(Truncated)
            else if cur[0] in seen then r == Bad(DuplicateQosPolicy)
            else ParsePolicyData(cur[0], cur[1..]).Bad? ==> r == Bad(ParsePolicyData(cur[0], cur[1..]).error)
  {
    hide ParsePolicyData;
  }

  lemma KnownId(id: u8, b: bytes)
    requires ParsePolicyData(id, b).Parsed?
    ensures 1 <= id <= 13
  {
    PolicyCanonical(id, b);
  }

  lemma LoopStep(done: QosSet, n: nat, seen: set<u8>, cur: bytes)
    requires |cur| >= 1 && cur[0] !in seen && ParsePolicyData(cur[0], cur[1..]).Parsed?
    ensures var p := ParsePolicyData(cur[0], cur[1..]);
            Prepend(done, ParsePolicies(n + 1, seen, cur))
            == Prepend(done + [p.value], ParsePolicies(n, seen + {cur[0]}, p.rest))
  {
    hide ParsePolicyData;
    var p := ParsePolicyData(cur[0], cur[1..]);
    var r := ParsePolicies(n, seen + {cur[0]}, p.rest);
    if r.Parsed? { assert done + [p.value] + r.value == done + ([p.value] + r.value); }
  }

  /** `serialize_qos`: append to a buffer that may already hold bytes. */
  method SerializeQosLoop(q: QosSet, buf: bytes) returns (out: bytes)
    ensures out == buf + SerializeQos(q)
  {
    hide PolicyId, PolicyData;
    out := buf + [|q| % 256];
    for i := 0 to |q|
      invariant out + SerializePolicies(q[i..]) == buf + SerializeQos(q)
    {
      ghost var tail := SerializePolicies(q[i + 1..]);
      assert q[i..][1..] == q[i + 1..];
      assert out + SerializePolicies(q[i..]) == (out + [PolicyId(q[i])] + PolicyData(q[i])) + tail;
      out := out + [PolicyId(q[i])];
      out := out + PolicyData(q[i]);
    }
  }
}

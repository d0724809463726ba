/** What normalized equality of QoS sets means (src/qos.rs), and when readers share a key (src/dds/reader.rs). */
module QosEquality {
  import opened Bytes
  import opened Qos

  function Normalize(q: QosSet): QosSet {
    if q == [] then []
    else if IsDefault(q[0]) then Normalize(q[1..])
    else [q[0]] + Normalize(q[1..])
  }

  predicate NormalizedEq(a: QosSet, b: QosSet) {
    var na, nb := Normalize(a), Normalize(b);
    |na| == |nb| && forall i :: 0 <= i < |na| ==> na[i] in nb
  }

  /** `normalized_eq`: the read-only loop of the source. */
  method NormalizedEqLoop(a: QosSet, b: QosSet) returns (eq: bool)
    ensures eq == NormalizedEq(a, b)
  {
    var na, nb := Normalize(a), Normalize(b);
    if |na| != |nb| { return false; }
    for i := 0 to |na|
      invariant forall j :: 0 <= j < i ==> na[j] in nb
    {
      if na[i] !in nb { return false; }
    }
    return true;
  }

  function DefaultOf(id: u8): (p: QosPolicy)
    requires 1 <= id <= 13
    ensures PolicyId(p) == id && IsDefault(p) && InRange(p)
  {
    match id
    case 0x01 => Reliability(1, 100)
    case 0x02 => Durability(0)
    case 0x03 => History(0, 1)
    case 0x04 => Deadline(0)
    case 0x05 => LatencyBudget(0)
    case 0x06 => OwnershipStrength(0)
    case 0x07 => Liveliness(0, 0)
    case 0x08 => DestinationOrder(0)
    case 0x09 => Presentation(0, 0, 0)
    case 0x0A => Partition([])
    case 0x0B => Ownership(0)
    case 0x0C => WriterDataLifecycle(1)
    case 0x0D => TimeBasedFilter(0)
  }

  /** The value a set assigns to a policy: the explicit one if there is one, else the default. */
  function Effective(q: QosSet, id: u8): (p: QosPolicy)
    requires 1 <= id <= 13
    ensures PolicyId(p) == id
  {
    if q == [] then DefaultOf(id)
    else if PolicyId(q[0]) == id then q[0]
    else Effective(q[1..], id)
  }

  ghost predicate SameEffect(a: QosSet, b: QosSet) {
    forall id: u8 :: 1 <= id <= 13 ==> Effective(a, id) == Effective(b, id)
  }

  lemma DefaultUnique(p: QosPolicy)
    ensures IsDefault(p) <==> p == DefaultOf(PolicyId(p))
  {
  }

  lemma {:induction false} NormalizeMembers(q: QosSet, p: QosPolicy)
    ensures p in Normalize(q) <==> p in q && !IsDefault(p)
  {
    hide IsDefault;
    if q != [] {
      NormalizeMembers(q[1..], p);
      assert q == [q[0]] + q[1..];
    }
  }

  lemma {:induction false} NormalizeWellFormed(q: QosSet)
    ensures Distinct(q) ==> Distinct(Normalize(q))
    ensures WellFormed(q) ==> WellFormed(Normalize(q))
  {
    hide IsDefault, InRange, PolicyId;
    var n := Normalize(q);
    forall i | 0 <= i < |n| ensures n[i] in q { NormalizeMembers(q, n[i]); }
    if q != [] {
      NormalizeWellFormed(q[1..]);
      var t := Normalize(q[1..]);
      forall i | 0 <= i < |t| ensures t[i] in q[1..] { NormalizeMembers(q[1..], t[i]); }
      if Distinct(q) {
        assert forall p :: p in q[1..] ==> PolicyId(p) != PolicyId(q[0]);
        DistinctCons(q[0], t);
      }
    }
    assert (forall p :: p in q ==> InRange(p)) ==> forall i :: 0 <= i < |n| ==> InRange(n[i]);
  }

  lemma DistinctCons(p: QosPolicy, t: QosSet)
    requires Distinct(t) && forall i :: 0 <= i < |t| ==> PolicyId(t[i]) != PolicyId(p)
    ensures Distinct([p] + t)
  {
    hide PolicyId;
  }

  lemma {:induction false} NormalizeIdempotent(q: QosSet)
    ensures Normalize(Normalize(q)) == Normalize(q)
  {
    hide IsDefault;
    if q != [] {
      NormalizeIdempotent(q[1..]);
      var n := Normalize(q[1..]);
      assert !IsDefault(q[0]) ==> ([q[0]] + n)[1..] == n;
    }
  }

  lemma {:induction false} EffectiveMember(q: QosSet, p: QosPolicy)
    requires Distinct(q) && p in q
    ensures Effective(q, PolicyId(p)) == p
  {
    hide DefaultOf, PolicyId;
    if q[0] != p {
      assert p in q[1..];
      assert Distinct(q[1..]);
      assert forall i :: 1 <= i < |q| ==> PolicyId(q[i]) != PolicyId(q[0]);
      EffectiveMember(q[1..], p);
    }
  }

  lemma {:induction false} EffectiveSource(q: QosSet, id: u8)
    requires 1 <= id <= 13
    ensures Effective(q, id) in q || Effective(q, id) == DefaultOf(id)
  {
    hide DefaultOf, PolicyId;
    if q != [] && PolicyId(q[0]) != id { EffectiveSource(q[1..], id); }
  }

  ghost function AsSet(q: QosSet): (s: set<QosPolicy>)
    ensures forall p :: p in s <==> p in q
    ensures Distinct(q) ==> |s| == |q|
  {
    hide PolicyId;
    if q == [] then {} else
    assert q == [q[0]] + q[1..];
    assert Distinct(q) ==> q[0] !in q[1..];
    {q[0]} + AsSet(q[1..])
  }

  /** Two finite sets of one size are equal as soon as one contains the other. */
  lemma Pigeonhole<T>(a: set<T>, b: set<T>)
    requires a <= b && |a| == |b|
    ensures a == b
  {
    assert b == a + (b - a);
    assert |b - a| == 0;
  }

  /** Normalized equality of sets without duplicate ids is equality of their non-default policies. */
  lemma SameMembers(a: QosSet, b: QosSet)
    requires Distinct(a) && Distinct(b)
    ensures NormalizedEq(a, b) <==> AsSet(Normalize(a)) == AsSet(Normalize(b))
  {
    hide Normalize, PolicyId;
    NormalizeWellFormed(a);
    NormalizeWellFormed(b);
    var na, nb := Normalize(a), Normalize(b);
    if NormalizedEq(a, b) {
      assert AsSet(na) <= AsSet(nb);
      Pigeonhole(AsSet(na), AsSet(nb));
    }
  }

  lemma EffectFromMembers(a: QosSet, b: QosSet, id: u8)
    requires Distinct(a) && Distinct(b) && 1 <= id <= 13
    requires AsSet(Normalize(a)) == AsSet(Normalize(b))
    requires !IsDefault(Effective(a, id))
    ensures Effective(b, id) == Effective(a, id)
  {
    hide IsDefault, DefaultOf, PolicyId, Effective, Normalize;
    var p := Effective(a, id);
    EffectiveSource(a, id);
    NormalizeMembers(a, p);
    NormalizeMembers(b, p);
    assert p in AsSet(Normalize(a));
    EffectiveMember(b, p);
  }

  /** `normalized_eq` on parsed sets holds exactly when both assign the same value to all 13 policies. */
  lemma NormalizedEqMeansSameEffect(a: QosSet, b: QosSet)
    requires Distinct(a) && Distinct(b)
    ensures NormalizedEq(a, b) <==> SameEffect(a, b)
  {
    hide IsDefault, DefaultOf, PolicyId, Effective, Normalize, NormalizedEq;
    SameMembers(a, b);
    if NormalizedEq(a, b) {
      forall id: u8 | 1 <= id <= 13 ensures Effective(a, id) == Effective(b, id) {
        if !IsDefault(Effective(a, id)) {
          EffectFromMembers(a, b, id);
        } else if !IsDefault(Effective(b, id)) {
          EffectFromMembers(b, a, id);
        } else {
          DefaultUnique(Effective(a, id));
          DefaultUnique(Effective(b, id));
        }
      }
    } else if SameEffect(a, b) {
      MembersFromEffect(a, b);
      MembersFromEffect(b, a);
    }
  }

  lemma MembersFromEffect(a: QosSet, b: QosSet)
    requires Distinct(a) && Distinct(b) && SameEffect(a, b)
    ensures AsSet(Normalize(a)) <= AsSet(Normalize(b))
  {
    hide IsDefault, DefaultOf, PolicyId, Effective, Normalize;
    forall p | p in AsSet(Normalize(a)) ensures p in AsSet(Normalize(b)) {
      NormalizeMembers(a, p);
      NormalizeMembers(b, p);
      EffectiveMember(a, p);
      EffectiveSource(b, PolicyId(p));
      DefaultUnique(p);
    }
  }

  /** Hence it is an equivalence relation on parsed sets, and normalizing does not change the class. */
  lemma NormalizedEqEquivalence(a: QosSet, b: QosSet, c: QosSet)
    requires Distinct(a) && Distinct(b) && Distinct(c)
    ensures NormalizedEq(a, a)
    ensures NormalizedEq(a, b) ==> NormalizedEq(b, a)
    ensures NormalizedEq(a, b) && NormalizedEq(b, c) ==> NormalizedEq(a, c)
    ensures NormalizedEq(Normalize(a), b) == NormalizedEq(a, b) == NormalizedEq(a, Normalize(b))
  {
    hide NormalizedEq, Normalize, SameEffect;
    NormalizedEqSymmetric(a, b);
    NormalizedEqTransitive(a, b, c);
    NormalizedEqMeansSameEffect(a, a);
    SameEffectReflexive(a);
    NormalizedEqOfNormalized(a, b);
  }

  lemma SameEffectReflexive(a: QosSet) ensures SameEffect(a, a) {}

  lemma NormalizedEqSymmetric(a: QosSet, b: QosSet)
    requires Distinct(a) && Distinct(b)
    ensures NormalizedEq(a, b) ==> NormalizedEq(b, a)
  {
    hide NormalizedEq, Effective;
    NormalizedEqMeansSameEffect(a, b);
    NormalizedEqMeansSameEffect(b, a);
  }

  lemma NormalizedEqTransitive(a: QosSet, b: QosSet, c: QosSet)
    requires Distinct(a) && Distinct(b) && Distinct(c)
    ensures NormalizedEq(a, b) && NormalizedEq(b, c) ==> NormalizedEq(a, c)
  {
    hide NormalizedEq, Effective;
    NormalizedEqMeansSameEffect(a, b);
    NormalizedEqMeansSameEffect(b, c);
    NormalizedEqMeansSameEffect(a, c);
  }

  lemma NormalizedEqOfNormalized(a: QosSet, b: QosSet)
    ensures NormalizedEq(Normalize(a), b) == NormalizedEq(a, b) == NormalizedEq(a, Normalize(b))
  {
    hide Normalize;
    NormalizeIdempotent(a);
    NormalizeIdempotent(b);
  }

  // ---- Repeated policies ----

  ghost predicate NoRepeat(q: QosSet) { forall i, j :: 0 <= i < j < |q| ==> q[i] != q[j] }

  ghost function Elements(q: QosSet): set<QosPolicy> { set p | p in q }

  /** A sequence has as many distinct elements as positions exactly when nothing is repeated. */
  lemma {:induction false} ElementsSize(q: QosSet)
    ensures |Elements(q)| <= |q| && (|Elements(q)| == |q| <==> NoRepeat(q))
  {
    if q != [] {
      var n := |q| - 1;
      ElementsSize(q[..n]);
      NoRepeatInit(q);
      ElementsInit(q);
    }
  }

  lemma ElementsInit(q: QosSet)
    requires q != []
    ensures Elements(q) == Elements(q[..|q| - 1]) + {q[|q| - 1]}
  {
    assert q == q[..|q| - 1] + [q[|q| - 1]];
  }

  lemma NoRepeatInit(q: QosSet)
    requires q != []
    ensures NoRepeat(q) <==> NoRepeat(q[..|q| - 1]) && q[|q| - 1] !in q[..|q| - 1]
  {
    assert forall i :: 0 <= i < |q| - 1 ==> q[..|q| - 1][i] == q[i];
  }

  lemma NoRepeatIsSymmetric(a: QosSet, b: QosSet)
    requires NoRepeat(Normalize(a)) && NormalizedEq(a, b)
    ensures NormalizedEq(b, a)
  {
    hide Normalize, NoRepeat;
    var na, nb := Normalize(a), Normalize(b);
    ElementsSize(na);
    ElementsSize(nb);
    SubsetSize(Elements(na), Elements(nb));
    Pigeonhole(Elements(na), Elements(nb));
    forall i | 0 <= i < |nb| ensures nb[i] in na { assert nb[i] in Elements(nb); }
  }

  lemma SubsetSize<T>(a: set<T>, b: set<T>)
    requires a <= b
    ensures |a| <= |b|
  {
    assert b == a + (b - a);
  }

  /** A policy that is not in the set and is not a default: a partition name longer than any other. */
  lemma OutsidePolicy(q: QosSet, n: nat)
    requires forall p :: p in q && p.Partition? && |p.partitions| == 1 ==> |p.partitions[0]| < n
    ensures var p := Partition([seq(n, _ => 0x61)]); p !in q && !IsDefault(p)
  {
    assert |Partition([seq(n, _ => 0x61)]).partitions[0]| == n;
  }

  ghost function Longest(q: QosSet): (n: nat)
    ensures forall p :: p in q && p.Partition? && |p.partitions| == 1 ==> |p.partitions[0]| < n
  {
    if q == [] then 0
    else
      var m := Longest(q[1..]);
      assert q == [q[0]] + q[1..];
      var p := q[0];
      if p.Partition? && |p.partitions| == 1 && |p.partitions[0]| >= m then |p.partitions[0]| + 1 else m
  }

  lemma {:induction false} NormalizeFixes(q: QosSet)
    requires forall p :: p in q ==> !IsDefault(p)
    ensures Normalize(q) == q
  {
    hide IsDefault;
    if q != [] { NormalizeFixes(q[1..]); }
  }

  /** One of two equal policies replaced by an outside one: the inclusion still holds one way, and not the other. */
  lemma RepeatBreaksSymmetry(a: QosSet, i: nat, j: nat) returns (b: QosSet)
    requires i < j < |Normalize(a)| && Normalize(a)[i] == Normalize(a)[j]
    ensures NormalizedEq(a, b) && !NormalizedEq(b, a)
  {
    hide IsDefault;
    var na := Normalize(a);
    var p := Partition([seq(Longest(na), _ => 0x61)]);
    OutsidePolicy(na, Longest(na));
    b := na[j := p];
    forall r | r in b ensures !IsDefault(r) { if r != p { NormalizeMembers(a, r); } }
    NormalizeFixes(b);
    forall k | 0 <= k < |na| ensures na[k] in b { assert b[if k == j then i else k] == na[k]; }
    assert b[j] !in na;
  }

  /** Exactly when the one-way test answers symmetrically against every other set: when the set repeats no policy, its
      defaults aside. */
  lemma SymmetricIff(a: QosSet)
    ensures (forall b :: NormalizedEq(a, b) ==> NormalizedEq(b, a)) <==> NoRepeat(Normalize(a))
  {
    hide Normalize, NormalizedEq;
    if NoRepeat(Normalize(a)) {
      forall b | NormalizedEq(a, b) ensures NormalizedEq(b, a) { NoRepeatIsSymmetric(a, b); }
    } else {
      var i, j :| 0 <= i < j < |Normalize(a)| && Normalize(a)[i] == Normalize(a)[j];
      var b := RepeatBreaksSymmetry(a, i, j);
    }
  }

  /** A repeated policy, which the parser rejects, in one concrete pair. */
  lemma DuplicatesBreakSymmetry()
    ensures var a, b := [Durability(1), Durability(1)], [Durability(1), Durability(2)];
            NormalizedEq(a, b) && !NormalizedEq(b, a) && !Distinct(a)
  {
    var a, b := [Durability(1), Durability(1)], [Durability(1), Durability(2)];
    assert Normalize(a[1..]) == [Durability(1)] && Normalize(b[1..]) == [Durability(2)];
    assert Normalize(a) == a && Normalize(b) == b;
    assert PolicyId(a[0]) == PolicyId(a[1]);
    assert b[1] !in a;
  }

  // ---- Sharing readers ----

  /** `p` stands somewhere before `r`. */
  ghost predicate Precedes(q: QosSet, p: QosPolicy, r: QosPolicy) {
    exists i, j :: 0 <= i < j < |q| && q[i] == p && q[j] == r
  }

  ghost predicate SameOrder(a: QosSet, b: QosSet) {
    forall p, r :: Precedes(a, p, r) <==> Precedes(b, p, r)
  }

  lemma HeadPrecedes(q: QosSet, p: QosPolicy)
    requires p in q && p != q[0]
    ensures Precedes(q, q[0], p)
  {
    var k :| 0 <= k < |q| && q[k] == p;
    assert q[0] == q[0] && q[k] == p;
  }

  lemma NothingPrecedesHead(q: QosSet, p: QosPolicy)
    requires Distinct(q) && q != []
    ensures !Precedes(q, p, q[0])
  {
    hide PolicyId;
  }

  lemma HeadsAgree(a: QosSet, b: QosSet)
    requires Distinct(a) && Distinct(b) && SameOrder(a, b)
    requires a != [] && b != [] && b[0] in a
    ensures a[0] == b[0]
  {
    hide PolicyId, Precedes;
    NothingPrecedesHead(b, a[0]);
    if a[0] != b[0] { HeadPrecedes(a, b[0]); }
  }

  lemma TailsAgree(a: QosSet, b: QosSet)
    requires Distinct(a) && Distinct(b) && SameOrder(a, b)
    requires a != [] && b != [] && a[0] == b[0]
    ensures SameOrder(a[1..], b[1..])
  {
    hide PolicyId;
    forall p, r ensures Precedes(a[1..], p, r) <==> Precedes(b[1..], p, r) {
      PrecedesTail(a, p, r);
      PrecedesTail(b, p, r);
    }
  }

  lemma PrecedesTail(q: QosSet, p: QosPolicy, r: QosPolicy)
    requires Distinct(q) && q != []
    ensures Precedes(q[1..], p, r) <==> Precedes(q, p, r) && p != q[0]
  {
    hide PolicyId;
    if Precedes(q[1..], p, r) {
      var i, j :| 0 <= i < j < |q[1..]| && q[1..][i] == p && q[1..][j] == r;
      assert 0 <= i + 1 < j + 1 < |q| && q[i + 1] == p && q[j + 1] == r;
      assert PolicyId(q[0]) != PolicyId(q[i + 1]);
    }
    if Precedes(q, p, r) && p != q[0] { PrecedesInTail(q, p, r); }
  }

  lemma PrecedesInTail(q: QosSet, p: QosPolicy, r: QosPolicy)
    requires q != [] && Precedes(q, p, r) && p != q[0]
    ensures Precedes(q[1..], p, r)
  {
    var i, j :| 0 <= i < j < |q| && q[i] == p && q[j] == r;
    assert 0 <= i - 1 < j - 1 < |q[1..]| && q[1..][i - 1] == p && q[1..][j - 1] == r;
  }

  lemma {:induction false} SameOrderEqual(a: QosSet, b: QosSet)
    requires Distinct(a) && Distinct(b) && SameOrder(a, b) && AsSet(a) == AsSet(b)
    ensures a == b
  {
    hide PolicyId, SameOrder, AsSet, Distinct;
    if a == [] || b == [] {
      assert |a| == |AsSet(a)| == |b|;
    } else {
      assert b[0] in AsSet(a);
      HeadsAgree(a, b);
      TailsAgree(a, b);
      TailMembers(a);
      TailMembers(b);
      SameOrderEqual(a[1..], b[1..]);
      assert a == [a[0]] + a[1..] && b == [b[0]] + b[1..];
    }
  }

  lemma TailMembers(q: QosSet)
    requires Distinct(q) && q != []
    ensures Distinct(q[1..]) && AsSet(q[1..]) == AsSet(q) - {q[0]}
  {
    hide PolicyId, AsSet;
    assert q == [q[0]] + q[1..];
    assert forall i :: 1 <= i < |q| ==> PolicyId(q[i]) != PolicyId(q[0]);
    assert q[0] !in q[1..];
  }

  function KeyBytes(q: QosSet): bytes { SerializeQos(Normalize(q)) }

  /** Equal key bytes come only from sets with the same effect; the serialized key never merges two QoS. */
  lemma SharingIsSound(a: QosSet, b: QosSet)
    requires WellFormed(a) && WellFormed(b)
    ensures KeyBytes(a) == KeyBytes(b) <==> Normalize(a) == Normalize(b)
    ensures KeyBytes(a) == KeyBytes(b) ==> NormalizedEq(a, b)
  {
    hide Normalize, WellFormed, SerializeQos;
    NormalizeWellFormed(a);
    NormalizeWellFormed(b);
    if KeyBytes(a) == KeyBytes(b) { SerializeInjective(Normalize(a), Normalize(b)); }
  }

  /** Two sets with the same effect share a key exactly when their non-default policies come in the same order. */
  lemma SharingIffSameOrder(a: QosSet, b: QosSet)
    requires WellFormed(a) && WellFormed(b) && NormalizedEq(a, b)
    ensures KeyBytes(a) == KeyBytes(b) <==> SameOrder(Normalize(a), Normalize(b))
  {
    hide Normalize, NormalizedEq, KeyBytes, SameOrder, AsSet, PolicyId, InRange;
    SharingIsSound(a, b);
    SameMembers(a, b);
    NormalizeWellFormed(a);
    NormalizeWellFormed(b);
    if SameOrder(Normalize(a), Normalize(b)) {
      SameOrderEqual(Normalize(a), Normalize(b));
    } else if KeyBytes(a) == KeyBytes(b) {
      SameOrderReflexive(Normalize(a));
    }
  }

  lemma SameOrderReflexive(a: QosSet) ensures SameOrder(a, a) {}
}

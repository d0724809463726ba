/** Instance identity of opaque samples: key extraction, equality, hashes and keyhash (src/dds/sertype.rs). */
module Keys {
  import opened Bytes
  import opened Protocol
  import Md5

  // ---- Key bytes inside a payload ----

  /** The low bit of the second encapsulation byte selects little-endian. */
  function ReadU32Cdr(data: bytes, offset: nat): Option<u32> {
    if offset + 4 > |data| then None
    else
      var b := data[offset..offset + 4];
      Some(if data[1] % 2 == 1 then U32At(b) else U32At([b[3], b[2], b[1], b[0]]))
  }

  function ExtractKeyBytes(data: bytes, f: KeyField): bytes {
    if f.offset >= |data| then []
    else if f.hint.Str? then
      match ReadU32Cdr(data, f.offset)
      case None => []
      case Some(len) => data[f.offset..Min(f.offset + 4 + len, |data|)]
    else data[f.offset..Min(f.offset + f.size, |data|)]
  }

  /** All key fields of a payload, in order. */
  function KeyOf(data: bytes, fields: seq<KeyField>): (k: seq<bytes>)
    ensures |k| == |fields|
  {
    seq(|fields|, i requires 0 <= i < |fields| => ExtractKeyBytes(data, fields[i]))
  }

  // ---- Which bytes are the key ----

  function Reversed(b: bytes): (r: bytes)
    ensures |r| == |b|
  {
    if b == [] then [] else Reversed(b[1..]) + [b[0]]
  }

  /** A string's key is its length word and the bytes it counts, whatever follows: the length word least significant
      byte first in a little-endian payload, most significant first in a big-endian one. */
  lemma StringKey(pre: bytes, s: bytes, rest: bytes, f: KeyField)
    requires f.hint.Str? && |pre| == f.offset && |s| < 0x1_0000_0000
    ensures var data := pre + (Le(|s|, 4) + s) + rest;
            |data| > 1 && data[1] % 2 == 1 ==> ExtractKeyBytes(data, f) == Le(|s|, 4) + s
    ensures var data := pre + (Reversed(Le(|s|, 4)) + s) + rest;
            |data| > 1 && data[1] % 2 == 0 ==> ExtractKeyBytes(data, f) == Reversed(Le(|s|, 4)) + s
  {
    hide Le, U32At, Reversed;
    var len := Le(|s|, 4);
    ReadLe32(|s|, []);
    assert len + [] == len;
    ReversedFour(len);
    var little, big := pre + (len + s) + rest, pre + (Reversed(len) + s) + rest;
    var at, end := f.offset, f.offset + 4 + |s|;
    assert little[at..at + 4] == len && little[at..end] == len + s;
    assert big[at..at + 4] == Reversed(len) && big[at..end] == Reversed(len) + s;
  }

  lemma ReversedFour(b: bytes)
    requires |b| == 4
    ensures Reversed(b) == [b[3], b[2], b[1], b[0]]
    ensures var r := Reversed(b); [r[3], r[2], r[1], r[0]] == b
  {
    assert b[1..][1..][1..][1..] == [];
    assert Reversed(b[1..][1..][1..]) == [b[3]];
    assert Reversed(b[1..][1..]) == [b[3], b[2]];
    assert Reversed(b[1..]) == [b[3], b[2], b[1]];
  }

  /** Any other key is the field's bytes at its offset, as far as the payload goes. */
  lemma FixedKey(pre: bytes, k: bytes, rest: bytes, f: KeyField)
    requires !f.hint.Str? && |pre| == f.offset
    ensures |k| == f.size ==> ExtractKeyBytes(pre + k + rest, f) == k
    ensures |k| <= f.size ==> ExtractKeyBytes(pre + k, f) == k
  {
    if |k| == f.size { assert (pre + k + rest)[f.offset..f.offset + f.size] == k; }
    if |k| <= f.size { assert (pre + k)[f.offset..] == k; }
  }

  /** A string cut off inside its length word has no key; one cut off later has what is left of it. */
  lemma CutStringKey(pre: bytes, cut: bytes, f: KeyField)
    requires f.hint.Str? && |pre| == f.offset
    ensures |cut| < 4 ==> ExtractKeyBytes(pre + cut, f) == []
    ensures |cut| >= 4 && |pre + cut| > 1 ==>
              var len := if (pre + cut)[1] % 2 == 1 then cut[..4] else Reversed(cut[..4]);
              |cut| - 4 <= U32At(len) ==> ExtractKeyBytes(pre + cut, f) == cut
  {
    hide U32At, Reversed;
    var data := pre + cut;
    if |cut| >= 4 {
      assert data[f.offset..f.offset + 4] == cut[..4];
      ReversedFour(cut[..4]);
      assert data[f.offset..] == cut;
    }
  }

  /** A field beyond the payload has no key. */
  lemma NoKey(data: bytes, f: KeyField)
    requires f.offset >= |data|
    ensures ExtractKeyBytes(data, f) == []
  {
  }

  /** The positions of the payload that a field's key takes up. */
  predicate InKey(data: bytes, f: KeyField, p: nat) { f.offset <= p < f.offset + |ExtractKeyBytes(data, f)| }

  lemma KeyIsThere(data: bytes, f: KeyField)
    ensures var k := ExtractKeyBytes(data, f);
            f.offset + |k| <= |data| || k == []
    ensures var k := ExtractKeyBytes(data, f);
            forall i :: 0 <= i < |k| ==> f.offset + i < |data| && k[i] == data[f.offset + i]
  {
    hide U32At;
  }

  /** Two payloads of one length and byte order have the same keys exactly when they agree at every position of a key of
      the first: what lies outside the keys does not matter, and every byte inside one does. */
  lemma KeysEqualIff(a: bytes, b: bytes, fields: seq<KeyField>)
    requires |a| == |b| && (|a| > 1 ==> a[1] % 2 == b[1] % 2)
    ensures KeysEqual(a, b, fields) <==>
              forall i, p: nat :: 0 <= i < |fields| && InKey(a, fields[i], p) && p < |a| ==> a[p] == b[p]
  {
    hide ExtractKeyBytes, InKey;
    if KeysEqual(a, b, fields) {
      forall i, p: nat | 0 <= i < |fields| && InKey(a, fields[i], p) && p < |a| ensures a[p] == b[p] {
        assert KeyOf(a, fields)[i] == KeyOf(b, fields)[i];
        SameKeySameBytes(a, b, fields[i], p);
      }
    }
    if forall i, p: nat :: 0 <= i < |fields| && InKey(a, fields[i], p) && p < |a| ==> a[p] == b[p] {
      forall i | 0 <= i < |fields| ensures ExtractKeyBytes(a, fields[i]) == ExtractKeyBytes(b, fields[i]) {
        SameBytesSameKey(a, b, fields[i]);
      }
      assert KeyOf(a, fields) == KeyOf(b, fields);
    }
  }

  lemma SameKeySameBytes(a: bytes, b: bytes, f: KeyField, p: nat)
    requires |a| == |b| && ExtractKeyBytes(a, f) == ExtractKeyBytes(b, f) && InKey(a, f, p)
    ensures p < |a| && a[p] == b[p]
  {
    hide ExtractKeyBytes;
    KeyIsThere(a, f);
    KeyIsThere(b, f);
    var k := ExtractKeyBytes(a, f);
    assert k[p - f.offset] == a[p] && k[p - f.offset] == b[p];
  }

  lemma SameBytesSameKey(a: bytes, b: bytes, f: KeyField)
    requires |a| == |b| && (|a| > 1 ==> a[1] % 2 == b[1] % 2)
    requires forall p: nat :: InKey(a, f, p) && p < |a| ==> a[p] == b[p]
    ensures ExtractKeyBytes(a, f) == ExtractKeyBytes(b, f)
  {
    hide U32At;
    var k := ExtractKeyBytes(a, f);
    if k != [] {
      assert forall p: nat :: f.offset <= p < f.offset + |k| ==> InKey(a, f, p);
      assert a[f.offset..f.offset + |k|] == b[f.offset..f.offset + |k|];
      if f.hint.Str? { assert a[f.offset..f.offset + 4] == b[f.offset..f.offset + 4]; }
    }
  }

  predicate KeysEqual(a: bytes, b: bytes, fields: seq<KeyField>) { KeyOf(a, fields) == KeyOf(b, fields) }

  method KeysEqualLoop(a: bytes, b: bytes, fields: seq<KeyField>) returns (r: bool)
    ensures r <==> KeysEqual(a, b, fields)
  {
    hide ExtractKeyBytes;
    for i := 0 to |fields|
      invariant forall j :: 0 <= j < i ==> ExtractKeyBytes(a, fields[j]) == ExtractKeyBytes(b, fields[j])
    {
      if ExtractKeyBytes(a, fields[i]) != ExtractKeyBytes(b, fields[i]) {
        assert KeyOf(a, fields)[i] != KeyOf(b, fields)[i];
        return false;
      }
    }
    return true;
  }

  // ---- FNV-1a over the key fields ----

  const BASIS: bv32 := 2166136261

  function Fnv(h: bv32, b: u8): bv32 { (h ^ (b as bv32)) * 16777619 }

  function FnvBytes(h: bv32, bs: bytes): bv32
    decreases |bs|
  {
    if bs == [] then h else FnvBytes(Fnv(h, bs[0]), bs[1..])
  }

  function FnvAll(h: bv32, ks: seq<bytes>): bv32
    decreases |ks|
  {
    if ks == [] then h else FnvAll(FnvBytes(h, ks[0]), ks[1..])
  }

  function HashKeyBytes(data: bytes, fields: seq<KeyField>): bv32 { FnvAll(BASIS, KeyOf(data, fields)) }

  method HashKeyBytesLoop(data: bytes, fields: seq<KeyField>) returns (h: bv32)
    ensures h == HashKeyBytes(data, fields)
  {
    hide ExtractKeyBytes, Fnv;
    h := BASIS;
    for i := 0 to |fields|
      invariant HashKeyBytes(data, fields) == FnvAll(h, KeyOf(data, fields)[i..])
    {
      var kb := ExtractKeyBytes(data, fields[i]);
      ghost var h0, ks := h, KeyOf(data, fields);
      assert ks[i..][0] == kb && ks[i..][1..] == ks[i + 1..];
      for j := 0 to |kb|
        invariant FnvBytes(h0, kb) == FnvBytes(h, kb[j..])
      {
        h := Fnv(h, kb[j]);
      }
    }
  }

  /** All key fields one after another. */
  function Joined(ks: seq<bytes>): bytes { if ks == [] then [] else ks[0] + Joined(ks[1..]) }

  /** The hash runs over every byte of every key field, in order. */
  lemma {:induction false} HashOfJoined(h: bv32, ks: seq<bytes>)
    ensures FnvAll(h, ks) == FnvBytes(h, Joined(ks))
    decreases |ks|
  {
    hide Fnv;
    if ks != [] {
      FnvConcat(h, ks[0], Joined(ks[1..]));
      HashOfJoined(FnvBytes(h, ks[0]), ks[1..]);
    }
  }

  lemma {:induction false} FnvConcat(h: bv32, a: bytes, b: bytes)
    ensures FnvBytes(h, a + b) == FnvBytes(FnvBytes(h, a), b)
    decreases |a|
  {
    hide Fnv;
    if a == [] {
      assert a + b == b;
    } else {
      assert (a + b)[0] == a[0] && (a + b)[1..] == a[1..] + b;
      FnvConcat(Fnv(h, a[0]), a[1..], b);
    }
  }

  lemma {:induction false} HashOfNothing(h: bv32, ks: seq<bytes>)
    requires forall i :: 0 <= i < |ks| ==> ks[i] == []
    ensures FnvAll(h, ks) == h
    decreases |ks|
  {
    if ks != [] { HashOfNothing(h, ks[1..]); }
  }

  // ---- Serdata ----

  datatype Sertype = Sertype(fields: seq<KeyField>, hash: u32)

  /** `key` holds the per-sample key bytes, empty if there are none; `data` is None for a null payload. */
  datatype Serdata = Serdata(data: Option<bytes>, key: bytes, hash: u32)

  /** The key hash function; equal inputs give equal outputs and nothing else is used of it. */
  type Mix = (bytes, u32) -> u32

  function FromSample(st: Sertype, mix: Mix, data: bytes, key: bytes): Serdata {
    Serdata(Some(data), key, if |key| > 0 then mix(key, st.hash) else st.hash)
  }

  /** Samples from the network, by fragments or by buffers. */
  function FromSer(st: Sertype, buf: bytes): Serdata { Serdata(Some(buf), [], st.hash) }

  function FromKeyhash(st: Sertype, kh: bytes): Serdata { Serdata(Some(kh), [], st.hash) }

  ghost predicate Made(st: Sertype, mix: Mix, s: Serdata) {
    || (exists data, key :: s == FromSample(st, mix, data, key))
    || (exists buf :: s == FromSer(st, buf))
    || (exists kh :: s == FromKeyhash(st, kh))
  }

  predicate EqKey(st: Sertype, a: Serdata, b: Serdata) {
    if a.key != [] && b.key != [] then a.key == b.key
    else if st.fields == [] then true
    else if a.data.None? || b.data.None? then a.data.None? && b.data.None?
    else KeysEqual(a.data.value, b.data.value, st.fields)
  }

  function Keyhash(st: Sertype, s: Serdata, forceMd5: bool): (kh: bytes)
    ensures |kh| == 16
  {
    if s.key != [] then
      if !forceMd5 && |s.key| <= 16 then s.key + Zeros(16 - |s.key|) else Md5.Digest(s.key)
    else if st.fields == [] || Empty(s) then Zeros(16)
    else Md5.WordBytes(HashKeyBytes(s.data.value, st.fields)) + Zeros(12)
  }

  predicate Empty(s: Serdata) { s.data.None? || s.data.value == [] }

  /** All carry key bytes, or none does. */
  predicate Alike(a: Serdata, b: Serdata) { (a.key != []) == (b.key != []) }

  // ---- Equality ----

  /** Among serdata that all carry key bytes or all lack them, key equality is an equivalence. */
  lemma EqKeyEquivalence(st: Sertype, a: Serdata, b: Serdata, c: Serdata)
    ensures EqKey(st, a, a) && (EqKey(st, a, b) ==> EqKey(st, b, a))
    ensures Alike(a, b) && Alike(b, c) && EqKey(st, a, b) && EqKey(st, b, c) ==> EqKey(st, a, c)
  {
    hide KeyOf;
  }

  /** Two received samples of one length and byte order are the same instance exactly when they agree inside their
      keys. */
  lemma SameInstanceIff(st: Sertype, a: bytes, b: bytes)
    requires |a| == |b| && (|a| > 1 ==> a[1] % 2 == b[1] % 2)
    ensures EqKey(st, FromSer(st, a), FromSer(st, b)) <==>
              forall i, p: nat :: 0 <= i < |st.fields| && InKey(a, st.fields[i], p) && p < |a| ==> a[p] == b[p]
  {
    hide KeysEqual, InKey;
    KeysEqualIff(a, b, st.fields);
    if st.fields == [] { NoFields(a, b); }
  }

  lemma NoFields(a: bytes, b: bytes)
    ensures KeysEqual(a, b, [])
  {
  }

  /** In a mixed population it fails as soon as two samples of the two sorts are equal: for any such pair there is a
      third sample, made like the others, that breaks transitivity. */
  lemma MixedPairBreaksTransitivity(st: Sertype, mix: Mix, a: Serdata, b: Serdata) returns (c: Serdata)
    requires Made(st, mix, a) && Made(st, mix, b) && a.key != [] && b.key == [] && EqKey(st, a, b)
    ensures Made(st, mix, c) && EqKey(st, b, a) && EqKey(st, b, c) && !EqKey(st, a, c)
  {
    MadeData(st, mix, a);
    hide KeyOf;
    c := FromSample(st, mix, a.data.value, a.key + [0]);
  }

  /** Without such a pair it does not: then key equality is an equivalence on the whole mixed population. */
  lemma UnmixedEquivalence(st: Sertype, a: Serdata, b: Serdata, c: Serdata)
    requires forall x, y :: x in {a, b, c} && y in {a, b, c} && EqKey(st, x, y) ==> Alike(x, y)
    ensures EqKey(st, a, b) && EqKey(st, b, c) ==> EqKey(st, a, c)
  {
    hide KeyOf;
  }

  lemma MadeData(st: Sertype, mix: Mix, s: Serdata)
    requires Made(st, mix, s)
    ensures s.data.Some?
  {
  }

  /** Such a pair: any payload written with a key, and the same payload received from the network. */
  lemma MixedPairExists(st: Sertype, mix: Mix, data: bytes, key: bytes)
    requires key != []
    ensures var a, b := FromSample(st, mix, data, key), FromSer(st, data);
            Made(st, mix, a) && Made(st, mix, b) && !Alike(a, b) && EqKey(st, a, b)
  {
    hide KeyOf;
  }

  // ---- Hashes ----

  /** Equal keys fall in the same hash bucket; a mixed pair does exactly when the key hash happens to be the type's. */
  lemma EqKeySameHash(st: Sertype, mix: Mix, a: Serdata, b: Serdata)
    requires Made(st, mix, a) && Made(st, mix, b) && EqKey(st, a, b)
    ensures a.hash == b.hash <==> (Alike(a, b) || mix(if a.key != [] then a.key else b.key, st.hash) == st.hash)
  {
    MadeHash(st, mix, a);
    MadeHash(st, mix, b);
    hide Made, KeysEqual;
  }

  lemma MadeHash(st: Sertype, mix: Mix, s: Serdata)
    requires Made(st, mix, s)
    ensures s.hash == if s.key != [] then mix(s.key, st.hash) else st.hash
  {
  }

  // ---- Keyhash ----

  /** Equal keys have equal keyhashes, except that an empty payload and a non-empty one without key bytes differ. */
  lemma EqKeySameKeyhash(st: Sertype, a: Serdata, b: Serdata, force: bool)
    requires Alike(a, b) && EqKey(st, a, b)
    ensures Keyhash(st, a, force) == Keyhash(st, b, force) <==>
              (a.key != [] || st.fields == [] || (Empty(a) <==> Empty(b)))
  {
    hide Md5.Digest, Md5.WordBytes, FnvAll, ExtractKeyBytes;
    if a.key == [] && st.fields != [] && a.data.Some? && b.data.Some? {
      EmptySideHash(a.data.value, b.data.value, st.fields);
      BasisBytes();
    }
  }

  /** Two received samples that are equal and have different keyhashes: a key field beyond both payloads, one empty. */
  lemma EmptyPayloadParts(hash: u32, force: bool)
    ensures var st := Sertype([KeyField(5, 1, Opaque)], hash);
            var a, b := FromSer(st, []), FromSer(st, [1]);
            EqKey(st, a, b) && Alike(a, b) && Keyhash(st, a, force) != Keyhash(st, b, force)
  {
    hide Keyhash;
    var st := Sertype([KeyField(5, 1, Opaque)], hash);
    var a, b := FromSer(st, []), FromSer(st, [1]);
    assert KeyOf(a.data.value, st.fields) == KeyOf(b.data.value, st.fields);
    EqKeySameKeyhash(st, a, b, force);
  }

  /** The keyhash of a key is the key itself, zero padded, as long as it fits and no digest is forced; else its
      digest. */
  lemma KeyhashOfKey(st: Sertype, s: Serdata, force: bool)
    requires s.key != []
    ensures var kh := Keyhash(st, s, force);
            if |s.key| <= 16 && !force then kh[..|s.key|] == s.key && forall i :: |s.key| <= i < 16 ==> kh[i] == 0
            else kh == Md5.Digest(s.key)
  {
    hide Md5.Digest;
  }

  lemma EmptySideHash(a: bytes, b: bytes, fields: seq<KeyField>)
    requires KeysEqual(a, b, fields)
    ensures HashKeyBytes(a, fields) == HashKeyBytes(b, fields)
    ensures a == [] || b == [] ==> HashKeyBytes(a, fields) == BASIS
  {
    hide FnvAll;
    if a == [] || b == [] {
      var e: bytes := [];
      assert KeyOf(a, fields) == KeyOf(e, fields);
      assert forall i :: 0 <= i < |fields| ==> KeyOf(e, fields)[i] == [];
      HashOfNothing(BASIS, KeyOf(a, fields));
    }
  }

  lemma BasisBytes()
    ensures forall rest :: Md5.WordBytes(BASIS) + rest != Zeros(16)
  {
    assert BASIS as nat == 2166136261;
    assert Md5.WordBytes(BASIS)[0] == 197;
    forall rest: bytes ensures Md5.WordBytes(BASIS) + rest != Zeros(16) {
      assert (Md5.WordBytes(BASIS) + rest)[0] == 197;
      assert Zeros(16)[0] == 0;
    }
  }

  /** Short keys share a keyhash exactly when they differ only in trailing zero bytes; so at one length, never. */
  lemma ShortKeyhash(st: Sertype, a: Serdata, b: Serdata)
    requires 0 < |a.key| <= |b.key| <= 16
    ensures Keyhash(st, a, false) == Keyhash(st, b, false) <==> b.key == a.key + Zeros(|b.key| - |a.key|)
    ensures |a.key| == |b.key| ==> (Keyhash(st, a, false) == Keyhash(st, b, false) <==> a.key == b.key)
  {
    var x, y, n := a.key, b.key, |b.key| - |a.key|;
    var kx, ky := x + Zeros(16 - |x|), y + Zeros(16 - |y|);
    assert kx == x + Zeros(n) + Zeros(16 - |y|);
    assert kx[..|y|] == x + Zeros(n) && ky[..|y|] == y;
  }
}

/** Byte strings, little-endian integers and UTF-8 validity, shared by both codecs. */
module Bytes {
  type u8 = x: int | 0 <= x < 0x100
  type u16 = x: int | 0 <= x < 0x1_0000
  type u32 = x: int | 0 <= x < 0x1_0000_0000
  type u64 = x: int | 0 <= x < 0x1_0000_0000_0000_0000
  type bytes = seq<u8>

  datatype Option<+T> = None | Some(value: T)

  function Min(a: nat, b: nat): nat { if a < b then a else b }

  function Zeros(n: nat): (z: bytes)
    ensures |z| == n
  {
    seq(n, _ => 0)
  }

  function Pow256(w: nat): (p: nat)
    ensures p >= 1
  {
    if w == 0 then 1 else 256 * Pow256(w - 1)
  }

  /** The low `w` bytes of `n`, least significant first: an integer cast to `w` bytes and then written. */
  function Le(n: nat, w: nat): (b: bytes)
    ensures |b| == w
  {
    if w == 0 then [] else [n % 256] + Le(n / 256, w - 1)
  }

  function FromLe(b: bytes): (n: nat)
    ensures n < Pow256(|b|)
  {
    if b == [] then 0 else b[0] + 256 * FromLe(b[1..])
  }

  /** Writing then reading keeps exactly the bits that fit in `w` bytes. */
  lemma {:induction false} LeRoundTrip(n: nat, w: nat)
    ensures FromLe(Le(n, w)) == n % Pow256(w)
  {
    if w > 0 {
      LeRoundTrip(n / 256, w - 1);
      assert Le(n, w)[1..] == Le(n / 256, w - 1);
      var p := Pow256(w - 1);
      DivModStep(n, p);
    }
  }

  lemma DivModStep(n: nat, p: nat)
    requires p >= 1
    ensures n % 256 + 256 * ((n / 256) % p) == n % (256 * p)
  {
    var q, r := n / 256, n % 256;
    var k, m := q / p, q % p;
    assert n == (256 * p) * k + (256 * m + r) by {
      assert q == p * k + m;
      assert n == 256 * q + r;
      assert 256 * (p * k) == (256 * p) * k;
    }
    ModUnique(n, 256 * p, k, 256 * m + r);
  }

  lemma ModUnique(n: nat, d: nat, k: nat, r: nat)
    requires d >= 1 && r < d && n == d * k + r
    ensures n % d == r
  {
    var k', r' := n / d, n % d;
    assert n == d * k' + r';
    assert d * (k' - k) == r - r';
    assert k' - k >= 1 ==> d * (k' - k) >= d;
    assert k' - k <= -1 ==> d * (k' - k) + d <= 0;
  }

  /** Reading then writing gives back the bytes: little-endian encodings are canonical. */
  lemma {:induction false} LeCanonical(b: bytes)
    ensures Le(FromLe(b), |b|) == b
  {
    if b != [] {
      LeCanonical(b[1..]);
      FromLeParts(b[0], FromLe(b[1..]));
    }
  }

  lemma FromLeParts(x: u8, n: nat)
    ensures (x + 256 * n) % 256 == x && (x + 256 * n) / 256 == n
  {
  }

  lemma PowValues()
    ensures Pow256(1) == 0x100
    ensures Pow256(2) == 0x1_0000
    ensures Pow256(4) == 0x1_0000_0000
    ensures Pow256(8) == 0x1_0000_0000_0000_0000
  {
    assert Pow256(3) == 0x100_0000;
    assert Pow256(5) == 0x100_0000_0000;
    assert Pow256(6) == 0x1_0000_0000_0000;
    assert Pow256(7) == 0x100_0000_0000_0000;
  }

  function U16At(b: bytes): (n: u16)
    requires |b| >= 2
  {
    PowValues(); FromLe(b[..2])
  }

  function U32At(b: bytes): (n: u32)
    requires |b| >= 4
  {
    PowValues(); FromLe(b[..4])
  }

  function U64At(b: bytes): (n: u64)
    requires |b| >= 8
  {
    PowValues(); FromLe(b[..8])
  }

  lemma ReadLe32(n: nat, rest: bytes)
    ensures U32At(Le(n, 4) + rest) == n % 0x1_0000_0000
    ensures (Le(n, 4) + rest)[4..] == rest
  {
    PowValues();
    assert (Le(n, 4) + rest)[..4] == Le(n, 4);
    LeRoundTrip(n, 4);
  }

  lemma ReadLe64(n: u64, rest: bytes)
    ensures U64At(Le(n, 8) + rest) == n
    ensures (Le(n, 8) + rest)[8..] == rest
  {
    PowValues();
    assert (Le(n, 8) + rest)[..8] == Le(n, 8);
    LeRoundTrip(n, 8);
  }

  lemma ReadLe16(n: u16, rest: bytes)
    ensures U16At(Le(n, 2) + rest) == n
    ensures (Le(n, 2) + rest)[2..] == rest
  {
    PowValues();
    assert (Le(n, 2) + rest)[..2] == Le(n, 2);
    LeRoundTrip(n, 2);
  }

  lemma SplitLe(b: bytes, w: nat)
    requires |b| >= w
    ensures b == Le(FromLe(b[..w]), w) + b[w..]
  {
    LeCanonical(b[..w]);
  }

  predicate Continuation(b: u8) { 0x80 <= b <= 0xBF }

  /** Well-formed UTF-8, by the grammar in section 4 of RFC 3629. */
  predicate ValidUtf8(s: bytes)
  {
    if s == [] then true
    else if s[0] <= 0x7F then ValidUtf8(s[1..])
    else if 0xC2 <= s[0] <= 0xDF then
      |s| >= 2 && Continuation(s[1]) && ValidUtf8(s[2..])
    else if 0xE0 <= s[0] <= 0xEF then
      && |s| >= 3 && Continuation(s[1]) && Continuation(s[2])
      && (s[0] == 0xE0 ==> 0xA0 <= s[1]) && (s[0] == 0xED ==> s[1] <= 0x9F)
      && ValidUtf8(s[3..])
    else if 0xF0 <= s[0] <= 0xF4 then
      && |s| >= 4 && Continuation(s[1]) && Continuation(s[2]) && Continuation(s[3])
      && (s[0] == 0xF0 ==> 0x90 <= s[1]) && (s[0] == 0xF4 ==> s[1] <= 0x8F)
      && ValidUtf8(s[4..])
    else false
  }
}

/** The hand-written MD5 against the description in RFC 1321 (src/dds/sertype.rs). */
module Md5 {
  import opened Bytes

  type word = bv32

  // ---- RFC 1321, section 3.4: tables ----

  /** The sine table T[1..64]. */
  const SINES: seq<word> := [
    0xd76aa478, 0xe8c7b756, 0x242070db, 0xc1bdceee, 0xf57c0faf, 0x4787c62a, 0xa8304613, 0xfd469501,
    0x698098d8, 0x8b44f7af, 0xffff5bb1, 0x895cd7be, 0x6b901122, 0xfd987193, 0xa679438e, 0x49b40821,
    0xf61e2562, 0xc040b340, 0x265e5a51, 0xe9b6c7aa, 0xd62f105d, 0x02441453, 0xd8a1e681, 0xe7d3fbc8,
    0x21e1cde6, 0xc33707d6, 0xf4d50d87, 0x455a14ed, 0xa9e3e905, 0xfcefa3f8, 0x676f02d9, 0x8d2a4c8a,
    0xfffa3942, 0x8771f681, 0x6d9d6122, 0xfde5380c, 0xa4beea44, 0x4bdecfa9, 0xf6bb4b60, 0xbebfbc70,
    0x289b7ec6, 0xeaa127fa, 0xd4ef3085, 0x04881d05, 0xd9d4d039, 0xe6db99e5, 0x1fa27cf8, 0xc4ac5665,
    0xf4292244, 0x432aff97, 0xab9423a7, 0xfc93a039, 0x655b59c3, 0x8f0ccc92, 0xffeff47d, 0x85845dd1,
    0x6fa87e4f, 0xfe2ce6e0, 0xa3014314, 0x4e0811a1, 0xf7537e82, 0xbd3af235, 0x2ad7d2bb, 0xeb86d391]

  /** The word index k of each operation, round by round as the RFC lists them. */
  const WORDS1: seq<nat> := [0, 1, 2, 3, 4, 5, 6, 7, 8, 9, 10, 11, 12, 13, 14, 15]
  const WORDS2: seq<nat> := [1, 6, 11, 0, 5, 10, 15, 4, 9, 14, 3, 8, 13, 2, 7, 12]
  const WORDS3: seq<nat> := [5, 8, 11, 14, 1, 4, 7, 10, 13, 0, 3, 6, 9, 12, 15, 2]
  const WORDS4: seq<nat> := [0, 7, 14, 5, 12, 3, 10, 1, 8, 15, 6, 13, 4, 11, 2, 9]

  /** The four shift amounts of each round. */
  const SHIFTS: seq<seq<nat>> := [[7, 12, 17, 22], [5, 9, 14, 20], [4, 11, 16, 23], [6, 10, 15, 21]]

  function F(x: word, y: word, z: word): word { (x & y) | (!x & z) }
  function G(x: word, y: word, z: word): word { (x & z) | (y & !z) }
  function H(x: word, y: word, z: word): word { x ^ y ^ z }
  function I(x: word, y: word, z: word): word { y ^ (x | !z) }

  function Aux(round: nat, x: word, y: word, z: word): word {
    match round
    case 0 => F(x, y, z)
    case 1 => G(x, y, z)
    case 2 => H(x, y, z)
    case _ => I(x, y, z)
  }

  function Rotate(x: word, s: nat): word
    requires s <= 32
  {
    x.RotateLeft(s)
  }

  function ShiftOf(i: nat): (s: nat)
    requires i < 64
    ensures s <= 32
  {
    SHIFTS[i / 16][i % 4]
  }

  function WordOf(i: nat): (k: nat)
    requires i < 64
    ensures k < 16
  {
    if i < 16 then WORDS1[i] else if i < 32 then WORDS2[i - 16] else if i < 48 then WORDS3[i - 32] else WORDS4[i - 48]
  }

  function SineOf(i: nat): word
    requires i < 64
  {
    SINES[i]
  }

  // ---- RFC 1321, section 3.4: rotating operations ----

  type Registers = r: seq<word> | |r| == 4 witness [0, 0, 0, 0]

  function Turned(b: word, f: word, s: nat): word
    requires s <= 32
  {
    b + Rotate(f, s)
  }

  function Sum(a: word, b: word, c: word, d: word): word { a + b + c + d }

  /** [abcd k s i]: the new value of a is b + ((a + f(b,c,d) + X[k] + T[i]) <<< s). */
  function NewValue(x: seq<word>, i: nat, a: word, b: word, c: word, d: word): word
    requires |x| == 16 && i < 64
  {
    Turned(b, Sum(a, Aux(i / 16, b, c, d), x[WordOf(i)], SineOf(i)), ShiftOf(i))
  }

  /** Operation `i` changes one register; abcd is ABCD, DABC, CDAB, BCDA in turn. */
  function Operation(r: Registers, x: seq<word>, i: nat): Registers
    requires |x| == 16 && i < 64
  {
    r[Role(i, 0) := NewValue(x, i, r[Role(i, 0)], r[Role(i, 1)], r[Role(i, 2)], r[Role(i, 3)])]
  }

  /** The register that plays role 0 (a) to 3 (d) in operation `i`: each operation starts one register earlier. */
  function Role(i: nat, role: nat): (p: nat)
    requires role < 4
    ensures p < 4
  {
    (3 * (i % 4) + role) % 4
  }

  function Operations(r: Registers, x: seq<word>, n: nat): Registers
    requires |x| == 16 && n <= 64
  {
    if n == 0 then r else Operation(Operations(r, x, n - 1), x, n - 1)
  }

  function AddEach(r: Registers, s: Registers): Registers { [r[0] + s[0], r[1] + s[1], r[2] + s[2], r[3] + s[3]] }

  function WordAt(b: bytes, k: nat): word
    requires 4 * k + 4 <= |b|
  {
    U32At(b[4 * k..]) as word
  }

  function BlockWords(b: bytes): (x: seq<word>)
    requires |b| == 64
    ensures |x| == 16
  {
    seq(16, k requires 0 <= k < 16 => WordAt(b, k))
  }

  function Block(r: Registers, b: bytes): Registers
    requires |b| == 64
  {
    AddEach(r, Operations(r, BlockWords(b), 64))
  }

  function Blocks(r: Registers, msg: bytes): Registers
    requires |msg| % 64 == 0
    decreases |msg|
  {
    if msg == [] then r else Blocks(Block(r, msg[..64]), msg[64..])
  }

  // ---- RFC 1321, sections 3.1 to 3.3 and 3.5 ----

  /** How many zero bytes follow the 0x80 byte. */
  function Gap(n: nat): (k: nat)
    ensures k < 64 && (n + 1 + k) % 64 == 56
  {
    (119 - n % 64) % 64
  }

  function Pad(data: bytes): (m: bytes)
    ensures |m| == |data| + 9 + Gap(|data|)
  {
    data + [0x80] + Zeros(Gap(|data|)) + Le(8 * |data|, 8)
  }

  lemma PadLength(data: bytes)
    ensures |Pad(data)| % 64 == 0 && |data| + 9 <= |Pad(data)| <= |data| + 72
  {
    hide Pad, Gap;
    FullBlock(|data| + 1 + Gap(|data|));
  }

  lemma FullBlock(n: nat)
    requires n % 64 == 56
    ensures (n + 8) % 64 == 0
  {
  }

  const START: Registers := [0x67452301, 0xefcdab89, 0x98badcfe, 0x10325476]

  function WordBytes(w: word): (b: bytes)
    ensures |b| == 4
  {
    Le(w as nat, 4)
  }

  function Output(r: Registers): (b: bytes)
    ensures |b| == 16
  {
    WordBytes(r[0]) + WordBytes(r[1]) + WordBytes(r[2]) + WordBytes(r[3])
  }

  /** Section 3.4 of RFC 1321: <<< is circular, for each of the sixteen shift amounts. */
  lemma RotateIsCircular(x: word)
    ensures Rotate(x, 7) == (x << 7) | (x >> 25) && Rotate(x, 12) == (x << 12) | (x >> 20)
    ensures Rotate(x, 17) == (x << 17) | (x >> 15) && Rotate(x, 22) == (x << 22) | (x >> 10)
    ensures Rotate(x, 5) == (x << 5) | (x >> 27) && Rotate(x, 9) == (x << 9) | (x >> 23)
    ensures Rotate(x, 14) == (x << 14) | (x >> 18) && Rotate(x, 20) == (x << 20) | (x >> 12)
    ensures Rotate(x, 4) == (x << 4) | (x >> 28) && Rotate(x, 11) == (x << 11) | (x >> 21)
    ensures Rotate(x, 16) == (x << 16) | (x >> 16) && Rotate(x, 23) == (x << 23) | (x >> 9)
    ensures Rotate(x, 6) == (x << 6) | (x >> 26) && Rotate(x, 10) == (x << 10) | (x >> 22)
    ensures Rotate(x, 15) == (x << 15) | (x >> 17) && Rotate(x, 21) == (x << 21) | (x >> 11)
  {
  }

  /** Sections 2 and 3.5: words are written and read low-order byte first, A before B before C before D. */
  lemma OutputReadsBack(r: Registers, j: nat)
    requires j < 4
    ensures WordAt(Output(r), j) == r[j]
  {
    hide WordBytes, WordAt;
    var out := Output(r);
    assert out[4 * j..] == WordBytes(r[j]) + out[4 * j + 4..];
    WordBack(r[j], out, j);
  }

  lemma WordBack(w: word, b: bytes, j: nat)
    requires 4 * j + 4 <= |b| && b[4 * j..] == WordBytes(w) + b[4 * j + 4..]
    ensures WordAt(b, j) == w
  {
    hide Le, U32At;
    ReadLe32(w as nat, b[4 * j + 4..]);
    WordThere(w);
  }

  lemma WordThere(w: word)
    ensures (w as nat) as word == w && w as nat < 0x1_0000_0000
  {
  }

  /** Section 3.3: the initial registers, as the bytes the RFC gives them by. */
  lemma StartBytes()
    ensures Output(START) == [0x01, 0x23, 0x45, 0x67, 0x89, 0xab, 0xcd, 0xef,
                              0xfe, 0xdc, 0xba, 0x98, 0x76, 0x54, 0x32, 0x10]
  {
    hide Le;
    StartWords();
    LeFour(0x67452301);
    LeFour(0xefcdab89);
    LeFour(0x98badcfe);
    LeFour(0x10325476);
  }

  lemma StartWords()
    ensures START[0] as nat == 0x67452301 && START[1] as nat == 0xefcdab89
    ensures START[2] as nat == 0x98badcfe && START[3] as nat == 0x10325476
  {
  }

  lemma LeFour(n: nat)
    ensures Le(n, 4) == [n % 256, n / 0x100 % 256, n / 0x1_0000 % 256, n / 0x100_0000 % 256]
  {
    assert Le(n, 4) == [n % 256] + Le(n / 256, 3);
    assert Le(n / 256, 3) == [n / 256 % 256] + Le(n / 256 / 256, 2);
    assert Le(n / 256 / 256, 2) == [n / 256 / 256 % 256] + Le(n / 256 / 256 / 256, 1);
    assert Le(n / 256 / 256 / 256, 1) == [n / 256 / 256 / 256 % 256] + Le(n / 256 / 256 / 256 / 256, 0);
  }

  function Digest(data: bytes): (d: bytes)
    ensures |d| == 16
  {
    PadLength(data);
    Output(Blocks(START, Pad(data)))
  }

  /** Padding loses nothing, whatever the lengths: the last 64 bits fix the length modulo 2^61 and the number of blocks
      settles the rest. */
  lemma PadInjective(x: bytes, y: bytes)
    ensures Pad(x) == Pad(y) <==> x == y
  {
    var p, q := Pad(x), Pad(y);
    if p == q {
      PadLength(x);
      PadLength(y);
      assert p[|p| - 8..] == Le(8 * |x|, 8) && q[|q| - 8..] == Le(8 * |y|, 8);
      LeRoundTrip(8 * |x|, 8);
      LeRoundTrip(8 * |y|, 8);
      PowValues();
      SameLength(|x|, |y|);
      assert p[..|x|] == x && q[..|y|] == y;
    }
  }

  lemma SameLength(m: nat, n: nat)
    requires (8 * m) % 0x1_0000_0000_0000_0000 == (8 * n) % 0x1_0000_0000_0000_0000
    requires -64 < m - n < 64
    ensures m == n
  {
  }

  // ---- The code's form ----

  function CodeIndex(i: nat): nat {
    if i < 16 then i else if i < 32 then (5 * i + 1) % 16 else if i < 48 then (3 * i + 5) % 16 else (7 * i) % 16
  }

  const ROW1: seq<nat> := [7, 12, 17, 22, 7, 12, 17, 22, 7, 12, 17, 22, 7, 12, 17, 22]
  const ROW2: seq<nat> := [5, 9, 14, 20, 5, 9, 14, 20, 5, 9, 14, 20, 5, 9, 14, 20]
  const ROW3: seq<nat> := [4, 11, 16, 23, 4, 11, 16, 23, 4, 11, 16, 23, 4, 11, 16, 23]
  const ROW4: seq<nat> := [6, 10, 15, 21, 6, 10, 15, 21, 6, 10, 15, 21, 6, 10, 15, 21]

  /** The code's flat table of 64 shifts. */
  function CodeShift(i: nat): nat
    requires i < 64
  {
    if i < 16 then ROW1[i] else if i < 32 then ROW2[i - 16] else if i < 48 then ROW3[i - 32] else ROW4[i - 48]
  }

  lemma ShiftRows(j: nat)
    requires j < 16
    ensures ROW1[j] == SHIFTS[0][j % 4] && ROW2[j] == SHIFTS[1][j % 4]
    ensures ROW3[j] == SHIFTS[2][j % 4] && ROW4[j] == SHIFTS[3][j % 4]
  {
  }

  lemma ModShift(i: nat)
    requires i < 64
    ensures (i % 16) % 4 == i % 4 && i == 16 * (i / 16) + i % 16
  {
  }

  /** The index formulas of the code give the RFC's word order, and its flat shift table the RFC's shifts. */
  lemma TablesAgree(i: nat)
    requires i < 64
    ensures WordOf(i) == CodeIndex(i) && ShiftOf(i) == CodeShift(i)
  {
    hide WordOf, CodeIndex, ShiftOf, CodeShift;
    WordsAgree(i);
    ShiftsAgree(i);
  }

  lemma ShiftsAgree(i: nat)
    requires i < 64
    ensures ShiftOf(i) == CodeShift(i)
  {
    ShiftRows(i % 16);
    ModShift(i);
    if i < 16 { assert i / 16 == 0; } else if i < 32 { assert i / 16 == 1; } else if i < 48 { assert i / 16 == 2; }
  }

  lemma WordsAgree(i: nat)
    requires i < 64
    ensures WordOf(i) == CodeIndex(i)
  {
    if i < 16 {
      WordRow1(i);
    } else if i < 32 {
      WordRow2(i - 16);
    } else if i < 48 {
      WordRow3(i - 32);
    } else {
      WordRow4(i - 48);
    }
  }

  lemma WordRow1(j: nat)
    requires j < 16
    ensures WORDS1[j] == j
  {
  }

  lemma WordRow2(j: nat)
    requires j < 16
    ensures WORDS2[j] == (5 * (16 + j) + 1) % 16
  {
  }

  lemma WordRow3(j: nat)
    requires j < 16
    ensures WORDS3[j] == (3 * (32 + j) + 5) % 16
  {
  }

  lemma WordRow4(j: nat)
    requires j < 16
    ensures WORDS4[j] == (7 * (48 + j)) % 16
  {
  }

  /** The registers in the roles they play before operation `i`. */
  ghost predicate InRoles(r: Registers, i: nat, a: word, b: word, c: word, d: word) {
    a == r[Role(i, 0)] && b == r[Role(i, 1)] && c == r[Role(i, 2)] && d == r[Role(i, 3)]
  }

  function CodeAux(i: nat, b: word, c: word, d: word): word {
    if i < 16 then (b & c) | (!b & d)
    else if i < 32 then (d & b) | (!d & c)
    else if i < 48 then b ^ c ^ d
    else c ^ (b | !d)
  }

  lemma AuxAgrees(i: nat, b: word, c: word, d: word)
    requires i < 64
    ensures CodeAux(i, b, c, d) == Aux(i / 16, b, c, d)
  {
    assert (d & b) | (!d & c) == G(b, c, d);
    hide G;
    if i < 16 { assert i / 16 == 0; } else if i < 32 { assert i / 16 == 1; } else if i < 48 { assert i / 16 == 2; }
  }

  lemma SumOrder(f: word, a: word, k: word, m: word)
    ensures Sum(f, a, k, m) == Sum(a, f, m, k)
  {
  }

  function CodeValue(x: seq<word>, i: nat, a: word, b: word, c: word, d: word): word
    requires |x| == 16 && i < 64
  {
    TablesAgree(i);
    Turned(b, Sum(CodeAux(i, b, c, d), a, SineOf(i), x[CodeIndex(i)]), CodeShift(i))
  }

  /** The value the code computes in a step is the one the RFC's operation stores. */
  lemma ValuesAgree(x: seq<word>, i: nat, a: word, b: word, c: word, d: word)
    requires |x| == 16 && i < 64
    ensures CodeValue(x, i, a, b, c, d) == NewValue(x, i, a, b, c, d)
  {
    hide Sum, Turned, Aux, WordOf, ShiftOf, CodeAux, CodeIndex, CodeShift, SineOf;
    TablesAgree(i);
    AuxAgrees(i, b, c, d);
    SumOrder(CodeAux(i, b, c, d), a, SineOf(i), x[CodeIndex(i)]);
  }

  lemma NextMod4(i: nat)
    ensures (i + 1) % 4 == if i % 4 == 3 then 0 else i % 4 + 1
  {
  }

  lemma RolesMove(i: nat)
    ensures Role(i + 1, 0) == Role(i, 3) && Role(i + 1, 1) == Role(i, 0)
    ensures Role(i + 1, 2) == Role(i, 1) && Role(i + 1, 3) == Role(i, 2)
    ensures Role(i, 0) != Role(i, 1) && Role(i, 0) != Role(i, 2) && Role(i, 0) != Role(i, 3)
  {
    NextMod4(i);
    var r := i % 4;
    assert r == 0 || r == 1 || r == 2 || r == 3;
  }

  /** One turn of the code's shuffle is one rotating operation of the RFC. */
  lemma ShuffleIsOperation(r: Registers, x: seq<word>, i: nat, a: word, b: word, c: word, d: word)
    requires |x| == 16 && i < 64 && InRoles(r, i, a, b, c, d)
    ensures InRoles(Operation(r, x, i), i + 1, d, CodeValue(x, i, a, b, c, d), b, c)
  {
    hide NewValue, CodeValue, Role;
    RolesMove(i);
    ValuesAgree(x, i, a, b, c, d);
  }

  /** The 64-step loop over one block. */
  method Compress(r: Registers, x: seq<word>) returns (s: Registers)
    requires |x| == 16
    ensures s == Operations(r, x, 64)
  {
    hide CodeValue, Operation, InRoles;
    var a, b, c, d := r[0], r[1], r[2], r[3];
    RolesAtStart(r);
    for i := 0 to 64
      invariant InRoles(Operations(r, x, i), i, a, b, c, d)
    {
      ShuffleIsOperation(Operations(r, x, i), x, i, a, b, c, d);
      a, b, c, d := d, CodeValue(x, i, a, b, c, d), b, c;
    }
    s := [a, b, c, d];
    RolesAtEnd(Operations(r, x, 64), a, b, c, d);
  }

  lemma RolesAtStart(r: Registers)
    ensures InRoles(r, 0, r[0], r[1], r[2], r[3])
  {
  }

  lemma RolesAtEnd(r: Registers, a: word, b: word, c: word, d: word)
    requires InRoles(r, 64, a, b, c, d)
    ensures r == [a, b, c, d]
  {
  }

  method PadLoop(data: bytes) returns (msg: bytes)
    ensures msg == Pad(data)
  {
    var bits := (8 * |data|) % 0x1_0000_0000_0000_0000;
    msg := data + [0x80];
    ghost var k := 0;
    while |msg| % 64 != 56
      invariant 0 <= k <= Gap(|data|) && msg == data + [0x80] + Zeros(k)
      decreases Gap(|data|) - k
    {
      GapIsLeast(|data|, k);
      assert Zeros(k) + [0] == Zeros(k + 1);
      msg := msg + [0];
      k := k + 1;
    }
    GapIsLeast(|data|, k);
    msg := msg + Le(bits, 8);
    LowBytes(8 * |data|);
  }

  lemma GapIsLeast(n: nat, k: nat)
    requires k <= Gap(n)
    ensures (n + 1 + k) % 64 == 56 <==> k == Gap(n)
  {
  }

  lemma LowBytes(n: nat)
    ensures Le(n % 0x1_0000_0000_0000_0000, 8) == Le(n, 8)
  {
    PowValues();
    LeRoundTrip(n, 8);
    LeCanonical(Le(n, 8));
  }

  method Md5Hash(data: bytes) returns (digest: bytes)
    ensures digest == Digest(data)
  {
    hide Operations, Pad, Output;
    PadLength(data);
    var msg := PadLoop(data);
    var r: Registers := START;
    var at := 0;
    while at < |msg|
      invariant 0 <= at <= |msg| && at % 64 == 0 && |msg| % 64 == 0
      invariant Blocks(START, msg) == Blocks(r, msg[at..])
      decreases |msg| - at
    {
      var chunk := msg[at..at + 64];
      assert msg[at..][..64] == chunk && msg[at..][64..] == msg[at + 64..];
      var x := ReadWords(chunk);
      var s := Compress(r, x);
      r := AddEach(r, s);
      at := at + 64;
    }
    return Output(r);
  }

  method ReadWords(chunk: bytes) returns (x: seq<word>)
    requires |chunk| == 64
    ensures x == BlockWords(chunk)
  {
    hide WordAt;
    x := [];
    for i := 0 to 16
      invariant |x| == i && forall k :: 0 <= k < i ==> x[k] == WordAt(chunk, k)
    {
      x := x + [WordAt(chunk, i)];
    }
  }
}

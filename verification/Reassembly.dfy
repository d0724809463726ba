/** Rebuilding a payload from overlapping fragments (helper.c) or from a list of buffers (src/dds/sertype.rs). */
module Reassembly {
  import opened Bytes

  /** The bytes from `min` up to but not including `maxp1` of the payload it was cut from. */
  datatype Fragment = Fragment(min: u32, maxp1: u32, payload: bytes)

  class Rdata {
    const frag: Fragment
    const nextfrag: Rdata?

    constructor (frag: Fragment, nextfrag: Rdata?)
      ensures this.frag == frag && this.nextfrag == nextfrag
    {
      this.frag, this.nextfrag := frag, nextfrag;
    }
  }

  /** The list starting at `node` consists of `chain`. */
  ghost predicate IsChain(node: Rdata?, chain: seq<Fragment>) {
    if node == null then chain == [] else chain != [] && chain[0] == node.frag && IsChain(node.nextfrag, chain[1..])
  }

  /** The highest end of any fragment. */
  ghost function End(chain: seq<Fragment>): nat {
    if chain == [] then 0
    else
      var n := |chain| - 1;
      var e := End(chain[..n]);
      if chain[n].maxp1 > e then chain[n].maxp1 else e
  }

  /** Every fragment holds the bytes between its bounds. */
  ghost predicate Sized(chain: seq<Fragment>) {
    forall i :: 0 <= i < |chain| ==>
      chain[i].min <= chain[i].maxp1 && |chain[i].payload| == chain[i].maxp1 - chain[i].min
  }

  /** Every fragment is a slice of one payload. */
  ghost predicate SlicesOf(chain: seq<Fragment>, src: bytes) {
    forall i :: 0 <= i < |chain| ==>
      chain[i].min <= chain[i].maxp1 <= |src| && chain[i].payload == src[chain[i].min..chain[i].maxp1]
  }

  /** Fragment `i` is reached before the buffer is full, and brings new bytes. */
  ghost predicate Copied(chain: seq<Fragment>, size: nat, i: nat)
    requires i < |chain|
  {
    End(chain[..i]) < size && chain[i].maxp1 > End(chain[..i])
  }

  /** A fragment that is copied starts no later than the bytes before it end. */
  ghost predicate GapFree(chain: seq<Fragment>, size: nat) {
    forall i :: 0 <= i < |chain| && Copied(chain, size, i) ==> chain[i].min <= End(chain[..i])
  }

  // ---- One fragment ----

  /** Where the code starts reading a fragment, and how many bytes it takes, with `off` bytes already in place. */
  function ReadStart(f: Fragment, off: nat): nat { if off > f.min then off - f.min else 0 }

  function ReadCount(f: Fragment, off: nat, size: nat): nat
    requires off <= size && off <= f.maxp1
  {
    Min(size, f.maxp1) - off
  }

  /** A read runs past its fragment exactly when the fragment leaves a gap and the room left is more than it holds. */
  lemma ReadsPastIff(f: Fragment, off: nat, size: nat)
    requires f.min <= f.maxp1 && off < f.maxp1 && off <= size
    ensures ReadStart(f, off) + ReadCount(f, off, size) > f.maxp1 - f.min
       <==> f.min > off && ReadCount(f, off, size) > f.maxp1 - f.min
  {
  }

  /** All reads stay inside their fragments. */
  ghost predicate ReadsInside(chain: seq<Fragment>, size: nat) {
    forall i :: 0 <= i < |chain| && Copied(chain, size, i) ==>
      !(chain[i].min > End(chain[..i])
        && ReadCount(chain[i], End(chain[..i]), size) > chain[i].maxp1 - chain[i].min)
  }

  ghost predicate Inside(chain: seq<Fragment>, size: nat) { Sized(chain) && ReadsInside(chain, size) }

  function Piece(f: Fragment, off: nat, size: nat): (p: bytes)
    requires off <= size && off <= f.maxp1 && ReadStart(f, off) + ReadCount(f, off, size) <= |f.payload|
    ensures |p| == ReadCount(f, off, size)
  {
    f.payload[ReadStart(f, off)..][..ReadCount(f, off, size)]
  }

  lemma PieceInside(chain: seq<Fragment>, size: nat, i: nat)
    requires Inside(chain, size) && i < |chain| && Copied(chain, size, i)
    ensures var f, off := chain[i], End(chain[..i]);
            ReadStart(f, off) + ReadCount(f, off, size) <= |f.payload|
  {
    hide End;
    ReadsPastIff(chain[i], End(chain[..i]), size);
  }

  /** What the code puts in the buffer: the pieces of the copied fragments, one after another. */
  ghost function Image(chain: seq<Fragment>, size: nat): (b: bytes)
    requires Inside(chain, size)
    ensures |b| == Min(size, End(chain))
  {
    if chain == [] then []
    else
      var n := |chain| - 1;
      ReadsInit(chain, size);
      if Copied(chain, size, n) then
        PieceInside(chain, size, n);
        Image(chain[..n], size) + Piece(chain[n], End(chain[..n]), size)
      else Image(chain[..n], size)
  }

  lemma ReadsInit(chain: seq<Fragment>, size: nat)
    requires chain != [] && Inside(chain, size)
    ensures Inside(chain[..|chain| - 1], size)
  {
    var n := |chain| - 1;
    hide End;
    forall i | 0 <= i < n && Copied(chain[..n], size, i)
      ensures chain[..n][i] == chain[i] && chain[..n][..i] == chain[..i] && Copied(chain, size, i)
    {
      assert chain[..n][..i] == chain[..i];
    }
  }

  // ---- The whole chain ----

  /** End is the least bound of all the fragments' ends. */
  lemma {:induction false} EndIsHighest(chain: seq<Fragment>)
    ensures forall i :: 0 <= i < |chain| ==> chain[i].maxp1 <= End(chain)
    ensures chain != [] ==> exists i :: 0 <= i < |chain| && chain[i].maxp1 == End(chain)
  {
    if chain != [] {
      var n := |chain| - 1;
      EndIsHighest(chain[..n]);
      assert forall i :: 0 <= i < n ==> chain[..n][i] == chain[i];
      if chain[n].maxp1 > End(chain[..n]) || n == 0 {
        assert chain[n].maxp1 == End(chain);
      } else {
        var i :| 0 <= i < n && chain[..n][i].maxp1 == End(chain[..n]);
        assert chain[i].maxp1 == End(chain);
      }
    }
  }

  lemma EndNext(chain: seq<Fragment>, i: nat)
    requires i < |chain|
    ensures End(chain[..i + 1]) == if chain[i].maxp1 > End(chain[..i]) then chain[i].maxp1 else End(chain[..i])
  {
    assert chain[..i + 1][..i] == chain[..i];
  }

  lemma {:induction false} EndGrows(chain: seq<Fragment>, i: nat)
    requires i <= |chain|
    ensures End(chain[..i]) <= End(chain)
  {
    if i < |chain| {
      var n := |chain| - 1;
      EndGrows(chain[..n], i);
      assert chain[..n][..i] == chain[..i];
    } else {
      assert chain[..i] == chain;
    }
  }

  lemma GapFreeInside(chain: seq<Fragment>, src: bytes, size: nat)
    requires SlicesOf(chain, src) && GapFree(chain, size)
    ensures Inside(chain, size) && End(chain) <= |src|
  {
    EndIsHighest(chain);
  }

  lemma ImageLast(chain: seq<Fragment>, size: nat)
    requires chain != [] && Inside(chain, size)
    ensures var n := |chain| - 1;
            var f, off := chain[n], End(chain[..n]);
            && Inside(chain[..n], size)
            && (!Copied(chain, size, n) ==> Image(chain, size) == Image(chain[..n], size))
            && (Copied(chain, size, n) ==>
                  && ReadStart(f, off) + ReadCount(f, off, size) <= |f.payload|
                  && Image(chain, size) == Image(chain[..n], size) + Piece(f, off, size))
  {
    hide Sized, ReadsInside, End, Piece, ReadStart, ReadCount;
    ReadsInit(chain, size);
    if Copied(chain, size, |chain| - 1) { PieceInside(chain, size, |chain| - 1); }
  }

  lemma LastPiece(chain: seq<Fragment>, src: bytes, size: nat)
    requires chain != [] && SlicesOf(chain, src) && GapFree(chain, size) && Inside(chain, size)
    requires Copied(chain, size, |chain| - 1)
    ensures var n := |chain| - 1;
            var f, off := chain[n], End(chain[..n]);
            && ReadStart(f, off) + ReadCount(f, off, size) <= |f.payload|
            && off <= Min(size, End(chain)) <= |src|
            && Piece(f, off, size) == src[off..Min(size, End(chain))]
  {
    hide Inside, Piece;
    PieceInside(chain, size, |chain| - 1);
    PieceOf(chain[|chain| - 1], End(chain[..|chain| - 1]), size, src);
  }

  /** Slices of one payload without a gap: every read stays inside, and the pieces make up the payload's prefix. */
  lemma {:induction false} ImageIsPrefix(chain: seq<Fragment>, src: bytes, size: nat)
    requires SlicesOf(chain, src) && GapFree(chain, size)
    ensures Inside(chain, size) && End(chain) <= |src|
    ensures Image(chain, size) == src[..Min(size, End(chain))]
  {
    hide Inside, Piece, Image, GapFree, ReadStart;
    GapFreeInside(chain, src, size);
    if chain != [] {
      GapFreeInit(chain, size);
      ImageIsPrefix(chain[..|chain| - 1], src, size);
      ImageLast(chain, size);
      if Copied(chain, size, |chain| - 1) { LastPiece(chain, src, size); }
    }
  }

  lemma GapFreeInit(chain: seq<Fragment>, size: nat)
    requires chain != [] && GapFree(chain, size)
    ensures GapFree(chain[..|chain| - 1], size)
  {
    var n := |chain| - 1;
    hide End;
    forall i | 0 <= i < n && Copied(chain[..n], size, i) ensures chain[..n][i].min <= End(chain[..n][..i]) {
      assert chain[..n][..i] == chain[..i];
      assert Copied(chain, size, i);
    }
  }

  /** A piece is the payload's bytes at the offset, moved back by the gap if there is one. */
  lemma PieceOf(f: Fragment, off: nat, size: nat, src: bytes)
    requires f.min <= f.maxp1 <= |src| && f.payload == src[f.min..f.maxp1] && off < f.maxp1 && off <= size
    requires ReadStart(f, off) + ReadCount(f, off, size) <= |f.payload|
    ensures var from, n := (if f.min > off then f.min else off), ReadCount(f, off, size);
            from + n <= |src| && Piece(f, off, size) == src[from..from + n]
  {
  }

  // ---- Gaps are exactly what spoils the payload ----

  /** Bounds that some payload could be cut at. */
  ghost predicate Ordered(chain: seq<Fragment>) { forall i :: 0 <= i < |chain| ==> chain[i].min <= chain[i].maxp1 }

  ghost predicate Reaches(chain: seq<Fragment>, src: bytes) {
    forall i :: 0 <= i < |chain| ==> chain[i].min <= chain[i].maxp1 <= |src|
  }

  /** The chain with the same bounds, cut from another payload. */
  ghost function Recut(chain: seq<Fragment>, src: bytes): (c: seq<Fragment>)
    requires Reaches(chain, src)
    ensures |c| == |chain| && SlicesOf(c, src)
    ensures forall i :: 0 <= i < |c| ==> c[i].min == chain[i].min && c[i].maxp1 == chain[i].maxp1
  {
    seq(|chain|, i requires 0 <= i < |chain| =>
      Fragment(chain[i].min, chain[i].maxp1, src[chain[i].min..chain[i].maxp1]))
  }

  /** Ends depend on the bounds alone. */
  lemma {:induction false} SameEnds(a: seq<Fragment>, b: seq<Fragment>)
    requires |a| == |b| && forall i :: 0 <= i < |a| ==> a[i].maxp1 == b[i].maxp1
    ensures End(a) == End(b)
  {
    if a != [] { SameEnds(a[..|a| - 1], b[..|b| - 1]); }
  }

  lemma SameGaps(a: seq<Fragment>, b: seq<Fragment>, size: nat)
    requires |a| == |b| && forall i :: 0 <= i < |a| ==> a[i].min == b[i].min && a[i].maxp1 == b[i].maxp1
    ensures GapFree(a, size) <==> GapFree(b, size)
  {
    hide End;
    forall i | 0 <= i < |a| ensures End(a[..i]) == End(b[..i]) { SameEnds(a[..i], b[..i]); }
    assert forall i :: 0 <= i < |a| ==> Copied(a, size, i) == Copied(b, size, i);
  }

  /** What the first fragments put in the buffer stays there. */
  lemma {:induction false} ImageStarts(chain: seq<Fragment>, size: nat, j: nat)
    requires Inside(chain, size) && j <= |chain|
    ensures Inside(chain[..j], size) && Image(chain[..j], size) <= Image(chain, size)
  {
    hide Inside, End, Piece, Image;
    if j < |chain| {
      var n := |chain| - 1;
      ImageLast(chain, size);
      ImageStarts(chain[..n], size, j);
      assert chain[..n][..j] == chain[..j];
    } else {
      assert chain[..j] == chain;
    }
  }

  /** Behind a gap the buffer holds the byte at the fragment's start where the byte at the offset belongs. */
  lemma GapByte(chain: seq<Fragment>, src: bytes, size: nat, i: nat)
    requires SlicesOf(chain, src) && Inside(chain, size) && i < |chain| && Copied(chain, size, i)
    requires chain[i].min > End(chain[..i])
    ensures var off := End(chain[..i]);
            off < |Image(chain, size)| && chain[i].min < |src| && Image(chain, size)[off] == src[chain[i].min]
  {
    hide Inside, End, Piece, Image;
    var f, off, head := chain[i], End(chain[..i]), chain[..i + 1];
    ImageStarts(chain, size, i + 1);
    assert head[..i] == chain[..i] && head[i] == f;
    assert Copied(head, size, i);
    ImageLast(head, size);
    PieceOf(f, off, size, src);
    var img, p := Image(head, size), Piece(f, off, size);
    assert img == Image(head[..i], size) + p && |Image(head[..i], size)| == off && |p| > 0;
    assert img[off] == p[0];
  }

  /** Cut from this payload, the chain is read inside its fragments and leaves a prefix of the payload in the buffer. */
  ghost predicate Restores(chain: seq<Fragment>, src: bytes, size: nat)
    requires Reaches(chain, src)
  {
    var c := Recut(chain, src);
    Inside(c, size) && Image(c, size) <= src
  }

  /** The buffer gets the payload's prefix, whatever the payload, exactly when no copied fragment leaves a gap. */
  lemma GapFreeIff(chain: seq<Fragment>, size: nat)
    requires Ordered(chain)
    ensures GapFree(chain, size) <==> forall src :: Reaches(chain, src) ==> Restores(chain, src, size)
  {
    hide End, Image, Inside, Recut, Copied;
    if GapFree(chain, size) {
      forall src | Reaches(chain, src) ensures Restores(chain, src, size) {
        SameGaps(chain, Recut(chain, src), size);
        ImageIsPrefix(Recut(chain, src), src, size);
      }
    } else {
      var i :| 0 <= i < |chain| && Copied(chain, size, i) && chain[i].min > End(chain[..i]);
      var src := GapShows(chain, size, i);
    }
  }

  /** For every chain with a copied gap there is a payload it fails to bring back. */
  lemma GapShows(chain: seq<Fragment>, size: nat, i: nat) returns (src: bytes)
    requires Ordered(chain) && i < |chain| && Copied(chain, size, i) && chain[i].min > End(chain[..i])
    ensures Reaches(chain, src) && !Restores(chain, src, size)
  {
    hide End, Image, Inside, Recut;
    var off := End(chain[..i]);
    EndIsHighest(chain);
    src := seq(End(chain), k => if k == off then 1 else 0);
    var c := Recut(chain, src);
    SameEnds(chain[..i], c[..i]);
    if Inside(c, size) { GapByte(c, src, size, i); }
  }

  /** A gap inside the buffer, first way to fail: bytes 4..8 missing two, and the read runs past the fragment. */
  lemma GapReadsPast()
    ensures var chain := [Fragment(0, 4, [10, 11, 12, 13]), Fragment(6, 8, [16, 17])];
            SlicesOf(chain, [10, 11, 12, 13, 14, 15, 16, 17]) && !ReadsInside(chain, 8)
  {
    var chain := [Fragment(0, 4, [10, 11, 12, 13]), Fragment(6, 8, [16, 17])];
    GapEnds(chain);
    assert Copied(chain, 8, 1);
  }

  /** Second way: all reads stay inside, but byte 6 lands at offset 4. */
  lemma GapMisplaces()
    ensures var chain := [Fragment(0, 4, [10, 11, 12, 13]), Fragment(6, 8, [16, 17])];
            && SlicesOf(chain, [10, 11, 12, 13, 14, 15, 16, 17]) && Inside(chain, 5)
            && Image(chain, 5) == [10, 11, 12, 13, 16]
  {
    var chain := [Fragment(0, 4, [10, 11, 12, 13]), Fragment(6, 8, [16, 17])];
    GapEnds(chain);
    assert Copied(chain, 5, 0) && Copied(chain, 5, 1);
    ReadsInit(chain, 5);
    assert chain[..1][..0] == [];
    assert Image(chain[..1], 5) == [] + Piece(chain[0], 0, 5);
  }

  lemma GapEnds(chain: seq<Fragment>)
    requires |chain| == 2 && chain[0].maxp1 == 4
    ensures End(chain[..0]) == 0 && End(chain[..1]) == 4
  {
    assert chain[..1][..0] == [];
  }

  // ---- The loop ----

  /** memcpy. */
  method CopyBytes(buf: array<u8>, at: nat, from: bytes, start: nat, count: nat)
    requires at + count <= buf.Length && start + count <= |from|
    modifies buf
    ensures forall k :: 0 <= k < buf.Length ==>
      buf[k] == if at <= k < at + count then from[start + (k - at)] else old(buf[k])
  {
    for i := 0 to count
      invariant forall k :: 0 <= k < buf.Length ==>
        buf[k] == if at <= k < at + i then from[start + (k - at)] else old(buf[k])
    {
      buf[at + i] := from[start + i];
    }
  }

  /** The first bytes are `image` and the rest is as it was. */
  ghost predicate Shows(now: bytes, was: bytes, image: bytes) { |image| <= |was| && now == image + was[|image|..] }

  /** The turn of the loop for a fragment that brings new bytes. */
  method CopyFragment(f: Fragment, ghost was: bytes, ghost image: bytes, off: nat, size: nat, buf: array<u8>)
    requires f.min <= f.maxp1 && off == |image| && off < f.maxp1 && off <= size <= buf.Length
    requires ReadStart(f, off) + ReadCount(f, off, size) <= |f.payload|
    requires Shows(buf[..], was, image)
    modifies buf
    ensures Shows(buf[..], was, image + Piece(f, off, size))
  {
    var start := if off > f.min then off - f.min else 0;
    var count := f.maxp1 - off;
    if off + count > size { count := size - off; }
    CopyBytes(buf, off, f.payload, start, count);
    assert buf[..] == image + Piece(f, off, size) + was[off + count..];
  }

  /** `copy_fragchain_to_buf` on every chain whose reads stay inside: it writes only the first min(size, highest end)
      bytes. On gap-free slices of one payload these are the payload's. */
  method CopyFragchainToBuf(fragchain: Rdata?, ghost chain: seq<Fragment>, size: nat, buf: array<u8>) returns (n: nat)
    requires IsChain(fragchain, chain) && Inside(chain, size) && size <= buf.Length
    modifies buf
    ensures n == Min(size, End(chain)) && buf[..] == Image(chain, size) + old(buf[..])[n..]
    ensures forall src :: SlicesOf(chain, src) && GapFree(chain, size) ==>
              n <= |src| && buf[..] == src[..n] + old(buf[..])[n..]
  {
    hide End, Image, Piece, ReadsInside, GapFree, SlicesOf, Sized;
    ghost var was := buf[..];
    var off, node := 0, fragchain;
    ghost var i: nat := 0;
    LoopStart(chain, size);
    PrefixImage(chain, size);
    while node != null
      invariant i <= |chain| && IsChain(node, chain[i..]) && off == End(chain[..i]) && (off < size || off == size == 0)
      invariant Inside(chain[..i], size) && Shows(buf[..], was, Image(chain[..i], size))
      decreases |chain| - i
    {
      assert chain[i..][1..] == chain[i + 1..] && node.frag == chain[i];
      LoopStep(chain, size, i);
      if node.frag.maxp1 > off {
        CopyFragment(node.frag, was, Image(chain[..i], size), off, size, buf);
        off := node.frag.maxp1;
        if off >= size {
          ImageFull(chain, size, i + 1);
          return size;
        }
      }
      node := node.nextfrag;
      i := i + 1;
    }
    assert chain[..i] == chain;
    return if off < size then off else size;
  }

  lemma LoopStart(chain: seq<Fragment>, size: nat)
    ensures End(chain[..0]) == 0 && Inside(chain[..0], size) && Image(chain[..0], size) == []
  {
  }

  lemma PrefixImage(chain: seq<Fragment>, size: nat)
    requires Inside(chain, size)
    ensures forall src :: SlicesOf(chain, src) && GapFree(chain, size) ==>
              Min(size, End(chain)) <= |src| && Image(chain, size) == src[..Min(size, End(chain))]
  {
    hide End, Image, GapFree, SlicesOf, Inside;
    forall src | SlicesOf(chain, src) && GapFree(chain, size)
      ensures Min(size, End(chain)) <= |src| && Image(chain, size) == src[..Min(size, End(chain))]
    {
      ImageIsPrefix(chain, src, size);
    }
  }

  lemma InsidePrefix(chain: seq<Fragment>, size: nat, j: nat)
    requires Inside(chain, size) && j <= |chain|
    ensures Inside(chain[..j], size)
  {
    hide End;
    forall i | 0 <= i < j && Copied(chain[..j], size, i)
      ensures chain[..j][i] == chain[i] && chain[..j][..i] == chain[..i] && Copied(chain, size, i)
    {
      assert chain[..j][..i] == chain[..i];
    }
  }

  lemma LoopStep(chain: seq<Fragment>, size: nat, i: nat)
    requires Inside(chain, size) && i < |chain| && Inside(chain[..i], size)
    requires End(chain[..i]) < size || End(chain[..i]) == size == 0
    ensures var f, off := chain[i], End(chain[..i]);
            && Inside(chain[..i + 1], size) && f.min <= f.maxp1
            && End(chain[..i + 1]) == (if f.maxp1 > off then f.maxp1 else off)
            && |Image(chain[..i], size)| == off
            && (f.maxp1 > off ==>
                  && ReadStart(f, off) + ReadCount(f, off, size) <= |f.payload|
                  && Image(chain[..i + 1], size) == Image(chain[..i], size) + Piece(f, off, size))
            && (f.maxp1 <= off ==> Image(chain[..i + 1], size) == Image(chain[..i], size))
  {
    hide ReadsInside;
    InsidePrefix(chain, size, i + 1);
    EndNext(chain, i);
    assert chain[..i + 1][..i] == chain[..i];
    if Copied(chain, size, i) { PieceInside(chain, size, i); }
  }

  /** Once the buffer is full the rest of the chain adds nothing. */
  lemma {:induction false} ImageFull(chain: seq<Fragment>, size: nat, j: nat)
    requires Inside(chain, size) && j <= |chain| && Inside(chain[..j], size) && End(chain[..j]) >= size
    ensures End(chain) >= size && Image(chain, size) == Image(chain[..j], size)
  {
    hide ReadsInside, Sized;
    if j < |chain| {
      var n := |chain| - 1;
      InsidePrefix(chain, size, n);
      assert chain[..n][..j] == chain[..j];
      ImageFull(chain[..n], size, j);
    } else {
      assert chain[..j] == chain;
    }
  }

  /** `sd_from_ser`: the payload as far as the fragments reach, then zeros. */
  method FromFragments(fragchain: Rdata?, ghost chain: seq<Fragment>, size: nat) returns (data: bytes)
    requires IsChain(fragchain, chain) && Inside(chain, size)
    ensures |data| == size && data == Image(chain, size) + Zeros(size - |Image(chain, size)|)
    ensures forall src :: SlicesOf(chain, src) && GapFree(chain, size) ==>
              var n := Min(size, End(chain)); n <= |src| && data == src[..n] + Zeros(size - n)
  {
    hide End, Image, GapFree, SlicesOf, Inside;
    var buf := new u8[size](_ => 0);
    assert buf[..] == Zeros(size);
    var n := CopyFragchainToBuf(fragchain, chain, size, buf);
    assert Zeros(size)[n..] == Zeros(size - n);
    data := buf[..];
  }

  // ---- Buffers ----

  function Concat(iovs: seq<bytes>): bytes {
    if iovs == [] then [] else Concat(iovs[..|iovs| - 1]) + iovs[|iovs| - 1]
  }

  lemma {:induction false} ConcatPrefix(iovs: seq<bytes>, i: nat)
    requires i <= |iovs|
    ensures |Concat(iovs[..i])| <= |Concat(iovs)| && Concat(iovs)[..|Concat(iovs[..i])|] == Concat(iovs[..i])
  {
    if i < |iovs| {
      var n := |iovs| - 1;
      ConcatPrefix(iovs[..n], i);
      assert iovs[..n][..i] == iovs[..i];
      assert Concat(iovs) == Concat(iovs[..n]) + iovs[n];
    } else {
      assert iovs[..i] == iovs;
    }
  }

  function Fill(b: bytes, size: nat): bytes {
    if |b| < size then b + Zeros(size - |b|) else b[..size]
  }

  /** `sd_from_ser_iov`: the first `size` bytes of the buffers laid end to end, zero padded. */
  method FromBuffers(iovs: seq<bytes>, size: nat) returns (data: bytes)
    ensures data == Fill(Concat(iovs), size)
  {
    var buf := new u8[size](_ => 0);
    var offset := 0;
    ghost var all := Concat(iovs);
    for i := 0 to |iovs|
      invariant offset == Min(size, |Concat(iovs[..i])|) && offset <= |all|
      invariant forall k :: 0 <= k < size ==> buf[k] == if k < offset then all[k] else 0
    {
      var toCopy := Min(|iovs[i]|, size - offset);
      ConcatPrefix(iovs, i + 1);
      assert iovs[..i + 1][..i] == iovs[..i];
      ghost var done := Concat(iovs[..i + 1]);
      assert done == Concat(iovs[..i]) + iovs[i];
      if toCopy > 0 {
        CopyBytes(buf, offset, iovs[i], 0, toCopy);
        assert forall k :: offset <= k < offset + toCopy ==> all[k] == done[k] == iovs[i][k - offset];
        offset := offset + toCopy;
      }
    }
    assert iovs[..|iovs|] == iovs;
    data := buf[..];
  }
}

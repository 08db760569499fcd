/**
 Iterated hash functions with 64-byte blocks: the compression function is folded over the padded
 message.  What is left of a message after whole blocks is its tail.
 */
module Hashing {
  import opened Machine

  const BLOCK: nat := 64

  /** The compression function folded over the whole blocks of x. */
  function Fold<H>(comp: (H, Bytes) -> H, h: H, x: Bytes): H
    decreases |x|
  {
    if |x| < BLOCK then h else Fold(comp, comp(h, x[..BLOCK]), x[BLOCK..])
  }

  /** What does not fill a block. */
  function Tail(x: Bytes): (t: Bytes)
    ensures |t| == |x| % BLOCK
    decreases |x|
  {
    if |x| < BLOCK then x else Tail(x[BLOCK..])
  }

  /** A message may be cut anywhere: fold the first part, then its tail and the second part. */
  lemma {:induction false} FoldConcat<H>(comp: (H, Bytes) -> H, h: H, x: Bytes, y: Bytes)
    ensures Fold(comp, h, x + y) == Fold(comp, Fold(comp, h, x), Tail(x) + y)
    ensures Tail(x + y) == Tail(Tail(x) + y)
    decreases |x|
  {
    if |x| >= BLOCK {
      assert (x + y)[..BLOCK] == x[..BLOCK] && (x + y)[BLOCK..] == x[BLOCK..] + y;
      FoldConcat(comp, comp(h, x[..BLOCK]), x[BLOCK..], y);
    }
  }

  lemma FoldShort<H>(comp: (H, Bytes) -> H, h: H, x: Bytes)
    requires |x| < BLOCK
    ensures Fold(comp, h, x) == h && Tail(x) == x
  {}

  /** One block, then the rest. */
  lemma FoldBlock<H>(comp: (H, Bytes) -> H, h: H, blk: Bytes, x: Bytes)
    requires |blk| == BLOCK
    ensures Fold(comp, h, blk + x) == Fold(comp, comp(h, blk), x) && Tail(blk + x) == Tail(x)
  {
    assert (blk + x)[..BLOCK] == blk && (blk + x)[BLOCK..] == x;
  }

  function Zeros(n: nat): (z: Bytes)
    ensures |z| == n
  {
    seq(n, _ => 0)
  }

  /** The number of zero bytes between the byte 0x80 and a length field of l bytes that makes the
      whole fill blocks: the smallest that does. */
  function ZeroCount(n: nat, l: nat): (k: nat)
    requires 0 < l < BLOCK
    ensures (n + 1 + k + l) % BLOCK == 0 && k < BLOCK
  {
    var r := n % BLOCK;
    if r + 1 + l <= BLOCK then BLOCK - (r + 1 + l) else 2 * BLOCK - (r + 1 + l)
  }

  /** What follows a message of n bytes. */
  function Padding(n: nat, length: Bytes): Bytes
    requires 0 < |length| < BLOCK
  {
    [0x80] + Zeros(ZeroCount(n, |length|)) + length
  }

  /** `p` pads a message of n bytes with a length field: 0x80, the fewest zeros that fill the last block, the field. */
  ghost predicate Pads(p: Bytes, n: nat, length: Bytes) {
    && |p| > |length| && p[0] == 0x80 && (forall i :: 0 < i < |p| - |length| ==> p[i] == 0)
    && p[|p| - |length|..] == length && (n + |p|) % BLOCK == 0 && |p| <= BLOCK + |length|
  }

  lemma PaddingIs(n: nat, length: Bytes)
    requires 0 < |length| < BLOCK
    ensures Pads(Padding(n, length), n, length)
  {}

  lemma PaddingByRemainder(n: nat, length: Bytes)
    requires 0 < |length| < BLOCK
    ensures Padding(n % BLOCK, length) == Padding(n, length)
  {}

  /** Padding of a tail that leaves room for the length field, and of one that does not. */
  lemma PaddingOfTail(n: nat, length: Bytes)
    requires 0 < |length| < BLOCK && n < BLOCK
    ensures n + 1 + |length| <= BLOCK ==> Padding(n, length) == [0x80] + Zeros(BLOCK - 1 - |length| - n) + length
    ensures n + 1 + |length| > BLOCK ==> Padding(n, length) == [0x80] + Zeros(2 * BLOCK - 1 - |length| - n) + length
  {}

  lemma Assoc4(a: Bytes, b: Bytes, c: Bytes, d: Bytes)
    ensures a + (b + c + d) == a + b + c + d
  {}

  lemma Regroup(a: Bytes, b: Bytes, c: Bytes, d: Bytes)
    ensures a + (b + c) + d == (a + b) + (c + d)
  {}

  lemma ZerosJoin(n: nat, k: nat)
    ensures Zeros(n) + Zeros(k) == Zeros(n + k)
  {}

  /** The padded tail is one block. */
  lemma OneBlock<H>(comp: (H, Bytes) -> H, h: H, tail: Bytes, length: Bytes, blk: Bytes)
    requires 0 < |length| < BLOCK && |tail| + 1 + |length| <= BLOCK
    requires blk == tail + [0x80] + Zeros(BLOCK - 1 - |length| - |tail|) + length
    ensures |blk| == BLOCK && Fold(comp, h, tail + Padding(|tail|, length)) == comp(h, blk)
  {
    hide Fold, Tail, Padding, Zeros;
    PaddingOfTail(|tail|, length);
    Assoc4(tail, [0x80], Zeros(BLOCK - 1 - |length| - |tail|), length);
    assert blk + [] == blk;
    FoldBlock(comp, h, blk, []);
    FoldShort(comp, comp(h, blk), []);
  }

  lemma FoldTwo<H>(comp: (H, Bytes) -> H, h: H, a: Bytes, b: Bytes)
    requires |a| == |b| == BLOCK
    ensures Fold(comp, h, a + b) == comp(comp(h, a), b)
  {
    hide Fold, Tail;
    assert b + [] == b;
    FoldBlock(comp, h, a, b);
    FoldBlock(comp, comp(h, a), b, []);
    FoldShort(comp, comp(comp(h, a), b), []);
  }

  lemma PaddedInTwo(tail: Bytes, length: Bytes)
    requires 0 < |length| < BLOCK && |tail| < BLOCK < |tail| + 1 + |length|
    ensures tail + Padding(|tail|, length)
         == (tail + [0x80] + Zeros(BLOCK - 1 - |tail|)) + (Zeros(BLOCK - |length|) + length)
  {
    hide Padding, Zeros;
    PaddingOfTail(|tail|, length);
    var y, z := Zeros(BLOCK - 1 - |tail|), Zeros(BLOCK - |length|);
    ZerosJoin(BLOCK - 1 - |tail|, BLOCK - |length|);
    Assoc4(tail, [0x80], y + z, length);
    Regroup(tail + [0x80], y, z, length);
  }

  /** The padded tail is two blocks. */
  lemma TwoBlocks<H>(comp: (H, Bytes) -> H, h: H, tail: Bytes, length: Bytes, a: Bytes, b: Bytes)
    requires 0 < |length| < BLOCK && |tail| < BLOCK < |tail| + 1 + |length|
    requires a == tail + [0x80] + Zeros(BLOCK - 1 - |tail|) && b == Zeros(BLOCK - |length|) + length
    ensures |a| == |b| == BLOCK && Fold(comp, h, tail + Padding(|tail|, length)) == comp(comp(h, a), b)
  {
    hide Fold, Padding, Zeros;
    PaddedInTwo(tail, length);
    FoldTwo(comp, h, a, b);
  }

  /** Padding what is left finishes the hash of the whole message. */
  lemma FoldPadded<H>(comp: (H, Bytes) -> H, h: H, m: Bytes, length: Bytes)
    requires 0 < |length| < BLOCK
    ensures Fold(comp, Fold(comp, h, m), Tail(m) + Padding(|Tail(m)|, length))
         == Fold(comp, h, m + Padding(|m|, length))
    ensures |m + Padding(|m|, length)| % BLOCK == 0
  {
    PaddingByRemainder(|m|, length);
    FoldConcat(comp, h, m, Padding(|m|, length));
  }

  /* ---- Numbers as bytes ---- */

  function Byte(n: nat): bv8
    requires n < 256
  {
    n as bv8
  }

  /** n modulo 256^k, most significant byte first. */
  function BigEndian(n: nat, k: nat): (b: Bytes)
    ensures |b| == k
  {
    if k == 0 then [] else BigEndian(n / 256, k - 1) + [Byte(n % 256)]
  }

  /** n modulo 256^k, least significant byte first. */
  function LittleEndian(n: nat, k: nat): (b: Bytes)
    ensures |b| == k
  {
    if k == 0 then [] else [Byte(n % 256)] + LittleEndian(n / 256, k - 1)
  }

  lemma {:induction false} BigEndianShift(n: nat, k: nat, j: nat)
    ensures BigEndian(n, k + j) == BigEndian(Drop(n, j), k) + BigEndian(n, j)
  {
    if j > 0 {
      BigEndianShift(n / 256, k, j - 1);
      assert BigEndian(n, k + j) == BigEndian(n / 256, k + j - 1) + [Byte(n % 256)];
    } else {
      assert BigEndian(n, 0) == [];
    }
  }

  /** n without its j lowest bytes. */
  function Drop(n: nat, j: nat): nat { if j == 0 then n else Drop(n / 256, j - 1) }

  function Pow256(k: nat): nat { if k == 0 then 1 else 256 * Pow256(k - 1) }

  /** `b` holds n modulo 256^|b|, most significant byte first, or least significant byte first. */
  ghost predicate HoldsBig(b: Bytes, n: nat) {
    forall i: nat :: i < |b| ==> b[i] == (Drop(n, |b| - 1 - i) % 256) as bv8
  }

  ghost predicate HoldsLittle(b: Bytes, n: nat) {
    forall i: nat :: i < |b| ==> b[i] == (Drop(n, i) % 256) as bv8
  }

  lemma {:induction false} BigEndianIs(n: nat, k: nat)
    ensures HoldsBig(BigEndian(n, k), n)
  {
    if k > 0 {
      var b, c := BigEndian(n, k), BigEndian(n / 256, k - 1);
      BigEndianIs(n / 256, k - 1);
      forall i: nat | i < k ensures b[i] == (Drop(n, k - 1 - i) % 256) as bv8 {
        if i < k - 1 { assert b[i] == c[i]; }
      }
    }
  }

  lemma {:induction false} LittleEndianIs(n: nat, k: nat)
    ensures HoldsLittle(LittleEndian(n, k), n)
  {
    if k > 0 {
      var b, c := LittleEndian(n, k), LittleEndian(n / 256, k - 1);
      LittleEndianIs(n / 256, k - 1);
      forall i: nat | i < k ensures b[i] == (Drop(n, i) % 256) as bv8 {
        if i > 0 { assert b[i] == c[i - 1]; }
      }
    }
  }

  /** Multiples of 256^k do not show in k bytes. */
  lemma {:induction false} BigEndianPeriod(n: nat, q: nat, k: nat)
    ensures BigEndian(n + Pow256(k) * q, k) == BigEndian(n, k)
  {
    if k > 0 {
      var p := Pow256(k - 1) * q;
      assert Pow256(k) * q == 256 * p;
      assert (n + 256 * p) / 256 == n / 256 + p && (n + 256 * p) % 256 == n % 256;
      BigEndianPeriod(n / 256, q, k - 1);
    }
  }

  lemma DropFour(n: nat)
    ensures Drop(n, 4) == n / 0x1_0000_0000
  {
    var a, b, c, d := n / 256, n / 256 / 256, n / 256 / 256 / 256, n / 256 / 256 / 256 / 256;
    Dropped(n, a, b, c, d);
    DivDiv(n, 256);
    DivDiv(n, 0x1_0000);
    DivDiv(n, 0x100_0000);
  }

  lemma Dropped(n: nat, a: nat, b: nat, c: nat, d: nat)
    requires a == n / 256 && b == a / 256 && c == b / 256 && d == c / 256
    ensures Drop(n, 4) == d
  {
    assert Drop(n, 4) == Drop(a, 3) == Drop(b, 2) == Drop(c, 1) == Drop(d, 0);
  }

  lemma DivDiv(n: nat, a: nat)
    requires a == 256 || a == 0x1_0000 || a == 0x100_0000
    ensures n / a / 256 == n / (256 * a)
  {}

  lemma PowFour(zero: nat)
    requires zero == 0
    ensures Pow256(4 + zero) == 0x1_0000_0000
  {
    assert Pow256(1 + zero) == 256 && Pow256(2 + zero) == 0x1_0000 && Pow256(3 + zero) == 0x100_0000;
  }

  /** Every piece is shorter than 2^29 bytes, so that its length in bits fits 32 bits. */
  predicate Short(pieces: seq<Bytes>) {
    forall k :: 0 <= k < |pieces| ==> |pieces[k]| < 0x2000_0000
  }

  function Concat(pieces: seq<Bytes>): Bytes {
    if pieces == [] then [] else Concat(pieces[..|pieces| - 1]) + pieces[|pieces| - 1]
  }

  lemma ConcatOne(pieces: seq<Bytes>, p: Bytes)
    ensures Concat(pieces + [p]) == Concat(pieces) + p
  {
    assert (pieces + [p])[..|pieces|] == pieces;
  }

  /** memcpy of `data` into a buffer. */
  method Put(buf: array<bv8>, at: nat, data: Bytes)
    requires at + |data| <= buf.Length
    modifies buf
    ensures buf[..] == old(buf[..at]) + data + old(buf[at + |data|..])
  {
    ghost var was := buf[..];
    var j := 0;
    while j < |data|
      invariant 0 <= j <= |data|
      invariant buf[..] == was[..at] + data[..j] + was[at + j..]
    {
      buf[at + j] := data[j];
      j := j + 1;
    }
  }
}

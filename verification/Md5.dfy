/** crypto/md5.c: buffering, counting and padding; the compression function is a parameter. */
module Md5 {
  import opened Machine
  import opened Hashing

  const COUNT: nat := WORD * WORD

  /** The context as a value: chaining value, buffered bytes, and the 64-bit byte count. */
  datatype Md5State<H> = Md5State(h: H, tail: Bytes, count: nat)

  function Start<H>(h: H): Md5State<H> { Md5State(h, [], 0) }

  /** What md5_update amounts to. */
  function Absorb<H>(comp: (H, Bytes) -> H, s: Md5State<H>, data: Bytes): Md5State<H> {
    Md5State(Fold(comp, s.h, s.tail + data), Tail(s.tail + data), (s.count + |data|) % COUNT)
  }

  /** What md5_final amounts to. */
  function Finish<H>(comp: (H, Bytes) -> H, out: H -> Bytes, s: Md5State<H>): Bytes {
    out(Fold(comp, s.h, s.tail + Padding(|s.tail|, LengthField(s.count))))
  }

  /** byte_count << 3 and byte_count >> 29, each in 32 bits. */
  function LengthField(count: nat): (l: Bytes)
    ensures |l| == 8
  {
    LittleEndian(8 * count % WORD, 4) + LittleEndian(count / 0x2000_0000 % WORD, 4)
  }

  /* ---- Streaming ---- */

  function AbsorbAll<H>(comp: (H, Bytes) -> H, h: H, pieces: seq<Bytes>): Md5State<H> {
    if pieces == [] then Start(h)
    else Absorb(comp, AbsorbAll(comp, h, pieces[..|pieces| - 1]), pieces[|pieces| - 1])
  }

  /** However a message is cut up, the context depends on the message only. */
  lemma {:induction false} AbsorbAllIs<H>(comp: (H, Bytes) -> H, h: H, pieces: seq<Bytes>)
    ensures var m := Concat(pieces);
            AbsorbAll(comp, h, pieces) == Md5State(Fold(comp, h, m), Tail(m), |m| % COUNT)
  {
    if pieces != [] {
      var n := |pieces| - 1;
      AbsorbAllIs(comp, h, pieces[..n]);
      FoldConcat(comp, h, Concat(pieces[..n]), pieces[n]);
      CountSum(|Concat(pieces[..n])|, |pieces[n]|);
    }
  }

  lemma CountSum(a: nat, b: nat)
    ensures (a % COUNT + b) % COUNT == (a + b) % COUNT
  {}

  /* ---- The length field ---- */

  lemma {:induction false} LittleEndianPeriod(n: nat, q: nat, k: nat)
    ensures LittleEndian(n + Pow256(k) * q, k) == LittleEndian(n, k)
  {
    if k > 0 {
      var p := Pow256(k - 1) * q;
      assert Pow256(k) * q == 256 * p;
      assert (n + 256 * p) / 256 == n / 256 + p && (n + 256 * p) % 256 == n % 256;
      LittleEndianPeriod(n / 256, q, k - 1);
    }
  }

  lemma {:induction false} LittleEndianSplit(n: nat, j: nat, k: nat)
    ensures LittleEndian(n, j + k) == LittleEndian(n, j) + LittleEndian(Drop(n, j), k)
  {
    if j > 0 {
      LittleEndianSplit(n / 256, j - 1, k);
      assert LittleEndian(n, j + k) == [Byte(n % 256)] + LittleEndian(n / 256, j - 1 + k);
    } else {
      assert LittleEndian(n, 0) == [];
    }
  }

  lemma LittleEndianMod(n: nat)
    ensures LittleEndian(n % WORD, 4) == LittleEndian(n, 4)
  {
    PowFour(0);
    LittleEndianPeriod(n % WORD, n / WORD, 4);
  }

  /** The two words are the length in bits, modulo 2^64, low-order word first. */
  lemma LengthFieldIs(n: nat)
    ensures LengthField(n % COUNT) == LittleEndian(8 * n, 8)
  {
    var c := n % COUNT;
    LittleEndianSplit(8 * n, 4, 4);
    DropFour(8 * n);
    LittleEndianMod(8 * n);
    LittleEndianMod(8 * n / WORD);
    Words(n);
  }

  lemma Words(n: nat)
    ensures 8 * (n % COUNT) % WORD == 8 * n % WORD
    ensures n % COUNT / 0x2000_0000 % WORD == 8 * n / WORD % WORD
  {
    var c, q := n % COUNT, n / COUNT;
    assert n == COUNT * q + c;
    LowWord(c, q);
    HighWord(c, q);
  }

  lemma LowWord(c: nat, q: nat)
    ensures 8 * c % WORD == 8 * (COUNT * q + c) % WORD
  {
    assert 8 * (COUNT * q + c) == WORD * (8 * WORD * q) + 8 * c;
    Hop(8 * WORD * q, 8 * c);
  }

  lemma HighWord(c: nat, q: nat)
    ensures c / 0x2000_0000 % WORD == 8 * (COUNT * q + c) / WORD % WORD
  {
    assert 8 * (COUNT * q + c) == WORD * (8 * WORD * q) + 8 * c;
    Hop(8 * WORD * q, 8 * c);
    assert 8 * c / WORD == c / 0x2000_0000;
    assert 8 * WORD * q == WORD * (8 * q);
    Hop(8 * q, c / 0x2000_0000);
  }

  lemma Hop(k: nat, z: nat)
    ensures (WORD * k + z) % WORD == z % WORD && (WORD * k + z) / WORD == k + z / WORD
  {}

  /** Sections 3.1 and 3.2 of RFC 1321: the message, the bit 1, zeros, and the length in 64 bits,
      low-order word first. */
  function Padded(m: Bytes): Bytes { m + Padding(|m|, LittleEndian(8 * |m|, 8)) }

  /** Byte by byte: the message, 0x80, zeros, and the 8 bytes of its length in bits, the
      least significant one first. */
  lemma PaddedIs(m: Bytes)
    ensures exists length ::
              && |length| == 8 && HoldsLittle(length, 8 * |m|)
              && Padded(m)[..|m|] == m && Pads(Padded(m)[|m|..], |m|, length)
  {
    hide Padding, LittleEndian, HoldsLittle, Pads;
    var length := LittleEndian(8 * |m|, 8);
    LittleEndianIs(8 * |m|, 8);
    PaddingIs(|m|, length);
    assert Padded(m)[|m|..] == Padding(|m|, length);
  }

  /** md5 of a message cut up in any way is the fold over the padded message. */
  lemma DigestIs<H>(comp: (H, Bytes) -> H, out: H -> Bytes, h: H, pieces: seq<Bytes>)
    ensures Finish(comp, out, AbsorbAll(comp, h, pieces)) == out(Fold(comp, h, Padded(Concat(pieces))))
  {
    hide Fold, Tail, LittleEndian, Padding;
    var m := Concat(pieces);
    AbsorbAllIs(comp, h, pieces);
    LengthFieldIs(|m|);
    FoldPadded(comp, h, m, LittleEndian(8 * |m|, 8));
  }

  /* ---- The context ---- */

  lemma OffsetMoves(count: nat, n: nat)
    requires count < COUNT
    ensures (count + n) % COUNT % BLOCK == (count % BLOCK + n) % BLOCK
  {
    assert COUNT == BLOCK * (COUNT / BLOCK);
  }

  /** struct md5_ctx, with the compression function it works with and the all-zero hash words. */
  class Md5Ctx<H> {
    const comp: (H, Bytes) -> H
    const out: H -> Bytes
    const zero: H
    var hash: H
    const block: array<bv8>
    var byteCount: nat

    ghost predicate Valid()
      reads this
    {
      block.Length == BLOCK && byteCount < COUNT
    }

    ghost function View(): Md5State<H>
      reads this, block
      requires Valid()
    {
      Md5State(hash, block[..byteCount % BLOCK], byteCount)
    }

    /** md5_init; the block starts out with arbitrary contents. */
    constructor (comp: (H, Bytes) -> H, out: H -> Bytes, h0: H, zero: H)
      ensures Valid() && View() == Start(h0) && fresh(block)
      ensures this.comp == comp && this.out == out && this.zero == zero
    {
      this.comp, this.out, this.zero := comp, out, zero;
      hash, byteCount := h0, 0;
      block := new bv8[BLOCK];
    }

    /** md5_update: every block is compressed from the context's own copy. */
    method Update(data: Bytes)
      requires Valid()
      modifies this, block
      ensures Valid() && View() == Absorb(comp, old(View()), data)
    {
      hide Fold, Tail;
      ghost var h, tail := hash, block[..byteCount % BLOCK];
      var avail := BLOCK - byteCount % BLOCK;
      OffsetMoves(byteCount, |data|);
      byteCount := (byteCount + |data|) % COUNT;
      if avail > |data| {
        FoldShort(comp, hash, tail + data);
        Put(block, BLOCK - avail, data);
        return;
      }
      Put(block, BLOCK - avail, data[..avail]);
      assert block[..] == tail + data[..avail];
      assert tail + data == (tail + data[..avail]) + data[avail..];
      FoldBlock(comp, h, tail + data[..avail], data[avail..]);
      hash := comp(hash, block[..]);
      Blocks(data[avail..]);
    }

    /** The loop over whole blocks, and the copy of what remains. */
    method Blocks(data: Bytes)
      requires block.Length == BLOCK
      modifies this`hash, block
      ensures hash == Fold(comp, old(hash), data) && block[..|data| % BLOCK] == Tail(data)
    {
      hide Fold, Tail;
      var i := 0;
      while |data| - i >= BLOCK
        invariant 0 <= i <= |data| && i % BLOCK == 0
        invariant Fold(comp, old(hash), data) == Fold(comp, hash, data[i..]) && Tail(data) == Tail(data[i..])
      {
        Put(block, 0, data[i..i + BLOCK]);
        assert block[..] == data[i..i + BLOCK];
        assert data[i..] == data[i..i + BLOCK] + data[i + BLOCK..];
        FoldBlock(comp, hash, data[i..i + BLOCK], data[i + BLOCK..]);
        hash := comp(hash, block[..]);
        i := i + BLOCK;
      }
      FoldShort(comp, hash, data[i..]);
      Put(block, 0, data[i..]);
    }

    /** md5_final; the context is cleared. */
    method Final() returns (digest: Bytes)
      requires Valid()
      modifies this, block
      ensures digest == Finish(comp, out, old(View()))
      ensures Valid() && View() == Start(zero)
    {
      hide Fold, Tail, LittleEndian, LengthField;
      var offset := byteCount % BLOCK;
      ghost var h, tail := hash, block[..offset];
      var padding := 56 - (offset + 1);
      var p := offset + 1;
      Put(block, offset, [0x80]);
      if padding < 0 {
        Put(block, p, Zeros(padding + 8));
        ghost var first := block[..];
        assert first == tail + [0x80] + Zeros(padding + 8);
        hash := comp(hash, block[..]);
        p, padding := 0, 56;
        Put(block, p, Zeros(padding));
        Put(block, 56, LengthField(byteCount));
        assert block[..] == Zeros(56) + LengthField(byteCount);
        TwoBlocks(comp, h, tail, LengthField(byteCount), first, block[..]);
      } else {
        Put(block, p, Zeros(padding));
        Put(block, 56, LengthField(byteCount));
        assert block[..] == tail + [0x80] + Zeros(padding) + LengthField(byteCount);
        OneBlock(comp, h, tail, LengthField(byteCount), block[..]);
      }
      hash := comp(hash, block[..]);
      digest := out(hash);
      Clear();
    }

    /** memset(mctx, 0, sizeof(*mctx)) */
    method Clear()
      requires Valid()
      modifies this, block
      ensures Valid() && View() == Start(zero)
    {
      hash, byteCount := zero, 0;
      Put(block, 0, Zeros(block.Length));
    }
  }

  /** A message hashed piece by piece. */
  method HashPieces<H>(comp: (H, Bytes) -> H, out: H -> Bytes, h0: H, zero: H,
                       pieces: seq<Bytes>) returns (digest: Bytes)
    ensures digest == out(Fold(comp, h0, Padded(Concat(pieces))))
  {
    hide Fold, Tail, Finish, Absorb;
    var ctx := new Md5Ctx(comp, out, h0, zero);
    var k := 0;
    while k < |pieces|
      invariant 0 <= k <= |pieces|
      invariant ctx.Valid() && ctx.comp == comp && ctx.out == out && fresh(ctx) && fresh(ctx.block)
      invariant ctx.View() == AbsorbAll(comp, h0, pieces[..k])
    {
      ctx.Update(pieces[k]);
      assert pieces[..k + 1][..k] == pieces[..k];
      k := k + 1;
    }
    assert pieces[..k] == pieces;
    digest := ctx.Final();
    DigestIs(comp, out, h0, pieces);
  }
}

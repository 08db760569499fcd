/** crypto/sha256.c: buffering, counting and padding; the compression function is a parameter. */
module Sha256 {
  import opened Machine
  import opened Hashing

  /** The context as a value: chaining value, buffered bytes, and the two words of the bit count. */
  datatype ShaState<H> = ShaState(h: H, tail: Bytes, count0: nat, count1: nat)

  /** len << 3 in 32 bits. */
  function Shl3(n: nat): nat { 8 * n % WORD }

  function Start<H>(h: H): ShaState<H> { ShaState(h, [], 0, 0) }

  /** What sha256_update amounts to, with the two words counted as the code does. */
  function Absorb<H>(comp: (H, Bytes) -> H, s: ShaState<H>, data: Bytes): ShaState<H> {
    var lo := (s.count0 + Shl3(|data|)) % WORD;
    var hi := if lo < Shl3(|data|) then (s.count1 + 1 + |data| / 0x2000_0000) % WORD else s.count1;
    ShaState(Fold(comp, s.h, s.tail + data), Tail(s.tail + data), lo, hi)
  }

  /** What sha256_final amounts to. */
  function Finish<H>(comp: (H, Bytes) -> H, out: H -> Bytes, s: ShaState<H>): Bytes {
    out(Fold(comp, s.h, s.tail + Padding(|s.tail|, BigEndian(s.count1, 4) + BigEndian(s.count0, 4))))
  }

  /* ---- Streaming ---- */

  /** The context after absorbing message m in full, with an exact 64-bit count. */
  function Absorbed<H>(comp: (H, Bytes) -> H, h: H, m: Bytes): ShaState<H> {
    ShaState(Fold(comp, h, m), Tail(m), 8 * |m| % WORD, 8 * |m| / WORD % WORD)
  }

  /* ---- The block loop of sha256_update ---- */

  /** The loop test i + 63 < len in 32 bits. */
  predicate GoesOn(i: nat, n: nat) { (i + 63) % WORD < n }

  /** i after k turns of the loop. */
  function Turn(index: nat, k: nat): nat
    requires index < BLOCK
  {
    (BLOCK - index + BLOCK * k) % WORD
  }

  /** There is no block to compress, or i + 63 does not wrap before the last one has been. */
  predicate Ends(index: nat, n: nat) {
    n < BLOCK - index || n - (index + n) % BLOCK + 63 < WORD
  }

  /** An update of n bytes behind `index` buffered ones returns if and only if Ends: otherwise i wraps
      around with the same remainder modulo 64 for ever. */
  lemma EndsIff(index: nat, n: nat)
    requires index < BLOCK && n < WORD
    ensures Ends(index, n) <==> n < BLOCK - index || exists k: nat :: !GoesOn(Turn(index, k), n)
  {
    if n >= BLOCK - index {
      var last := n - (index + n) % BLOCK;
      if Ends(index, n) {
        var k := (last - (BLOCK - index)) / BLOCK;
        Remainders(index, n);
        assert Turn(index, k) == last;
        assert !GoesOn(Turn(index, k), n);
      } else {
        forall k: nat ensures GoesOn(Turn(index, k), n) { NeverStops(index, n, k); }
      }
    }
  }

  lemma Remainders(index: nat, n: nat)
    requires index < BLOCK && n >= BLOCK - index
    ensures var last := n - (index + n) % BLOCK; last >= BLOCK - index && (last - (BLOCK - index)) % BLOCK == 0
  {}

  /** Up to the last block i + 63 does not wrap. */
  lemma LoopTest(i: nat, last: nat, n: nat)
    requires i <= last <= n < last + BLOCK && (last - i) % BLOCK == 0 && last + 63 < WORD
    ensures (i + 63) % WORD < n <==> i < last
    ensures i < last ==> i + BLOCK <= last && (i + BLOCK) % WORD == i + BLOCK && (last - (i + BLOCK)) % BLOCK == 0
  {}

  lemma TurnKeepsRemainder(index: nat, k: nat)
    requires index < BLOCK
    ensures (Turn(index, k) + index) % BLOCK == 0
  {
    var x := BLOCK - index + BLOCK * k;
    assert x == WORD * (x / WORD) + Turn(index, k);
    assert x + index == BLOCK * (k + 1);
  }

  lemma NeverStops(index: nat, n: nat, k: nat)
    requires index < BLOCK && n < WORD && !Ends(index, n)
    ensures GoesOn(Turn(index, k), n)
  {
    TurnKeepsRemainder(index, k);
    var i, last := Turn(index, k), n - (index + n) % BLOCK;
    assert (last + index) % BLOCK == 0;
    if i < WORD - 63 { assert i < last; }
  }

  /** Behind one byte, 2^32 - 1 bytes never end: i takes the value 2^32 - 1, and 62 is below the length. */
  lemma LoopWraps()
    ensures !Ends(1, WORD - 1) && !exists k: nat :: !GoesOn(Turn(1, k), WORD - 1)
  {
    EndsIff(1, WORD - 1);
  }

  datatype Outcome<H> = NeverReturns | Returns(s: ShaState<H>)

  /** What becomes of a call of sha256_update. */
  function Updated<H>(comp: (H, Bytes) -> H, s: ShaState<H>, data: Bytes): Outcome<H> {
    if Ends(|s.tail|, |data|) then Returns(Absorb(comp, s, data)) else NeverReturns
  }

  /** The update returns with the context of the longer message if and only if it is shorter than
      2^29 bytes, or the low word of the count carries and the block loop ends. */
  lemma CountExactIff<H>(comp: (H, Bytes) -> H, h: H, m: Bytes, data: Bytes)
    requires |data| < WORD
    ensures Updated(comp, Absorbed(comp, h, m), data) == Returns(Absorbed(comp, h, m + data))
       <==> |data| < 0x2000_0000 || (8 * |m| % WORD + 8 * |data| % WORD >= WORD && Ends(|m| % BLOCK, |data|))
  {
    hide Fold, Tail;
    FoldConcat(comp, h, m, data);
    Counting(8 * |m|, 8 * |data|, |data| / 0x2000_0000);
  }

  /** Adding in two words, and how the code does it. */
  lemma Counting(a: nat, b: nat, q: nat)
    requires q == b / WORD && q < 8
    ensures (a % WORD + b % WORD) % WORD == (a + b) % WORD
    ensures (a % WORD + b % WORD) % WORD < b % WORD <==> a % WORD + b % WORD >= WORD
    ensures (a + b) / WORD == a / WORD + q + (if a % WORD + b % WORD >= WORD then 1 else 0)
    ensures (a / WORD % WORD + 1 + q) % WORD == (a / WORD + q + 1) % WORD
    ensures q > 0 ==> (a / WORD + q) % WORD != a / WORD % WORD
  {
    var x, y := a % WORD, b % WORD;
    assert a + b == WORD * (a / WORD + q) + (x + y);
    Carry(a / WORD + q, x + y);
    Shift(a / WORD, q);
  }

  lemma Carry(k: nat, z: nat)
    requires z < 2 * WORD
    ensures (WORD * k + z) % WORD == z % WORD == if z >= WORD then z - WORD else z
    ensures (WORD * k + z) / WORD == k + (if z >= WORD then 1 else 0)
  {}

  lemma Shift(k: nat, q: nat)
    requires q < 8
    ensures (k % WORD + 1 + q) % WORD == (k + q + 1) % WORD && (q > 0 ==> (k + q) % WORD != k % WORD)
  {}

  /** 2^29 zero bytes are 2^32 bits, but the count stays 0. */
  lemma CountLost<H>(comp: (H, Bytes) -> H, h: H)
    ensures Absorb(comp, Start(h), Zeros(0x2000_0000)).count1 == 0
    ensures Absorbed(comp, h, Zeros(0x2000_0000)).count1 == 1
  {}

  /** Updates one after the other. */
  function AbsorbAll<H>(comp: (H, Bytes) -> H, h: H, pieces: seq<Bytes>): ShaState<H> {
    if pieces == [] then Start(h)
    else Absorb(comp, AbsorbAll(comp, h, pieces[..|pieces| - 1]), pieces[|pieces| - 1])
  }

  /** However a message is cut up, the context depends on the message only. */
  lemma {:induction false} AbsorbAllIs<H>(comp: (H, Bytes) -> H, h: H, pieces: seq<Bytes>)
    requires Short(pieces)
    ensures AbsorbAll(comp, h, pieces) == Absorbed(comp, h, Concat(pieces))
  {
    if pieces != [] {
      var n := |pieces| - 1;
      AbsorbAllIs(comp, h, pieces[..n]);
      CountExactIff(comp, h, Concat(pieces[..n]), pieces[n]);
    }
  }

  /* ---- The length field ---- */

  lemma BigEndianSplit(n: nat)
    ensures BigEndian(n, 8) == BigEndian(n / WORD, 4) + BigEndian(n, 4)
  {
    BigEndianShift(n, 4, 4);
    DropFour(n);
  }

  lemma BigEndianMod(n: nat)
    ensures BigEndian(n % WORD, 4) == BigEndian(n, 4)
  {
    PowFour(0);
    BigEndianPeriod(n % WORD, n / WORD, 4);
  }

  /** Section 5.1.1 of FIPS 180-2: the message, the bit 1, zeros, and the length in 64 bits. */
  function Padded(m: Bytes): Bytes { m + Padding(|m|, BigEndian(8 * |m|, 8)) }

  /** Byte by byte: the message, 0x80, zeros, and the 8 bytes of its length in bits, the
      most significant one first. */
  lemma PaddedIs(m: Bytes)
    ensures exists length ::
              && |length| == 8 && HoldsBig(length, 8 * |m|)
              && Padded(m)[..|m|] == m && Pads(Padded(m)[|m|..], |m|, length)
  {
    hide Padding, BigEndian, HoldsBig, Pads;
    var length := BigEndian(8 * |m|, 8);
    BigEndianIs(8 * |m|, 8);
    PaddingIs(|m|, length);
    assert Padded(m)[|m|..] == Padding(|m|, length);
  }

  /** sha256 of a message cut up in any way is the fold over the padded message. */
  lemma DigestIs<H>(comp: (H, Bytes) -> H, out: H -> Bytes, h: H, pieces: seq<Bytes>)
    requires Short(pieces)
    ensures Finish(comp, out, AbsorbAll(comp, h, pieces)) == out(Fold(comp, h, Padded(Concat(pieces))))
  {
    hide Fold, Tail, BigEndian, Padding;
    var m := Concat(pieces);
    AbsorbAllIs(comp, h, pieces);
    BigEndianSplit(8 * |m|);
    BigEndianMod(8 * |m|);
    BigEndianMod(8 * |m| / WORD);
    FoldPadded(comp, h, m, BigEndian(8 * |m|, 8));
  }

  /* ---- The context ---- */

  lemma IndexMoves(count: nat, n: nat)
    requires count < WORD && count % 8 == 0
    ensures (count + Shl3(n)) % WORD % 8 == 0
    ensures (count + Shl3(n)) % WORD / 8 % BLOCK == (count / 8 % BLOCK + n) % BLOCK
  {
    var q := count / 8;
    assert count == 8 * q;
    Eighth(q + n);
    ModSum(8 * q, 8 * n);
    assert (count + Shl3(n)) % WORD == 8 * (q + n) % WORD;
    BlockSum(q, n);
  }

  lemma BlockSum(a: nat, b: nat)
    ensures (a % BLOCK + b) % BLOCK == (a + b) % BLOCK
  {}

  lemma ModBelow(a: nat)
    ensures 0 <= a % WORD < WORD
  {}

  lemma ModSum(a: nat, b: nat)
    ensures (a + b % WORD) % WORD == (a + b) % WORD
  {}

  lemma Eighth(x: nat)
    ensures 8 * x % WORD % 8 == 0 && 8 * x % WORD / 8 % BLOCK == x % BLOCK
  {
    var q, r := x / 0x2000_0000, x % 0x2000_0000;
    assert 8 * x == WORD * q + 8 * r;
    Carry(q, 8 * r);
    Blocks(0x80_0000 * q, r);
    assert x == BLOCK * (0x80_0000 * q) + r;
  }

  lemma Blocks(k: nat, r: nat)
    ensures (BLOCK * k + r) % BLOCK == r % BLOCK && 8 * r % 8 == 0 && 8 * r / 8 == r
  {}

  /** Padding and length absorbed as two updates. */
  lemma FinishInTwo<H>(comp: (H, Bytes) -> H, out: H -> Bytes, s: ShaState<H>, padding: Bytes, bits: Bytes)
    requires |s.tail| < BLOCK && bits == BigEndian(s.count1, 4) + BigEndian(s.count0, 4)
    requires padding == [0x80] + Zeros((if |s.tail| < 56 then 56 - |s.tail| else 120 - |s.tail|) - 1)
    ensures |padding| < WORD && |bits| < WORD
    ensures out(Absorb(comp, Absorb(comp, s, padding), bits).h) == Finish(comp, out, s)
  {
    hide Fold, Tail, BigEndian;
    assert padding + bits == Padding(|s.tail|, bits);
    assert s.tail + padding + bits == s.tail + (padding + bits);
    FoldConcat(comp, s.h, s.tail + padding, bits);
  }

  /** struct sha256_ctx, with the compression function it works with and the all-zero state words. */
  class Sha256Ctx<H> {
    const comp: (H, Bytes) -> H
    const out: H -> Bytes
    const zero: H
    var count0: nat
    var count1: nat
    var state: H
    const buf: array<bv8>

    ghost predicate Valid()
      reads this
    {
      buf.Length == 128 && count0 < WORD && count1 < WORD && count0 % 8 == 0
    }

    function Index(): nat
      reads this
    {
      count0 / 8 % BLOCK
    }

    ghost function View(): ShaState<H>
      reads this, buf
      requires Valid()
    {
      ShaState(state, buf[..Index()], count0, count1)
    }

    /** sha256_init */
    constructor (comp: (H, Bytes) -> H, out: H -> Bytes, h0: H, zero: H)
      ensures Valid() && View() == Start(h0) && fresh(buf)
      ensures this.comp == comp && this.out == out && this.zero == zero
    {
      this.comp, this.out, this.zero := comp, out, zero;
      state, count0, count1 := h0, 0, 0;
      buf := new bv8[128](_ => 0);
    }

    /** sha256_update */
    method Update(data: Bytes)
      requires Valid() && |data| < WORD && Ends(Index(), |data|)
      modifies this, buf
      ensures Valid() && View() == Absorb(comp, old(View()), data)
    {
      hide Fold, Tail, Shl3;
      var index := Index();
      Count(|data|);
      Buffer(index, data);
    }

    /** The 64-bit count in two words: the upper word also counts len >> 29, but only on a carry. */
    method Count(n: nat)
      requires Valid() && n < WORD
      modifies this`count0, this`count1
      ensures Valid() && Index() == (old(Index()) + n) % BLOCK
      ensures count0 == (old(count0) + Shl3(n)) % WORD
      ensures count1 == if count0 < Shl3(n) then (old(count1) + 1 + n / 0x2000_0000) % WORD else old(count1)
    {
      hide Shl3;
      IndexMoves(count0, n);
      ModSum(n / 0x2000_0000, count1 + 1);
      ModBelow(count0 + Shl3(n));
      count0 := (count0 + Shl3(n)) % WORD;
      if count0 < Shl3(n) {
        count1 := (count1 + 1) % WORD;
        count1 := (count1 + n / 0x2000_0000) % WORD;
      }
    }

    /** Compresses the full blocks and buffers the rest. */
    method Buffer(index: nat, data: Bytes)
      requires buf.Length == 128 && index < BLOCK && |data| < WORD && Ends(index, |data|)
      modifies this`state, buf
      ensures state == Fold(comp, old(state), old(buf[..index]) + data)
      ensures buf[..(index + |data|) % BLOCK] == Tail(old(buf[..index]) + data)
    {
      hide Fold, Tail;
      ghost var tail, h := buf[..index], state;
      var partLen := BLOCK - index;
      if |data| >= partLen {
        Put(buf, index, data[..partLen]);
        assert buf[..BLOCK] == tail + data[..partLen];
        state := comp(state, buf[..BLOCK]);
        assert tail + data == (tail + data[..partLen]) + data[partLen..];
        FoldBlock(comp, h, tail + data[..partLen], data[partLen..]);
        Remainders(index, |data|);
        var i := Direct(data, partLen, |data| - (index + |data|) % BLOCK);
        Put(buf, 0, data[i..]);
      } else {
        FoldShort(comp, state, tail + data);
        Put(buf, index, data[0..]);
        assert data[0..] == data;
      }
    }

    /** The loop that compresses straight from the input, up to byte `last`. */
    method Direct(data: Bytes, from: nat, ghost last: nat) returns (i: nat)
      requires from <= last <= |data| < last + BLOCK && (last - from) % BLOCK == 0 && last + 63 < WORD
      modifies this`state
      ensures i == last && state == Fold(comp, old(state), data[from..]) && Tail(data[from..]) == data[i..]
    {
      hide Fold, Tail;
      i := from;
      LoopTest(i, last, |data|);
      while (i + 63) % WORD < |data|
        invariant from <= i <= last && (last - i) % BLOCK == 0 && ((i + 63) % WORD < |data| <==> i < last)
        invariant Fold(comp, old(state), data[from..]) == Fold(comp, state, data[i..])
        invariant Tail(data[from..]) == Tail(data[i..])
        decreases last - i
      {
        LoopTest(i, last, |data|);
        Compress(data, i);
        i := (i + BLOCK) % WORD;
        LoopTest(i, last, |data|);
      }
      FoldShort(comp, state, data[i..]);
    }

    /** sha256_transform on the block at byte i. */
    method Compress(data: Bytes, i: nat)
      requires i + BLOCK <= |data|
      modifies this`state
      ensures Fold(comp, old(state), data[i..]) == Fold(comp, state, data[i + BLOCK..])
      ensures Tail(data[i..]) == Tail(data[i + BLOCK..])
    {
      hide Fold, Tail;
      assert data[i..] == data[i..i + BLOCK] + data[i + BLOCK..];
      FoldBlock(comp, state, data[i..i + BLOCK], data[i + BLOCK..]);
      state := comp(state, data[i..i + BLOCK]);
    }

    function DigestOf(): (d: Bytes)
      reads this, buf
      requires Valid()
      ensures d == out(View().h)
    {
      out(state)
    }

    /** memset(sctx, 0, sizeof(*sctx)) */
    method Clear()
      requires Valid()
      modifies this, buf
      ensures Valid() && View() == Start(zero)
    {
      count0, count1, state := 0, 0, zero;
      Put(buf, 0, Zeros(buf.Length));
    }

    /** sha256_final; the context is cleared. */
    method Final() returns (digest: Bytes)
      requires Valid()
      modifies this, buf
      ensures digest == Finish(comp, out, old(View()))
      ensures Valid() && View() == Start(zero)
    {
      var bits := BigEndian(count1, 4) + BigEndian(count0, 4);
      var index := Index();
      var padLen := if index < 56 then 56 - index else (64 + 56) - index;
      var padding := [0x80] + Zeros(padLen - 1);
      FinishInTwo(comp, out, View(), padding, bits);
      hide *;
      Update(padding);
      Update(bits);
      digest := DigestOf();
      Clear();
    }
  }

  /** A message hashed piece by piece. */
  method HashPieces<H>(comp: (H, Bytes) -> H, out: H -> Bytes, h0: H, zero: H,
                       pieces: seq<Bytes>) returns (digest: Bytes)
    requires Short(pieces)
    ensures digest == out(Fold(comp, h0, Padded(Concat(pieces))))
  {
    hide Fold, Tail, Finish, Absorb;
    var ctx := new Sha256Ctx(comp, out, h0, zero);
    var k := 0;
    while k < |pieces|
      invariant 0 <= k <= |pieces|
      invariant ctx.Valid() && ctx.comp == comp && ctx.out == out && fresh(ctx) && fresh(ctx.buf)
      invariant ctx.View() == AbsorbAll(comp, h0, pieces[..k])
    {
      ctx.Update(pieces[k]);
      assert pieces[..k + 1][..k] == pieces[..k];
      k := k + 1;
    }
    assert pieces[..k] == pieces;
    digest := ctx.Final();
    DigestIs(comp, out, h0, pieces);
  }
}

/**
 crypto/wp512.c: Whirlpool's bit-oriented buffering, its 256-bit length counter and its padding;
 the compression function is a parameter.
 */
module Wp512 {
  import opened Machine
  import opened Hashing

  const LENGTH_BYTES: nat := 32

  /** The context as a value: chaining value, buffered bytes, and the bit count modulo 2^256. */
  datatype WpState<H> = WpState(h: H, tail: Bytes, bits: nat)

  function Start<H>(h: H): WpState<H> { WpState(h, [], 0) }

  /** len * 8 in 32 bits, in bytes: what wp512_update absorbs of `len` bytes. */
  function Taken(n: nat): (t: nat)
    ensures t <= n && 8 * t == 8 * n % WORD
  {
    n % 0x2000_0000
  }

  /** What wp512_update amounts to. */
  function Absorb<H>(comp: (H, Bytes) -> H, s: WpState<H>, data: Bytes): WpState<H> {
    var d := data[..Taken(|data|)];
    WpState(Fold(comp, s.h, s.tail + d), Tail(s.tail + d), (s.bits + 8 * |d|) % Modulus())
  }

  /** 2^256 */
  function Modulus(): (m: nat)
    ensures m > 0
  {
    PowPositive(LENGTH_BYTES);
    Pow256(LENGTH_BYTES)
  }

  /** What wp512_final amounts to. */
  function Finish<H>(comp: (H, Bytes) -> H, out: H -> Bytes, s: WpState<H>): Bytes {
    out(Fold(comp, s.h, s.tail + Padding(|s.tail|, BigEndian(s.bits, LENGTH_BYTES))))
  }

  /* ---- What wp512_final does to the context ---- */

  /** The fields of the context. */
  datatype WpRaw<H> = WpRaw(h: H, buffer: Bytes, pos: nat, bufferBits: nat, length: Bytes)

  predicate ShapedRaw<H>(r: WpRaw<H>) {
    |r.buffer| == BLOCK && r.pos < BLOCK && |r.length| == LENGTH_BYTES
  }

  /** The bit 1 behind what is buffered. */
  function Marked<H>(r: WpRaw<H>): (b: Bytes)
    requires ShapedRaw(r)
    ensures |b| == r.pos + 1
  {
    r.buffer[..r.pos] + [Or(r.buffer[r.pos], Shr(0x80, r.bufferBits % 8))]
  }

  /** The fields after wp512_final: the last block stays in the buffer, with the position behind its first half. */
  function Finished<H>(comp: (H, Bytes) -> H, r: WpRaw<H>): (q: WpRaw<H>)
    requires ShapedRaw(r)
    ensures ShapedRaw(q)
  {
    var b := Marked(r);
    var two := |b| > BLOCK - LENGTH_BYTES;
    var h := if two then comp(r.h, b + Zeros(BLOCK - |b|)) else r.h;
    var kept := if two then [] else b;
    var last := kept + Zeros(BLOCK - LENGTH_BYTES - |kept|) + r.length;
    WpRaw(comp(h, last), last, BLOCK - LENGTH_BYTES, r.bufferBits, r.length)
  }

  /** The fields of a context between init and final, as far as wp512_final looks at them. */
  function ToRaw<H>(s: WpState<H>): (r: WpRaw<H>)
    requires |s.tail| < BLOCK
    ensures ShapedRaw(r)
  {
    WpRaw(s.h, s.tail + Zeros(BLOCK - |s.tail|), |s.tail|, 8 * |s.tail|, BigEndian(s.bits, LENGTH_BYTES))
  }

  /** What a second call of wp512_final puts out. */
  function Again<H>(comp: (H, Bytes) -> H, out: H -> Bytes, s: WpState<H>): Bytes {
    if |s.tail| < BLOCK then out(Finished(comp, Finished(comp, ToRaw(s))).h) else out(s.h)
  }

  /** On a context between init and final the fields amount to padding and folding. */
  lemma RawFinish<H>(comp: (H, Bytes) -> H, out: H -> Bytes, s: WpState<H>, r: WpRaw<H>, d: seq<Octet>)
    requires |s.tail| < BLOCK && |d| == LENGTH_BYTES && s.bits == Value(d) && r.length == ToBytes(d)
    requires ShapedRaw(r) && r.h == s.h && r.pos == |s.tail| && r.buffer[..r.pos] == s.tail && r.buffer[r.pos] == 0
    requires r.bufferBits == 8 * r.pos
    ensures out(Finished(comp, r).h) == Finish(comp, out, s)
    ensures Finished(comp, r) == Finished(comp, ToRaw(s))
  {
    hide Fold, Tail, Value, BigEndian;
    ToBytesIsBigEndian(d);
    OneBit();
    var tail := s.tail;
    assert Marked(r) == tail + [0x80];
    assert ToRaw(s).buffer[..r.pos] == tail;
    if |tail| + 1 > BLOCK - LENGTH_BYTES {
      assert [] + Zeros(BLOCK - LENGTH_BYTES) + r.length == Zeros(BLOCK - LENGTH_BYTES) + r.length;
      TwoBlocks(comp, s.h, tail, r.length, tail + [0x80] + Zeros(BLOCK - 1 - |tail|),
                Zeros(BLOCK - LENGTH_BYTES) + r.length);
    } else {
      OneBlock(comp, s.h, tail, r.length, tail + [0x80] + Zeros(BLOCK - 1 - LENGTH_BYTES - |tail|) + r.length);
    }
  }

  /* ---- Streaming ---- */

  function Absorbed<H>(comp: (H, Bytes) -> H, h: H, m: Bytes): WpState<H> {
    WpState(Fold(comp, h, m), Tail(m), 8 * |m| % Modulus())
  }

  lemma {:induction false} PowPositive(k: nat)
    ensures Pow256(k) > 0
  {
    if k > 0 { PowPositive(k - 1); }
  }

  lemma {:induction false} PowGrows(k: nat)
    requires k >= 5
    ensures Pow256(k) >= 256 * WORD
  {
    if k > 5 { PowGrows(k - 1); } else { PowFour(0); }
  }

  /** The whole update is absorbed if and only if it is shorter than 2^29 bytes. */
  lemma AbsorbExactIff<H>(comp: (H, Bytes) -> H, h: H, m: Bytes, data: Bytes)
    requires |data| < WORD
    ensures Absorb(comp, Absorbed(comp, h, m), data) == Absorbed(comp, h, m + data) <==> |data| < 0x2000_0000
  {
    hide Fold, Tail, Pow256;
    PowGrows(LENGTH_BYTES);
    var n := Taken(|data|);
    ModSum(8 * |m|, 8 * n, Modulus());
    if |data| < 0x2000_0000 {
      assert data[..n] == data;
      FoldConcat(comp, h, m, data);
    } else {
      Differ(8 * |m| + 8 * n, 8 * (|data| - n), Modulus());
    }
  }

  lemma ModSum(a: nat, b: nat, n: nat)
    requires n > 0
    ensures (a % n + b) % n == (a + b) % n
  {
    var q := a / n;
    assert a + b == n * q + (a % n + b);
    Multiple(q, a % n + b, n);
  }

  lemma Multiple(q: nat, x: nat, n: nat)
    requires n > 0
    ensures (n * q + x) % n == x % n
  {
    var d := (n * q + x) / n - q - x / n;
    assert n * d == x % n - (n * q + x) % n;
    Far(n, d);
  }

  lemma Far(n: nat, d: int)
    ensures d == 0 || n * d >= n || n * d <= 0 - n
  {
    if d >= 1 { assert n * (d - 1) >= 0; } else if d <= -1 { assert n * (-d - 1) >= 0; }
  }

  lemma Differ(a: nat, b: nat, n: nat)
    requires 0 < b < n
    ensures (a + b) % n != a % n
  {
    var d := (a + b) / n - a / n;
    if (a + b) % n == a % n {
      assert b == n * d;
      Far(n, d);
    }
  }

  function AbsorbAll<H>(comp: (H, Bytes) -> H, h: H, pieces: seq<Bytes>): WpState<H> {
    if pieces == [] then Start(h)
    else Absorb(comp, AbsorbAll(comp, h, pieces[..|pieces| - 1]), pieces[|pieces| - 1])
  }

  /** However a message is cut up, the context depends on the message only. */
  lemma {:induction false} AbsorbAllIs<H>(comp: (H, Bytes) -> H, h: H, pieces: seq<Bytes>)
    requires Short(pieces)
    ensures AbsorbAll(comp, h, pieces) == Absorbed(comp, h, Concat(pieces))
  {
    hide Pow256;
    if pieces != [] {
      var n := |pieces| - 1;
      AbsorbAllIs(comp, h, pieces[..n]);
      AbsorbExactIff(comp, h, Concat(pieces[..n]), pieces[n]);
    } else {
      PowGrows(LENGTH_BYTES);
    }
  }

  /** The message, the bit 1, zeros, and the length in 256 bits. */
  function Padded(m: Bytes): Bytes { m + Padding(|m|, BigEndian(8 * |m|, LENGTH_BYTES)) }

  /** Byte by byte: the message, 0x80, zeros, and the 32 bytes of its length in bits, the
      most significant one first. */
  lemma PaddedIs(m: Bytes)
    ensures exists length ::
              && |length| == 32 && HoldsBig(length, 8 * |m|)
              && Padded(m)[..|m|] == m && Pads(Padded(m)[|m|..], |m|, length)
  {
    hide Padding, BigEndian, HoldsBig, Pads;
    var length := BigEndian(8 * |m|, LENGTH_BYTES);
    BigEndianIs(8 * |m|, LENGTH_BYTES);
    PaddingIs(|m|, length);
    assert Padded(m)[|m|..] == Padding(|m|, length);
  }

  lemma LengthMod(n: nat)
    ensures Modulus() > 0 && BigEndian(n % Modulus(), LENGTH_BYTES) == BigEndian(n, LENGTH_BYTES)
  {
    hide Pow256, BigEndian;
    PowPositive(LENGTH_BYTES);
    BigEndianPeriod(n % Modulus(), n / Modulus(), LENGTH_BYTES);
  }

  /** wp512 of a message cut up in any way is the fold over the padded message. */
  lemma DigestIs<H>(comp: (H, Bytes) -> H, out: H -> Bytes, h: H, pieces: seq<Bytes>)
    requires Short(pieces)
    ensures Finish(comp, out, AbsorbAll(comp, h, pieces)) == out(Fold(comp, h, Padded(Concat(pieces))))
  {
    hide Fold, Tail, BigEndian, Padding, Modulus;
    var m := Concat(pieces);
    AbsorbAllIs(comp, h, pieces);
    LengthMod(8 * |m|);
    FoldPadded(comp, h, m, BigEndian(8 * |m|, LENGTH_BYTES));
  }

  /* ---- The length counter ---- */

  /** The number a big-endian string of octets stands for. */
  function Value(d: seq<Octet>): nat {
    if d == [] then 0 else 256 * Value(d[..|d| - 1]) + d[|d| - 1]
  }

  lemma {:induction false} ValueBound(d: seq<Octet>)
    ensures Value(d) < Pow256(|d|)
  {
    if d != [] { ValueBound(d[..|d| - 1]); }
  }

  lemma {:induction false} ValueSet(d: seq<Octet>, i: nat, x: Octet)
    requires i < |d|
    ensures Value(d[i := x]) == Value(d) + (x - d[i]) * Pow256(|d| - 1 - i)
  {
    var n := |d| - 1;
    if i == n {
      assert d[i := x][..n] == d[..n];
    } else {
      assert d[i := x][..n] == d[..n][i := x];
      ValueSet(d[..n], i, x);
      PowNext(n - 1 - i);
      Scale(x - d[i], Pow256(n - 1 - i));
    }
  }

  lemma Scale(a: int, p: nat)
    ensures 256 * (a * p) == a * (256 * p)
  {}

  function ToBytes(d: seq<Octet>): (b: Bytes)
    ensures |b| == |d|
  {
    seq(|d|, j requires 0 <= j < |d| => Byte(d[j]))
  }

  lemma {:induction false} ToBytesIsBigEndian(d: seq<Octet>)
    ensures ToBytes(d) == BigEndian(Value(d), |d|)
  {
    hide Byte;
    if d != [] {
      var n := |d| - 1;
      ToBytesIsBigEndian(d[..n]);
      assert ToBytes(d) == ToBytes(d[..n]) + [Byte(d[n])];
      assert Value(d) / 256 == Value(d[..n]) && Value(d) % 256 == d[n];
    }
  }

  /** `value` and `carry` are still to be added, from digit i upwards. */
  ghost predicate Adding(d: seq<Octet>, i: int, carry: nat, value: nat, total: nat) {
    -1 <= i < |d| && Value(d) + (carry + value) * Pow256(|d| - 1 - i) == total
  }

  /** One step of the addition with carry keeps the total. */
  lemma AddStep(d: seq<Octet>, i: nat, carry: nat, value: nat, total: nat)
    requires Adding(d, i, carry, value, total)
    ensures var sum := carry + d[i] + value % 256;
            Adding(d[i := sum % 256], i - 1, sum / 256, value / 256, total)
  {
    hide Value, Pow256;
    var sum := carry + d[i] + value % 256;
    ValueSet(d, i, sum % 256);
    PowNext(|d| - 1 - i);
    Balance(d[i], carry, value, sum, Pow256(|d| - 1 - i));
  }

  lemma AddStart(d: seq<Octet>, value: nat)
    requires d != []
    ensures Adding(d, |d| - 1, 0, value, Value(d) + value)
  {}

  lemma AddEnd(d: seq<Octet>, i: int, carry: nat, value: nat, total: nat)
    requires Adding(d, i, carry, value, total) && (i < 0 || (carry == 0 && value == 0)) && |d| == LENGTH_BYTES
    ensures Value(d) == total % Modulus()
  {
    hide Value, Pow256, Modulus;
    ModulusIs();
    ValueBound(d);
    if i >= 0 {
      SmallMod(total, Modulus());
    } else {
      Multiple(carry + value, Value(d), Modulus());
      SmallMod(Value(d), Modulus());
    }
  }

  lemma PowNext(k: nat)
    ensures Pow256(k + 1) == 256 * Pow256(k)
  {}

  lemma Balance(digit: nat, carry: nat, value: nat, sum: nat, p: nat)
    requires sum == carry + digit + value % 256
    ensures (sum % 256 - digit) * p + (sum / 256 + value / 256) * (256 * p) == (carry + value) * p
  {
    assert (sum / 256 + value / 256) * (256 * p) == (256 * (sum / 256) + 256 * (value / 256)) * p;
    assert sum % 256 - digit + 256 * (sum / 256) + 256 * (value / 256) == carry + value;
    Distribute(sum % 256 - digit, 256 * (sum / 256) + 256 * (value / 256), p);
  }

  lemma Distribute(a: int, b: int, p: nat)
    ensures a * p + b * p == (a + b) * p
  {}

  /** The addition at the head of wp512_update. */
  method AddLength(bitLength: array<Octet>, bits: nat)
    requires bitLength.Length == LENGTH_BYTES
    modifies bitLength
    ensures Value(bitLength[..]) == (old(Value(bitLength[..])) + bits) % Modulus()
  {
    hide Adding, Value, Modulus;
    ghost var total := Value(bitLength[..]) + bits;
    var i: int, carry: nat, value: nat := LENGTH_BYTES - 1, 0, bits;
    AddStart(bitLength[..], bits);
    while i >= 0 && (carry != 0 || value != 0)
      invariant -1 <= i < LENGTH_BYTES && Adding(bitLength[..], i, carry, value, total)
      decreases i
    {
      ghost var was := bitLength[..];
      AddStep(was, i, carry, value, total);
      var sum := carry + bitLength[i] + value % 256;
      bitLength[i] := sum % 256;
      assert bitLength[..] == was[i := sum % 256];
      carry := sum / 256;
      value := value / 256;
      i := i - 1;
    }
    AddEnd(bitLength[..], i, carry, value, total);
  }

  lemma ModulusIs()
    ensures Modulus() == Pow256(LENGTH_BYTES)
  {}

  lemma SmallMod(x: nat, n: nat)
    requires x < n
    ensures x % n == x
  {}

  /* ---- The context ---- */

  function Or(a: bv8, b: bv8): bv8 { a | b }

  function Shr(b: bv8, n: nat): bv8
    requires n <= 8
  {
    b >> n
  }

  function Shl(b: bv8, n: nat): bv8
    requires n <= 8
  {
    b << n
  }

  /** Nothing is shifted: with whole bytes every gap is zero. */
  lemma WholeBytes(b: bv8)
    ensures Shl(b, 0) == Shr(b, 0) == b && Shl(b, 8) == Shr(b, 8) == 0 && Or(b, 0) == Or(0, b) == b
  {}

  /** struct wp512_ctx, with the compression function it works with. */
  class Wp512Ctx<H> {
    const comp: (H, Bytes) -> H
    const out: H -> Bytes
    const bitLength: array<Octet>
    const buffer: array<bv8>
    var bufferBits: nat
    var bufferPos: nat
    var hash: H

    /** The position is inside the buffer, counts whole bytes, and the byte there is zero. */
    ghost predicate Valid()
      reads this, buffer
    {
      && bitLength.Length == LENGTH_BYTES && buffer.Length == BLOCK && bitLength as object != buffer
      && bufferPos < BLOCK && bufferBits == 8 * bufferPos && buffer[bufferPos] == 0
    }

    ghost function View(): WpState<H>
      reads this, buffer, bitLength
      requires Valid()
    {
      WpState(hash, buffer[..bufferPos], Value(bitLength[..]))
    }

    /** wp512_init; only the first byte of the buffer is cleared. */
    constructor (comp: (H, Bytes) -> H, out: H -> Bytes, h0: H)
      ensures Valid() && View() == Start(h0) && fresh(bitLength) && fresh(buffer)
      ensures this.comp == comp && this.out == out
    {
      this.comp, this.out := comp, out;
      bitLength := new Octet[LENGTH_BYTES](_ => 0);
      buffer := new bv8[BLOCK];
      bufferBits, bufferPos, hash := 0, 0, h0;
      new;
      buffer[0] := 0;
      ZeroValue(bitLength[..]);
    }

    /** One byte into the buffer, compressing it when full, and the next position cleared. */
    method PutByte(b: bv8)
      requires Valid()
      modifies this`bufferBits, this`bufferPos, this`hash, buffer
      ensures Valid()
      ensures bufferPos == (old(bufferPos) + 1) % BLOCK
      ensures old(bufferPos) + 1 < BLOCK ==> hash == old(hash) && buffer[..bufferPos] == old(buffer[..bufferPos]) + [b]
      ensures old(bufferPos) + 1 == BLOCK ==> hash == comp(old(hash), old(buffer[..bufferPos]) + [b])
    {
      hide Or, Shl, Shr;
      WholeBytes(b);
      var rem := bufferBits % 8;
      ghost var was := buffer[..bufferPos];
      buffer[bufferPos] := Or(buffer[bufferPos], Shr(b, rem));
      bufferPos := bufferPos + 1;
      assert buffer[..bufferPos] == was + [b];
      bufferBits := bufferBits + (8 - rem);
      if bufferBits == BLOCK * 8 {
        assert buffer[..] == was + [b];
        hash := comp(hash, buffer[..]);
        bufferBits, bufferPos := 0, 0;
      }
      ghost var kept := buffer[..bufferPos];
      buffer[bufferPos] := Shl(b, 8 - rem);
      assert buffer[..bufferPos] == kept;
      bufferBits := bufferBits + rem;
    }

    /** PutByte is one step of the fold. */
    lemma ByteFolds(h: H, kept: Bytes, b: bv8, rest: Bytes, h': H, kept': Bytes)
      requires |kept| < BLOCK
      requires |kept| + 1 < BLOCK ==> h' == h && kept' == kept + [b]
      requires |kept| + 1 == BLOCK ==> h' == comp(h, kept + [b]) && kept' == []
      ensures Fold(comp, h, kept + ([b] + rest)) == Fold(comp, h', kept' + rest)
      ensures Tail(kept + ([b] + rest)) == Tail(kept' + rest)
    {
      hide Fold, Tail;
      assert kept + ([b] + rest) == (kept + [b]) + rest;
      if |kept| + 1 == BLOCK {
        FoldBlock(comp, h, kept + [b], rest);
        assert kept' + rest == rest;
      }
    }

    /** One byte of the message: the fold over what is buffered and what is to come stays the same. */
    method FoldByte(b: bv8, ghost rest: Bytes)
      requires Valid()
      modifies this`bufferBits, this`bufferPos, this`hash, buffer
      ensures Valid()
      ensures Fold(comp, hash, buffer[..bufferPos] + rest)
           == Fold(comp, old(hash), old(buffer[..bufferPos]) + ([b] + rest))
      ensures Tail(buffer[..bufferPos] + rest) == Tail(old(buffer[..bufferPos]) + ([b] + rest))
    {
      hide Fold, Tail;
      ghost var h, kept := hash, buffer[..bufferPos];
      PutByte(b);
      ByteFolds(h, kept, b, rest, hash, buffer[..bufferPos]);
    }

    /** wp512_update */
    method Update(source: Bytes)
      requires Valid() && |source| < WORD
      modifies this, bitLength, buffer
      ensures Valid() && View() == Absorb(comp, old(View()), source)
    {
      hide Fold, Tail, Value, Modulus;
      var bitsLen := 8 * |source| % WORD;
      AddLength(bitLength, bitsLen);
      Bits(source, bitsLen);
    }

    /** The shifting loop and what follows it. */
    method Bits(source: Bytes, bitsLen: nat)
      requires Valid() && bitsLen == 8 * Taken(|source|)
      modifies this`bufferBits, this`bufferPos, this`hash, buffer
      ensures Valid()
      ensures hash == Fold(comp, old(hash), old(buffer[..bufferPos]) + source[..Taken(|source|)])
      ensures buffer[..bufferPos] == Tail(old(buffer[..bufferPos]) + source[..Taken(|source|)])
    {
      hide Fold, Tail, Or, Shl, Shr;
      ghost var n, h, kept := Taken(|source|), hash, buffer[..bufferPos];
      var gap := (8 - bitsLen % 8) % 8;
      var left, pos := bitsLen, 0;
      while left > 8
        invariant Valid() && 0 <= pos <= n && left == 8 * (n - pos)
        invariant Fold(comp, h, kept + source[..n]) == Fold(comp, hash, buffer[..bufferPos] + source[pos..n])
        invariant Tail(kept + source[..n]) == Tail(buffer[..bufferPos] + source[pos..n])
      {
        WholeBytes(source[pos]);
        WholeBytes(source[pos + 1]);
        var b := Or(Shl(source[pos], gap), Shr(source[pos + 1], 8 - gap));
        assert source[pos..n] == [b] + source[pos + 1..n];
        FoldByte(b, source[pos + 1..n]);
        left := left - 8;
        pos := pos + 1;
      }
      if left > 0 {
        WholeBytes(source[pos]);
        var b := Shl(source[pos], gap);
        assert source[pos..n] == [b] + [];
        FoldByte(b, []);
        assert buffer[..bufferPos] + [] == buffer[..bufferPos];
      } else {
        assert buffer[..bufferPos] + source[pos..n] == buffer[..bufferPos];
      }
      FoldShort(comp, hash, buffer[..bufferPos]);
    }

    /** The fields hold values of their sizes; nothing is said about bits left over. */
    ghost predicate Shaped()
      reads this
    {
      bitLength.Length == LENGTH_BYTES && buffer.Length == BLOCK && bitLength as object != buffer && bufferPos < BLOCK
    }

    ghost function Raw(): WpRaw<H>
      reads this, buffer, bitLength
      requires Shaped()
    {
      WpRaw(hash, buffer[..], bufferPos, bufferBits, ToBytes(bitLength[..]))
    }

    /** The bit 1, and the block compressed if that leaves no room for the length. */
    method MarkEnd() returns (pos: nat)
      requires Shaped()
      modifies this`hash, buffer
      ensures Shaped()
      ensures var b := Marked(old(Raw()));
              if |b| > BLOCK - LENGTH_BYTES then pos == 0 && hash == comp(old(hash), b + Zeros(BLOCK - |b|))
              else pos == |b| && hash == old(hash) && buffer[..pos] == b
    {
      hide Value, ToBytes, Or, Shr;
      ghost var b := Marked(Raw());
      var bit := Or(buffer[bufferPos], Shr(0x80, bufferBits % 8));
      buffer[bufferPos] := bit;
      pos := bufferPos + 1;
      assert buffer[..pos] == b;
      if pos > BLOCK - LENGTH_BYTES {
        if pos < BLOCK { Put(buffer, pos, Zeros(BLOCK - pos)); }
        assert buffer[..] == b + Zeros(BLOCK - pos);
        hash := comp(hash, buffer[..]);
        pos := 0;
      }
    }

    /** Zeros and the length behind the first pos bytes. */
    method LastBlock(pos: nat)
      requires Shaped() && pos <= BLOCK - LENGTH_BYTES
      modifies this`hash, this`bufferPos, buffer
      ensures Shaped() && bufferPos == BLOCK - LENGTH_BYTES
      ensures buffer[..] == old(buffer[..pos]) + Zeros(BLOCK - LENGTH_BYTES - pos) + ToBytes(bitLength[..])
      ensures hash == comp(old(hash), buffer[..])
    {
      hide Value, ToBytes;
      if pos < BLOCK - LENGTH_BYTES { Put(buffer, pos, Zeros(BLOCK - LENGTH_BYTES - pos)); }
      bufferPos := BLOCK - LENGTH_BYTES;
      Put(buffer, BLOCK - LENGTH_BYTES, ToBytes(bitLength[..]));
      hash := comp(hash, buffer[..]);
    }

    /** wp512_final, on whatever an earlier call left behind. */
    method Final() returns (digest: Bytes)
      requires Shaped()
      modifies this, buffer
      ensures Shaped() && Raw() == Finished(comp, old(Raw())) && digest == out(hash)
      ensures old(Valid()) ==> digest == Finish(comp, out, old(View()))
    {
      hide Value, ToBytes, Fold, Tail, Finish, Marked;
      if Valid() { RawFinish(comp, out, View(), Raw(), bitLength[..]); }
      var pos := MarkEnd();
      assert pos == 0 ==> buffer[..pos] == [];
      LastBlock(pos);
      digest := out(hash);
    }

    /** A second call of wp512_final right after the first one. */
    method FinalTwice() returns (digest: Bytes)
      requires Valid()
      modifies this, buffer
      ensures digest == Again(comp, out, old(View()))
    {
      RawFinish(comp, out, View(), Raw(), bitLength[..]);
      var _ := Final();
      digest := Final();
    }
  }

  lemma OneBit()
    ensures Or(0, Shr(0x80, 0)) == 0x80
  {
    WholeBytes(0x80);
  }

  lemma {:induction false} ZeroValue(d: seq<Octet>)
    requires forall j :: 0 <= j < |d| ==> d[j] == 0
    ensures Value(d) == 0
  {
    if d != [] { ZeroValue(d[..|d| - 1]); }
  }

  /** A message hashed piece by piece. */
  method HashPieces<H>(comp: (H, Bytes) -> H, out: H -> Bytes, h0: H, pieces: seq<Bytes>) returns (digest: Bytes)
    requires Short(pieces)
    ensures digest == out(Fold(comp, h0, Padded(Concat(pieces))))
  {
    hide Fold, Tail, Finish, Absorb;
    var ctx := new Wp512Ctx(comp, out, h0);
    var k := 0;
    while k < |pieces|
      invariant 0 <= k <= |pieces|
      invariant ctx.Valid() && ctx.comp == comp && ctx.out == out
      invariant fresh(ctx) && fresh(ctx.buffer) && fresh(ctx.bitLength)
      invariant ctx.View() == AbsorbAll(comp, h0, pieces[..k])
    {
      ctx.Update(pieces[k]);
      assert pieces[..k + 1][..k] == pieces[..k];
      k := k + 1;
    }
    assert pieces[..k] == pieces;
    digest := ctx.Final();
    DigestIs(comp, out, h0, pieces);
  }
}

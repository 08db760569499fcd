/**
 Bytes and little-endian 32-bit words.  Exclusive or is named, so that the proofs built on
 it can argue from its group laws instead of from individual bits.
 */
module Bits {

  function Xor(a: bv8, b: bv8): bv8 { a ^ b }

  lemma XorComm(a: bv8, b: bv8)
    ensures Xor(a, b) == Xor(b, a)
  {}

  lemma XorAssoc(a: bv8, b: bv8, c: bv8)
    ensures Xor(Xor(a, b), c) == Xor(a, Xor(b, c))
  {}

  lemma XorCancel(a: bv8, b: bv8)
    ensures Xor(Xor(a, b), b) == a
  {}

  lemma XorSwap(a: bv8, b: bv8, c: bv8, d: bv8)
    ensures Xor(Xor(a, b), Xor(c, d)) == Xor(Xor(a, c), Xor(b, d))
  {
    XorAssoc(a, b, Xor(c, d));
    XorAssoc(b, c, d);
    XorComm(b, c);
    XorAssoc(c, b, d);
    XorAssoc(a, c, Xor(b, d));
  }

  /** Addition modulo 2^32. */
  function Add(a: bv32, b: bv32): bv32 { a + b }

  function Xor32(a: bv32, b: bv32): bv32 { a ^ b }

  /** `c` is the exclusive or of `a` and `b`, as the operator of the language has it. */
  ghost predicate XorIs(a: bv32, b: bv32, c: bv32) { c == a ^ b }

  lemma Xored(a: bv32, b: bv32)
    ensures XorIs(a, b, Xor32(a, b))
  {}

  lemma Xor32Comm(a: bv32, b: bv32)
    ensures Xor32(a, b) == Xor32(b, a)
  {}

  lemma Xor32Assoc(a: bv32, b: bv32, c: bv32)
    ensures Xor32(Xor32(a, b), c) == Xor32(a, Xor32(b, c))
  {}

  lemma Xor32Cancel(a: bv32, b: bv32)
    ensures Xor32(Xor32(a, b), b) == a
  {}

  /** The word whose little-endian bytes are `b0`, `b1`, `b2`, `b3`. */
  function Word(b0: bv8, b1: bv8, b2: bv8, b3: bv8): bv32 {
    (b0 as bv32) | ((b1 as bv32) << 8) | ((b2 as bv32) << 16) | ((b3 as bv32) << 24)
  }

  /** Byte `n` of a word, least significant first. */
  function ByteOf(x: bv32, n: nat): bv8
    requires n < 4
  {
    match n
    case 0 => (x & 0xff) as bv8
    case 1 => ((x >> 8) & 0xff) as bv8
    case 2 => ((x >> 16) & 0xff) as bv8
    case _ => (x >> 24) as bv8
  }

  /** Left rotation by a whole number of bytes; rotating by 0 is the identity. */
  function RotlBytes(x: bv32, n: nat): bv32
    requires n < 4
  {
    match n
    case 0 => x
    case 1 => (x << 8) | (x >> 24)
    case 2 => (x << 16) | (x >> 16)
    case _ => (x << 24) | (x >> 8)
  }

  lemma WordOfBytes(x: bv32)
    ensures Word(ByteOf(x, 0), ByteOf(x, 1), ByteOf(x, 2), ByteOf(x, 3)) == x
  {}

  lemma BytesOfWord(b0: bv8, b1: bv8, b2: bv8, b3: bv8)
    ensures ByteOf(Word(b0, b1, b2, b3), 0) == b0
    ensures ByteOf(Word(b0, b1, b2, b3), 1) == b1
    ensures ByteOf(Word(b0, b1, b2, b3), 2) == b2
    ensures ByteOf(Word(b0, b1, b2, b3), 3) == b3
  {}

  lemma Rotl1OfWord(b0: bv8, b1: bv8, b2: bv8, b3: bv8)
    ensures RotlBytes(Word(b0, b1, b2, b3), 1) == Word(b3, b0, b1, b2)
  {}

  lemma Rotl2OfWord(b0: bv8, b1: bv8, b2: bv8, b3: bv8)
    ensures RotlBytes(Word(b0, b1, b2, b3), 2) == Word(b2, b3, b0, b1)
  {}

  lemma Rotl3OfWord(b0: bv8, b1: bv8, b2: bv8, b3: bv8)
    ensures RotlBytes(Word(b0, b1, b2, b3), 3) == Word(b1, b2, b3, b0)
  {}

  lemma XorOfWords(a0: bv8, a1: bv8, a2: bv8, a3: bv8, b0: bv8, b1: bv8, b2: bv8, b3: bv8)
    ensures Xor32(Word(a0, a1, a2, a3), Word(b0, b1, b2, b3))
         == Word(Xor(a0, b0), Xor(a1, b1), Xor(a2, b2), Xor(a3, b3))
  {}

  /* ---- Blocks of words ---- */

  datatype Pair = Pair(x: bv32, y: bv32)

  datatype Quad = Quad(a: bv32, b: bv32, c: bv32, d: bv32)

  /** Word i of a block, least significant byte first. */
  function LeWord(b: seq<bv8>, i: nat): bv32
    requires 4 * i + 4 <= |b|
  {
    Word(b[4 * i], b[4 * i + 1], b[4 * i + 2], b[4 * i + 3])
  }

  /** Word i of a block, most significant byte first. */
  function BeWord(b: seq<bv8>, i: nat): bv32
    requires 4 * i + 4 <= |b|
  {
    Word(b[4 * i + 3], b[4 * i + 2], b[4 * i + 1], b[4 * i])
  }

  function LeBytes(x: bv32): (b: seq<bv8>)
    ensures |b| == 4
  {
    [ByteOf(x, 0), ByteOf(x, 1), ByteOf(x, 2), ByteOf(x, 3)]
  }

  function BeBytes(x: bv32): (b: seq<bv8>)
    ensures |b| == 4
  {
    [ByteOf(x, 3), ByteOf(x, 2), ByteOf(x, 1), ByteOf(x, 0)]
  }

  lemma LeWordBytes(b: seq<bv8>, i: nat)
    requires 4 * i + 4 <= |b|
    ensures LeBytes(LeWord(b, i)) == b[4 * i..4 * i + 4]
  {
    BytesOfWord(b[4 * i], b[4 * i + 1], b[4 * i + 2], b[4 * i + 3]);
  }

  lemma BeWordBytes(b: seq<bv8>, i: nat)
    requires 4 * i + 4 <= |b|
    ensures BeBytes(BeWord(b, i)) == b[4 * i..4 * i + 4]
  {
    BytesOfWord(b[4 * i + 3], b[4 * i + 2], b[4 * i + 1], b[4 * i]);
  }

  lemma LeBytesWord(x: bv32, b: seq<bv8>, i: nat)
    requires 4 * i + 4 <= |b| && b[4 * i..4 * i + 4] == LeBytes(x)
    ensures LeWord(b, i) == x
  {
    var w := b[4 * i..4 * i + 4];
    assert b[4 * i] == w[0] && b[4 * i + 1] == w[1] && b[4 * i + 2] == w[2] && b[4 * i + 3] == w[3];
    WordOfBytes(x);
  }

  lemma BeBytesWord(x: bv32, b: seq<bv8>, i: nat)
    requires 4 * i + 4 <= |b| && b[4 * i..4 * i + 4] == BeBytes(x)
    ensures BeWord(b, i) == x
  {
    var w := b[4 * i..4 * i + 4];
    assert b[4 * i] == w[0] && b[4 * i + 1] == w[1] && b[4 * i + 2] == w[2] && b[4 * i + 3] == w[3];
    WordOfBytes(x);
  }

  function LePair(b: seq<bv8>): Pair
    requires |b| == 8
  {
    Pair(LeWord(b, 0), LeWord(b, 1))
  }

  function LePairBytes(p: Pair): (b: seq<bv8>)
    ensures |b| == 8
  {
    LeBytes(p.x) + LeBytes(p.y)
  }

  function BePair(b: seq<bv8>): Pair
    requires |b| == 8
  {
    Pair(BeWord(b, 0), BeWord(b, 1))
  }

  function BePairBytes(p: Pair): (b: seq<bv8>)
    ensures |b| == 8
  {
    BeBytes(p.x) + BeBytes(p.y)
  }

  function LeQuad(b: seq<bv8>): Quad
    requires |b| == 16
  {
    Quad(LeWord(b, 0), LeWord(b, 1), LeWord(b, 2), LeWord(b, 3))
  }

  function LeQuadBytes(q: Quad): (b: seq<bv8>)
    ensures |b| == 16
  {
    LeBytes(q.a) + LeBytes(q.b) + LeBytes(q.c) + LeBytes(q.d)
  }

  function BeQuad(b: seq<bv8>): Quad
    requires |b| == 16
  {
    Quad(BeWord(b, 0), BeWord(b, 1), BeWord(b, 2), BeWord(b, 3))
  }

  function BeQuadBytes(q: Quad): (b: seq<bv8>)
    ensures |b| == 16
  {
    BeBytes(q.a) + BeBytes(q.b) + BeBytes(q.c) + BeBytes(q.d)
  }

  lemma LePairTrip(p: Pair, b: seq<bv8>)
    requires |b| == 8
    ensures LePair(LePairBytes(p)) == p && LePairBytes(LePair(b)) == b
  {
    hide LeBytes, LeWord;
    LeBytesWord(p.x, LePairBytes(p), 0);
    LeBytesWord(p.y, LePairBytes(p), 1);
    LeWordBytes(b, 0);
    LeWordBytes(b, 1);
  }

  lemma BePairTrip(p: Pair, b: seq<bv8>)
    requires |b| == 8
    ensures BePair(BePairBytes(p)) == p && BePairBytes(BePair(b)) == b
  {
    hide BeBytes, BeWord;
    BeBytesWord(p.x, BePairBytes(p), 0);
    BeBytesWord(p.y, BePairBytes(p), 1);
    BeWordBytes(b, 0);
    BeWordBytes(b, 1);
  }

  lemma Fourth(a: seq<bv8>, b: seq<bv8>, c: seq<bv8>, d: seq<bv8>)
    requires |a| == |b| == |c| == |d| == 4
    ensures var w := a + b + c + d; w[0..4] == a && w[4..8] == b && w[8..12] == c && w[12..16] == d
  {}

  lemma Quarters(b: seq<bv8>)
    requires |b| == 16
    ensures b[0..4] + b[4..8] + b[8..12] + b[12..16] == b
  {}

  lemma LeQuadTrip(q: Quad, b: seq<bv8>)
    requires |b| == 16
    ensures LeQuad(LeQuadBytes(q)) == q && LeQuadBytes(LeQuad(b)) == b
  {
    hide LeBytes, LeWord;
    var w := LeQuadBytes(q);
    Fourth(LeBytes(q.a), LeBytes(q.b), LeBytes(q.c), LeBytes(q.d));
    LeBytesWord(q.a, w, 0);
    LeBytesWord(q.b, w, 1);
    LeBytesWord(q.c, w, 2);
    LeBytesWord(q.d, w, 3);
    LeWordBytes(b, 0);
    LeWordBytes(b, 1);
    LeWordBytes(b, 2);
    LeWordBytes(b, 3);
    Quarters(b);
  }

  lemma BeQuadTrip(q: Quad, b: seq<bv8>)
    requires |b| == 16
    ensures BeQuad(BeQuadBytes(q)) == q && BeQuadBytes(BeQuad(b)) == b
  {
    hide BeBytes, BeWord;
    var w := BeQuadBytes(q);
    Fourth(BeBytes(q.a), BeBytes(q.b), BeBytes(q.c), BeBytes(q.d));
    BeBytesWord(q.a, w, 0);
    BeBytesWord(q.b, w, 1);
    BeBytesWord(q.c, w, 2);
    BeBytesWord(q.d, w, 3);
    BeWordBytes(b, 0);
    BeWordBytes(b, 1);
    BeWordBytes(b, 2);
    BeWordBytes(b, 3);
    Quarters(b);
  }

  /* ---- Blocks in shifts and ors ---- */

  /** `w` is word i of the block `b`, least significant byte first, in shifts and ors. */
  ghost predicate LeIs(b: seq<bv8>, i: nat, w: bv32)
    requires 4 * i + 4 <= |b|
  {
    w == (b[4 * i] as bv32) | ((b[4 * i + 1] as bv32) << 8) | ((b[4 * i + 2] as bv32) << 16)
         | ((b[4 * i + 3] as bv32) << 24)
  }

  /** `w` is word i of the block `b`, most significant byte first, in shifts and ors. */
  ghost predicate BeIs(b: seq<bv8>, i: nat, w: bv32)
    requires 4 * i + 4 <= |b|
  {
    w == ((b[4 * i] as bv32) << 24) | ((b[4 * i + 1] as bv32) << 16) | ((b[4 * i + 2] as bv32) << 8)
         | (b[4 * i + 3] as bv32)
  }

  lemma LeWordIs(b: seq<bv8>, i: nat)
    requires 4 * i + 4 <= |b|
    ensures LeIs(b, i, LeWord(b, i))
  {}

  lemma BeWordIs(b: seq<bv8>, i: nat)
    requires 4 * i + 4 <= |b|
    ensures BeIs(b, i, BeWord(b, i))
  {}

  ghost predicate LeQuadIs(b: seq<bv8>, q: Quad)
    requires |b| == 16
  {
    LeIs(b, 0, q.a) && LeIs(b, 1, q.b) && LeIs(b, 2, q.c) && LeIs(b, 3, q.d)
  }

  ghost predicate BeQuadIs(b: seq<bv8>, q: Quad)
    requires |b| == 16
  {
    BeIs(b, 0, q.a) && BeIs(b, 1, q.b) && BeIs(b, 2, q.c) && BeIs(b, 3, q.d)
  }

  ghost predicate LePairIs(b: seq<bv8>, p: Pair)
    requires |b| == 8
  {
    LeIs(b, 0, p.x) && LeIs(b, 1, p.y)
  }

  ghost predicate BePairIs(b: seq<bv8>, p: Pair)
    requires |b| == 8
  {
    BeIs(b, 0, p.x) && BeIs(b, 1, p.y)
  }

  lemma LeQuadAre(b: seq<bv8>, q: Quad)
    requires |b| == 16
    ensures LeQuadIs(b, LeQuad(b)) && LeQuadIs(LeQuadBytes(q), q)
  {
    hide LeIs, LeWord, LeQuadBytes;
    var w := LeQuadBytes(q);
    LeQuadTrip(q, b);
    LeWordIs(b, 0); LeWordIs(b, 1); LeWordIs(b, 2); LeWordIs(b, 3);
    LeWordIs(w, 0); LeWordIs(w, 1); LeWordIs(w, 2); LeWordIs(w, 3);
  }

  lemma BeQuadAre(b: seq<bv8>, q: Quad)
    requires |b| == 16
    ensures BeQuadIs(b, BeQuad(b)) && BeQuadIs(BeQuadBytes(q), q)
  {
    hide BeIs, BeWord, BeQuadBytes;
    var w := BeQuadBytes(q);
    BeQuadTrip(q, b);
    BeWordIs(b, 0); BeWordIs(b, 1); BeWordIs(b, 2); BeWordIs(b, 3);
    BeWordIs(w, 0); BeWordIs(w, 1); BeWordIs(w, 2); BeWordIs(w, 3);
  }

  lemma LePairAre(b: seq<bv8>, p: Pair)
    requires |b| == 8
    ensures LePairIs(b, LePair(b)) && LePairIs(LePairBytes(p), p)
  {
    hide LeIs, LeWord, LePairBytes;
    var w := LePairBytes(p);
    LePairTrip(p, b);
    LeWordIs(b, 0); LeWordIs(b, 1); LeWordIs(w, 0); LeWordIs(w, 1);
  }

  lemma BePairAre(b: seq<bv8>, p: Pair)
    requires |b| == 8
    ensures BePairIs(b, BePair(b)) && BePairIs(BePairBytes(p), p)
  {
    hide BeIs, BeWord, BePairBytes;
    var w := BePairBytes(p);
    BePairTrip(p, b);
    BeWordIs(b, 0); BeWordIs(b, 1); BeWordIs(w, 0); BeWordIs(w, 1);
  }
}

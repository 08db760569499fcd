/**
 crypto/twofish.c: the sixteen rounds and the whitening.  The key-dependent functions g1 and g2
 and the subkeys are arbitrary.
 */
module Twofish {
  import opened Bits
  import opened Network

  function Ror1(x: bv32): bv32 { (x >> 1) + (x << 31) }

  function Rol1(x: bv32): bv32 { (x << 1) + (x >> 31) }

  lemma RotationsUndo(x: bv32)
    ensures Ror1(Rol1(x)) == x && Rol1(Ror1(x)) == x
  {}

  /** struct twofish_ctx: what G1 and G2 compute from the S-boxes, round subkeys and whitening subkeys. */
  datatype Ctx = Ctx(g1: bv32 -> bv32, g2: bv32 -> bv32, k: nat -> bv32, w: nat -> bv32)

  /** x and y of a round after the pseudo-Hadamard transform, without the subkeys. */
  function X(ctx: Ctx, a: bv32, b: bv32): bv32 { Add(ctx.g1(a), ctx.g2(b)) }

  function Y(ctx: Ctx, a: bv32, b: bv32): bv32 { Add(ctx.g2(b), X(ctx, a, b)) }

  /** ENCROUND: the new c and d. */
  function EncHalf(ctx: Ctx, n: nat, a: bv32, b: bv32, c: bv32, d: bv32): Pair {
    Pair(Ror1(Xor32(c, Add(X(ctx, a, b), ctx.k(2 * n)))),
         Xor32(Rol1(d), Add(Y(ctx, a, b), ctx.k(2 * n + 1))))
  }

  /** DECROUND: the new c and d. */
  function DecHalf(ctx: Ctx, n: nat, a: bv32, b: bv32, c: bv32, d: bv32): Pair {
    Pair(Xor32(Rol1(c), Add(X(ctx, a, b), ctx.k(2 * n))),
         Ror1(Xor32(d, Add(Y(ctx, a, b), ctx.k(2 * n + 1)))))
  }

  lemma HalfUndone(ctx: Ctx, n: nat, a: bv32, b: bv32, c: bv32, d: bv32)
    ensures var p := EncHalf(ctx, n, a, b, c, d); DecHalf(ctx, n, a, b, p.x, p.y) == Pair(c, d)
  {
    hide Add, Ror1, Rol1, Xor32, X, Y;
    var f, g := Add(X(ctx, a, b), ctx.k(2 * n)), Add(Y(ctx, a, b), ctx.k(2 * n + 1));
    RotationsUndo(Xor32(c, f));
    Xor32Cancel(c, f);
    Xor32Cancel(Rol1(d), g);
    RotationsUndo(d);
  }

  /** Round r is ENCROUND number r - 1; odd-numbered ones have the halves exchanged. */
  function Round(ctx: Ctx): (Quad, nat) -> Quad {
    (s: Quad, r: nat) =>
      if r == 0 then s
      else if r % 2 == 1 then var p := EncHalf(ctx, r - 1, s.a, s.b, s.c, s.d); s.(c := p.x, d := p.y)
      else var p := EncHalf(ctx, r - 1, s.c, s.d, s.a, s.b); s.(a := p.x, b := p.y)
  }

  function Back(ctx: Ctx): (Quad, nat) -> Quad {
    (s: Quad, r: nat) =>
      if r == 0 then s
      else if r % 2 == 1 then var p := DecHalf(ctx, r - 1, s.a, s.b, s.c, s.d); s.(c := p.x, d := p.y)
      else var p := DecHalf(ctx, r - 1, s.c, s.d, s.a, s.b); s.(a := p.x, b := p.y)
  }

  lemma BackUndoes(ctx: Ctx, n: nat)
    ensures Undoes(Back(ctx), Round(ctx), Plain(), n)
  {
    hide EncHalf, DecHalf;
    forall s: Quad, r: nat | r > 0 ensures Back(ctx)(Round(ctx)(s, r), r) == s {
      HalfUndone(ctx, r - 1, s.a, s.b, s.c, s.d);
      HalfUndone(ctx, r - 1, s.c, s.d, s.a, s.b);
    }
  }

  /** Input whitening with w[0..4], and output whitening with w[4..8] and the halves exchanged. */
  function WhitenIn(ctx: Ctx): Quad -> Quad {
    (s: Quad) => Quad(Xor32(s.a, ctx.w(0)), Xor32(s.b, ctx.w(1)), Xor32(s.c, ctx.w(2)), Xor32(s.d, ctx.w(3)))
  }

  function WhitenOut(ctx: Ctx): Quad -> Quad {
    (s: Quad) => Quad(Xor32(s.c, ctx.w(4)), Xor32(s.d, ctx.w(5)), Xor32(s.a, ctx.w(6)), Xor32(s.b, ctx.w(7)))
  }

  /** INPACK of twofish_decrypt: words 0 to 3 go to c, d, a, b. */
  function OpenIn(ctx: Ctx): Quad -> Quad {
    (s: Quad) => Quad(Xor32(s.c, ctx.w(6)), Xor32(s.d, ctx.w(7)), Xor32(s.a, ctx.w(4)), Xor32(s.b, ctx.w(5)))
  }

  lemma EndsUndo(ctx: Ctx, n: nat)
    ensures UndoesEnds(WhitenIn(ctx), WhitenOut(ctx), Plain(), OpenIn(ctx), WhitenIn(ctx), n)
  {
    hide Xor32;
    forall s: Quad ensures OpenIn(ctx)(WhitenOut(ctx)(s)) == s {
      Xor32Cancel(s.a, ctx.w(6)); Xor32Cancel(s.b, ctx.w(7)); Xor32Cancel(s.c, ctx.w(4)); Xor32Cancel(s.d, ctx.w(5));
    }
    forall s: Quad ensures WhitenIn(ctx)(WhitenIn(ctx)(s)) == s {
      Xor32Cancel(s.a, ctx.w(0)); Xor32Cancel(s.b, ctx.w(1)); Xor32Cancel(s.c, ctx.w(2)); Xor32Cancel(s.d, ctx.w(3));
    }
  }

  function Encipher(ctx: Ctx, s: Quad): Quad {
    Encrypt(WhitenIn(ctx), Round(ctx), WhitenOut(ctx), 16, s)
  }

  function Decipher(ctx: Ctx, s: Quad): Quad {
    Decrypt(OpenIn(ctx), Back(ctx), WhitenIn(ctx), 16, s)
  }

  /** For all subkeys and S-boxes, decryption undoes encryption of every block. */
  lemma RoundTrip(ctx: Ctx, block: seq<bv8>)
    requires |block| == 16
    ensures LeQuadBytes(Decipher(ctx, LeQuad(LeQuadBytes(Encipher(ctx, LeQuad(block)))))) == block
  {
    hide Round, Back, WhitenIn, WhitenOut, OpenIn, LeQuad, LeQuadBytes;
    BackUndoes(ctx, 16);
    EndsUndo(ctx, 16);
    DecryptUndoesEncrypt(WhitenIn(ctx), Round(ctx), WhitenOut(ctx), Plain(), OpenIn(ctx), Back(ctx), WhitenIn(ctx), 16,
                         LeQuad(block));
    LeQuadTrip(Encipher(ctx, LeQuad(block)), block);
  }

  /** ENCCYCLE(n) */
  function EncCycle(ctx: Ctx, n: nat, s: Quad): Quad { Round(ctx)(Round(ctx)(s, 2 * n + 1), 2 * n + 2) }

  /** DECCYCLE(n) */
  function DecCycle(ctx: Ctx, n: nat, s: Quad): Quad { Back(ctx)(Back(ctx)(s, 2 * n + 2), 2 * n + 1) }

  lemma CycleUp(ctx: Ctx, n: nat, s: Quad)
    ensures EncCycle(ctx, n, Up(Round(ctx), s, 2 * n)) == Up(Round(ctx), s, 2 * n + 2)
  {
    hide Round;
    UpNext(Round(ctx), s, 2 * n + 1);
    UpNext(Round(ctx), s, 2 * n + 2);
  }

  lemma CycleDown(ctx: Ctx, n: nat, s: Quad)
    requires n < 8
    ensures DecCycle(ctx, n, Down(Back(ctx), s, 16, 14 - 2 * n)) == Down(Back(ctx), s, 16, 16 - 2 * n)
  {
    hide Back;
    DownNext(Back(ctx), s, 16, 15 - 2 * n);
    DownNext(Back(ctx), s, 16, 16 - 2 * n);
  }

  lemma EncipherIs(ctx: Ctx, s: Quad)
    ensures Encipher(ctx, s) == WhitenOut(ctx)(Up(Round(ctx), WhitenIn(ctx)(s), 16))
    ensures Decipher(ctx, s) == WhitenIn(ctx)(Down(Back(ctx), OpenIn(ctx)(s), 16, 16))
  {
    hide Round, Back, WhitenIn, WhitenOut, OpenIn;
  }

  /* ---- The rounds in the operators of the language ---- */

  /** Exclusive or, then a rotation right by one bit. */
  ghost predicate XoredRor(c: bv32, u: bv32, r: bv32) { r == ((c ^ u) >> 1) + ((c ^ u) << 31) }

  /** A rotation left by one bit, then exclusive or. */
  ghost predicate RolXored(d: bv32, u: bv32, r: bv32) { r == ((d << 1) + (d >> 31)) ^ u }

  ghost predicate SumIs(a: bv32, b: bv32, c: bv32) { c == a + b }

  /** The pseudo-Hadamard transform of g and h with the subkeys k and l: u = (g + h) + k and v = (g + 2h) + l. */
  ghost predicate Transformed(g: bv32, h: bv32, k: bv32, l: bv32, u: bv32, v: bv32) {
    exists x, y :: SumIs(g, h, x) && SumIs(h, x, y) && SumIs(x, k, u) && SumIs(y, l, v)
  }

  /** ENCROUND where G1 (a) is g, G2 (b) is h and the subkeys are k and l: what it leaves in c and d. */
  ghost predicate EncRounded(g: bv32, h: bv32, k: bv32, l: bv32, c: bv32, d: bv32, p: Pair) {
    exists u, v :: Transformed(g, h, k, l, u, v) && XoredRor(c, u, p.x) && RolXored(d, v, p.y)
  }

  /** DECROUND likewise. */
  ghost predicate DecRounded(g: bv32, h: bv32, k: bv32, l: bv32, c: bv32, d: bv32, p: Pair) {
    exists u, v :: Transformed(g, h, k, l, u, v) && RolXored(c, u, p.x) && XoredRor(d, v, p.y)
  }

  /** Round r from `s` to `t`: the two words that change, and the two that do not. */
  ghost predicate EncStep(ctx: Ctx, r: nat, s: Quad, t: Quad)
    requires r > 0
  {
    var k, l := ctx.k(2 * (r - 1)), ctx.k(2 * (r - 1) + 1);
    if r % 2 == 1 then
      EncRounded(ctx.g1(s.a), ctx.g2(s.b), k, l, s.c, s.d, Pair(t.c, t.d)) && t.a == s.a && t.b == s.b
    else
      EncRounded(ctx.g1(s.c), ctx.g2(s.d), k, l, s.a, s.b, Pair(t.a, t.b)) && t.c == s.c && t.d == s.d
  }

  ghost predicate DecStep(ctx: Ctx, r: nat, s: Quad, t: Quad)
    requires r > 0
  {
    var k, l := ctx.k(2 * (r - 1)), ctx.k(2 * (r - 1) + 1);
    if r % 2 == 1 then
      DecRounded(ctx.g1(s.a), ctx.g2(s.b), k, l, s.c, s.d, Pair(t.c, t.d)) && t.a == s.a && t.b == s.b
    else
      DecRounded(ctx.g1(s.c), ctx.g2(s.d), k, l, s.a, s.b, Pair(t.a, t.b)) && t.c == s.c && t.d == s.d
  }

  /** INPACK (0, a, 0), ..., INPACK (3, d, 3): the words of the block and the whitened ones. */
  ghost predicate WhitenedIn(ctx: Ctx, s: Quad, t: Quad) {
    && XorIs(s.a, ctx.w(0), t.a) && XorIs(s.b, ctx.w(1), t.b)
    && XorIs(s.c, ctx.w(2), t.c) && XorIs(s.d, ctx.w(3), t.d)
  }

  /** OUTUNPACK (0, c, 4), ..., OUTUNPACK (3, b, 7) */
  ghost predicate WhitenedOut(ctx: Ctx, s: Quad, t: Quad) {
    && XorIs(s.c, ctx.w(4), t.a) && XorIs(s.d, ctx.w(5), t.b)
    && XorIs(s.a, ctx.w(6), t.c) && XorIs(s.b, ctx.w(7), t.d)
  }

  /** INPACK (0, c, 4), ..., INPACK (3, b, 7) of twofish_decrypt */
  ghost predicate Opened(ctx: Ctx, s: Quad, t: Quad) {
    && XorIs(s.a, ctx.w(4), t.c) && XorIs(s.b, ctx.w(5), t.d)
    && XorIs(s.c, ctx.w(6), t.a) && XorIs(s.d, ctx.w(7), t.b)
  }

  /** The words read, the words before, between and after the rounds, and the words put out. */
  ghost predicate Encrypted(ctx: Ctx, input: seq<bv8>, out: seq<bv8>, first: Quad, qs: seq<Quad>, last: Quad)
    requires |input| == |out| == 16
  {
    && LeQuadIs(input, first) && LeQuadIs(out, last)
    && |qs| == 17 && WhitenedIn(ctx, first, qs[0]) && WhitenedOut(ctx, qs[16], last)
    && (forall r :: 0 < r <= 16 ==> EncStep(ctx, r, qs[r - 1], qs[r]))
  }

  ghost predicate Decrypted(ctx: Ctx, input: seq<bv8>, out: seq<bv8>, first: Quad, qs: seq<Quad>, last: Quad)
    requires |input| == |out| == 16
  {
    && LeQuadIs(input, first) && LeQuadIs(out, last)
    && |qs| == 17 && Opened(ctx, first, qs[0]) && WhitenedIn(ctx, qs[16], last)
    && (forall r :: 0 < r <= 16 ==> DecStep(ctx, 17 - r, qs[r - 1], qs[r]))
  }

  lemma Rotated(c: bv32, u: bv32)
    ensures XoredRor(c, u, Ror1(Xor32(c, u))) && RolXored(c, u, Xor32(Rol1(c), u))
  {}

  lemma Summed(a: bv32, b: bv32)
    ensures SumIs(a, b, Add(a, b))
  {}

  lemma Transforms(g: bv32, h: bv32, k: bv32, l: bv32)
    ensures Transformed(g, h, k, l, Add(Add(g, h), k), Add(Add(h, Add(g, h)), l))
  {
    hide Add, SumIs;
    var x := Add(g, h);
    var y := Add(h, x);
    Summed(g, h);
    Summed(h, x);
    Summed(x, k);
    Summed(y, l);
  }

  lemma RoundBits(g: bv32, h: bv32, k: bv32, l: bv32, c: bv32, d: bv32)
    ensures var u, v := Add(Add(g, h), k), Add(Add(h, Add(g, h)), l);
            && EncRounded(g, h, k, l, c, d, Pair(Ror1(Xor32(c, u)), Xor32(Rol1(d), v)))
            && DecRounded(g, h, k, l, c, d, Pair(Xor32(Rol1(c), u), Ror1(Xor32(d, v))))
  {
    hide Add, Xor32, Ror1, Rol1, XoredRor, RolXored, Transformed;
    Transforms(g, h, k, l);
    var u, v := Add(Add(g, h), k), Add(Add(h, Add(g, h)), l);
    Rotated(c, u);
    Rotated(d, v);
  }

  lemma HalfIs(ctx: Ctx, n: nat, a: bv32, b: bv32, c: bv32, d: bv32)
    ensures EncRounded(ctx.g1(a), ctx.g2(b), ctx.k(2 * n), ctx.k(2 * n + 1), c, d, EncHalf(ctx, n, a, b, c, d))
    ensures DecRounded(ctx.g1(a), ctx.g2(b), ctx.k(2 * n), ctx.k(2 * n + 1), c, d, DecHalf(ctx, n, a, b, c, d))
  {
    hide Add, Xor32, Ror1, Rol1, EncRounded, DecRounded;
    RoundBits(ctx.g1(a), ctx.g2(b), ctx.k(2 * n), ctx.k(2 * n + 1), c, d);
  }

  lemma RoundIs(ctx: Ctx, r: nat, s: Quad)
    requires r > 0
    ensures EncStep(ctx, r, s, Round(ctx)(s, r)) && DecStep(ctx, r, s, Back(ctx)(s, r))
  {
    hide EncHalf, DecHalf, EncRounded, DecRounded;
    if r % 2 == 1 {
      HalfIs(ctx, r - 1, s.a, s.b, s.c, s.d);
    } else {
      HalfIs(ctx, r - 1, s.c, s.d, s.a, s.b);
    }
  }

  lemma EndsAre(ctx: Ctx, s: Quad)
    ensures WhitenedIn(ctx, s, WhitenIn(ctx)(s)) && WhitenedOut(ctx, s, WhitenOut(ctx)(s))
    ensures Opened(ctx, s, OpenIn(ctx)(s))
  {
    hide Xor32, XorIs;
    Xored(s.a, ctx.w(0)); Xored(s.b, ctx.w(1)); Xored(s.c, ctx.w(2)); Xored(s.d, ctx.w(3));
    Xored(s.a, ctx.w(4)); Xored(s.b, ctx.w(5)); Xored(s.c, ctx.w(6)); Xored(s.d, ctx.w(7));
    Xored(s.a, ctx.w(6)); Xored(s.b, ctx.w(7)); Xored(s.c, ctx.w(4)); Xored(s.d, ctx.w(5));
  }

  lemma UpIs(ctx: Ctx, input: seq<bv8>)
    requires |input| == 16
    ensures exists first, qs, last ::
              Encrypted(ctx, input, LeQuadBytes(Encipher(ctx, LeQuad(input))), first, qs, last)
  {
    hide LeQuad, LeQuadBytes, LeQuadIs, Round, WhitenIn, WhitenOut, EncStep, Up, Encipher, Decipher;
    hide WhitenedIn, WhitenedOut, Opened;
    var s := LeQuad(input);
    var qs := StatesUp(Round(ctx), WhitenIn(ctx)(s), 16);
    EncipherIs(ctx, s);
    EndsAre(ctx, s);
    EndsAre(ctx, qs[16]);
    LeQuadAre(input, Encipher(ctx, s));
    forall r: nat | 0 < r <= 16 ensures EncStep(ctx, r, qs[r - 1], qs[r]) { RoundIs(ctx, r, qs[r - 1]); }
    assert Encrypted(ctx, input, LeQuadBytes(Encipher(ctx, s)), s, qs, Encipher(ctx, s));
  }

  lemma DownIs(ctx: Ctx, input: seq<bv8>)
    requires |input| == 16
    ensures exists first, qs, last ::
              Decrypted(ctx, input, LeQuadBytes(Decipher(ctx, LeQuad(input))), first, qs, last)
  {
    hide LeQuad, LeQuadBytes, LeQuadIs, Back, WhitenIn, OpenIn, DecStep, Down, Encipher, Decipher;
    hide WhitenedIn, WhitenedOut, Opened;
    var s := LeQuad(input);
    var qs := StatesDown(Back(ctx), OpenIn(ctx)(s), 16);
    EncipherIs(ctx, s);
    EndsAre(ctx, s);
    EndsAre(ctx, qs[16]);
    LeQuadAre(input, Decipher(ctx, s));
    forall r: nat | 0 < r <= 16 ensures DecStep(ctx, 17 - r, qs[r - 1], qs[r]) { RoundIs(ctx, 17 - r, qs[r - 1]); }
    assert Decrypted(ctx, input, LeQuadBytes(Decipher(ctx, s)), s, qs, Decipher(ctx, s));
  }

  /** twofish_encrypt */
  method EncryptBlock(ctx: Ctx, input: seq<bv8>) returns (out: seq<bv8>)
    requires |input| == 16
    ensures out == LeQuadBytes(Encipher(ctx, LeQuad(input)))
    ensures exists first, qs, last :: Encrypted(ctx, input, out, first, qs, last)
  {
    hide *;
    var s := WhitenIn(ctx)(LeQuad(input));
    EncipherIs(ctx, LeQuad(input));
    UpZero(Round(ctx), s);
    CycleUp(ctx, 0, s); CycleUp(ctx, 1, s); CycleUp(ctx, 2, s); CycleUp(ctx, 3, s);
    CycleUp(ctx, 4, s); CycleUp(ctx, 5, s); CycleUp(ctx, 6, s); CycleUp(ctx, 7, s);
    s := EncCycle(ctx, 0, s);
    s := EncCycle(ctx, 1, s);
    s := EncCycle(ctx, 2, s);
    s := EncCycle(ctx, 3, s);
    s := EncCycle(ctx, 4, s);
    s := EncCycle(ctx, 5, s);
    s := EncCycle(ctx, 6, s);
    s := EncCycle(ctx, 7, s);
    UpIs(ctx, input);
    out := LeQuadBytes(WhitenOut(ctx)(s));
  }

  /** twofish_decrypt */
  method DecryptBlock(ctx: Ctx, input: seq<bv8>) returns (out: seq<bv8>)
    requires |input| == 16
    ensures out == LeQuadBytes(Decipher(ctx, LeQuad(input)))
    ensures exists first, qs, last :: Decrypted(ctx, input, out, first, qs, last)
  {
    hide *;
    var s := OpenIn(ctx)(LeQuad(input));
    EncipherIs(ctx, LeQuad(input));
    DownZero(Back(ctx), s, 16);
    CycleDown(ctx, 7, s); CycleDown(ctx, 6, s); CycleDown(ctx, 5, s); CycleDown(ctx, 4, s);
    CycleDown(ctx, 3, s); CycleDown(ctx, 2, s); CycleDown(ctx, 1, s); CycleDown(ctx, 0, s);
    s := DecCycle(ctx, 7, s);
    s := DecCycle(ctx, 6, s);
    s := DecCycle(ctx, 5, s);
    s := DecCycle(ctx, 4, s);
    s := DecCycle(ctx, 3, s);
    s := DecCycle(ctx, 2, s);
    s := DecCycle(ctx, 1, s);
    s := DecCycle(ctx, 0, s);
    DownIs(ctx, input);
    out := LeQuadBytes(WhitenIn(ctx)(s));
  }
}

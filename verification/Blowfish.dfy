/**
 crypto/blowfish.c: sixteen rounds that add a subkey to one half and a function of it to the
 other.  The function bf_F and the subkeys P are arbitrary.
 */
module Blowfish {
  import opened Bits
  import opened Network

  datatype Ctx = Ctx(f: bv32 -> bv32, p: nat -> bv32)

  /** ROUND(y, x, n), and the halves exchanged: x is always the half that gets the subkey next. */
  function Keyed(ctx: Ctx, n: nat, s: Pair): Pair {
    var x := Xor32(s.x, ctx.p(n));
    Pair(Xor32(s.y, ctx.f(x)), x)
  }

  /** Encryption: round r uses P[r - 1]. */
  function Round(ctx: Ctx): (Pair, nat) -> Pair {
    (s: Pair, r: nat) => if r == 0 then s else Keyed(ctx, r - 1, s)
  }

  /** Decryption runs the rounds with P[17] down to P[2]: against round r of encryption, P[r + 1]. */
  function Back(ctx: Ctx): (Pair, nat) -> Pair {
    (s: Pair, r: nat) => Keyed(ctx, r + 1, s)
  }

  /** What decryption sees of the state after round r: the halves exchanged and keyed. */
  function Seen(ctx: Ctx): (Pair, nat) -> Pair {
    (s: Pair, r: nat) => Pair(Xor32(s.y, ctx.p(r + 1)), Xor32(s.x, ctx.p(r)))
  }

  /** One round and its undoing, with q the next subkey and p, o the ones before. */
  lemma StepBack(x: bv32, y: bv32, f: bv32, p: bv32, q: bv32)
    ensures Xor32(Xor32(x, q), q) == x
    ensures Xor32(Xor32(Xor32(y, f), p), f) == Xor32(y, p)
  {
    hide Xor32;
    Xor32Cancel(x, q);
    Xor32Assoc(y, f, p);
    Xor32Comm(f, p);
    Xor32Assoc(y, p, f);
    Xor32Cancel(Xor32(y, p), f);
  }

  lemma BackUndoesOne(ctx: Ctx, s: Pair, r: nat)
    requires r > 0
    ensures Back(ctx)(Seen(ctx)(Round(ctx)(s, r), r), r) == Seen(ctx)(s, r - 1)
  {
    hide Xor32;
    var x := Xor32(s.x, ctx.p(r - 1));
    var t := Pair(Xor32(s.y, ctx.f(x)), x);
    assert Round(ctx)(s, r) == t;
    assert Seen(ctx)(t, r) == Pair(Xor32(x, ctx.p(r + 1)), Xor32(t.x, ctx.p(r)));
    StepBack(x, s.y, ctx.f(x), ctx.p(r), ctx.p(r + 1));
  }

  lemma BackUndoes(ctx: Ctx, n: nat)
    ensures Undoes(Back(ctx), Round(ctx), Seen(ctx), n)
  {
    var enc, dec, view := Round(ctx), Back(ctx), Seen(ctx);
    hide Round, Back, Seen;
    forall s: Pair, r: nat | r > 0 ensures dec(view(enc(s, r), r), r) == view(s, r - 1) { BackUndoesOne(ctx, s, r); }
  }

  function Same(): Pair -> Pair { (s: Pair) => s }

  /** The last two subkeys, and the halves exchanged. */
  function Out(ctx: Ctx, kx: nat, ky: nat): Pair -> Pair {
    (s: Pair) => Pair(Xor32(s.y, ctx.p(ky)), Xor32(s.x, ctx.p(kx)))
  }

  lemma EndsUndo(ctx: Ctx)
    ensures UndoesEnds(Same(), Out(ctx, 16, 17), Seen(ctx), Same(), Out(ctx, 1, 0), 16)
  {
    hide Xor32;
    forall s: Pair ensures Out(ctx, 1, 0)(Seen(ctx)(s, 0)) == s {
      Xor32Cancel(s.x, ctx.p(0));
      Xor32Cancel(s.y, ctx.p(1));
    }
  }

  function Encipher(ctx: Ctx, s: Pair): Pair { Encrypt(Same(), Round(ctx), Out(ctx, 16, 17), 16, s) }

  function Decipher(ctx: Ctx, s: Pair): Pair { Decrypt(Same(), Back(ctx), Out(ctx, 1, 0), 16, s) }

  /** For all subkeys and S-boxes, decryption undoes encryption of every block. */
  lemma RoundTrip(ctx: Ctx, block: seq<bv8>)
    requires |block| == 8
    ensures BePairBytes(Decipher(ctx, BePair(BePairBytes(Encipher(ctx, BePair(block)))))) == block
  {
    hide Round, Back, Seen, Out, BePair, BePairBytes;
    BackUndoes(ctx, 16);
    EndsUndo(ctx);
    DecryptUndoesEncrypt(Same(), Round(ctx), Out(ctx, 16, 17), Seen(ctx), Same(), Back(ctx), Out(ctx, 1, 0), 16,
                         BePair(block));
    BePairTrip(Encipher(ctx, BePair(block)), block);
  }

  /** Two lines of the source: ROUND(yr, yl, n); ROUND(yl, yr, m). */
  method TwoRounds(ctx: Ctx, l: bv32, r: bv32, n: nat, m: nat) returns (yl: bv32, yr: bv32)
    ensures Pair(yl, yr) == Keyed(ctx, m, Keyed(ctx, n, Pair(l, r)))
  {
    yl, yr := l, r;
    yl := Xor32(yl, ctx.p(n));
    yr := Xor32(yr, ctx.f(yl));
    yr := Xor32(yr, ctx.p(m));
    yl := Xor32(yl, ctx.f(yr));
  }

  lemma TwoUp(ctx: Ctx, n: nat, s: Pair)
    ensures Keyed(ctx, n + 1, Keyed(ctx, n, Up(Round(ctx), s, n))) == Up(Round(ctx), s, n + 2)
  {
    hide Keyed;
    UpNext(Round(ctx), s, n + 1);
    UpNext(Round(ctx), s, n + 2);
  }

  lemma TwoDown(ctx: Ctx, n: nat, s: Pair)
    requires 2 <= n <= 16
    ensures Keyed(ctx, n, Keyed(ctx, n + 1, Down(Back(ctx), s, 16, 16 - n))) == Down(Back(ctx), s, 16, 18 - n)
  {
    hide Keyed;
    DownNext(Back(ctx), s, 16, 17 - n);
    DownNext(Back(ctx), s, 16, 18 - n);
  }

  lemma EncipherIs(ctx: Ctx, s: Pair)
    ensures var u := Up(Round(ctx), s, 16);
            Encipher(ctx, s) == Pair(Xor32(u.y, ctx.p(17)), Xor32(u.x, ctx.p(16)))
    ensures var d := Down(Back(ctx), s, 16, 16);
            Decipher(ctx, s) == Pair(Xor32(d.y, ctx.p(0)), Xor32(d.x, ctx.p(1)))
  {
    hide Round, Back, Xor32;
  }

  lemma InWords(b: seq<bv8>)
    requires |b| == 8
    ensures BePair(b) == Pair(BeWord(b, 0), BeWord(b, 1))
  {}

  /* ---- The rounds in the operators of the language ---- */

  /** ROUND(y, x, n) from `s` to `t`, whose halves are exchanged. */
  ghost predicate Rounded(ctx: Ctx, n: nat, s: Pair, t: Pair) {
    XorIs(s.x, ctx.p(n), t.y) && XorIs(s.y, ctx.f(t.y), t.x)
  }

  /** The words before, between and after the sixteen rounds of encrypt_block, and the words put out. */
  ghost predicate Encrypted(ctx: Ctx, src: seq<bv8>, dst: seq<bv8>, ps: seq<Pair>)
    requires |src| == |dst| == 8
  {
    && |ps| == 18 && BePairIs(src, ps[0]) && BePairIs(dst, ps[17])
    && (forall r :: 0 < r <= 16 ==> Rounded(ctx, r - 1, ps[r - 1], ps[r]))
    && XorIs(ps[16].y, ctx.p(17), ps[17].x) && XorIs(ps[16].x, ctx.p(16), ps[17].y)
  }

  /** The words before, between and after the sixteen rounds of bf_decrypt, and the words put out. */
  ghost predicate Decrypted(ctx: Ctx, src: seq<bv8>, dst: seq<bv8>, ps: seq<Pair>)
    requires |src| == |dst| == 8
  {
    && |ps| == 18 && BePairIs(src, ps[0]) && BePairIs(dst, ps[17])
    && (forall r :: 0 < r <= 16 ==> Rounded(ctx, 18 - r, ps[r - 1], ps[r]))
    && XorIs(ps[16].y, ctx.p(0), ps[17].x) && XorIs(ps[16].x, ctx.p(1), ps[17].y)
  }

  lemma KeyedIs(ctx: Ctx, n: nat, s: Pair)
    ensures Rounded(ctx, n, s, Keyed(ctx, n, s))
  {
    hide Xor32, XorIs;
    Xored(s.x, ctx.p(n));
    Xored(s.y, ctx.f(Keyed(ctx, n, s).y));
  }

  lemma UpIs(ctx: Ctx, src: seq<bv8>)
    requires |src| == 8
    ensures exists ps :: Encrypted(ctx, src, BePairBytes(Encipher(ctx, BePair(src))), ps)
  {
    hide BePair, BePairBytes, BePairIs, Keyed, Rounded, Up, Xor32, XorIs, Encipher, Decipher;
    var s := BePair(src);
    var us := StatesUp(Round(ctx), s, 16);
    var out := Encipher(ctx, s);
    EncipherIs(ctx, s);
    Xored(us[16].y, ctx.p(17));
    Xored(us[16].x, ctx.p(16));
    BePairAre(src, out);
    var ps := us + [out];
    forall r: nat | 0 < r <= 16 ensures Rounded(ctx, r - 1, ps[r - 1], ps[r]) { KeyedIs(ctx, r - 1, us[r - 1]); }
    assert Encrypted(ctx, src, BePairBytes(out), ps);
  }

  lemma DownIs(ctx: Ctx, src: seq<bv8>)
    requires |src| == 8
    ensures exists ps :: Decrypted(ctx, src, BePairBytes(Decipher(ctx, BePair(src))), ps)
  {
    hide BePair, BePairBytes, BePairIs, Keyed, Rounded, Down, Xor32, XorIs, Encipher, Decipher;
    var s := BePair(src);
    var us := StatesDown(Back(ctx), s, 16);
    var out := Decipher(ctx, s);
    EncipherIs(ctx, s);
    Xored(us[16].y, ctx.p(0));
    Xored(us[16].x, ctx.p(1));
    BePairAre(src, out);
    var ps := us + [out];
    forall r: nat | 0 < r <= 16 ensures Rounded(ctx, 18 - r, ps[r - 1], ps[r]) { KeyedIs(ctx, 18 - r, us[r - 1]); }
    assert Decrypted(ctx, src, BePairBytes(out), ps);
  }

  /** encrypt_block and bf_encrypt */
  method EncryptBlock(ctx: Ctx, src: seq<bv8>) returns (dst: seq<bv8>)
    requires |src| == 8
    ensures dst == BePairBytes(Encipher(ctx, BePair(src)))
    ensures exists ps :: Encrypted(ctx, src, dst, ps)
  {
    hide *;
    var yl, yr := BeWord(src, 0), BeWord(src, 1);
    ghost var s := Pair(yl, yr);
    InWords(src);
    EncipherIs(ctx, s);
    UpZero(Round(ctx), s);
    TwoUp(ctx, 0, s); TwoUp(ctx, 2, s); TwoUp(ctx, 4, s); TwoUp(ctx, 6, s);
    TwoUp(ctx, 8, s); TwoUp(ctx, 10, s); TwoUp(ctx, 12, s); TwoUp(ctx, 14, s);
    yl, yr := TwoRounds(ctx, yl, yr, 0, 1);
    yl, yr := TwoRounds(ctx, yl, yr, 2, 3);
    yl, yr := TwoRounds(ctx, yl, yr, 4, 5);
    yl, yr := TwoRounds(ctx, yl, yr, 6, 7);
    yl, yr := TwoRounds(ctx, yl, yr, 8, 9);
    yl, yr := TwoRounds(ctx, yl, yr, 10, 11);
    yl, yr := TwoRounds(ctx, yl, yr, 12, 13);
    yl, yr := TwoRounds(ctx, yl, yr, 14, 15);
    yl := Xor32(yl, ctx.p(16));
    yr := Xor32(yr, ctx.p(17));
    UpIs(ctx, src);
    dst := BePairBytes(Pair(yr, yl));
  }

  /** bf_decrypt */
  method DecryptBlock(ctx: Ctx, src: seq<bv8>) returns (dst: seq<bv8>)
    requires |src| == 8
    ensures dst == BePairBytes(Decipher(ctx, BePair(src)))
    ensures exists ps :: Decrypted(ctx, src, dst, ps)
  {
    hide *;
    var yl, yr := BeWord(src, 0), BeWord(src, 1);
    ghost var s := Pair(yl, yr);
    InWords(src);
    EncipherIs(ctx, s);
    DownZero(Back(ctx), s, 16);
    TwoDown(ctx, 16, s); TwoDown(ctx, 14, s); TwoDown(ctx, 12, s); TwoDown(ctx, 10, s);
    TwoDown(ctx, 8, s); TwoDown(ctx, 6, s); TwoDown(ctx, 4, s); TwoDown(ctx, 2, s);
    yl, yr := TwoRounds(ctx, yl, yr, 17, 16);
    yl, yr := TwoRounds(ctx, yl, yr, 15, 14);
    yl, yr := TwoRounds(ctx, yl, yr, 13, 12);
    yl, yr := TwoRounds(ctx, yl, yr, 11, 10);
    yl, yr := TwoRounds(ctx, yl, yr, 9, 8);
    yl, yr := TwoRounds(ctx, yl, yr, 7, 6);
    yl, yr := TwoRounds(ctx, yl, yr, 5, 4);
    yl, yr := TwoRounds(ctx, yl, yr, 3, 2);
    yl := Xor32(yl, ctx.p(1));
    yr := Xor32(yr, ctx.p(0));
    DownIs(ctx, src);
    dst := BePairBytes(Pair(yr, yl));
  }
}

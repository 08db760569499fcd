/**
 crypto/cast6.c: twelve quad-rounds, six forward and six reverse.  The functions F1, F2, F3 and
 the subkeys are arbitrary.
 */
module Cast6 {
  import opened Bits
  import opened Network

  /** F1, F2 and F3 as functions of a word, a rotation key and a masking key; Kr and Km by quad-round and index. */
  datatype Ctx = Ctx(f1: (bv32, bv8, bv32) -> bv32, f2: (bv32, bv8, bv32) -> bv32, f3: (bv32, bv8, bv32) -> bv32,
                     kr: (nat, nat) -> bv8, km: (nat, nat) -> bv32)

  /** Q: block[0], ..., block[3] are a, b, c, d. */
  function Q(ctx: Ctx, i: nat, s: Quad): Quad {
    var c := Xor32(s.c, ctx.f1(s.d, ctx.kr(i, 0), ctx.km(i, 0)));
    var b := Xor32(s.b, ctx.f2(c, ctx.kr(i, 1), ctx.km(i, 1)));
    var a := Xor32(s.a, ctx.f3(b, ctx.kr(i, 2), ctx.km(i, 2)));
    var d := Xor32(s.d, ctx.f1(a, ctx.kr(i, 3), ctx.km(i, 3)));
    Quad(a, b, c, d)
  }

  /** QBAR */
  function QBar(ctx: Ctx, i: nat, s: Quad): Quad {
    var d := Xor32(s.d, ctx.f1(s.a, ctx.kr(i, 3), ctx.km(i, 3)));
    var a := Xor32(s.a, ctx.f3(s.b, ctx.kr(i, 2), ctx.km(i, 2)));
    var b := Xor32(s.b, ctx.f2(s.c, ctx.kr(i, 1), ctx.km(i, 1)));
    var c := Xor32(s.c, ctx.f1(d, ctx.kr(i, 0), ctx.km(i, 0)));
    Quad(a, b, c, d)
  }

  lemma QBarUndoesQ(ctx: Ctx, i: nat, s: Quad)
    ensures QBar(ctx, i, Q(ctx, i, s)) == s
  {
    hide Xor32;
    var t := Q(ctx, i, s);
    Xor32Cancel(s.c, ctx.f1(s.d, ctx.kr(i, 0), ctx.km(i, 0)));
    Xor32Cancel(s.b, ctx.f2(t.c, ctx.kr(i, 1), ctx.km(i, 1)));
    Xor32Cancel(s.a, ctx.f3(t.b, ctx.kr(i, 2), ctx.km(i, 2)));
    Xor32Cancel(s.d, ctx.f1(t.a, ctx.kr(i, 3), ctx.km(i, 3)));
  }

  lemma QUndoesQBar(ctx: Ctx, i: nat, s: Quad)
    ensures Q(ctx, i, QBar(ctx, i, s)) == s
  {
    hide Xor32;
    var t := QBar(ctx, i, s);
    Xor32Cancel(s.c, ctx.f1(t.d, ctx.kr(i, 0), ctx.km(i, 0)));
    Xor32Cancel(s.b, ctx.f2(s.c, ctx.kr(i, 1), ctx.km(i, 1)));
    Xor32Cancel(s.a, ctx.f3(s.b, ctx.kr(i, 2), ctx.km(i, 2)));
    Xor32Cancel(s.d, ctx.f1(s.a, ctx.kr(i, 3), ctx.km(i, 3)));
  }

  /** Quad-round r uses subkeys number r - 1. */
  function Round(ctx: Ctx): (Quad, nat) -> Quad {
    (s: Quad, r: nat) => if r == 0 then s else if r <= 6 then Q(ctx, r - 1, s) else QBar(ctx, r - 1, s)
  }

  function Back(ctx: Ctx): (Quad, nat) -> Quad {
    (s: Quad, r: nat) => if r == 0 then s else if r <= 6 then QBar(ctx, r - 1, s) else Q(ctx, r - 1, s)
  }

  lemma BackUndoes(ctx: Ctx, n: nat)
    ensures Undoes(Back(ctx), Round(ctx), Plain(), n)
  {
    hide Q, QBar;
    forall s: Quad, r: nat | r > 0 ensures Back(ctx)(Round(ctx)(s, r), r) == s {
      QBarUndoesQ(ctx, r - 1, s);
      QUndoesQBar(ctx, r - 1, s);
    }
  }

  /** For all subkeys and F functions, decryption undoes encryption of every block. */
  lemma RoundTrip(ctx: Ctx, block: seq<bv8>)
    requires |block| == 16
    ensures var c := BeQuadBytes(Up(Round(ctx), BeQuad(block), 12));
            BeQuadBytes(Down(Back(ctx), BeQuad(c), 12, 12)) == block
  {
    hide Round, Back, BeQuad, BeQuadBytes;
    BackUndoes(ctx, 12);
    Mirror(Back(ctx), Round(ctx), Plain(), BeQuad(block), 12, 12);
    UpZero(Round(ctx), BeQuad(block));
    BeQuadTrip(Up(Round(ctx), BeQuad(block), 12), block);
  }

  /* ---- The quad-rounds in the operators of the language ---- */

  /** What Q does to the words of `s`, in the order of its four assignments. */
  ghost predicate Forward(ctx: Ctx, i: nat, s: Quad, t: Quad) {
    && XorIs(s.c, ctx.f1(s.d, ctx.kr(i, 0), ctx.km(i, 0)), t.c)
    && XorIs(s.b, ctx.f2(t.c, ctx.kr(i, 1), ctx.km(i, 1)), t.b)
    && XorIs(s.a, ctx.f3(t.b, ctx.kr(i, 2), ctx.km(i, 2)), t.a)
    && XorIs(s.d, ctx.f1(t.a, ctx.kr(i, 3), ctx.km(i, 3)), t.d)
  }

  /** What QBAR does to the words of `s`. */
  ghost predicate Reverse(ctx: Ctx, i: nat, s: Quad, t: Quad) {
    && XorIs(s.d, ctx.f1(s.a, ctx.kr(i, 3), ctx.km(i, 3)), t.d)
    && XorIs(s.a, ctx.f3(s.b, ctx.kr(i, 2), ctx.km(i, 2)), t.a)
    && XorIs(s.b, ctx.f2(s.c, ctx.kr(i, 1), ctx.km(i, 1)), t.b)
    && XorIs(s.c, ctx.f1(t.d, ctx.kr(i, 0), ctx.km(i, 0)), t.c)
  }

  /** The words before, between and after the quad-rounds of cast6_encrypt. */
  ghost predicate Encrypted(ctx: Ctx, input: seq<bv8>, out: seq<bv8>, qs: seq<Quad>)
    requires |input| == |out| == 16
  {
    && |qs| == 13 && BeQuadIs(input, qs[0]) && BeQuadIs(out, qs[12])
    && (forall r :: 0 < r <= 6 ==> Forward(ctx, r - 1, qs[r - 1], qs[r]))
    && (forall r :: 6 < r <= 12 ==> Reverse(ctx, r - 1, qs[r - 1], qs[r]))
  }

  /** The words before, between and after the quad-rounds of cast6_decrypt. */
  ghost predicate Decrypted(ctx: Ctx, input: seq<bv8>, out: seq<bv8>, qs: seq<Quad>)
    requires |input| == |out| == 16
  {
    && |qs| == 13 && BeQuadIs(input, qs[0]) && BeQuadIs(out, qs[12])
    && (forall r :: 0 < r <= 6 ==> Forward(ctx, 12 - r, qs[r - 1], qs[r]))
    && (forall r :: 6 < r <= 12 ==> Reverse(ctx, 12 - r, qs[r - 1], qs[r]))
  }

  lemma QIs(ctx: Ctx, i: nat, s: Quad)
    ensures Forward(ctx, i, s, Q(ctx, i, s))
  {
    hide Xor32, XorIs;
    var t := Q(ctx, i, s);
    Xored(s.c, ctx.f1(s.d, ctx.kr(i, 0), ctx.km(i, 0)));
    Xored(s.b, ctx.f2(t.c, ctx.kr(i, 1), ctx.km(i, 1)));
    Xored(s.a, ctx.f3(t.b, ctx.kr(i, 2), ctx.km(i, 2)));
    Xored(s.d, ctx.f1(t.a, ctx.kr(i, 3), ctx.km(i, 3)));
  }

  lemma QBarIs(ctx: Ctx, i: nat, s: Quad)
    ensures Reverse(ctx, i, s, QBar(ctx, i, s))
  {
    hide Xor32, XorIs;
    var t := QBar(ctx, i, s);
    Xored(s.d, ctx.f1(s.a, ctx.kr(i, 3), ctx.km(i, 3)));
    Xored(s.a, ctx.f3(s.b, ctx.kr(i, 2), ctx.km(i, 2)));
    Xored(s.b, ctx.f2(s.c, ctx.kr(i, 1), ctx.km(i, 1)));
    Xored(s.c, ctx.f1(t.d, ctx.kr(i, 0), ctx.km(i, 0)));
  }

  lemma UpIs(ctx: Ctx, input: seq<bv8>)
    requires |input| == 16
    ensures exists qs :: Encrypted(ctx, input, BeQuadBytes(Up(Round(ctx), BeQuad(input), 12)), qs)
  {
    hide BeQuad, BeQuadBytes, BeQuadIs, Q, QBar, Forward, Reverse, Up;
    var qs := StatesUp(Round(ctx), BeQuad(input), 12);
    BeQuadAre(input, qs[12]);
    forall r: nat | 0 < r <= 6 ensures Forward(ctx, r - 1, qs[r - 1], qs[r]) { QIs(ctx, r - 1, qs[r - 1]); }
    forall r: nat | 6 < r <= 12 ensures Reverse(ctx, r - 1, qs[r - 1], qs[r]) { QBarIs(ctx, r - 1, qs[r - 1]); }
    assert Encrypted(ctx, input, BeQuadBytes(qs[12]), qs);
  }

  lemma DownIs(ctx: Ctx, input: seq<bv8>)
    requires |input| == 16
    ensures exists qs :: Decrypted(ctx, input, BeQuadBytes(Down(Back(ctx), BeQuad(input), 12, 12)), qs)
  {
    hide BeQuad, BeQuadBytes, BeQuadIs, Q, QBar, Forward, Reverse, Down;
    var qs := StatesDown(Back(ctx), BeQuad(input), 12);
    BeQuadAre(input, qs[12]);
    forall r: nat | 0 < r <= 6 ensures Forward(ctx, 12 - r, qs[r - 1], qs[r]) { QIs(ctx, 12 - r, qs[r - 1]); }
    forall r: nat | 6 < r <= 12 ensures Reverse(ctx, 12 - r, qs[r - 1], qs[r]) { QBarIs(ctx, 12 - r, qs[r - 1]); }
    assert Decrypted(ctx, input, BeQuadBytes(qs[12]), qs);
  }

  /** cast6_encrypt */
  method EncryptBlock(ctx: Ctx, input: seq<bv8>) returns (out: seq<bv8>)
    requires |input| == 16
    ensures out == BeQuadBytes(Up(Round(ctx), BeQuad(input), 12))
    ensures exists qs :: Encrypted(ctx, input, out, qs)
  {
    hide Q, QBar, BeQuad, BeQuadBytes, BeQuadIs, Forward, Reverse;
    var s := BeQuad(input);
    s := Q(ctx, 0, s);
    s := Q(ctx, 1, s);
    s := Q(ctx, 2, s);
    s := Q(ctx, 3, s);
    s := Q(ctx, 4, s);
    s := Q(ctx, 5, s);
    s := QBar(ctx, 6, s);
    s := QBar(ctx, 7, s);
    s := QBar(ctx, 8, s);
    s := QBar(ctx, 9, s);
    s := QBar(ctx, 10, s);
    s := QBar(ctx, 11, s);
    UpIs(ctx, input);
    out := BeQuadBytes(s);
  }

  /** cast6_decrypt */
  method DecryptBlock(ctx: Ctx, input: seq<bv8>) returns (out: seq<bv8>)
    requires |input| == 16
    ensures out == BeQuadBytes(Down(Back(ctx), BeQuad(input), 12, 12))
    ensures exists qs :: Decrypted(ctx, input, out, qs)
  {
    hide Q, QBar, BeQuad, BeQuadBytes, BeQuadIs, Forward, Reverse;
    var s := BeQuad(input);
    s := Q(ctx, 11, s);
    s := Q(ctx, 10, s);
    s := Q(ctx, 9, s);
    s := Q(ctx, 8, s);
    s := Q(ctx, 7, s);
    s := Q(ctx, 6, s);
    s := QBar(ctx, 5, s);
    s := QBar(ctx, 4, s);
    s := QBar(ctx, 3, s);
    s := QBar(ctx, 2, s);
    s := QBar(ctx, 1, s);
    s := QBar(ctx, 0, s);
    DownIs(ctx, input);
    out := BeQuadBytes(s);
  }
}

/** Block cipher modes on plain byte strings: ECB and CBC of NIST SP 800-38A, sections 6.1 and 6.2. */
module Modes {
  import opened Machine
  import opened Bits

  datatype Mode = Ecb | CbcEncrypt | CbcDecrypt

  /** A function from blocks of b bytes to blocks of b bytes. */
  ghost predicate BlockFn(f: Bytes -> Bytes, b: nat) {
    forall x: Bytes :: |x| == b ==> |f(x)| == b
  }

  ghost predicate Undoes(g: Bytes -> Bytes, f: Bytes -> Bytes, b: nat) {
    forall x: Bytes :: |x| == b ==> g(f(x)) == x
  }

  function XorBlock(x: Bytes, y: Bytes): (z: Bytes)
    requires |x| == |y|
    ensures |z| == |x|
  {
    seq(|x|, i requires 0 <= i < |x| => Xor(x[i], y[i]))
  }

  /** z is x and y exclusive-ored byte by byte. */
  ghost predicate XorsTo(x: Bytes, y: Bytes, z: Bytes) {
    |x| == |y| == |z| && forall i :: 0 <= i < |x| ==> z[i] == x[i] ^ y[i]
  }

  lemma XorBlockIs(x: Bytes, y: Bytes)
    requires |x| == |y|
    ensures XorsTo(x, y, XorBlock(x, y))
  {}

  lemma XorBlockCancels(x: Bytes, y: Bytes)
    requires |x| == |y|
    ensures XorBlock(XorBlock(y, x), y) == x
  {
    forall i | 0 <= i < |x| ensures Xor(Xor(y[i], x[i]), y[i]) == x[i] {
      XorComm(y[i], x[i]);
      XorCancel(x[i], y[i]);
    }
  }

  /** One block: the output and the next chaining value. */
  function BlockStep(mode: Mode, f: Bytes -> Bytes, iv: Bytes, x: Bytes): (Bytes, Bytes)
    requires mode.Ecb? || |iv| == |x|
    requires mode.CbcDecrypt? ==> |f(x)| == |x|
  {
    match mode
    case Ecb => (f(x), iv)
    case CbcEncrypt => (f(XorBlock(iv, x)), f(XorBlock(iv, x)))
    case CbcDecrypt => (XorBlock(f(x), iv), x)
  }

  /** What a mode needs: a block function and, for CBC, a chaining value of block size. */
  ghost predicate Fits(mode: Mode, f: Bytes -> Bytes, b: nat, iv: Bytes) {
    b > 0 && BlockFn(f, b) && (mode.Ecb? || |iv| == b)
  }

  /** n is a whole number of blocks of b bytes. */
  predicate Whole(n: nat, b: nat) {
    n == 0 || (b > 0 && n >= b && Whole(n - b, b))
  }

  /** A whole message: the output and the chaining value left behind. */
  ghost function Run(mode: Mode, f: Bytes -> Bytes, b: nat, iv: Bytes, x: Bytes): (r: (Bytes, Bytes))
    requires Fits(mode, f, b, iv) && Whole(|x|, b)
    ensures |r.0| == |x| && Fits(mode, f, b, r.1)
    decreases |x|
  {
    if x == [] then ([], iv)
    else
      var (y, next) := BlockStep(mode, f, iv, x[..b]);
      var (rest, last) := Run(mode, f, b, next, x[b..]);
      (y + rest, last)
  }

  /** The test `nbytes % bsize` of the source. */
  lemma {:induction false} WholeIsMultiple(n: nat, b: nat)
    requires b > 0
    ensures Whole(n, b) <==> n % b == 0
  {
    if n >= b {
      WholeIsMultiple(n - b, b);
      Period(n - b, b);
    }
  }

  lemma Period(n: nat, b: nat)
    requires b > 0
    ensures (n + b) % b == n % b
  {
    var q, r := n / b, n % b;
    assert n + b == (q + 1) * b + r;
    var d := (n + b) / b - (q + 1);
    assert d * b == r - (n + b) % b;
    MulFar(d, b);
  }

  lemma MulFar(d: int, b: nat)
    ensures d == 0 || d * b >= b || d * b <= 0 - b
  {
    if d >= 1 { assert (d - 1) * b >= 0; } else if d <= -1 { assert (-d - 1) * b >= 0; }
  }

  lemma {:induction false} WholeSum(n: nat, m: nat, b: nat)
    requires Whole(n, b) && Whole(m, b)
    ensures Whole(n + m, b)
  {
    if n > 0 { WholeSum(n - b, m, b); }
  }

  lemma FitsIs(mode: Mode, f: Bytes -> Bytes, b: nat, iv: Bytes, blk: Bytes)
    requires Fits(mode, f, b, iv) && |blk| == b
    ensures b > 0 && (mode.Ecb? || |iv| == b) && |f(blk)| == b
    ensures var (y, next) := BlockStep(mode, f, iv, blk); |y| == b && Fits(mode, f, b, next)
  {}

  lemma RunStep(mode: Mode, f: Bytes -> Bytes, b: nat, iv: Bytes, blk: Bytes, x: Bytes)
    requires Fits(mode, f, b, iv) && |blk| == b && Whole(|x|, b)
    ensures Whole(|blk + x|, b)
    ensures var (y, next) := BlockStep(mode, f, iv, blk);
            Fits(mode, f, b, next) &&
            var (rest, last) := Run(mode, f, b, next, x);
            Run(mode, f, b, iv, blk + x) == (y + rest, last)
  {
    assert (blk + x)[..b] == blk && (blk + x)[b..] == x;
  }

  lemma FirstBlock(x: Bytes, b: nat)
    requires Whole(|x|, b) && x != []
    ensures |x| >= b > 0 && Whole(|x[b..]|, b) && x == x[..b] + x[b..]
  {}

  /** Two messages one after the other, the second with the chaining value the first left behind,
      give what their concatenation gives. */
  lemma {:induction false} RunConcat(mode: Mode, f: Bytes -> Bytes, b: nat, iv: Bytes, x: Bytes, y: Bytes)
    requires Fits(mode, f, b, iv) && Whole(|x|, b) && Whole(|y|, b)
    ensures Whole(|x + y|, b)
    ensures var (u, mid) := Run(mode, f, b, iv, x);
            var (v, last) := Run(mode, f, b, mid, y);
            Run(mode, f, b, iv, x + y) == (u + v, last)
    decreases |x|
  {
    hide *;
    WholeSum(|x|, |y|, b);
    if x == [] {
      assert x + y == y;
      RunNothing(mode, f, b, iv);
      var v := Run(mode, f, b, iv, y).0;
      assert [] + v == v;
    } else {
      FirstBlock(x, b);
      var blk, x1 := x[..b], x[b..];
      FitsIs(mode, f, b, iv, blk);
      assert x + y == blk + (x1 + y);
      RunStep(mode, f, b, iv, blk, x1);
      var (z, next) := BlockStep(mode, f, iv, blk);
      WholeSum(|x1|, |y|, b);
      RunStep(mode, f, b, iv, blk, x1 + y);
      RunConcat(mode, f, b, next, x1, y);
      var (u, mid) := Run(mode, f, b, next, x1);
      assert z + u + Run(mode, f, b, mid, y).0 == z + (u + Run(mode, f, b, mid, y).0);
    }
  }

  /** One more block at the end. */
  lemma RunBlock(mode: Mode, f: Bytes -> Bytes, b: nat, iv: Bytes, x: Bytes, blk: Bytes)
    requires Fits(mode, f, b, iv) && Whole(|x|, b) && |blk| == b
    ensures Whole(|x + blk|, b)
    ensures var (u, mid) := Run(mode, f, b, iv, x);
            var (v, last) := BlockStep(mode, f, mid, blk);
            Run(mode, f, b, iv, x + blk) == (u + v, last)
  {
    hide Run, Fits, BlockStep;
    var (u, mid) := Run(mode, f, b, iv, x);
    FitsIs(mode, f, b, mid, blk);
    RunStep(mode, f, b, mid, blk, []);
    var (v, last) := BlockStep(mode, f, mid, blk);
    RunNothing(mode, f, b, last);
    assert blk + [] == blk && v + [] == v;
    RunConcat(mode, f, b, iv, x, blk);
  }

  lemma RunNothing(mode: Mode, f: Bytes -> Bytes, b: nat, iv: Bytes)
    requires Fits(mode, f, b, iv)
    ensures Run(mode, f, b, iv, []) == ([], iv)
  {}

  /** Decrypting from the same chaining value undoes encryption of every message, and both sides
      are left with the same chaining value. */
  lemma {:induction false} CbcRoundTrip(f: Bytes -> Bytes, g: Bytes -> Bytes, b: nat, iv: Bytes, x: Bytes)
    requires Fits(CbcEncrypt, f, b, iv) && Fits(CbcDecrypt, g, b, iv) && Undoes(g, f, b) && Whole(|x|, b)
    ensures var (c, last) := Run(CbcEncrypt, f, b, iv, x);
            Run(CbcDecrypt, g, b, iv, c) == (x, last)
    decreases |x|
  {
    if x != [] {
      hide Run, Undoes;
      var blk, x1 := x[..b], x[b..];
      assert x == blk + x1;
      RunStep(CbcEncrypt, f, b, iv, blk, x1);
      CbcBlockTrip(f, g, b, iv, blk);
      var y := BlockStep(CbcEncrypt, f, iv, blk).0;
      CbcRoundTrip(f, g, b, y, x1);
      RunStep(CbcDecrypt, g, b, iv, y, Run(CbcEncrypt, f, b, y, x1).0);
    }
  }

  lemma CbcBlockTrip(f: Bytes -> Bytes, g: Bytes -> Bytes, b: nat, iv: Bytes, blk: Bytes)
    requires Fits(CbcEncrypt, f, b, iv) && Fits(CbcDecrypt, g, b, iv) && Undoes(g, f, b) && |blk| == b
    ensures var y := f(XorBlock(iv, blk));
            BlockStep(CbcEncrypt, f, iv, blk) == (y, y) && |y| == b && BlockStep(CbcDecrypt, g, iv, y) == (blk, y)
  {
    XorBlockCancels(blk, iv);
  }

  lemma {:induction false} EcbRoundTrip(f: Bytes -> Bytes, g: Bytes -> Bytes, b: nat, iv: Bytes, x: Bytes)
    requires Fits(Ecb, f, b, iv) && Fits(Ecb, g, b, iv) && Undoes(g, f, b) && Whole(|x|, b)
    ensures Run(Ecb, g, b, iv, Run(Ecb, f, b, iv, x).0).0 == x
    decreases |x|
  {
    if x != [] {
      hide Run;
      var blk, x1 := x[..b], x[b..];
      assert x == blk + x1;
      RunStep(Ecb, f, b, iv, blk, x1);
      EcbRoundTrip(f, g, b, iv, x1);
      RunStep(Ecb, g, b, iv, f(blk), Run(Ecb, f, b, iv, x1).0);
    }
  }

  /** The chaining value left behind is the last ciphertext block. */
  lemma {:induction false} ChainValueIsLast(f: Bytes -> Bytes, b: nat, iv: Bytes, x: Bytes)
    requires Fits(CbcEncrypt, f, b, iv) && Whole(|x|, b) && x != []
    ensures |x| >= b && var (c, last) := Run(CbcEncrypt, f, b, iv, x); last == c[|x| - b..]
    decreases |x|
  {
    FirstBlock(x, b);
    hide *;
    var blk, x1 := x[..b], x[b..];
    CbcBlockIs(f, b, iv, blk);
    RunStep(CbcEncrypt, f, b, iv, blk, x1);
    var y := f(XorBlock(iv, blk));
    if x1 == [] {
      RunNothing(CbcEncrypt, f, b, y);
      assert (y + [])[0..] == y;
    } else {
      ChainValueIsLast(f, b, y, x1);
      DropPrefix(y, Run(CbcEncrypt, f, b, y, x1).0, |x1| - b);
    }
  }

  lemma DropPrefix(y: Bytes, rest: Bytes, n: nat)
    requires n <= |rest|
    ensures (y + rest)[|y| + n..] == rest[n..]
  {}

  /** Section 6.2 of SP 800-38A: each ciphertext block is the cipher of the plaintext block added to
      the ciphertext block before it, the first one to the IV. */
  lemma CbcChains(f: Bytes -> Bytes, b: nat, iv: Bytes, pre: Bytes, blk: Bytes, post: Bytes)
    requires Fits(CbcEncrypt, f, b, iv) && Whole(|pre|, b) && |blk| == b && Whole(|post|, b)
    ensures Whole(|pre + (blk + post)|, b) && (pre == [] || |pre| >= b) && |iv| == b
    ensures var c := Run(CbcEncrypt, f, b, iv, pre + (blk + post)).0;
            var before := if pre == [] then iv else c[|pre| - b..|pre|];
            exists z :: XorsTo(before, blk, z) && c[|pre|..|pre| + b] == f(z)
  {
    hide *;
    var (u, mid) := Run(CbcEncrypt, f, b, iv, pre);
    CbcBlockIs(f, b, iv, blk);
    CbcBlockIs(f, b, mid, blk);
    RunStep(CbcEncrypt, f, b, mid, blk, post);
    RunConcat(CbcEncrypt, f, b, iv, pre, blk + post);
    var y := f(XorBlock(mid, blk));
    var rest := Run(CbcEncrypt, f, b, y, post).0;
    if pre == [] { RunNothing(CbcEncrypt, f, b, iv); } else { ChainValueIsLast(f, b, iv, pre); }
    Middle(u, y, rest, b);
    XorBlockIs(mid, blk);
  }

  /** Section 6.2 for decryption: each plaintext block is the inverse cipher of the ciphertext block added to
      the ciphertext block before it, the first one to the IV; the last ciphertext block is left as the IV. */
  lemma CbcUnchains(g: Bytes -> Bytes, b: nat, iv: Bytes, pre: Bytes, blk: Bytes, post: Bytes)
    requires Fits(CbcDecrypt, g, b, iv) && Whole(|pre|, b) && |blk| == b && Whole(|post|, b)
    ensures Whole(|pre + (blk + post)|, b) && (pre == [] || |pre| >= b) && |iv| == b
    ensures var (p, last) := Run(CbcDecrypt, g, b, iv, pre + (blk + post));
            && XorsTo(g(blk), if pre == [] then iv else pre[|pre| - b..], p[|pre|..|pre| + b])
            && (post == [] ==> last == blk)
  {
    hide *;
    var (u, mid) := Run(CbcDecrypt, g, b, iv, pre);
    UncbcBlockIs(g, b, iv, blk);
    UncbcBlockIs(g, b, mid, blk);
    RunStep(CbcDecrypt, g, b, mid, blk, post);
    RunConcat(CbcDecrypt, g, b, iv, pre, blk + post);
    if pre == [] { RunNothing(CbcDecrypt, g, b, iv); } else { LastIsKept(g, b, iv, pre); }
    if post == [] { RunNothing(CbcDecrypt, g, b, blk); }
    Middle(u, XorBlock(g(blk), mid), Run(CbcDecrypt, g, b, blk, post).0, b);
    XorBlockIs(g(blk), mid);
  }

  lemma UncbcBlockIs(g: Bytes -> Bytes, b: nat, iv: Bytes, blk: Bytes)
    requires Fits(CbcDecrypt, g, b, iv) && |blk| == b
    ensures b > 0 && |iv| == b && |g(blk)| == b && Fits(CbcDecrypt, g, b, blk)
    ensures BlockStep(CbcDecrypt, g, iv, blk) == (XorBlock(g(blk), iv), blk)
  {}

  lemma {:induction false} LastIsKept(g: Bytes -> Bytes, b: nat, iv: Bytes, x: Bytes)
    requires Fits(CbcDecrypt, g, b, iv) && Whole(|x|, b) && x != []
    ensures |x| >= b && Run(CbcDecrypt, g, b, iv, x).1 == x[|x| - b..]
    decreases |x|
  {
    FirstBlock(x, b);
    hide *;
    var blk, x1 := x[..b], x[b..];
    UncbcBlockIs(g, b, iv, blk);
    RunStep(CbcDecrypt, g, b, iv, blk, x1);
    if x1 == [] {
      RunNothing(CbcDecrypt, g, b, blk);
      assert x == blk;
    } else {
      LastIsKept(g, b, blk, x1);
      DropPrefix(blk, x1, |x1| - b);
    }
  }

  /** Section 6.1 of SP 800-38A: each block by itself, and the IV is not touched. */
  lemma EcbBlocks(f: Bytes -> Bytes, b: nat, iv: Bytes, pre: Bytes, blk: Bytes, post: Bytes)
    requires Fits(Ecb, f, b, iv) && Whole(|pre|, b) && |blk| == b && Whole(|post|, b)
    ensures Whole(|pre + (blk + post)|, b)
    ensures var (c, last) := Run(Ecb, f, b, iv, pre + (blk + post)); c[|pre|..|pre| + b] == f(blk) && last == iv
  {
    hide *;
    EcbBlockIs(f, b, iv, blk);
    var u := Run(Ecb, f, b, iv, pre).0;
    EcbKeepsIv(f, b, iv, pre);
    EcbKeepsIv(f, b, iv, post);
    RunStep(Ecb, f, b, iv, blk, post);
    RunConcat(Ecb, f, b, iv, pre, blk + post);
    Middle(u, f(blk), Run(Ecb, f, b, iv, post).0, b);
  }

  lemma EcbBlockIs(f: Bytes -> Bytes, b: nat, iv: Bytes, blk: Bytes)
    requires Fits(Ecb, f, b, iv) && |blk| == b
    ensures b > 0 && |f(blk)| == b && BlockStep(Ecb, f, iv, blk) == (f(blk), iv)
  {}

  lemma {:induction false} EcbKeepsIv(f: Bytes -> Bytes, b: nat, iv: Bytes, x: Bytes)
    requires Fits(Ecb, f, b, iv) && Whole(|x|, b)
    ensures Run(Ecb, f, b, iv, x).1 == iv
    decreases |x|
  {
    if x != [] {
      FirstBlock(x, b);
      hide *;
      EcbBlockIs(f, b, iv, x[..b]);
      RunStep(Ecb, f, b, iv, x[..b], x[b..]);
      EcbKeepsIv(f, b, iv, x[b..]);
    } else {
      RunNothing(Ecb, f, b, iv);
    }
  }

  lemma Middle(u: Bytes, y: Bytes, rest: Bytes, b: nat)
    requires |y| == b
    ensures (u + (y + rest))[|u|..|u| + b] == y
    ensures |u| >= b ==> (u + (y + rest))[|u| - b..|u|] == u[|u| - b..]
  {}

  lemma WholeSteps(p: nat, b: nat)
    requires Whole(p, b)
    ensures p == 0 || (p >= b > 0 && Whole(p - b, b) && (p == b || p - b >= b))
  {}

  lemma CbcBlockIs(f: Bytes -> Bytes, b: nat, iv: Bytes, blk: Bytes)
    requires Fits(CbcEncrypt, f, b, iv) && |blk| == b
    ensures b > 0 && |iv| == b
    ensures var y := f(XorBlock(iv, blk));
            |y| == b && BlockStep(CbcEncrypt, f, iv, blk) == (y, y) && Fits(CbcEncrypt, f, b, y)
  {}
}

/**
 crypto/cipher.c: what crypt computes when source and destination of a block are the same bytes but
 scatterwalk_samebuf does not see it.  Decryption then writes the plaintext over the ciphertext
 before it copies the ciphertext into the chaining value.
 */
module InPlace {
  import opened Machine
  import opened Memory
  import opened Modes
  import opened ScatterWalk
  import Bits

  /** One block of crypt: an overwritten block leaves the plaintext as the next chaining value. */
  function StepWith(mode: Mode, f: Bytes -> Bytes, iv: Bytes, x: Bytes, lost: bool): (Bytes, Bytes)
    requires mode.Ecb? || |iv| == |x|
    requires mode.CbcDecrypt? ==> |f(x)| == |x|
  {
    var (y, next) := BlockStep(mode, f, iv, x);
    (y, if lost && mode.CbcDecrypt? then y else next)
  }

  lemma StepWithFits(mode: Mode, f: Bytes -> Bytes, b: nat, iv: Bytes, blk: Bytes, lost: bool)
    requires Fits(mode, f, b, iv) && |blk| == b
    ensures b > 0 && (mode.Ecb? || |iv| == b) && |f(blk)| == b
    ensures var (y, next) := StepWith(mode, f, iv, blk, lost); |y| == b && Fits(mode, f, b, next)
  {}

  /** The number of whole blocks in n bytes. */
  function Blocks(n: nat, b: nat): nat {
    if b == 0 || n < b then 0 else 1 + Blocks(n - b, b)
  }

  /** A whole message, some blocks of which are overwritten. */
  ghost function RunWith(mode: Mode, f: Bytes -> Bytes, b: nat, iv: Bytes, x: Bytes,
                         lost: nat -> bool): (r: (Bytes, Bytes))
    requires Fits(mode, f, b, iv) && Whole(|x|, b)
    ensures |r.0| == |x| && Fits(mode, f, b, r.1)
    decreases |x|
  {
    if x == [] then ([], iv)
    else
      var n := |x| - b;
      var (u, mid) := RunWith(mode, f, b, iv, x[..n], lost);
      var (v, last) := StepWith(mode, f, mid, x[n..], lost(Blocks(n, b)));
      (u + v, last)
  }

  lemma RunWithNothing(mode: Mode, f: Bytes -> Bytes, b: nat, iv: Bytes, lost: nat -> bool)
    requires Fits(mode, f, b, iv)
    ensures RunWith(mode, f, b, iv, [], lost) == ([], iv)
  {}

  lemma RunWithBlock(mode: Mode, f: Bytes -> Bytes, b: nat, iv: Bytes, x: Bytes, blk: Bytes, lost: nat -> bool)
    requires Fits(mode, f, b, iv) && Whole(|x|, b) && |blk| == b
    ensures Whole(|x + blk|, b) && Blocks(|x + blk|, b) == Blocks(|x|, b) + 1
    ensures var (u, mid) := RunWith(mode, f, b, iv, x, lost);
            var (v, last) := StepWith(mode, f, mid, blk, lost(Blocks(|x|, b)));
            RunWith(mode, f, b, iv, x + blk, lost) == (u + v, last)
  {
    assert (x + blk)[..|x|] == x && (x + blk)[|x|..] == blk;
  }

  lemma LastBlock(x: Bytes, b: nat)
    requires Whole(|x|, b) && x != []
    ensures |x| >= b > 0 && Whole(|x| - b, b) && x == x[..|x| - b] + x[|x| - b..]
    ensures Blocks(|x|, b) == Blocks(|x| - b, b) + 1
  {}

  /* ---- When the result is still the mode's ---- */

  /** Every overwritten block of x is its own plaintext. */
  ghost predicate Harmless(b: nat, x: Bytes, y: Bytes, lost: nat -> bool)
    requires |x| == |y| && Whole(|x|, b)
    decreases |x|
  {
    x == [] ||
    var n := |x| - b;
    Harmless(b, x[..n], y[..n], lost) && (lost(Blocks(n, b)) ==> x[n..] == y[n..])
  }

  lemma HarmlessBlock(b: nat, x: Bytes, y: Bytes, blk: Bytes, z: Bytes, lost: nat -> bool)
    requires |x| == |y| && Whole(|x|, b) && |blk| == |z| == b > 0 && Whole(|x + blk|, b)
    ensures Harmless(b, x + blk, y + z, lost) <==> Harmless(b, x, y, lost) && (lost(Blocks(|x|, b)) ==> blk == z)
  {
    assert (x + blk)[..|x|] == x && (x + blk)[|x|..] == blk;
    assert (y + z)[..|y|] == y && (y + z)[|y|..] == z;
  }

  lemma XorInjective(x: Bytes, y: Bytes, z: Bytes)
    requires |x| == |y| == |z| && XorBlock(x, y) == XorBlock(x, z)
    ensures y == z
  {
    forall i | 0 <= i < |x| ensures y[i] == z[i] {
      assert XorBlock(x, y)[i] == XorBlock(x, z)[i];
      XorSame(x[i], y[i], z[i]);
    }
  }

  lemma XorSame(a: bv8, b: bv8, c: bv8)
    requires Bits.Xor(a, b) == Bits.Xor(a, c)
    ensures b == c
  {
    Bits.XorComm(a, b);
    Bits.XorComm(a, c);
    Bits.XorCancel(b, a);
    Bits.XorCancel(c, a);
  }

  lemma DecryptBlockIs(f: Bytes -> Bytes, b: nat, iv: Bytes, blk: Bytes)
    requires Fits(CbcDecrypt, f, b, iv) && |blk| == b
    ensures |iv| == |f(blk)| == b && BlockStep(CbcDecrypt, f, iv, blk) == (XorBlock(f(blk), iv), blk)
    ensures StepWith(CbcDecrypt, f, iv, blk, true) == (XorBlock(f(blk), iv), XorBlock(f(blk), iv))
    ensures StepWith(CbcDecrypt, f, iv, blk, false) == (XorBlock(f(blk), iv), blk)
  {}

  lemma SameLengths(u: Bytes, v: Bytes, u': Bytes, v': Bytes)
    requires |u| == |u'| && u + v == u' + v'
    ensures u == u' && v == v'
  {
    assert u == (u + v)[..|u|] && v == (u + v)[|u|..];
    assert u' == (u' + v')[..|u|] && v' == (u' + v')[|u|..];
  }

  /** CBC decryption with overwritten blocks gives plaintext and chaining value of the mode exactly
      if every overwritten block is its own plaintext. */
  lemma {:induction false} DecryptsIff(f: Bytes -> Bytes, b: nat, iv: Bytes, x: Bytes, lost: nat -> bool)
    requires Fits(CbcDecrypt, f, b, iv) && Whole(|x|, b)
    ensures RunWith(CbcDecrypt, f, b, iv, x, lost) == Run(CbcDecrypt, f, b, iv, x)
       <==> Harmless(b, x, Run(CbcDecrypt, f, b, iv, x).0, lost)
    decreases |x|
  {
    if x == [] {
      RunNothing(CbcDecrypt, f, b, iv);
    } else {
      LastBlock(x, b);
      hide *;
      var x', blk := x[..|x| - b], x[|x| - b..];
      DecryptsIff(f, b, iv, x', lost);
      var (u, mid) := RunWith(CbcDecrypt, f, b, iv, x', lost);
      var (u', mid') := Run(CbcDecrypt, f, b, iv, x');
      DecryptBlockIs(f, b, mid, blk);
      DecryptBlockIs(f, b, mid', blk);
      RunWithBlock(CbcDecrypt, f, b, iv, x', blk, lost);
      RunBlock(CbcDecrypt, f, b, iv, x', blk);
      var v, v' := XorBlock(f(blk), mid), XorBlock(f(blk), mid');
      HarmlessBlock(b, x', u', blk, v', lost);
      if u + v == u' + v' {
        SameLengths(u, v, u', v');
        XorInjective(f(blk), mid, mid');
      }
    }
  }

  /** ECB and CBC encryption do not depend on the in-place test at all. */
  lemma {:induction false} OthersDoNotCare(mode: Mode, f: Bytes -> Bytes, b: nat, iv: Bytes, x: Bytes,
                                           lost: nat -> bool)
    requires Fits(mode, f, b, iv) && Whole(|x|, b) && !mode.CbcDecrypt?
    ensures RunWith(mode, f, b, iv, x, lost) == Run(mode, f, b, iv, x)
    decreases |x|
  {
    if x == [] {
      RunNothing(mode, f, b, iv);
    } else {
      LastBlock(x, b);
      hide Run, RunWith, Fits, BlockStep;
      var x', blk := x[..|x| - b], x[|x| - b..];
      OthersDoNotCare(mode, f, b, iv, x', lost);
      FitsIs(mode, f, b, Run(mode, f, b, iv, x').1, blk);
      RunWithBlock(mode, f, b, iv, x', blk, lost);
      RunBlock(mode, f, b, iv, x', blk);
    }
  }

  lemma {:induction false} NoneLost(b: nat, x: Bytes, y: Bytes, lost: nat -> bool)
    requires |x| == |y| && Whole(|x|, b) && forall k: nat :: k < Blocks(|x|, b) ==> !lost(k)
    ensures Harmless(b, x, y, lost)
    decreases |x|
  {
    if x != [] {
      LastBlock(x, b);
      NoneLost(b, x[..|x| - b], y[..|x| - b], lost);
    }
  }

  /* ---- Which blocks of two scatterlists are overwritten ---- */

  /** Both blocks are processed where they are, at the same address, but scatterwalk_samebuf, which
      compares pages and offsets, says no. */
  predicate Unseen(p: Pos, q: Pos, b: nat) {
    InOnePlace(p, b) && InOnePlace(q, b) && p.Address() == q.Address() && !(p.page == q.page && p.offset == q.offset)
  }

  function Lost(src: seq<Seg>, dst: seq<Seg>, b: nat): nat -> bool
    requires src != [] && dst != []
  {
    (k: nat) => Unseen(BlockPos(src, b, k), BlockPos(dst, b, k), b)
  }

  /** No block of the first n bytes is overwritten unseen. */
  predicate Clear(src: seq<Seg>, dst: seq<Seg>, b: nat, n: nat)
    requires src != [] && dst != []
  {
    forall k: nat :: k < Blocks(n, b) ==> !Lost(src, dst, b)(k)
  }

  /** Fill of n equal bytes. */
  function Fill(n: nat, v: bv8): Bytes { seq(n, i => v) }

  lemma FillIs(n: nat, b: nat, v: bv8)
    requires b <= n
    ensures Fill(n - b, v) + Fill(b, v) == Fill(n, v)
  {}

  lemma XorFill(b: nat)
    ensures XorBlock(Fill(b, 1), Fill(b, 1)) == Fill(b, 0)
  {
    OneOne();
    var z := XorBlock(Fill(b, 1), Fill(b, 1));
    assert forall i :: 0 <= i < b ==> z[i] == Bits.Xor(1, 1);
  }

  lemma OneOne()
    ensures Bits.Xor(1 as bv8, 1) == 0
  {}

  function Same(x: Bytes): Bytes { x }

  lemma SameFits(b: nat, iv: Bytes)
    requires b > 0 && |iv| == b
    ensures Fits(CbcDecrypt, Same, b, iv)
  {}

  /** With the identity for a cipher, a string of ones decrypts from a block of ones to zeros. */
  lemma {:induction false} OnesToZeros(b: nat, n: nat)
    requires b > 0 && Whole(n, b)
    ensures |Fill(b, 1)| == b && Fits(CbcDecrypt, Same, b, Fill(b, 1))
    ensures |Fill(n, 1)| == n && Run(CbcDecrypt, Same, b, Fill(b, 1), Fill(n, 1)) == (Fill(n, 0), Fill(b, 1))
  {
    SameFits(b, Fill(b, 1));
    if n == 0 {
      assert Fill(0, 1) == [] && Fill(0, 0) == [];
      RunNothing(CbcDecrypt, Same, b, Fill(b, 1));
    } else {
      OnesToZeros(b, n - b);
      FillIs(n, b, 1);
      FillIs(n, b, 0);
      hide Run, Fits, BlockStep, Fill;
      DecryptBlockIs(Same, b, Fill(b, 1), Fill(b, 1));
      RunBlock(CbcDecrypt, Same, b, Fill(b, 1), Fill(n - b, 1), Fill(b, 1));
      XorFill(b);
    }
  }

  lemma {:induction false} LostHarms(b: nat, n: nat, lost: nat -> bool, k: nat)
    requires b > 0 && Whole(n, b) && k < Blocks(n, b) && lost(k)
    ensures !Harmless(b, Fill(n, 1), Fill(n, 0), lost)
  {
    LastBlock(Fill(n, 1), b);
    FillIs(n, b, 1);
    FillIs(n, b, 0);
    HarmlessBlock(b, Fill(n - b, 1), Fill(n - b, 0), Fill(b, 1), Fill(b, 0), lost);
    if k == Blocks(n - b, b) {
      assert Fill(b, 1)[0] != Fill(b, 0)[0];
    } else {
      LostHarms(b, n - b, lost, k);
    }
  }

  /** For two scatterlists: CBC decryption is the mode's for every cipher, chaining value and contents
      exactly if no block is overwritten unseen. */
  lemma ClearIff(src: seq<Seg>, dst: seq<Seg>, b: nat, n: nat)
    requires src != [] && dst != [] && b > 0 && Whole(n, b)
    ensures Clear(src, dst, b, n) <==>
            forall f, iv, x: Bytes | Fits(CbcDecrypt, f, b, iv) && |x| == n ::
              RunWith(CbcDecrypt, f, b, iv, x, Lost(src, dst, b)) == Run(CbcDecrypt, f, b, iv, x)
  {
    hide Run, RunWith, Harmless, Blocks, Unseen, Fits, Fill, Whole;
    var lost := Lost(src, dst, b);
    if Clear(src, dst, b, n) {
      forall f, iv, x: Bytes | Fits(CbcDecrypt, f, b, iv) && |x| == n
        ensures RunWith(CbcDecrypt, f, b, iv, x, lost) == Run(CbcDecrypt, f, b, iv, x)
      {
        DecryptsIff(f, b, iv, x, lost);
        NoneLost(b, x, Run(CbcDecrypt, f, b, iv, x).0, lost);
      }
    } else {
      var k: nat :| k < Blocks(n, b) && lost(k);
      OnesToZeros(b, n);
      LostHarms(b, n, lost, k);
      DecryptsIff(Same, b, Fill(b, 1), Fill(n, 1), lost);
    }
  }

  /** Identical lists move in step: whatever their offsets, nothing is overwritten unseen. */
  lemma ClearSame(sgl: seq<Seg>, b: nat, n: nat)
    requires sgl != []
    ensures Clear(sgl, sgl, b, n)
  {}

  /** With offsets inside pages, equal addresses mean equal pages and offsets. */
  lemma SameAddress(p: nat, o: nat, q: nat, r: nat)
    requires PAGE * p + o == PAGE * q + r && o < PAGE && r < PAGE
    ensures p == q && o == r
  {}

  lemma ClearCanonical(src: seq<Seg>, dst: seq<Seg>, b: nat, n: nat)
    requires src != [] && dst != [] && b > 0 && Canonical(src) && Canonical(dst)
    ensures Clear(src, dst, b, n)
  {
    forall k: nat | k < Blocks(n, b) ensures !Lost(src, dst, b)(k) {
      var p, q := BlockPos(src, b, k), BlockPos(dst, b, k);
      if Unseen(p, q, b) { SameAddress(p.page, p.offset, q.page, q.offset); }
    }
  }

  /** Before block k the walk has visited exactly the first k blocks. */
  lemma {:induction false} BlockRest(sgl: seq<Seg>, b: nat, c: nat)
    requires sgl != [] && b > 0 && Whole(c, b) && (c == 0 || c < |Visited(sgl)|)
    ensures RestOf(sgl, BlockPos(sgl, b, Blocks(c, b))) == Visited(sgl)[c..]
  {
    if c == 0 {
      StartRest(sgl, 0);
      assert sgl[0..] == sgl;
    } else {
      BlockRest(sgl, b, c - b);
      DropTwice(Visited(sgl), c - b, c);
    }
  }

  lemma {:induction false} BlockStart(n: nat, b: nat, k: nat) returns (c: nat)
    requires b > 0 && Whole(n, b) && k < Blocks(n, b)
    ensures Whole(c, b) && Blocks(c, b) == k && c + b <= n
  {
    if k == Blocks(n - b, b) { c := n - b; } else { c := BlockStart(n - b, b, k); }
  }

  /** Blocks processed in the same place are blocks of the same bytes. */
  lemma SameByte(src: seq<Seg>, dst: seq<Seg>, b: nat, c: nat)
    requires src != [] && dst != [] && b > 0 && Whole(c, b) && c < |Visited(src)| && c < |Visited(dst)|
    requires Unseen(BlockPos(src, b, Blocks(c, b)), BlockPos(dst, b, Blocks(c, b)), b)
    ensures Visited(src)[c] == Visited(dst)[c]
  {
    var p, q := BlockPos(src, b, Blocks(c, b)), BlockPos(dst, b, Blocks(c, b));
    BlockRest(src, b, c);
    BlockRest(dst, b, c);
    RestStarts(src, p, b);
    RestStarts(dst, q, b);
    assert RestOf(src, p)[..b][0] == RestOf(dst, q)[..b][0];
  }

  lemma ClearDisjoint(src: seq<Seg>, dst: seq<Seg>, b: nat, n: nat)
    requires src != [] && dst != [] && b > 0 && Whole(n, b) && n <= |Visited(src)| && n <= |Visited(dst)|
    requires Disjoint(Visited(src)[..n], Visited(dst)[..n])
    ensures Clear(src, dst, b, n)
  {
    forall k: nat | k < Blocks(n, b) ensures !Lost(src, dst, b)(k) {
      var c := BlockStart(n, b, k);
      assert Visited(src)[..n][c] != Visited(dst)[..n][c];
      if Lost(src, dst, b)(k) { SameByte(src, dst, b, c); }
    }
  }

  /** Bytes that two lists name differently: as page 3 from offset PAGE + x on and as page 4 from
      offset x on.  The lists visit the same bytes, and the first block is overwritten unseen. */
  lemma NamedTwice(x: nat, b: nat, n: nat)
    requires 0 < b <= n && x + n <= PAGE
    ensures var src, dst := [Seg(3, PAGE + x, n)], [Seg(4, x, n)];
            Visited(src) == Visited(dst) && Lost(src, dst, b)(0) && !Clear(src, dst, b, n)
  {
    var src, dst := [Seg(3, PAGE + x, n)], [Seg(4, x, n)];
    assert Visited(src) == SegVisited(src[0]) + [] && Visited(dst) == SegVisited(dst[0]) + [];
    SegVisitedIs(src[0]);
    SegVisitedIs(dst[0]);
  }

  /** A first block of ones that is overwritten unseen leaves zeros as the chaining value. */
  lemma FirstLost(b: nat, lost: nat -> bool)
    requires b > 0 && lost(0)
    ensures Fits(CbcDecrypt, Same, b, Fill(b, 1)) && Whole(b, b)
    ensures RunWith(CbcDecrypt, Same, b, Fill(b, 1), Fill(b, 1), lost) == (Fill(b, 0), Fill(b, 0))
  {
    SameFits(b, Fill(b, 1));
    XorFill(b);
    assert [] + Fill(b, 1) == Fill(b, 1) && [] + Fill(b, 0) == Fill(b, 0);
    hide Run, RunWith, Fits, BlockStep, StepWith, Fill, XorBlock;
    RunWithNothing(CbcDecrypt, Same, b, Fill(b, 1), lost);
    DecryptBlockIs(Same, b, Fill(b, 1), Fill(b, 1));
    RunWithBlock(CbcDecrypt, Same, b, Fill(b, 1), [], Fill(b, 1), lost);
  }

  /** That spoils the plaintext of the second block: ones, which should decrypt to zeros, come out as ones. */
  lemma WrongPlaintext(b: nat, lost: nat -> bool)
    requires b > 0 && lost(0)
    ensures Fits(CbcDecrypt, Same, b, Fill(b, 1)) && Whole(2 * b, b)
    ensures Run(CbcDecrypt, Same, b, Fill(b, 1), Fill(2 * b, 1)).0 == Fill(2 * b, 0)
    ensures RunWith(CbcDecrypt, Same, b, Fill(b, 1), Fill(2 * b, 1), lost).0 == Fill(b, 0) + Fill(b, 1)
    ensures Fill(b, 0) + Fill(b, 1) != Fill(2 * b, 0)
  {
    FillIs(2 * b, b, 1);
    assert (Fill(b, 0) + Fill(b, 1))[b] != Fill(2 * b, 0)[b];
    hide Run, RunWith, Fits, BlockStep, StepWith, Fill, XorBlock;
    FirstLost(b, lost);
    WholeSum(b, b, b);
    OnesToZeros(b, 2 * b);
    XorZero(b);
    DecryptBlockIs(Same, b, Fill(b, 0), Fill(b, 1));
    RunWithBlock(CbcDecrypt, Same, b, Fill(b, 1), Fill(b, 1), Fill(b, 1), lost);
  }

  lemma XorZero(b: nat)
    ensures XorBlock(Fill(b, 1), Fill(b, 0)) == Fill(b, 1)
  {
    OneZero();
    var z := XorBlock(Fill(b, 1), Fill(b, 0));
    assert forall i :: 0 <= i < b ==> z[i] == Bits.Xor(1, 0);
  }

  lemma OneZero()
    ensures Bits.Xor(1 as bv8, 0) == 1
  {}
}

/** crypto/cipher.c: block ciphers in ECB and CBC mode over scatterlists. */
module Cipher {
  import opened Machine
  import opened Bits
  import opened Memory
  import opened Modes
  import opened ScatterWalk
  import opened ScatterCopy
  import opened InPlace

  /* ---- One block ---- */

  /** cit_xor_block(iv, src): xor_64 or xor_128, byte by byte. */
  method XorIv(iv: array<bv8>, mem: array<bv8>, src: nat)
    requires src + iv.Length <= mem.Length && iv != mem
    modifies iv
    ensures iv[..] == XorBlock(old(iv[..]), mem[src..src + iv.Length])
  {
    ghost var was := iv[..];
    var j := 0;
    while j < iv.Length
      invariant 0 <= j <= iv.Length
      invariant forall t :: 0 <= t < j ==> iv[t] == Xor(was[t], mem[src + t])
      invariant forall t :: j <= t < iv.Length ==> iv[t] == was[t]
    {
      iv[j] := Xor(iv[j], mem[src + j]);
      j := j + 1;
    }
  }

  /** memcpy(iv, from, blocksize) */
  method SetIv(iv: array<bv8>, mem: array<bv8>, from: nat)
    requires from + iv.Length <= mem.Length && iv != mem
    modifies iv
    ensures iv[..] == mem[from..from + iv.Length]
  {
    var j := 0;
    while j < iv.Length
      invariant 0 <= j <= iv.Length
      invariant forall t :: 0 <= t < j ==> iv[t] == mem[from + t]
    {
      iv[j] := mem[from + j];
      j := j + 1;
    }
  }

  /** ecb_process and cbc_process.  Decryption in place goes through a buffer, since the ciphertext
      is needed as the next chaining value; without a chaining value CBC does nothing. */
  method Process(mem: array<bv8>, dst: nat, src: nat, mode: Mode, f: Bytes -> Bytes, b: nat, iv: array?<bv8>,
                 inPlace: bool)
    requires b > 0 && BlockFn(f, b) && iv != mem && (iv == null || mode.Ecb? || iv.Length == b)
    requires dst + b <= mem.Length && src + b <= mem.Length
    requires dst == src || Disjoint(Span(dst, b), Span(src, b))
    requires inPlace ==> dst == src
    modifies mem, iv
    ensures mode.Ecb? ==> Wrote(old(mem[..]), mem[..], Span(dst, b), f(old(mem[src..src + b])))
    ensures mode.Ecb? && iv != null ==> iv[..] == old(iv[..])
    ensures !mode.Ecb? && iv == null ==> mem[..] == old(mem[..])
    ensures !mode.Ecb? && iv != null ==>
              var (y, next) := StepWith(mode, f, old(iv[..]), old(mem[src..src + b]), dst == src && !inPlace);
              Wrote(old(mem[..]), mem[..], Span(dst, b), y) && iv[..] == next
  {
    match mode {
      case Ecb =>
        StoreBlock(mem, dst, f(mem[src..src + b]));
      case CbcEncrypt =>
        if iv == null { return; }
        XorIv(iv, mem, src);
        StoreBlock(mem, dst, f(iv[..]));
        SpanWritten(old(mem[..]), mem[..], dst, b, f(iv[..]));
        SetIv(iv, mem, dst);
      case CbcDecrypt =>
        if iv == null { return; }
        if inPlace {
          var buf := f(mem[src..src + b]);
          buf := XorBlock(buf, iv[..]);
          SetIv(iv, mem, src);
          StoreBlock(mem, dst, buf);
        } else {
          DecryptDirectly(mem, dst, src, f, b, iv);
        }
    }
  }

  /** The decrypting branch of cbc_process without a buffer. */
  method DecryptDirectly(mem: array<bv8>, dst: nat, src: nat, f: Bytes -> Bytes, b: nat, iv: array<bv8>)
    requires iv.Length == b && iv != mem && dst + b <= mem.Length && src + b <= mem.Length
    requires |f(mem[src..src + b])| == b && (dst == src || Disjoint(Span(dst, b), Span(src, b)))
    modifies mem, iv
    ensures Wrote(old(mem[..]), mem[..], Span(dst, b), XorBlock(old(f(mem[src..src + b])), old(iv[..])))
    ensures iv[..] == if dst == src then XorBlock(old(f(mem[src..src + b])), old(iv[..])) else old(mem[src..src + b])
  {
    ghost var m := mem[..];
    ghost var y := f(mem[src..src + b]);
    StoreBlock(mem, dst, f(mem[src..src + b]));
    ghost var n := mem[..];
    SpanWritten(m, n, dst, b, y);
    var z := XorBlock(mem[dst..dst + b], iv[..]);
    StoreBlock(mem, dst, z);
    WroteOver(m, n, mem[..], Span(dst, b), y, z);
    if dst == src {
      SpanWritten(m, mem[..], dst, b, z);
    } else {
      LoadSpan(m, src, b);
      LoadSpan(mem[..], src, b);
      LoadElsewhere(m, mem[..], Span(dst, b), z, Span(src, b));
    }
    SetIv(iv, mem, src);
  }

  /* ---- Whole scatterlists ---- */

  /** What crypt expects of its caller: enough bytes on both sides; every destination byte once; a
      destination byte that is also a source byte is so at the same position; scratch blocks apart. */
  ghost predicate Layout(size: nat, ins: seq<nat>, outs: seq<nat>, b: nat, tmpSrc: nat, tmpDst: nat) {
    && |ins| == |outs| && Inside(ins, size) && Inside(outs, size) && Distinct(outs) && SamePlaces(ins, outs)
    && tmpSrc + b <= size && tmpDst + b <= size && Disjoint(Span(tmpSrc, b), Span(tmpDst, b))
    && Disjoint(Span(tmpSrc, b), ins) && Disjoint(Span(tmpSrc, b), outs)
    && Disjoint(Span(tmpDst, b), ins) && Disjoint(Span(tmpDst, b), outs)
  }

  ghost predicate SamePlaces(ins: seq<nat>, outs: seq<nat>) {
    forall s, t :: 0 <= s < |ins| && 0 <= t < |outs| && ins[s] == outs[t] ==> s == t
  }

  /** After c bytes: those bytes of the result are in place, and only they and the scratch blocks changed. */
  ghost predicate DoneUpTo(m: seq<bv8>, n: seq<bv8>, outs: seq<nat>, y: Bytes, b: nat, tmpSrc: nat, tmpDst: nat) {
    && |n| == |m| && |outs| == |y| && Inside(outs, |m|)
    && (forall t :: 0 <= t < |outs| ==> n[outs[t]] == y[t])
    && (forall x: nat :: x < |m| && x !in outs && x !in Span(tmpSrc, b) && x !in Span(tmpDst, b) ==> n[x] == m[x])
  }

  /** Bytes not yet processed are still there. */
  lemma StillThere(m: seq<bv8>, n: seq<bv8>, ins: seq<nat>, outs: seq<nat>, y: Bytes, b: nat, tmpSrc: nat, tmpDst: nat,
                   c: nat, d: nat)
    requires Layout(|m|, ins, outs, b, tmpSrc, tmpDst) && c <= d <= |ins|
    requires DoneUpTo(m, n, outs[..c], y, b, tmpSrc, tmpDst)
    ensures Inside(ins[c..d], |n|) && Load(n, ins[c..d]) == Load(m, ins)[c..d]
  {
    forall t | c <= t < d ensures n[ins[t]] == m[ins[t]] {
      assert ins[t] !in outs[..c] && ins[t] !in Span(tmpSrc, b) && ins[t] !in Span(tmpDst, b);
    }
  }

  /** What the three parts of an iteration do to memory: n0 to n1 fetches the block, n1 to n2 processes
      it, n2 to n3 puts the result in place. */
  ghost predicate Iteration(n0: seq<bv8>, n1: seq<bv8>, n2: seq<bv8>, n3: seq<bv8>, at: seq<nat>, blk: Bytes, z: Bytes,
                            b: nat, tmpSrc: nat, tmpDst: nat, dstP: nat, directIn: bool, directOut: bool) {
    && (if directIn then n1 == n0 else Wrote(n0, n1, Span(tmpSrc, b), blk))
    && Wrote(n1, n2, Span(dstP, b), z)
    && (if directOut then n3 == n2 && Span(dstP, b) == at else dstP == tmpDst && Wrote(n2, n3, at, z))
  }

  /** Addresses outside the scratch blocks and the destination block keep their bytes. */
  lemma ElsewhereKept(n0: seq<bv8>, n1: seq<bv8>, n2: seq<bv8>, n3: seq<bv8>, at: seq<nat>, blk: Bytes, z: Bytes,
                      b: nat, tmpSrc: nat, tmpDst: nat, dstP: nat, directIn: bool, directOut: bool, x: nat)
    requires Iteration(n0, n1, n2, n3, at, blk, z, b, tmpSrc, tmpDst, dstP, directIn, directOut)
    requires x < |n0| && x !in at && x !in Span(tmpSrc, b) && x !in Span(tmpDst, b)
    ensures |n3| == |n0| && n3[x] == n0[x]
  {}

  /** The destination block holds the result. */
  lemma ResultThere(n0: seq<bv8>, n1: seq<bv8>, n2: seq<bv8>, n3: seq<bv8>, at: seq<nat>, blk: Bytes, z: Bytes,
                    b: nat, tmpSrc: nat, tmpDst: nat, dstP: nat, directIn: bool, directOut: bool, t: nat)
    requires Iteration(n0, n1, n2, n3, at, blk, z, b, tmpSrc, tmpDst, dstP, directIn, directOut)
    requires t < |at| == |z|
    ensures |n3| == |n0| && at[t] < |n3| && n3[at[t]] == z[t]
  {}

  lemma BlockDone(m: seq<bv8>, n0: seq<bv8>, n1: seq<bv8>, n2: seq<bv8>, n3: seq<bv8>, ins: seq<nat>, outs: seq<nat>,
                  y: Bytes, z: Bytes, blk: Bytes, b: nat, tmpSrc: nat, tmpDst: nat, c: nat,
                  dstP: nat, directIn: bool, directOut: bool)
    requires Layout(|m|, ins, outs, b, tmpSrc, tmpDst) && c + b <= |ins| && |z| == b
    requires DoneUpTo(m, n0, outs[..c], y, b, tmpSrc, tmpDst)
    requires Iteration(n0, n1, n2, n3, outs[c..c + b], blk, z, b, tmpSrc, tmpDst, dstP, directIn, directOut)
    ensures DoneUpTo(m, n3, outs[..c + b], y + z, b, tmpSrc, tmpDst)
  {
    hide Iteration, SamePlaces, Inside;
    var at := outs[c..c + b];
    assert outs[..c + b] == outs[..c] + at;
    LayoutInside(|m|, ins, outs, b, tmpSrc, tmpDst, c + b);
    forall t: nat | t < c + b ensures |n3| == |n0| && outs[t] < |n3| && n3[outs[t]] == (y + z)[t] {
      assert outs[t] !in Span(tmpSrc, b) && outs[t] !in Span(tmpDst, b);
      if t < c {
        assert outs[t] == outs[..c][t] && outs[t] !in at;
        ElsewhereKept(n0, n1, n2, n3, at, blk, z, b, tmpSrc, tmpDst, dstP, directIn, directOut, outs[t]);
      } else {
        ResultThere(n0, n1, n2, n3, at, blk, z, b, tmpSrc, tmpDst, dstP, directIn, directOut, t - c);
      }
    }
    forall x: nat | x < |m| && x !in outs[..c + b] && x !in Span(tmpSrc, b) && x !in Span(tmpDst, b)
      ensures |n3| == |n0| && n3[x] == m[x]
    {
      assert x !in outs[..c] && x !in at;
      ElsewhereKept(n0, n1, n2, n3, at, blk, z, b, tmpSrc, tmpDst, dstP, directIn, directOut, x);
    }
    IterationSize(n0, n1, n2, n3, at, blk, z, b, tmpSrc, tmpDst, dstP, directIn, directOut);
  }

  lemma IterationSize(n0: seq<bv8>, n1: seq<bv8>, n2: seq<bv8>, n3: seq<bv8>, at: seq<nat>, blk: Bytes, z: Bytes,
                      b: nat, tmpSrc: nat, tmpDst: nat, dstP: nat, directIn: bool, directOut: bool)
    requires Iteration(n0, n1, n2, n3, at, blk, z, b, tmpSrc, tmpDst, dstP, directIn, directOut)
    ensures |n3| == |n0|
  {}

  lemma LayoutInside(size: nat, ins: seq<nat>, outs: seq<nat>, b: nat, tmpSrc: nat, tmpDst: nat, n: nat)
    requires Layout(size, ins, outs, b, tmpSrc, tmpDst) && n <= |outs|
    ensures Inside(outs[..n], size) && forall t: nat :: t < n ==> outs[t] < size
  {}

  lemma IterationIs(n0: seq<bv8>, n1: seq<bv8>, n2: seq<bv8>, n3: seq<bv8>, at: seq<nat>, blk: Bytes, z: Bytes,
                    b: nat, tmpSrc: nat, tmpDst: nat, dstP: nat, directIn: bool, directOut: bool)
    requires if directIn then n1 == n0 else Wrote(n0, n1, Span(tmpSrc, b), blk)
    requires Wrote(n1, n2, Span(dstP, b), z)
    requires if directOut then n3 == n2 && Span(dstP, b) == at else dstP == tmpDst && Wrote(n2, n3, at, z)
    ensures Iteration(n0, n1, n2, n3, at, blk, z, b, tmpSrc, tmpDst, dstP, directIn, directOut)
  {}

  /** A walk that still has to visit `at`, and possibly more. */
  ghost predicate Ahead(w: Walk, at: seq<nat>)
    reads w
  {
    w.Valid() && at <= w.Rest()
  }

  lemma AheadBlock(w: Walk, at: seq<nat>, c: nat, b: nat)
    requires c + b <= |at| && Ahead(w, at[c..])
    ensures b <= |w.Rest()| && w.Rest()[..b] == at[c..c + b] && at[c + b..] <= w.Rest()[b..]
    ensures w.lenThisPage >= b ==> Span(PAGE * w.page + w.offset, b) == at[c..c + b]
  {
    assert at[c..][..b] == at[c..c + b] && at[c..][b..] == at[c + b..];
    assert w.Rest()[..b] == at[c..][..b];
    if w.lenThisPage >= b { DirectList(w, b); }
  }

  /** Source and destination of a block: the same place, and then both direct, or apart. */
  lemma Apart(size: nat, ins: seq<nat>, outs: seq<nat>, b: nat, tmpSrc: nat, tmpDst: nat, c: nat,
              srcP: nat, dstP: nat, directIn: bool, directOut: bool)
    requires Layout(size, ins, outs, b, tmpSrc, tmpDst) && c + b <= |ins| && b > 0
    requires if directIn then Span(srcP, b) == ins[c..c + b] else srcP == tmpSrc
    requires if directOut then Span(dstP, b) == outs[c..c + b] else dstP == tmpDst
    ensures srcP + b <= size && dstP + b <= size
    ensures srcP == dstP ==> directIn && directOut && ins[c] == outs[c]
    ensures srcP != dstP ==> Disjoint(Span(dstP, b), Span(srcP, b))
  {
    if directIn { InsideSpan(srcP, b, size, ins, c); assert ins[c] == Span(srcP, b)[0]; }
    if directOut { InsideSpan(dstP, b, size, outs, c); assert outs[c] == Span(dstP, b)[0]; }
    if directIn && directOut {
      forall s, t | 0 <= s < b && 0 <= t < b && Span(dstP, b)[t] == Span(srcP, b)[s] ensures srcP == dstP {
        assert ins[c + s] == Span(srcP, b)[s] && outs[c + t] == Span(dstP, b)[t];
      }
    } else if directIn {
      forall s, t | 0 <= s < b && 0 <= t < b ensures Span(dstP, b)[t] != Span(srcP, b)[s] {
        assert ins[c + s] == Span(srcP, b)[s];
      }
    } else if directOut {
      forall s, t | 0 <= s < b && 0 <= t < b ensures Span(dstP, b)[t] != Span(srcP, b)[s] {
        assert outs[c + t] == Span(dstP, b)[t];
      }
    } else {
      assert Span(tmpSrc, b)[0] != Span(tmpDst, b)[0];
    }
  }

  /** Everything the copies and the cipher of one iteration rely on. */
  lemma Prepared(w: Walk, v: Walk, m: seq<bv8>, n: seq<bv8>, ins: seq<nat>, outs: seq<nat>, y: Bytes, b: nat,
                 tmpSrc: nat, tmpDst: nat, c: nat, srcP: nat, dstP: nat, directIn: bool, directOut: bool)
    requires Layout(|m|, ins, outs, b, tmpSrc, tmpDst) && 0 < b && c + b <= |ins|
    requires Ahead(w, ins[c..]) && Ahead(v, outs[c..]) && DoneUpTo(m, n, outs[..c], y, b, tmpSrc, tmpDst)
    requires directIn ==> b <= w.lenThisPage
    requires directOut ==> b <= v.lenThisPage
    requires srcP == if directIn then PAGE * w.page + w.offset else tmpSrc
    requires dstP == if directOut then PAGE * v.page + v.offset else tmpDst
    ensures w.Valid() && b <= |w.Rest()| && w.Rest()[..b] == ins[c..c + b] && ins[c + b..] <= w.Rest()[b..]
    ensures v.Valid() && b <= |v.Rest()| && v.Rest()[..b] == outs[c..c + b] && outs[c + b..] <= v.Rest()[b..]
    ensures srcP + b <= |m| == |n| && dstP + b <= |m| && Inside(ins[c..c + b], |m|) && Inside(outs[c..c + b], |m|)
    ensures if directIn then Span(srcP, b) == ins[c..c + b]
            else srcP == tmpSrc && Disjoint(Span(srcP, b), ins[c..c + b])
    ensures if directOut then Span(dstP, b) == outs[c..c + b]
            else dstP == tmpDst && Disjoint(Span(dstP, b), outs[c..c + b])
    ensures Distinct(outs[c..c + b]) && Load(n, ins[c..c + b]) == Load(m, ins)[c..c + b]
    ensures if dstP == srcP then directIn && directOut else Disjoint(Span(dstP, b), Span(srcP, b))
  {
    hide DoneUpTo;
    AheadBlock(w, ins, c, b);
    AheadBlock(v, outs, c, b);
    StillThere(m, n, ins, outs, y, b, tmpSrc, tmpDst, c, c + b);
    DistinctParts(outs, c, c + b);
    DisjointPart(Span(tmpSrc, b), ins, c, c + b);
    DisjointPart(Span(tmpDst, b), outs, c, c + b);
    Apart(|m|, ins, outs, b, tmpSrc, tmpDst, c, srcP, dstP, directIn, directOut);
    DoneSize(m, n, outs[..c], y, b, tmpSrc, tmpDst);
  }

  lemma DoneSize(m: seq<bv8>, n: seq<bv8>, outs: seq<nat>, y: Bytes, b: nat, tmpSrc: nat, tmpDst: nat)
    requires DoneUpTo(m, n, outs, y, b, tmpSrc, tmpDst)
    ensures |n| == |m|
  {}

  lemma SourceLoaded(n0: seq<bv8>, n1: seq<bv8>, list: seq<nat>, srcP: nat, b: nat, blk: Bytes, direct: bool)
    requires Inside(list, |n0|) && Load(n0, list) == blk && |n1| == |n0| && srcP + b <= |n0| && |list| == b
    requires if direct then n1 == n0 && list == Span(srcP, b)
             else Wrote(n0, n1, Target(false, Span(srcP, b), list), Load(n0, Target(true, Span(srcP, b), list)))
    ensures n1[srcP..srcP + b] == blk
    ensures if direct then n1 == n0 else Wrote(n0, n1, Span(srcP, b), blk)
  {
    LoadSpan(n1, srcP, b);
    if !direct { LoadWritten(n0, n1, Span(srcP, b), blk); }
  }

  lemma DestStored(n1: seq<bv8>, n2: seq<bv8>, n3: seq<bv8>, list: seq<nat>, dstP: nat, b: nat, z: Bytes, direct: bool)
    requires Wrote(n1, n2, Span(dstP, b), z) && |list| == b && dstP + b <= |n2| && Inside(Span(dstP, b), |n2|)
    requires Inside(list, |n2|)
    requires !direct ==> Wrote(n2, n3, Target(true, Span(dstP, b), list), Load(n2, Target(false, Span(dstP, b), list)))
    ensures !direct ==> Wrote(n2, n3, list, z)
  {
    LoadWritten(n1, n2, Span(dstP, b), z);
  }

  lemma LayoutGives(size: nat, ins: seq<nat>, outs: seq<nat>, b: nat, tmpSrc: nat, tmpDst: nat)
    requires Layout(size, ins, outs, b, tmpSrc, tmpDst)
    ensures |ins| == |outs| && Inside(ins, size)
  {}

  lemma AheadGives(w: Walk, at: seq<nat>)
    requires Ahead(w, at)
    ensures w.Valid() && at <= w.Rest()
  {}

  lemma AheadIs(w: Walk, at: seq<nat>)
    requires w.Valid() && at <= w.Rest()
    ensures Ahead(w, at)
  {}

  lemma NextIs(w: Walk, b: nat)
    requires w.Valid() && b < |w.Rest()|
    ensures ValidPos(w.sgl, w.After(b)) && 0 < |RestOf(w.sgl, w.After(b))|
    ensures w.Next(b) == Settle(w.sgl, w.After(b), true)
  {}

  /** The walk stands before block k. */
  ghost predicate AtBlock(w: Walk, b: nat, k: nat)
    reads w
  {
    w.Valid() && w.Here() == BlockPos(w.sgl, b, k)
  }

  lemma AtNextBlock(w: Walk, b: nat, k: nat)
    requires AtBlock(w, b, k) && b < |w.Rest()|
    ensures w.Valid() && w.sgl != [] && w.Next(b) == BlockPos(w.sgl, b, k + 1)
  {}

  lemma AtBlockIs(w: Walk, b: nat, k: nat)
    requires w.Valid() && w.sgl != [] && w.Here() == BlockPos(w.sgl, b, k)
    ensures AtBlock(w, b, k)
  {}

  /** The in-place test of the code and the blocks it misses. */
  lemma UnseenIs(w: Walk, v: Walk, b: nat, k: nat, directIn: bool, directOut: bool, srcP: nat, dstP: nat, inPlace: bool)
    requires AtBlock(w, b, k) && AtBlock(v, b, k)
    requires directIn == InOnePlace(w.Here(), b) && directOut == InOnePlace(v.Here(), b)
    requires directIn ==> srcP == PAGE * w.page + w.offset
    requires directOut ==> dstP == PAGE * v.page + v.offset
    requires srcP == dstP ==> directIn && directOut
    requires inPlace == (w.page == v.page && w.offset == v.offset && directIn && directOut)
    ensures w.sgl != [] && v.sgl != [] && (inPlace ==> dstP == srcP)
    ensures (dstP == srcP && !inPlace) == Lost(w.sgl, v.sgl, b)(k)
  {}

  /** The source block, where the cipher will read it.  The walk is done with it at once: scatterwalk_done
      touches only the walk. */
  method FetchBlock(mem: array<bv8>, walk: Walk, srcP: nat, direct: bool, b: nat, more: bool, ghost blk: Bytes)
    returns (ghost n1: seq<bv8>)
    requires walk as object != mem && walk.Valid() && walk.data == PAGE * walk.page + walk.offset && b <= |walk.Rest()|
    requires more ==> b < |walk.Rest()|
    requires Inside(walk.Rest()[..b], mem.Length) && srcP + b <= mem.Length && Load(mem[..], walk.Rest()[..b]) == blk
    requires if direct then srcP == walk.data && b <= walk.lenThisPage && Span(srcP, b) == walk.Rest()[..b]
             else Disjoint(Span(srcP, b), walk.Rest()[..b])
    modifies mem, walk
    ensures walk.Valid() && walk.Rest() == old(walk.Rest())[b..]
    ensures more ==> walk.Here() == old(walk.Next(b))
    ensures n1 == mem[..] && n1[srcP..srcP + b] == blk
    ensures if direct then n1 == old(mem[..]) else Wrote(old(mem[..]), n1, Span(srcP, b), blk)
  {
    hide *;
    ghost var n0, list := mem[..], walk.Rest()[..b];
    if more { NextIs(walk, b); }
    CopyChunks(mem, walk, srcP, direct, b, false);
    n1 := mem[..];
    SourceLoaded(n0, n1, list, srcP, b, blk, direct);
    walk.Done(more);
  }

  /** The destination block, from where the cipher left it. */
  method PutBlock(mem: array<bv8>, walk: Walk, dstP: nat, direct: bool, b: nat, more: bool, ghost n1: seq<bv8>,
                  ghost z: Bytes)
    requires walk as object != mem && walk.Valid() && walk.data == PAGE * walk.page + walk.offset && b <= |walk.Rest()|
    requires more ==> b < |walk.Rest()|
    requires Inside(walk.Rest()[..b], mem.Length) && dstP + b <= mem.Length && Wrote(n1, mem[..], Span(dstP, b), z)
    requires if direct then dstP == walk.data && b <= walk.lenThisPage && Span(dstP, b) == walk.Rest()[..b]
             else Disjoint(Span(dstP, b), walk.Rest()[..b]) && Distinct(walk.Rest()[..b])
    modifies mem, walk
    ensures walk.Valid() && walk.Rest() == old(walk.Rest())[b..]
    ensures more ==> walk.Here() == old(walk.Next(b))
    ensures if direct then mem[..] == old(mem[..]) else Wrote(old(mem[..]), mem[..], old(walk.Rest()[..b]), z)
  {
    hide *;
    ghost var n2, list := mem[..], walk.Rest()[..b];
    if more { NextIs(walk, b); }
    CopyChunks(mem, walk, dstP, direct, b, true);
    DestStored(n1, n2, mem[..], list, dstP, b, z, direct);
    walk.Done(more);
  }

  /** The block blk has been processed: its result stands behind y, and the chaining value has moved on. */
  ghost predicate BlockProcessed(mode: Mode, f: Bytes -> Bytes, b: nat, iv: Bytes, iv': Bytes, blk: Bytes, lost: bool,
                                 m: seq<bv8>, n: seq<bv8>, at: seq<nat>, y: Bytes, tmpSrc: nat, tmpDst: nat) {
    (mode.Ecb? || |iv| == |blk|) && |f(blk)| == |blk| &&
    var (z, next) := StepWith(mode, f, iv, blk, lost);
    DoneUpTo(m, n, at, y + z, b, tmpSrc, tmpDst) && iv' == next
  }

  lemma BlockProcessedIs(mode: Mode, f: Bytes -> Bytes, b: nat, iv: Bytes, iv': Bytes, blk: Bytes, lost: bool,
                         m: seq<bv8>, n: seq<bv8>, at: seq<nat>, y: Bytes, tmpSrc: nat, tmpDst: nat)
    requires (mode.Ecb? || |iv| == |blk|) && |f(blk)| == |blk|
    ensures BlockProcessed(mode, f, b, iv, iv', blk, lost, m, n, at, y, tmpSrc, tmpDst) <==>
            var (z, next) := StepWith(mode, f, iv, blk, lost);
            DoneUpTo(m, n, at, y + z, b, tmpSrc, tmpDst) && iv' == next
  {}

  /** One iteration of crypt: block k of the message, which starts at byte c. */
  method CryptBlock(mem: array<bv8>, walkIn: Walk, walkOut: Walk, more: bool, mode: Mode, f: Bytes -> Bytes, b: nat,
                    iv: array<bv8>, tmpSrc: nat, tmpDst: nat,
                    ghost m: seq<bv8>, ghost ins: seq<nat>, ghost outs: seq<nat>, ghost c: nat, ghost k: nat,
                    ghost y: Bytes, ghost blk: Bytes)
    requires walkIn != walkOut && walkIn as object != mem && walkOut as object != mem && iv != mem
    requires walkIn as object != iv && walkOut as object != iv && walkIn.sgl != [] && walkOut.sgl != []
    requires Layout(mem.Length, ins, outs, b, tmpSrc, tmpDst) && |m| == mem.Length
    requires c + b <= |ins| == |outs| && more == (c + b < |ins|) && Inside(ins, |m|) && blk == Load(m, ins)[c..c + b]
    requires Ahead(walkIn, ins[c..]) && Ahead(walkOut, outs[c..]) && AtBlock(walkIn, b, k) && AtBlock(walkOut, b, k)
    requires Fits(mode, f, b, iv[..]) && (mode.Ecb? || iv.Length == b)
    requires DoneUpTo(m, mem[..], outs[..c], y, b, tmpSrc, tmpDst)
    modifies mem, walkIn, walkOut, iv
    ensures Ahead(walkIn, ins[c + b..]) && Ahead(walkOut, outs[c + b..])
    ensures more ==> AtBlock(walkIn, b, k + 1) && AtBlock(walkOut, b, k + 1)
    ensures BlockProcessed(mode, f, b, old(iv[..]), iv[..], blk, Lost(walkIn.sgl, walkOut.sgl, b)(k),
                           m, mem[..], outs[..c + b], y, tmpSrc, tmpDst)
  {
    hide *;
    AheadGives(walkIn, ins[c..]);
    AheadGives(walkOut, outs[c..]);
    ghost var n0 := mem[..];
    MapWalk(walkIn, ins[c..], b, k);
    MapWalk(walkOut, outs[c..], b, k);
    FitsIs(mode, f, b, iv[..], blk);
    var directIn := walkIn.WhichBuf(b);
    var directOut := walkOut.WhichBuf(b);
    InOnePlaceGives(walkIn, b);
    InOnePlaceGives(walkOut, b);
    var srcP := if directIn then walkIn.data else tmpSrc;
    var dstP := if directOut then walkOut.data else tmpDst;
    var inPlace := walkIn.page == walkOut.page && walkIn.offset == walkOut.offset && directIn && directOut;
    Prepared(walkIn, walkOut, m, n0, ins, outs, y, b, tmpSrc, tmpDst, c, srcP, dstP, directIn, directOut);
    UnseenIs(walkIn, walkOut, b, k, directIn, directOut, srcP, dstP, inPlace);
    ghost var lost := Lost(walkIn.sgl, walkOut.sgl, b)(k);
    if more {
      AtNextBlock(walkIn, b, k);
      AtNextBlock(walkOut, b, k);
    }
    ghost var (z, next) := StepWith(mode, f, iv[..], blk, lost);
    ghost var n1 := FetchBlock(mem, walkIn, srcP, directIn, b, more, blk);
    ProcessBlock(mem, dstP, srcP, mode, f, b, iv, inPlace, blk, lost);
    ghost var n2 := mem[..];
    PutBlock(mem, walkOut, dstP, directOut, b, more, n1, z);
    ghost var n3 := mem[..];
    BlockProcessedIs(mode, f, b, old(iv[..]), iv[..], blk, lost, m, n3, outs[..c + b], y, tmpSrc, tmpDst);
    IterationIs(n0, n1, n2, n3, outs[c..c + b], blk, z, b, tmpSrc, tmpDst, dstP, directIn, directOut);
    BlockDone(m, n0, n1, n2, n3, ins, outs, y, z, blk, b, tmpSrc, tmpDst, c, dstP, directIn, directOut);
    AheadIs(walkIn, ins[c + b..]);
    AheadIs(walkOut, outs[c + b..]);
    if more {
      AtBlockIs(walkIn, b, k + 1);
      AtBlockIs(walkOut, b, k + 1);
    }
  }

  /** scatterwalk_map changes nothing but the mapped address. */
  method MapWalk(walk: Walk, ghost at: seq<nat>, ghost b: nat, ghost k: nat)
    requires Ahead(walk, at) && AtBlock(walk, b, k)
    modifies walk`data
    ensures Ahead(walk, at) && AtBlock(walk, b, k)
    ensures walk.data == PAGE * walk.page + walk.offset && walk.data == walk.Here().Address()
  {
    walk.Map();
  }

  lemma InOnePlaceGives(w: Walk, b: nat)
    ensures InOnePlace(w.Here(), b) ==> b <= w.lenThisPage
  {}

  /** prfn on one block, with a chaining value. */
  method ProcessBlock(mem: array<bv8>, dst: nat, src: nat, mode: Mode, f: Bytes -> Bytes, b: nat, iv: array<bv8>,
                      inPlace: bool,
                      ghost blk: Bytes, ghost lost: bool)
    requires Fits(mode, f, b, iv[..]) && iv != mem && (mode.Ecb? || iv.Length == b)
    requires dst + b <= mem.Length && src + b <= mem.Length && mem[src..src + b] == blk && |blk| == b
    requires dst == src || Disjoint(Span(dst, b), Span(src, b))
    requires (inPlace ==> dst == src) && lost == (dst == src && !inPlace)
    modifies mem, iv
    ensures var (y, next) := StepWith(mode, f, old(iv[..]), blk, lost);
            Wrote(old(mem[..]), mem[..], Span(dst, b), y) && iv[..] == next
  {
    Process(mem, dst, src, mode, f, b, iv, inPlace);
  }

  /** The first n bytes that the walk visits are those of the flattened list exactly if it is walkable. */
  ghost predicate Flat(sgl: seq<Seg>, n: nat) {
    && n <= |Visited(sgl)| == |Addrs(sgl)|
    && (Visited(sgl)[..n] == Addrs(sgl)[..n] <==> Walkable(sgl, n))
  }

  lemma FlatIs(sgl: seq<Seg>, n: nat)
    requires n <= |Visited(sgl)|
    ensures Flat(sgl, n)
  {
    SameLength(sgl);
    VisitedIsAddrs(sgl, n);
  }

  /** crypt: for every pair of scatterlists of sufficient length, the result of the mode on the bytes that
      the walk visits in the source appears in those it visits in the destination, and nothing else but
      scratch changes.  These are the flattened lists exactly if the lists are walkable.  For CBC
      decryption the result is the mode's if no block is overwritten unseen. */
  method Crypt(mem: array<bv8>, dst: seq<Seg>, src: seq<Seg>, nbytes: nat, mode: Mode, f: Bytes -> Bytes, b: nat,
               iv: array<bv8>, tmpSrc: nat, tmpDst: nat)
    returns (err: int, badBlockLen: bool)
    requires Fits(mode, f, b, iv[..]) && (mode.Ecb? || iv.Length == b) && iv != mem
    requires nbytes > 0 && nbytes % b == 0 ==>
               && nbytes <= |Visited(src)| && nbytes <= |Visited(dst)|
               && Layout(mem.Length, Visited(src)[..nbytes], Visited(dst)[..nbytes], b, tmpSrc, tmpDst)
    modifies mem, iv
    ensures badBlockLen == (nbytes % b != 0) && err == if nbytes % b != 0 then -EINVAL else 0
    ensures nbytes == 0 || nbytes % b != 0 ==> mem[..] == old(mem[..]) && iv[..] == old(iv[..])
    ensures nbytes > 0 && nbytes % b == 0 ==>
              && Inside(Visited(src)[..nbytes], mem.Length) && Whole(nbytes, b) && src != [] && dst != []
              && var x := Load(old(mem[..]), Visited(src)[..nbytes]);
                 var (y, last) := RunWith(mode, f, b, old(iv[..]), x, Lost(src, dst, b));
                 && DoneUpTo(old(mem[..]), mem[..], Visited(dst)[..nbytes], y, b, tmpSrc, tmpDst)
                 && iv[..] == last
                 && (!mode.CbcDecrypt? || Clear(src, dst, b, nbytes) ==> (y, last) == Run(mode, f, b, old(iv[..]), x))
    ensures nbytes > 0 && nbytes % b == 0 ==> Flat(src, nbytes) && Flat(dst, nbytes)
  {
    hide *;
    FitsHasSize(mode, f, b, iv[..]);
    WholeIsMultiple(nbytes, b);
    if nbytes == 0 { return 0, false; }
    if nbytes % b != 0 { return -EINVAL, true; }
    ghost var ins, outs := Visited(src)[..nbytes], Visited(dst)[..nbytes];
    LayoutGives(mem.Length, ins, outs, b, tmpSrc, tmpDst);
    NonEmpty(src, nbytes);
    NonEmpty(dst, nbytes);
    FlatIs(src, nbytes);
    FlatIs(dst, nbytes);
    if !mode.CbcDecrypt? || Clear(src, dst, b, nbytes) {
      ModeIfClear(src, dst, mode, f, b, iv[..], Load(mem[..], ins));
    }
    var walkIn := new Walk(src);
    var walkOut := new Walk(dst);
    BeginWalk(walkIn, ins, nbytes, b);
    BeginWalk(walkOut, outs, nbytes, b);
    CryptLoop(mem, walkIn, walkOut, nbytes, mode, f, b, iv, tmpSrc, tmpDst, ins, outs);
    return 0, false;
  }

  lemma ModeIfClear(src: seq<Seg>, dst: seq<Seg>, mode: Mode, f: Bytes -> Bytes, b: nat, iv: Bytes, x: Bytes)
    requires src != [] && dst != [] && Fits(mode, f, b, iv) && Whole(|x|, b)
    requires !mode.CbcDecrypt? || Clear(src, dst, b, |x|)
    ensures RunWith(mode, f, b, iv, x, Lost(src, dst, b)) == Run(mode, f, b, iv, x)
  {
    hide Run, RunWith;
    if mode.CbcDecrypt? { ClearIff(src, dst, b, |x|); } else { OthersDoNotCare(mode, f, b, iv, x, Lost(src, dst, b)); }
  }

  /** The loop of crypt. */
  method CryptLoop(mem: array<bv8>, walkIn: Walk, walkOut: Walk, nbytes: nat, mode: Mode, f: Bytes -> Bytes, b: nat,
                   iv: array<bv8>, tmpSrc: nat, tmpDst: nat, ghost ins: seq<nat>, ghost outs: seq<nat>)
    requires walkIn != walkOut && walkIn as object != mem && walkOut as object != mem && iv != mem
    requires walkIn as object != iv && walkOut as object != iv && walkIn.sgl != [] && walkOut.sgl != []
    requires Fits(mode, f, b, iv[..]) && (mode.Ecb? || iv.Length == b)
    requires Layout(mem.Length, ins, outs, b, tmpSrc, tmpDst)
    requires Ahead(walkIn, ins) && Ahead(walkOut, outs) && AtBlock(walkIn, b, 0) && AtBlock(walkOut, b, 0)
    requires Inside(ins, mem.Length) && |ins| == nbytes && Whole(nbytes, b)
    modifies mem, walkIn, walkOut, iv
    ensures var lost := Lost(walkIn.sgl, walkOut.sgl, b);
            var (y, last) := RunWith(mode, f, b, old(iv[..]), Load(old(mem[..]), ins), lost);
            DoneUpTo(old(mem[..]), mem[..], outs, y, b, tmpSrc, tmpDst) && iv[..] == last
  {
    hide *;
    ghost var m, x, iv0 := mem[..], Load(mem[..], ins), iv[..];
    ghost var lost := Lost(walkIn.sgl, walkOut.sgl, b);
    ghost var c: nat, k: nat := 0, 0;
    LayoutGives(mem.Length, ins, outs, b, tmpSrc, tmpDst);
    Begin(m, x, outs, mode, f, b, iv0, tmpSrc, tmpDst, lost);
    assert ins[0..] == ins && outs[0..] == outs;
    var left: nat := nbytes;
    while left != 0
      invariant c + left == nbytes && Whole(c, b) && Whole(left, b) && k == Blocks(c, b)
      invariant Ahead(walkIn, ins[c..]) && Ahead(walkOut, outs[c..])
      invariant left > 0 ==> AtBlock(walkIn, b, k) && AtBlock(walkOut, b, k)
      invariant DoneUpTo(m, mem[..], outs[..c], RunWith(mode, f, b, iv0, x[..c], lost).0, b, tmpSrc, tmpDst)
      invariant iv[..] == RunWith(mode, f, b, iv0, x[..c], lost).1
      decreases left
    {
      WholeSteps(left, b);
      left := left - b;
      ghost var y, blk, was := RunWith(mode, f, b, iv0, x[..c], lost).0, x[c..c + b], iv[..];
      CryptBlock(mem, walkIn, walkOut, left > 0, mode, f, b, iv, tmpSrc, tmpDst, m, ins, outs, c, k, y, blk);
      StepWithFits(mode, f, b, was, blk, lost(k));
      BlockProcessedIs(mode, f, b, was, iv[..], blk, lost(k), m, mem[..], outs[..c + b], y, tmpSrc, tmpDst);
      RunWithBlock(mode, f, b, iv0, x[..c], x[c..c + b], lost);
      JoinParts(x, c, c + b);
      c, k := c + b, k + 1;
    }
    assert x[..nbytes] == x && outs[..nbytes] == outs;
  }

  lemma FitsHasSize(mode: Mode, f: Bytes -> Bytes, b: nat, iv: Bytes)
    requires Fits(mode, f, b, iv)
    ensures b > 0
  {}

  lemma NonEmpty(sgl: seq<Seg>, n: nat)
    requires 0 < n <= |Visited(sgl)|
    ensures sgl != []
  {}

  lemma Begin(m: seq<bv8>, x: Bytes, outs: seq<nat>, mode: Mode, f: Bytes -> Bytes, b: nat, iv: Bytes, tmpSrc: nat,
              tmpDst: nat,
              lost: nat -> bool)
    requires Fits(mode, f, b, iv)
    ensures x[..0] == [] && Whole(0, b) && Blocks(0, b) == 0 && RunWith(mode, f, b, iv, x[..0], lost) == ([], iv)
    ensures outs[..0] == [] && DoneUpTo(m, m, [], [], b, tmpSrc, tmpDst)
  {}

  lemma BeginWalk(w: Walk, at: seq<nat>, n: nat, b: nat)
    requires w.Valid() && w.sgl != [] && w.Here() == StartPos(w.sgl, 0) && w.Rest() == Visited(w.sgl)
    requires n <= |Visited(w.sgl)| && at == Visited(w.sgl)[..n]
    ensures Ahead(w, at) && AtBlock(w, b, 0)
  {}

  lemma ResultLoaded(m: seq<bv8>, n: seq<bv8>, outs: seq<nat>, y: Bytes, b: nat, tmpSrc: nat, tmpDst: nat)
    requires DoneUpTo(m, n, outs, y, b, tmpSrc, tmpDst)
    ensures Inside(outs, |n|) && Load(n, outs) == y
  {}

  /* ---- Several calls ---- */

  /** Lists on which crypt gives the mode's result. */
  ghost predicate Good(mode: Mode, src: seq<Seg>, dst: seq<Seg>, b: nat, n: nat) {
    src != [] && dst != [] && (mode.CbcDecrypt? ==> Clear(src, dst, b, n))
  }

  lemma GoodGives(mode: Mode, src: seq<Seg>, dst: seq<Seg>, b: nat, n: nat)
    requires Good(mode, src, dst, b, n)
    ensures src != [] && dst != [] && (!mode.CbcDecrypt? || Clear(src, dst, b, n))
  {}

  /** CBC there and back: the ciphertext may be read through a list that cuts it up differently, and
      the plaintext may go anywhere, including back to where it came from. */
  method CbcThereAndBack(mem: array<bv8>, src: seq<Seg>, mid: seq<Seg>, mid': seq<Seg>, dst: seq<Seg>, nbytes: nat,
                         f: Bytes -> Bytes, g: Bytes -> Bytes, b: nat, iv: array<bv8>, iv': array<bv8>,
                         tmpSrc: nat, tmpDst: nat)
    requires Fits(CbcEncrypt, f, b, iv[..]) && Fits(CbcDecrypt, g, b, iv'[..]) && Modes.Undoes(g, f, b)
    requires iv.Length == iv'.Length == b && iv[..] == iv'[..] && iv != mem && iv' != mem && iv != iv'
    requires 0 < nbytes && nbytes % b == 0
    requires nbytes <= |Visited(src)| && nbytes <= |Visited(mid)| && nbytes <= |Visited(mid')|
    requires nbytes <= |Visited(dst)|
    requires Visited(mid)[..nbytes] == Visited(mid')[..nbytes]
    requires Layout(mem.Length, Visited(src)[..nbytes], Visited(mid)[..nbytes], b, tmpSrc, tmpDst)
    requires Layout(mem.Length, Visited(mid')[..nbytes], Visited(dst)[..nbytes], b, tmpSrc, tmpDst)
    requires Good(CbcDecrypt, mid', dst, b, nbytes)
    modifies mem, iv, iv'
    ensures Inside(Visited(src)[..nbytes], mem.Length) && Inside(Visited(dst)[..nbytes], mem.Length)
    ensures Load(mem[..], Visited(dst)[..nbytes]) == Load(old(mem[..]), Visited(src)[..nbytes])
    ensures iv[..] == iv'[..]
  {
    hide *;
    ghost var m, iv0 := mem[..], iv[..];
    var _, _ := Crypt(mem, mid, src, nbytes, CbcEncrypt, f, b, iv, tmpSrc, tmpDst);
    ghost var x := Load(m, Visited(src)[..nbytes]);
    ghost var y := Run(CbcEncrypt, f, b, iv0, x).0;
    ResultLoaded(m, mem[..], Visited(mid)[..nbytes], y, b, tmpSrc, tmpDst);
    CbcRoundTrip(f, g, b, iv0, x);
    ghost var n := mem[..];
    GoodGives(CbcDecrypt, mid', dst, b, nbytes);
    var _, _ := Crypt(mem, dst, mid', nbytes, CbcDecrypt, g, b, iv', tmpSrc, tmpDst);
    ResultLoaded(n, mem[..], Visited(dst)[..nbytes], x, b, tmpSrc, tmpDst);
  }

  /** What a pair of calls needs of both: of the first, and of the second after the first. */
  lemma LayoutParts(size: nat, a: seq<nat>, a': seq<nat>, o: seq<nat>, o': seq<nat>, b: nat, tmpSrc: nat, tmpDst: nat)
    requires Layout(size, a + a', o + o', b, tmpSrc, tmpDst) && |a| == |o|
    ensures Layout(size, a, o, b, tmpSrc, tmpDst) && Layout(size, a', o', b, tmpSrc, tmpDst)
    ensures Inside(a, size) && Inside(a', size) && Inside(a + a', size) && |a'| == |o'|
  {
    Parts(a, a');
    Parts(o, o');
    DistinctParts(o + o', |o|, |o + o'|);
    assert forall t :: 0 <= t < |a'| ==> (a + a')[|a| + t] == a'[t];
    assert forall t :: 0 <= t < |o'| ==> (o + o')[|o| + t] == o'[t];
  }

  lemma Parts(a: seq<nat>, b: seq<nat>)
    ensures (a + b)[..|a|] == a && (a + b)[|a|..] == b && (a + b)[|a|..|a + b|] == b
  {}

  lemma SecondStillThere(m: seq<bv8>, n: seq<bv8>, a: seq<nat>, a': seq<nat>, o: seq<nat>, o': seq<nat>, y: Bytes,
                         b: nat, tmpSrc: nat, tmpDst: nat)
    requires Layout(|m|, a + a', o + o', b, tmpSrc, tmpDst) && |a| == |o| && DoneUpTo(m, n, o, y, b, tmpSrc, tmpDst)
    ensures Inside(a', |n|) && Inside(a', |m|) && Load(n, a') == Load(m, a')
  {
    hide *;
    Parts(a, a');
    Parts(o, o');
    LayoutParts(|m|, a, a', o, o', b, tmpSrc, tmpDst);
    StillThere(m, n, a + a', o + o', y, b, tmpSrc, tmpDst, |a|, |a + a'|);
    LoadPart(m, a + a', |a|, |a + a'|);
  }

  /** Two stretches one after the other. */
  lemma DoneBoth(m: seq<bv8>, n: seq<bv8>, n': seq<bv8>, a: seq<nat>, o: seq<nat>, o': seq<nat>, y: Bytes, z: Bytes,
                 b: nat, tmpSrc: nat, tmpDst: nat)
    requires Layout(|m|, a, o + o', b, tmpSrc, tmpDst)
    requires DoneUpTo(m, n, o, y, b, tmpSrc, tmpDst) && DoneUpTo(n, n', o', z, b, tmpSrc, tmpDst)
    ensures DoneUpTo(m, n', o + o', y + z, b, tmpSrc, tmpDst)
  {
    var both := o + o';
    forall t | 0 <= t < |both| ensures n'[both[t]] == (y + z)[t] {
      assert both[t] !in Span(tmpSrc, b) && both[t] !in Span(tmpDst, b);
      if t < |o| {
        forall s | 0 <= s < |o'| ensures o'[s] != o[t] { assert both[|o| + s] != both[t]; }
      }
    }
    forall x: nat | x < |m| && x !in both && x !in Span(tmpSrc, b) && x !in Span(tmpDst, b) ensures n'[x] == m[x] {
      assert x !in o && x !in o';
    }
  }

  /** Two consecutive calls do what the mode does to the concatenation of their lists: the chaining
      value left by the first is what the second needs. */
  method CryptTwice(mem: array<bv8>, dst: seq<Seg>, src: seq<Seg>, n: nat, dst': seq<Seg>, src': seq<Seg>, n': nat,
                    mode: Mode, f: Bytes -> Bytes, b: nat, iv: array<bv8>, tmpSrc: nat, tmpDst: nat)
    requires Fits(mode, f, b, iv[..]) && (mode.Ecb? || iv.Length == b) && iv != mem
    requires 0 < n && n % b == 0 && 0 < n' && n' % b == 0
    requires n <= |Visited(src)| && n <= |Visited(dst)| && n' <= |Visited(src')| && n' <= |Visited(dst')|
    requires Layout(mem.Length, Visited(src)[..n] + Visited(src')[..n'],
                    Visited(dst)[..n] + Visited(dst')[..n'], b, tmpSrc, tmpDst)
    requires Good(mode, src, dst, b, n) && Good(mode, src', dst', b, n')
    modifies mem, iv
    ensures Inside(Visited(src)[..n] + Visited(src')[..n'], mem.Length) && Whole(n + n', b)
    ensures var (y, last) := Run(mode, f, b, old(iv[..]), Load(old(mem[..]), Visited(src)[..n] + Visited(src')[..n']));
            && DoneUpTo(old(mem[..]), mem[..], Visited(dst)[..n] + Visited(dst')[..n'], y, b, tmpSrc, tmpDst)
            && iv[..] == last
  {
    hide *;
    FitsHasSize(mode, f, b, iv[..]);
    ghost var a, a', o, o' := Visited(src)[..n], Visited(src')[..n'], Visited(dst)[..n], Visited(dst')[..n'];
    LayoutParts(mem.Length, a, a', o, o', b, tmpSrc, tmpDst);
    ghost var m, iv0 := mem[..], iv[..];
    ghost var x, x' := Load(m, a), Load(m, a');
    LoadBoth(m, a, a');
    GoodGives(mode, src, dst, b, n);
    GoodGives(mode, src', dst', b, n');
    var _, _ := Crypt(mem, dst, src, n, mode, f, b, iv, tmpSrc, tmpDst);
    ghost var mid, y := mem[..], Run(mode, f, b, iv0, x).0;
    SecondStillThere(m, mid, a, a', o, o', y, b, tmpSrc, tmpDst);
    ghost var iv1 := iv[..];
    var _, _ := Crypt(mem, dst', src', n', mode, f, b, iv, tmpSrc, tmpDst);
    DoneBoth(m, mid, mem[..], a + a', o, o', y, Run(mode, f, b, iv1, x').0, b, tmpSrc, tmpDst);
    RunConcat(mode, f, b, iv0, x, x');
  }
}

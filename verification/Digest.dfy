/** crypto/digest.c over any digest algorithm that hashes piece by piece. */
module Digest {
  import opened Machine
  import opened Hashing
  import opened Memory
  import opened ScatterWalk

  /** A digest algorithm: its context after init, its update and final functions, what a second final
      right after a first one puts out, and its sizes. */
  datatype Alg<!S> = Alg(init: S, update: (S, Bytes) -> S, final: S -> Bytes, again: S -> Bytes,
                         blockSize: nat, digestSize: nat)

  /** The context of a transform: in use, after final, and after a second final. */
  datatype Ctx<S> = Live(s: S) | Spent(s: S) | SpentTwice

  function UpdateAll<S>(alg: Alg<S>, s: S, pieces: seq<Bytes>): S {
    if pieces == [] then s else alg.update(UpdateAll(alg, s, pieces[..|pieces| - 1]), pieces[|pieces| - 1])
  }

  /** The algorithm computes `hash` of a message however the message is cut into updates. */
  ghost predicate Computes<S(!new)>(alg: Alg<S>, hash: Bytes -> Bytes) {
    && 0 < alg.digestSize <= alg.blockSize < 0x2000_0000
    && (forall m: Bytes :: |hash(m)| == alg.digestSize)
    && (forall s: S :: |alg.again(s)| == alg.digestSize)
    && (forall pieces: seq<Bytes> :: Short(pieces) ==>
          alg.final(UpdateAll(alg, alg.init, pieces)) == hash(Concat(pieces)))
  }

  lemma UpdateMore<S>(alg: Alg<S>, s: S, pieces: seq<Bytes>, p: Bytes)
    ensures UpdateAll(alg, s, pieces + [p]) == alg.update(UpdateAll(alg, s, pieces), p)
  {
    assert (pieces + [p])[..|pieces|] == pieces;
  }

  lemma Sizes<S(!new)>(alg: Alg<S>, hash: Bytes -> Bytes, m: Bytes)
    requires Computes(alg, hash)
    ensures 0 < alg.digestSize <= alg.blockSize < 0x2000_0000 && |hash(m)| == alg.digestSize
    ensures |alg.again(alg.update(alg.init, m))| == alg.digestSize
  {}

  lemma Computed<S(!new)>(alg: Alg<S>, hash: Bytes -> Bytes, pieces: seq<Bytes>)
    requires Computes(alg, hash) && Short(pieces)
    ensures alg.final(UpdateAll(alg, alg.init, pieces)) == hash(Concat(pieces))
  {}

  /* ---- Which bytes update reads ---- */

  /** min(l, PAGE_SIZE - offset) with the subtraction in 32 bits. */
  function FromPage(l: nat, offset: nat): (n: nat)
    ensures n <= l && (offset <= PAGE ==> n <= PAGE)
    ensures n == 0 && l > 0 && offset < WORD ==> offset == PAGE
  {
    Min(l, (PAGE - offset) % WORD)
  }

  /** What is read of l bytes from an offset of a page on: the first piece, then on from the next page. */
  function Pages(page: nat, offset: nat, l: nat): (at: seq<nat>)
    ensures |at| == l
  {
    var n := FromPage(l, offset);
    Span(PAGE * page + offset, n) + Span(PAGE * (page + 1), l - n)
  }

  function Read(sg: seq<Seg>): seq<nat> {
    if sg == [] then [] else Pages(sg[0].page, sg[0].offset, sg[0].length) + Read(sg[1..])
  }

  /** The bytes of an entry are read exactly if its offset does not exceed a page, or the entry is not
      longer than PAGE - offset in 32 bits. */
  lemma PagesIs(s: Seg)
    requires s.offset < WORD
    ensures Pages(s.page, s.offset, s.length) == Span(PAGE * s.page + s.offset, s.length)
       <==> s.offset <= PAGE || s.length <= WORD + PAGE - s.offset
  {
    var a, n := PAGE * s.page + s.offset, FromPage(s.length, s.offset);
    if n == s.length {
      SpanJoin(a, s.length, 0);
    } else if s.offset <= PAGE {
      SpanJoin(a, n, s.length - n);
    } else {
      assert Pages(s.page, s.offset, s.length)[n] == PAGE * (s.page + 1) < a + n == Span(a, s.length)[n];
    }
  }

  /** An entry of page 3 with offset 2^32 - 2^28 and length 2^28 + 8192: after 2^28 + 4096 bytes update
      goes on at page 4. */
  lemma FarOffsetWraps()
    ensures var s := Seg(3, 0xf000_0000, 0x1000_2000);
            Pages(s.page, s.offset, s.length) != Span(PAGE * s.page + s.offset, s.length)
  {
    PagesIs(Seg(3, 0xf000_0000, 0x1000_2000));
  }

  /** Entries whose bytes are read where they are. */
  predicate Straight(sg: seq<Seg>) {
    forall k :: 0 <= k < |sg| ==> StraightSeg(sg[k])
  }

  predicate StraightSeg(s: Seg) { s.offset <= PAGE || s.offset + s.length <= WORD + PAGE }

  lemma StraightFirst(sg: seq<Seg>)
    requires sg != []
    ensures Straight(sg) <==> StraightSeg(sg[0]) && Straight(sg[1..])
  {
    if StraightSeg(sg[0]) && Straight(sg[1..]) {
      forall k | 0 <= k < |sg| ensures StraightSeg(sg[k]) {
        if k > 0 { assert sg[k] == sg[1..][k - 1]; }
      }
    }
  }

  /** Offsets and lengths are unsigned ints. */
  predicate Words(sg: seq<Seg>) {
    forall k :: 0 <= k < |sg| ==> sg[k].offset < WORD && sg[k].length < WORD
  }

  /** All updates are shorter than 2^29 bytes: an entry that starts beyond its first page may be taken
      in one piece. */
  predicate Fine(sg: seq<Seg>) {
    forall k :: 0 <= k < |sg| ==> FineSeg(sg[k])
  }

  predicate FineSeg(s: Seg) { s.offset <= PAGE || s.length < 0x2000_0000 }

  lemma FirstEntry(sg: seq<Seg>)
    requires sg != [] && Words(sg)
    ensures var s := sg[0];
            && Words(sg[1..]) && s.offset < WORD
            && Read(sg) == Pages(s.page, s.offset, s.length) + Read(sg[1..])
            && Addrs(sg) == Span(PAGE * s.page + s.offset, s.length) + Addrs(sg[1..])
            && |Pages(s.page, s.offset, s.length)| == |Span(PAGE * s.page + s.offset, s.length)|
            && (Pages(s.page, s.offset, s.length) == Span(PAGE * s.page + s.offset, s.length) <==> StraightSeg(s))
  {
    hide *;
    WordsRest(sg);
    Unfolded(sg);
    SegIff(sg[0]);
  }

  lemma WordsRest(sg: seq<Seg>)
    requires sg != [] && Words(sg)
    ensures Words(sg[1..]) && sg[0].offset < WORD
  {}

  lemma Unfolded(sg: seq<Seg>)
    requires sg != []
    ensures Read(sg) == Pages(sg[0].page, sg[0].offset, sg[0].length) + Read(sg[1..])
    ensures Addrs(sg) == Span(PAGE * sg[0].page + sg[0].offset, sg[0].length) + Addrs(sg[1..])
  {
    hide Pages, Span;
  }

  lemma SegIff(s: Seg)
    requires s.offset < WORD
    ensures |Pages(s.page, s.offset, s.length)| == |Span(PAGE * s.page + s.offset, s.length)|
    ensures Pages(s.page, s.offset, s.length) == Span(PAGE * s.page + s.offset, s.length) <==> StraightSeg(s)
  {
    hide Pages, Span;
    PagesIs(s);
  }

  lemma NoEntries()
    ensures Read([]) == Addrs([]) && Straight([])
  {}

  /** update reads the flattened list if and only if each of its entries is read where it is. */
  lemma {:induction false} ReadIsAddrs(sg: seq<Seg>)
    requires Words(sg)
    ensures Read(sg) == Addrs(sg) <==> Straight(sg)
  {
    hide *;
    if sg == [] {
      NoEntries();
    } else {
      var s, rest := sg[0], sg[1..];
      FirstEntry(sg);
      StraightFirst(sg);
      ReadIsAddrs(rest);
      SameParts(Pages(s.page, s.offset, s.length), Read(rest), Span(PAGE * s.page + s.offset, s.length), Addrs(rest));
    }
  }

  /** A page later: what is left is contiguous. */
  lemma PagesGoOn(page: nat, l: nat)
    ensures Pages(page, 0, l) == Span(PAGE * page, l)
  {
    PagesIs(Seg(page, 0, l));
  }

  /** The piece at hand and what follows it. */
  lemma PagesStep(m: Bytes, page: nat, offset: nat, l: nat)
    requires Inside(Pages(page, offset, l), |m|)
    ensures var n := FromPage(l, offset);
            && Inside(Span(PAGE * page + offset, n), |m|) && Inside(Pages(page + 1, 0, l - n), |m|)
            && Load(m, Pages(page, offset, l))
            == Load(m, Span(PAGE * page + offset, n)) + Load(m, Pages(page + 1, 0, l - n))
  {
    hide Pages, Load, Inside, Span;
    var n := FromPage(l, offset);
    PagesGoOn(page + 1, l - n);
    PagesAre(page, offset, l);
    LoadBoth(m, Span(PAGE * page + offset, n), Span(PAGE * (page + 1), l - n));
  }

  lemma PagesAre(page: nat, offset: nat, l: nat)
    ensures var n := FromPage(l, offset);
            Pages(page, offset, l) == Span(PAGE * page + offset, n) + Span(PAGE * (page + 1), l - n)
  {}

  lemma NothingRead(m: Bytes, page: nat, offset: nat, x: Bytes)
    ensures Inside(Pages(page, offset, 0), |m|) && x + Load(m, Pages(page, offset, 0)) == x
  {}

  lemma Assoc3(a: Bytes, b: Bytes, c: Bytes)
    ensures a + b + c == a + (b + c)
  {}

  lemma ReadStep(m: Bytes, sg: seq<Seg>, i: nat)
    requires i < |sg| && Inside(Read(sg[i..]), |m|)
    ensures var s := sg[i];
            && Inside(Pages(s.page, s.offset, s.length), |m|) && Inside(Read(sg[i + 1..]), |m|)
            && Load(m, Read(sg[i..])) == Load(m, Pages(s.page, s.offset, s.length)) + Load(m, Read(sg[i + 1..]))
  {
    hide Pages, Load, Inside;
    assert sg[i..][1..] == sg[i + 1..];
    LoadBoth(m, Pages(sg[i].page, sg[i].offset, sg[i].length), Read(sg[i + 1..]));
  }

  lemma AddrsStep(m: Bytes, sg: seq<Seg>, i: nat)
    requires i < |sg| && Inside(Addrs(sg[i..]), |m|)
    ensures var at := Span(PAGE * sg[i].page + sg[i].offset, sg[i].length);
            && Inside(at, |m|) && Inside(Addrs(sg[i + 1..]), |m|)
            && Load(m, Addrs(sg[i..])) == Load(m, at) + Load(m, Addrs(sg[i + 1..]))
  {
    hide Load, Inside, Span;
    assert sg[i..][1..] == sg[i + 1..];
    LoadBoth(m, Span(PAGE * sg[i].page + sg[i].offset, sg[i].length), Addrs(sg[i + 1..]));
  }

  /** struct crypto_tfm of a digest.  The hmac block lies in memory like everything else. */
  class DigestTfm<S(!new)> {
    const alg: Alg<S>
    const mem: array<bv8>
    const hmacBlock: nat
    var ctx: Ctx<S>

    constructor (alg: Alg<S>, mem: array<bv8>, hmacBlock: nat)
      ensures this.alg == alg && this.mem == mem && this.hmacBlock == hmacBlock && Holds([])
    {
      this.alg, this.mem, this.hmacBlock, ctx := alg, mem, hmacBlock, Live(alg.init);
    }

    /** The context has absorbed the given pieces, each in one update. */
    ghost predicate Holds(pieces: seq<Bytes>)
      reads this
    {
      ctx == Live(UpdateAll(alg, alg.init, pieces))
    }

    method Init()
      modifies this`ctx
      ensures Holds([])
    {
      ctx := Live(alg.init);
    }

    /** dia_update with n bytes from address a on. */
    method Absorb(a: nat, n: nat, ghost before: seq<Bytes>) returns (ghost pieces: seq<Bytes>)
      requires Holds(before) && Inside(Span(a, n), mem.Length)
      modifies this`ctx
      ensures Short(before) && n < 0x2000_0000 ==> Short(pieces)
      ensures Holds(pieces) && Concat(pieces) == Concat(before) + Load(mem[..], Span(a, n))
      ensures before == [] ==> ctx == Live(alg.update(alg.init, Load(mem[..], Span(a, n))))
    {
      var p := Load(mem[..], Span(a, n));
      UpdateMore(alg, alg.init, before, p);
      ConcatOne(before, p);
      ctx := Live(alg.update(ctx.s, p));
      pieces := before + [p];
    }

    /** update for one entry, page by page.  An empty entry still costs one update. */
    method UpdateSeg(s: Seg, ghost before: seq<Bytes>) returns (ghost pieces: seq<Bytes>)
      requires s.offset < WORD && Holds(before) && Inside(Pages(s.page, s.offset, s.length), mem.Length)
      modifies this`ctx
      ensures Holds(pieces) && Concat(pieces) == Concat(before) + Load(mem[..], Pages(s.page, s.offset, s.length))
      ensures Short(before) && FineSeg(s) ==> Short(pieces)
    {
      hide Pages, Load, Inside, Concat, UpdateAll, Span;
      pieces := before;
      var pg, offset: nat, l: nat := s.page, s.offset, s.length;
      ghost var m := mem[..];
      ghost var all := Concat(before) + Load(m, Pages(pg, offset, l));
      var again := true;
      while again
        invariant offset < WORD && (!again ==> l == 0)
        invariant Short(before) && FineSeg(s) ==> Short(pieces) && (offset <= PAGE || l < 0x2000_0000)
        invariant Holds(pieces) && Inside(Pages(pg, offset, l), mem.Length)
        invariant Concat(pieces) + Load(m, Pages(pg, offset, l)) == all
        decreases again, l, offset
      {
        var n := FromPage(l, offset);
        PagesStep(m, pg, offset, l);
        Assoc3(Concat(pieces), Load(m, Span(PAGE * pg + offset, n)), Load(m, Pages(pg + 1, 0, l - n)));
        pieces := Absorb(PAGE * pg + offset, n, pieces);
        offset := 0;
        pg := pg + 1;
        l := l - n;
        again := l > 0;
      }
      NothingRead(m, pg, offset, Concat(pieces));
    }

    /** update of crypto/digest.c: the context absorbs the bytes of the whole list, in order. */
    method Update(sg: seq<Seg>, ghost before: seq<Bytes>) returns (ghost pieces: seq<Bytes>)
      requires Words(sg) && Holds(before) && Inside(Read(sg), mem.Length)
      modifies this`ctx
      ensures Short(before) && Fine(sg) ==> Short(pieces)
      ensures Holds(pieces) && Concat(pieces) == Concat(before) + Load(mem[..], Read(sg))
      ensures Straight(sg) <==> Read(sg) == Addrs(sg)
    {
      hide Pages, Load, Inside, Concat, UpdateAll, Read;
      ReadIsAddrs(sg);
      pieces := before;
      ghost var m := mem[..];
      ghost var all := Concat(before) + Load(m, Read(sg));
      var i := 0;
      assert sg[0..] == sg;
      while i < |sg|
        invariant 0 <= i <= |sg| && Holds(pieces) && Inside(Read(sg[i..]), mem.Length)
        invariant Concat(pieces) + Load(m, Read(sg[i..])) == all
        invariant Short(before) && Fine(sg) ==> Short(pieces)
      {
        var s := sg[i];
        ReadStep(m, sg, i);
        Assoc3(Concat(pieces), Load(m, Pages(s.page, s.offset, s.length)), Load(m, Read(sg[i + 1..])));
        pieces := UpdateSeg(s, pieces);
        i := i + 1;
      }
      NoSegments(m, sg[i..], Concat(pieces));
    }

    /** What final is about to put out. */
    function Output(): Bytes
      reads this
      requires !ctx.SpentTwice?
    {
      if ctx.Live? then alg.final(ctx.s) else alg.again(ctx.s)
    }

    /** final of crypto/digest.c */
    method Final(out: nat)
      requires !ctx.SpentTwice? && out + |Output()| <= mem.Length
      modifies this`ctx, mem
      ensures Wrote(old(mem[..]), mem[..], Span(out, |old(Output())|), old(Output()))
      ensures ctx == if old(ctx).Live? then Spent(old(ctx).s) else SpentTwice
    {
      StoreBlock(mem, out, Output());
      ctx := if ctx.Live? then Spent(ctx.s) else SpentTwice;
    }

    /** digest of crypto/digest.c: init, one update for each entry, final. */
    method Digest(sg: seq<Seg>, out: nat, ghost hash: Bytes -> Bytes)
      requires Computes(alg, hash) && Inside(Addrs(sg), mem.Length) && out + alg.digestSize <= mem.Length
      requires forall k :: 0 <= k < |sg| ==> sg[k].length < 0x2000_0000
      modifies this`ctx, mem
      ensures Wrote(old(mem[..]), mem[..], Span(out, alg.digestSize), hash(Load(old(mem[..]), Addrs(sg))))
      ensures |sg| == 1 ==> ctx == Spent(alg.update(alg.init, Load(old(mem[..]), Addrs(sg))))
    {
      hide Load, Inside, Concat, UpdateAll, Computes, Span, Addrs, Wrote;
      Init();
      ghost var pieces: seq<Bytes> := [];
      ghost var m := mem[..];
      ghost var all := Load(m, Addrs(sg));
      var i := 0;
      assert sg[0..] == sg;
      NoPieces(all);
      while i < |sg|
        invariant 0 <= i <= |sg| && Holds(pieces) && Short(pieces) && mem[..] == m && Inside(Addrs(sg[i..]), mem.Length)
        invariant Concat(pieces) + Load(m, Addrs(sg[i..])) == all && (i == 0 ==> pieces == [])
        invariant i == 1 == |sg| ==> ctx == Live(alg.update(alg.init, all))
      {
        var a := PAGE * sg[i].page + sg[i].offset;
        AddrsStep(m, sg, i);
        Assoc3(Concat(pieces), Load(m, Span(a, sg[i].length)), Load(m, Addrs(sg[i + 1..])));
        if i + 1 == |sg| { NoAddrs(m, sg[i + 1..], Load(m, Span(a, sg[i].length))); }
        if i == 0 { NoPieces(Load(m, Span(a, sg[i].length))); }
        pieces := Absorb(a, sg[i].length, pieces);
        i := i + 1;
      }
      NoAddrs(m, sg[i..], Concat(pieces));
      Computed(alg, hash, pieces);
      Sizes(alg, hash, all);
      Final(out);
    }
  }

  lemma NoSegments(m: Bytes, sg: seq<Seg>, x: Bytes)
    requires sg == []
    ensures Inside(Read(sg), |m|) && x + Load(m, Read(sg)) == x
  {}

  lemma NoAddrs(m: Bytes, sg: seq<Seg>, x: Bytes)
    requires sg == []
    ensures Inside(Addrs(sg), |m|) && x + Load(m, Addrs(sg)) == x
  {}

  lemma NoPieces(x: Bytes)
    ensures Concat([]) + x == x
  {}
}

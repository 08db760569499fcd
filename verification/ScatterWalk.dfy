/**
 crypto/scatterwalk.c: walking a scatterlist page by page.  Memory is one byte array; page p
 occupies addresses PAGE * p to PAGE * p + PAGE - 1, so that page++ is the next page in memory.
 */
module ScatterWalk {
  import opened Machine
  import opened Memory

  /** struct scatterlist */
  datatype Seg = Seg(page: nat, offset: nat, length: nat)

  /** The flattened scatterlist: the address of every byte, in order. */
  function Addrs(sgl: seq<Seg>): seq<nat> {
    if sgl == [] then [] else Span(PAGE * sgl[0].page + sgl[0].offset, sgl[0].length) + Addrs(sgl[1..])
  }

  function Min(a: nat, b: nat): nat { if a <= b then a else b }

  /** How much of a segment the walk takes from its first page. */
  function FirstPart(s: Seg): nat { Min(s.length, PAGE - s.offset % PAGE) }

  /** The addresses the walk visits in one segment: the first part, then on from the next page. */
  function SegVisited(s: Seg): (v: seq<nat>)
    ensures |v| == s.length
  {
    Span(PAGE * s.page + s.offset, FirstPart(s)) + Span(PAGE * (s.page + 1), s.length - FirstPart(s))
  }

  function Visited(sgl: seq<Seg>): seq<nat> {
    if sgl == [] then [] else SegVisited(sgl[0]) + Visited(sgl[1..])
  }

  /** Offsets lie within the first page of their segment. */
  predicate Canonical(sgl: seq<Seg>) {
    forall k :: 0 <= k < |sgl| ==> sgl[k].offset < PAGE
  }

  lemma DropConcat(a: seq<nat>, b: seq<nat>, m: nat)
    requires m <= |a|
    ensures (a + b)[m..] == a[m..] + b
  {}

  lemma SkipFirst(a: seq<nat>, b: seq<nat>, c: seq<nat>, n: nat)
    requires n == |a|
    ensures (a + b + c)[n..] == b + c
  {}

  lemma EmptyFirst(a: seq<nat>, b: seq<nat>)
    requires |a| == 0
    ensures a + b == b
  {}

  lemma ConcatAssoc(a: seq<nat>, b: seq<nat>, c: seq<nat>)
    ensures a + b + c == a + (b + c)
  {}

  /** The walk visits the bytes of a segment exactly if its offset lies in its first page or it
      does not reach the end of that page. */
  lemma SegVisitedIs(s: Seg)
    ensures SegVisited(s) == Span(PAGE * s.page + s.offset, s.length)
       <==> s.offset < PAGE || s.length <= PAGE - s.offset % PAGE
  {
    var a, n := PAGE * s.page + s.offset, FirstPart(s);
    if s.length <= PAGE - s.offset % PAGE {
      SpanJoin(a, s.length, 0);
    } else if s.offset < PAGE {
      SpanJoin(a, n, s.length - n);
    } else {
      assert SegVisited(s)[n] == PAGE * (s.page + 1) < a + n == Span(a, s.length)[n];
    }
  }

  /** A segment of page 3 that starts 5000 bytes in and is 4000 long: its 3193rd byte is at
      address 3 * 4096 + 8192, but the walk goes back to the start of page 4. */
  lemma FarOffsetGoesBack()
    ensures SegVisited(Seg(3, 5000, 4000)) != Span(PAGE * 3 + 5000, 4000)
  {
    SegVisitedIs(Seg(3, 5000, 4000));
  }

  /** The walk takes the first n bytes of a segment where they are. */
  predicate TakenRight(s: Seg, n: nat) { s.offset < PAGE || n <= PAGE - s.offset % PAGE }

  lemma SegPrefixIs(s: Seg, n: nat)
    requires n <= s.length
    ensures SegVisited(s)[..n] == Span(PAGE * s.page + s.offset, s.length)[..n] <==> TakenRight(s, n)
  {
    var a, f := PAGE * s.page + s.offset, FirstPart(s);
    if s.offset < PAGE || s.length <= PAGE - s.offset % PAGE {
      SegVisitedIs(s);
    } else if n > f {
      assert SegVisited(s)[..n][f] == PAGE * (s.page + 1) < a + f == Span(a, s.length)[..n][f];
    }
  }

  /** The walk takes the first n bytes of the list where they are. */
  predicate Walkable(sgl: seq<Seg>, n: nat) {
    sgl == [] ||
    var m := Min(n, sgl[0].length);
    TakenRight(sgl[0], m) && Walkable(sgl[1..], n - m)
  }

  lemma {:induction false} SameLength(sgl: seq<Seg>)
    ensures |Visited(sgl)| == |Addrs(sgl)|
  {
    if sgl != [] { SameLength(sgl[1..]); }
  }

  lemma PrefixParts(a: seq<nat>, b: seq<nat>, n: nat)
    requires n <= |a + b|
    ensures (a + b)[..n] == a[..Min(n, |a|)] + b[..n - Min(n, |a|)]
  {}

  lemma SameParts(a: seq<nat>, b: seq<nat>, c: seq<nat>, d: seq<nat>)
    requires |a| == |c|
    ensures a + b == c + d <==> a == c && b == d
  {
    if a + b == c + d {
      assert a == (a + b)[..|a|] && b == (a + b)[|a|..];
      assert c == (c + d)[..|a|] && d == (c + d)[|a|..];
    }
  }

  /** The first n bytes that the walk visits are those of the flattened list if and only if each segment
      they reach into has its offset in its first page or is left before the end of a page. */
  lemma {:induction false} VisitedIsAddrs(sgl: seq<Seg>, n: nat)
    requires n <= |Addrs(sgl)|
    ensures |Visited(sgl)| == |Addrs(sgl)|
    ensures Visited(sgl)[..n] == Addrs(sgl)[..n] <==> Walkable(sgl, n)
  {
    SameLength(sgl);
    if sgl != [] {
      hide Span, SegVisited, TakenRight;
      var s, rest := sgl[0], sgl[1..];
      var m := Min(n, s.length);
      var span := Span(PAGE * s.page + s.offset, s.length);
      SegPrefixIs(s, m);
      VisitedIsAddrs(rest, n - m);
      PrefixParts(SegVisited(s), Visited(rest), n);
      PrefixParts(span, Addrs(rest), n);
      SameParts(SegVisited(s)[..m], Visited(rest)[..n - m], span[..m], Addrs(rest)[..n - m]);
    }
  }

  /** The whole list. */
  lemma {:induction false} WholeListIff(sgl: seq<Seg>)
    ensures Visited(sgl) == Addrs(sgl)
       <==> forall k :: 0 <= k < |sgl| ==> sgl[k].offset < PAGE || sgl[k].length <= PAGE - sgl[k].offset % PAGE
  {
    var n := |Addrs(sgl)|;
    VisitedIsAddrs(sgl, n);
    assert Visited(sgl)[..n] == Visited(sgl) && Addrs(sgl)[..n] == Addrs(sgl);
    WalkableIff(sgl);
  }

  lemma {:induction false} WalkableIff(sgl: seq<Seg>)
    ensures Walkable(sgl, |Addrs(sgl)|) <==> forall k :: 0 <= k < |sgl| ==> TakenRight(sgl[k], sgl[k].length)
  {
    if sgl != [] {
      WalkableIff(sgl[1..]);
      assert forall k :: 0 <= k < |sgl| - 1 ==> sgl[1..][k] == sgl[k + 1];
      assert forall k :: 0 < k < |sgl| ==> sgl[k] == sgl[1..][k - 1];
    }
  }

  lemma VisitedAt(sgl: seq<Seg>, k: nat)
    requires k < |sgl|
    ensures Visited(sgl[k..]) == SegVisited(sgl[k]) + Visited(sgl[k + 1..])
  {
    assert sgl[k..][1..] == sgl[k + 1..];
  }

  lemma MoreSegments(sgl: seq<Seg>, k: nat)
    requires k < |sgl|
    ensures k + 1 < |sgl| || Visited(sgl[k + 1..]) == []
  {}

  /* ---- Positions of a walk ---- */

  /** struct scatter_walk without the mapped address: entry, page, offset and what is left. */
  datatype Pos = Pos(i: nat, page: nat, offset: nat, lenThisPage: nat, lenThisSegment: nat) {
    function Address(): nat { PAGE * page + offset }
  }

  predicate ValidPos(sgl: seq<Seg>, p: Pos) {
    && p.i < |sgl| && p.lenThisPage <= p.lenThisSegment
    && (p.lenThisPage == 0 < p.lenThisSegment ==> p.offset > 0)
    && (Canonical(sgl) ==> p.offset + p.lenThisPage <= PAGE)
  }

  /** The addresses still ahead. */
  function RestOf(sgl: seq<Seg>, p: Pos): seq<nat>
    requires ValidPos(sgl, p)
  {
    Span(p.Address(), p.lenThisPage) + Span(PAGE * (p.page + 1), p.lenThisSegment - p.lenThisPage)
    + Visited(sgl[p.i + 1..])
  }

  /** scatterwalk_start */
  function StartPos(sgl: seq<Seg>, k: nat): (p: Pos)
    requires k < |sgl|
    ensures ValidPos(sgl, p) && p.i == k && (p.lenThisPage == 0 ==> p.lenThisSegment == 0)
  {
    var s := sgl[k];
    Pos(k, s.page, s.offset, Min(s.length, PAGE - s.offset % PAGE), s.length)
  }

  lemma StartRest(sgl: seq<Seg>, k: nat)
    requires k < |sgl|
    ensures RestOf(sgl, StartPos(sgl, k)) == Visited(sgl[k..])
  {
    hide Span, Visited;
    VisitedAt(sgl, k);
  }

  /** There is something beyond the part of the page at hand. */
  ghost predicate GoesOn(sgl: seq<Seg>, p: Pos) {
    ValidPos(sgl, p) && p.lenThisPage < |RestOf(sgl, p)|
  }

  lemma GoesOnHow(sgl: seq<Seg>, p: Pos)
    requires GoesOn(sgl, p)
    ensures p.lenThisPage < p.lenThisSegment || p.i + 1 < |sgl|
  {
    MoreSegments(sgl, p.i);
  }

  /** scatterwalk_pagedone with more to come. */
  function NextPart(sgl: seq<Seg>, p: Pos): (q: Pos)
    requires GoesOn(sgl, p)
    ensures ValidPos(sgl, q) && (q.lenThisPage == 0 ==> q.lenThisSegment == 0)
    ensures q.i > p.i || (q.i == p.i && q.lenThisSegment == p.lenThisSegment - p.lenThisPage && q.offset == 0)
    ensures p.lenThisPage == 0 && q.i == p.i ==> q.offset < p.offset
  {
    GoesOnHow(sgl, p);
    var left := p.lenThisSegment - p.lenThisPage;
    if left != 0 then Pos(p.i, p.page + 1, 0, Min(left, PAGE), left) else StartPos(sgl, p.i + 1)
  }

  lemma PageThenRest(page: nat, n: nat)
    ensures Span(PAGE * page, Min(n, PAGE)) + Span(PAGE * (page + 1), n - Min(n, PAGE)) == Span(PAGE * page, n)
  {
    SpanJoin(PAGE * page, Min(n, PAGE), n - Min(n, PAGE));
  }

  /** Exactly the part at hand is skipped, across pages, segments and empty segments. */
  lemma NextPartRest(sgl: seq<Seg>, p: Pos)
    requires GoesOn(sgl, p)
    ensures RestOf(sgl, NextPart(sgl, p)) == RestOf(sgl, p)[p.lenThisPage..]
  {
    hide Span, Visited;
    var left := p.lenThisSegment - p.lenThisPage;
    var there, later := Span(PAGE * (p.page + 1), left), Visited(sgl[p.i + 1..]);
    SkipFirst(Span(p.Address(), p.lenThisPage), there, later, p.lenThisPage);
    if left != 0 {
      PageThenRest(p.page + 1, left);
    } else {
      GoesOnHow(sgl, p);
      EmptyFirst(there, later);
      StartRest(sgl, p.i + 1);
    }
  }

  /** The last lines of scatterwalk_copychunks. */
  function Advanced(p: Pos, n: nat): Pos
    requires n <= p.lenThisPage <= p.lenThisSegment
  {
    p.(offset := p.offset + n, lenThisPage := p.lenThisPage - n, lenThisSegment := p.lenThisSegment - n)
  }

  lemma AdvancedRest(sgl: seq<Seg>, p: Pos, n: nat)
    requires ValidPos(sgl, p) && n <= p.lenThisPage
    ensures ValidPos(sgl, Advanced(p, n)) && RestOf(sgl, Advanced(p, n)) == RestOf(sgl, p)[n..]
  {
    hide Span, Visited;
    var here, there := Span(p.Address(), p.lenThisPage), Span(PAGE * (p.page + 1), p.lenThisSegment - p.lenThisPage);
    var later := Visited(sgl[p.i + 1..]);
    ConcatAssoc(here, there, later);
    DropConcat(here, there + later, n);
    SpanDrop(p.Address(), p.lenThisPage, n);
    ConcatAssoc(here[n..], there, later);
  }

  /** scatterwalk_copychunks as far as the walk is concerned. */
  function Skip(sgl: seq<Seg>, p: Pos, n: nat): (q: Pos)
    requires ValidPos(sgl, p) && n <= |RestOf(sgl, p)|
    ensures ValidPos(sgl, q) && RestOf(sgl, q) == RestOf(sgl, p)[n..]
    decreases |sgl| - p.i, p.lenThisSegment, p.offset
  {
    if n <= p.lenThisPage then
      AdvancedRest(sgl, p, n);
      Advanced(p, n)
    else
      NextPartRest(sgl, p);
      DropTwice(RestOf(sgl, p), p.lenThisPage, n);
      Skip(sgl, NextPart(sgl, p), n - p.lenThisPage)
  }

  lemma SkipWithin(sgl: seq<Seg>, p: Pos, n: nat)
    requires ValidPos(sgl, p) && n <= |RestOf(sgl, p)| && n <= p.lenThisPage
    ensures Skip(sgl, p, n) == Advanced(p, n)
  {}

  lemma SkipBeyond(sgl: seq<Seg>, p: Pos, n: nat)
    requires ValidPos(sgl, p) && n <= |RestOf(sgl, p)| && n > p.lenThisPage
    ensures GoesOn(sgl, p)
    ensures n - p.lenThisPage <= |RestOf(sgl, NextPart(sgl, p))|
    ensures Skip(sgl, p, n) == Skip(sgl, NextPart(sgl, p), n - p.lenThisPage)
  {
    NextPartRest(sgl, p);
  }

  lemma DropTwice(a: seq<nat>, n: nat, m: nat)
    requires n <= m <= |a|
    ensures a[n..][m - n..] == a[m..]
  {}

  /** scatterwalk_done */
  function Settle(sgl: seq<Seg>, p: Pos, more: bool): (q: Pos)
    requires ValidPos(sgl, p) && (more ==> 0 < |RestOf(sgl, p)|)
    ensures ValidPos(sgl, q) && RestOf(sgl, q) == RestOf(sgl, p)
    ensures more && q.lenThisPage == 0 ==> q.lenThisSegment == 0
  {
    if p.lenThisPage == 0 && more then
      NextPartRest(sgl, p);
      NextPart(sgl, p)
    else p
  }

  /** Where the walk of crypt stands before block k, as long as there are bytes for it. */
  function BlockPos(sgl: seq<Seg>, b: nat, k: nat): (p: Pos)
    requires sgl != []
    ensures ValidPos(sgl, p)
  {
    if k == 0 then StartPos(sgl, 0)
    else
      var p := BlockPos(sgl, b, k - 1);
      if b < |RestOf(sgl, p)| then Settle(sgl, Skip(sgl, p, b), true) else p
  }

  /** scatterwalk_whichbuf: n bytes can be processed where they are. */
  predicate InOnePlace(p: Pos, n: nat) {
    n <= p.lenThisPage && p.Address() % PAGE + n <= PAGE
  }

  lemma RestStarts(sgl: seq<Seg>, p: Pos, n: nat)
    requires ValidPos(sgl, p) && n <= p.lenThisPage
    ensures n <= |RestOf(sgl, p)| && RestOf(sgl, p)[..n] == Span(p.Address(), n)
  {}

  /** struct scatter_walk */
  class Walk {
    const sgl: seq<Seg>
    var i: nat
    var page: nat
    var data: nat
    var lenThisPage: nat
    var lenThisSegment: nat
    var offset: nat

    function Here(): Pos
      reads this
    {
      Pos(i, page, offset, lenThisPage, lenThisSegment)
    }

    ghost predicate Valid()
      reads this
    {
      ValidPos(sgl, Here())
    }

    /** The addresses still ahead of the walk. */
    ghost function Rest(): seq<nat>
      reads this
      requires Valid()
    {
      RestOf(sgl, Here())
    }

    /** Where the walk will stand n bytes further on. */
    ghost function After(n: nat): Pos
      reads this
      requires Valid() && n <= |Rest()|
    {
      Skip(sgl, Here(), n)
    }

    /** Where the walk stands after a block of b bytes that is not the last. */
    ghost function Next(b: nat): Pos
      reads this
      requires Valid() && b < |Rest()|
    {
      Settle(sgl, After(b), true)
    }

    /** scatterwalk_start at the head of the list. */
    constructor (sgl: seq<Seg>)
      requires sgl != []
      ensures this.sgl == sgl && Valid() && Here() == StartPos(sgl, 0) && Rest() == Visited(sgl)
    {
      this.sgl := sgl;
      i, page, data, offset := 0, sgl[0].page, 0, sgl[0].offset;
      lenThisSegment := sgl[0].length;
      lenThisPage := Min(sgl[0].length, PAGE - sgl[0].offset % PAGE);
      new;
      StartRest(sgl, 0);
      assert sgl[0..] == sgl;
    }

    /** scatterwalk_start at entry k. */
    method Start(k: nat)
      requires k < |sgl|
      modifies this
      ensures Valid() && Here() == StartPos(sgl, k) && Rest() == Visited(sgl[k..]) && data == old(data)
    {
      StartRest(sgl, k);
      i, page, offset := k, sgl[k].page, sgl[k].offset;
      lenThisSegment := sgl[k].length;
      var restOfPage := PAGE - sgl[k].offset % PAGE;
      lenThisPage := Min(sgl[k].length, restOfPage);
    }

    /** scatterwalk_map */
    method Map()
      requires Valid()
      modifies this`data
      ensures data == Here().Address() && Valid() && Rest() == old(Rest()) && Here() == old(Here())
    {
      data := PAGE * page + offset;
    }

    /** scatterwalk_whichbuf: can n bytes be processed where they are? */
    method WhichBuf(n: nat) returns (direct: bool)
      requires data == Here().Address()
      ensures direct == InOnePlace(Here(), n)
    {
      direct := n <= lenThisPage && data % PAGE + n <= PAGE;
    }

    /** scatterwalk_pagedone: skip what is left of this page, if there is more to come. */
    method PageDone(more: bool)
      requires Valid() && (more ==> GoesOn(sgl, Here()))
      modifies this
      ensures Valid() && Here() == (if more then NextPart(sgl, old(Here())) else old(Here())) && data == old(data)
      ensures Rest() == if more then old(Rest())[old(lenThisPage)..] else old(Rest())
    {
      if more {
        NextPartRest(sgl, Here());
        GoesOnHow(sgl, Here());
        lenThisSegment := lenThisSegment - lenThisPage;
        if lenThisSegment != 0 {
          page := page + 1;
          lenThisPage := Min(lenThisSegment, PAGE);
          offset := 0;
        } else {
          Start(i + 1);
        }
      }
    }

    /** scatterwalk_done */
    method Done(more: bool)
      requires Valid() && (more ==> 0 < |Rest()|)
      modifies this
      ensures Valid() && Here() == Settle(sgl, old(Here()), more) && Rest() == old(Rest()) && data == old(data)
    {
      if lenThisPage == 0 || !more { PageDone(more); }
    }

    /** The last lines of scatterwalk_copychunks. */
    method Advance(n: nat)
      requires Valid() && n <= lenThisPage
      modifies this
      ensures Valid() && Rest() == old(Rest())[n..] && data == old(data)
      ensures n <= |old(Rest())| && Here() == old(After(n))
    {
      AdvancedRest(sgl, Here(), n);
      SkipWithin(sgl, Here(), n);
      offset := offset + n;
      lenThisPage := lenThisPage - n;
      lenThisSegment := lenThisSegment - n;
    }

    /** scatterwalk_copychunks between two pages, with n bytes to go: scatterwalk_pagedone and scatterwalk_map. */
    method TurnPage(n: nat)
      requires Valid() && lenThisPage < n <= |Rest()|
      modifies this
      ensures Valid() && data == PAGE * page + offset
      ensures Rest() == old(Rest())[old(lenThisPage)..] && n - old(lenThisPage) <= |Rest()|
      ensures After(n - old(lenThisPage)) == old(After(n))
      ensures 0 <= |sgl| - i <= |sgl| - old(i)
      ensures old(lenThisPage) == 0 ==> i > old(i) || offset < old(offset)
    {
      SkipBeyond(sgl, Here(), n);
      NextPartRest(sgl, Here());
      PageDone(true);
      Map();
    }
  }
}

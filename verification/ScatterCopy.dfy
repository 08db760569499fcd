/** crypto/scatterwalk.c: copying between a buffer and the bytes a walk visits. */
module ScatterCopy {
  import opened Machine
  import opened Memory
  import opened ScatterWalk

  method Memcpy(mem: array<bv8>, dst: nat, src: nat, n: nat)
    requires n > 0 ==> dst + n <= mem.Length && src + n <= mem.Length
    requires Disjoint(Span(dst, n), Span(src, n))
    modifies mem
    ensures Inside(Span(src, n), mem.Length)
    ensures Wrote(old(mem[..]), mem[..], Span(dst, n), Load(old(mem[..]), Span(src, n)))
  {
    ghost var m := mem[..];
    ghost var vals := Load(m, Span(src, n));
    var j := 0;
    while j < n
      invariant 0 <= j <= n
      invariant Wrote(m, mem[..], Span(dst, n)[..j], vals[..j])
    {
      ghost var before := mem[..];
      DisjointPart(Span(src, n), Span(dst, n), 0, j);
      LoadElsewhere(m, before, Span(dst, n)[..j], vals[..j], Span(src, n));
      assert mem[src + j] == Load(before, Span(src, n))[j] == vals[j];
      mem[dst + j] := mem[src + j];
      assert mem[..] == before[dst + j := vals[j]];
      OneMore(m, before, mem[..], Span(dst, n), vals, j);
      j := j + 1;
    }
    assert Span(dst, n)[..n] == Span(dst, n) && vals[..n] == vals;
  }

  /** Where the bytes come from and where they go: from the buffer into the list, or back. */
  ghost function Target(out: bool, buf: seq<nat>, list: seq<nat>): seq<nat> { if out then list else buf }

  /** scatterwalk_copychunks.  A buffer that is the walk's own data (`direct`) needs no copying. */
  method CopyChunks(mem: array<bv8>, walk: Walk, buf: nat, direct: bool, nbytes: nat, out: bool)
    requires walk.Valid() && walk.data == PAGE * walk.page + walk.offset && nbytes <= |walk.Rest()|
    requires walk as object != mem
    requires Inside(walk.Rest()[..nbytes], mem.Length) && buf + nbytes <= mem.Length
    requires direct ==> buf == walk.data && nbytes <= walk.lenThisPage
    requires !direct ==> Disjoint(Span(buf, nbytes), walk.Rest()[..nbytes])
    requires !direct && out ==> Distinct(walk.Rest()[..nbytes])
    modifies mem, walk
    ensures walk.Valid() && walk.Rest() == old(walk.Rest())[nbytes..]
    ensures walk.Here() == old(walk.After(nbytes))
    ensures Inside(Span(buf, nbytes), mem.Length)
    ensures direct ==> mem[..] == old(mem[..]) && old(walk.Rest())[..nbytes] == Span(buf, nbytes)
    ensures !direct ==>
              Wrote(old(mem[..]), mem[..],
                    Target(out, Span(buf, nbytes), old(walk.Rest())[..nbytes]),
                    Load(old(mem[..]), Target(!out, Span(buf, nbytes), old(walk.Rest())[..nbytes])))
  {
    hide *;
    SpanInside(buf, nbytes, mem.Length);
    ghost var rest, last := walk.Rest(), walk.After(nbytes);
    ghost var list := rest[..nbytes];
    if direct {
      DirectList(walk, nbytes);
      walk.Advance(nbytes);
      return;
    }
    ghost var m, to, from := mem[..], Target(out, Span(buf, nbytes), list), Target(!out, Span(buf, nbytes), list);
    TargetIs(out, Span(buf, nbytes), list, mem.Length);
    ghost var vals := Load(m, from);
    var done := 0;
    ValidGives(walk);
    assert rest[0..] == rest;
    assert Wrote(m, mem[..], to[..0], vals[..0]) by { NothingYet(m, to, vals); }
    while nbytes - done > walk.lenThisPage
      invariant 0 <= done <= nbytes
      invariant walk.Valid() && walk.data == PAGE * walk.page + walk.offset
      invariant walk.Rest() == rest[done..] && walk.After(nbytes - done) == last
      invariant Wrote(m, mem[..], to[..done], vals[..done])
      invariant walk.i < |walk.sgl| && |walk.Rest()| == |rest| - done
      decreases |walk.Rest()|, |walk.sgl| - walk.i, walk.offset
    {
      Slices(rest, nbytes, done, walk.lenThisPage);
      CopyPart(mem, walk, buf + done, walk.lenThisPage, out, m, buf, nbytes, done, list, to, from, vals);
      var n := walk.lenThisPage;
      walk.TurnPage(nbytes - done);
      done := done + n;
      ValidGives(walk);
    }
    Slices(rest, nbytes, done, nbytes - done);
    CopyPart(mem, walk, buf + done, nbytes - done, out, m, buf, nbytes, done, list, to, from, vals);
    walk.Advance(nbytes - done);
    assert to[..nbytes] == to && vals[..nbytes] == vals;
  }

  lemma TargetIs(out: bool, buf: seq<nat>, list: seq<nat>, size: nat)
    requires |buf| == |list| && Inside(buf, size) && Inside(list, size)
    ensures |Target(out, buf, list)| == |buf| && Inside(Target(out, buf, list), size)
    ensures |Target(!out, buf, list)| == |buf| && Inside(Target(!out, buf, list), size)
  {}

  lemma ValidGives(walk: Walk)
    requires walk.Valid()
    ensures walk.i < |walk.sgl| && walk.lenThisPage <= |walk.Rest()|
  {}

  lemma DirectList(walk: Walk, n: nat)
    requires walk.Valid() && n <= walk.lenThisPage
    ensures n <= |walk.Rest()| && walk.Rest()[..n] == Span(PAGE * walk.page + walk.offset, n)
  {
    RestStarts(walk.sgl, walk.Here(), n);
  }

  lemma NothingYet(m: seq<bv8>, to: seq<nat>, vals: seq<bv8>)
    ensures Wrote(m, m, to[..0], vals[..0])
  {}

  lemma Slices(rest: seq<nat>, nbytes: nat, done: nat, n: nat)
    requires done + n <= nbytes <= |rest|
    ensures rest[done..][..n] == rest[..nbytes][done..done + n] && rest[done..][n..] == rest[done + n..]
  {}

  /** One memcpy_dir of `n` bytes, after `done` of `nbytes` bytes. */
  method CopyPart(mem: array<bv8>, walk: Walk, at: nat, n: nat, out: bool, ghost m: seq<bv8>,
                  ghost buf: nat, ghost nbytes: nat, ghost done: nat, ghost list: seq<nat>,
                  ghost to: seq<nat>, ghost from: seq<nat>, ghost vals: seq<bv8>)
    requires walk.Valid() && walk.data == PAGE * walk.page + walk.offset && walk as object != mem
    requires n <= walk.lenThisPage && done + n <= nbytes == |list| && at == buf + done
    requires done + n <= done + |walk.Rest()| && walk.Rest()[..n] == list[done..done + n]
    requires Inside(list, mem.Length) && buf + nbytes <= mem.Length && |m| == mem.Length
    requires to == Target(out, Span(buf, nbytes), list) && from == Target(!out, Span(buf, nbytes), list)
    requires Disjoint(Span(buf, nbytes), list) && (out ==> Distinct(list)) && vals == Load(m, from)
    requires Wrote(m, mem[..], to[..done], vals[..done])
    modifies mem
    ensures Wrote(m, mem[..], to[..done + n], vals[..done + n])
  {
    hide Wrote, Distinct, Inside, Load;
    ghost var before := mem[..];
    DirectList(walk, n);
    SpanDistinct(buf, nbytes);
    SpanInside(buf, nbytes, mem.Length);
    assert Span(buf, nbytes)[done..done + n] == Span(at, n);
    assert list[done..done + n] == Span(walk.data, n);
    DisjointPart(Span(buf, nbytes), list, done, done + n);
    DisjointPart(list[done..done + n], Span(buf, nbytes), done, done + n);
    InsideSpan(walk.data, n, mem.Length, list, done);
    DisjointSwap(Span(buf, nbytes), list);
    if out { Memcpy(mem, walk.data, at, n); } else { Memcpy(mem, at, walk.data, n); }
    PartDone(m, before, mem[..], to, from, vals, done, n);
  }

  lemma InsideSpan(a: nat, n: nat, size: nat, list: seq<nat>, done: nat)
    requires done + n <= |list| && Inside(list, size) && list[done..done + n] == Span(a, n)
    ensures n > 0 ==> a + n <= size
  {
    if n > 0 { assert list[done + n - 1] == list[done..done + n][n - 1] == a + n - 1; }
  }

  lemma PartDone(m: seq<bv8>, n: seq<bv8>, o: seq<bv8>, to: seq<nat>, from: seq<nat>, vals: seq<bv8>, done: nat, k: nat)
    requires done + k <= |to| == |from| && Inside(to, |m|) && Inside(from, |m|) && vals == Load(m, from)
    requires Distinct(to) && Disjoint(to, from) && |n| == |m|
    requires Wrote(m, n, to[..done], vals[..done])
    requires Inside(from[done..done + k], |n|)
    requires Wrote(n, o, to[done..done + k], Load(n, from[done..done + k]))
    ensures Wrote(m, o, to[..done + k], vals[..done + k])
  {
    hide Wrote, Distinct, Inside, Load, Disjoint;
    DistinctParts(to, done, done + k);
    DisjointPart(to, from, done, done + k);
    DisjointPart(from[done..done + k], to, 0, done);
    LoadElsewhere(m, n, to[..done], vals[..done], from[done..done + k]);
    LoadPart(m, from, done, done + k);
    WroteBoth(m, n, o, to[..done], vals[..done], to[done..done + k], vals[done..done + k]);
    JoinParts(to, done, done + k);
    JoinParts(vals, done, done + k);
  }
}

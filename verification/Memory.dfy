/** Bytes of memory at given addresses: what reads and writes through a list of addresses do. */
module Memory {
  import opened Machine

  /** The addresses a, a + 1, ..., a + n - 1. */
  function Span(a: nat, n: nat): (s: seq<nat>)
    ensures |s| == n
  {
    seq(n, j requires 0 <= j < n => a + j)
  }

  predicate Inside(at: seq<nat>, n: nat) {
    forall t :: 0 <= t < |at| ==> at[t] < n
  }

  predicate Disjoint(a: seq<nat>, b: seq<nat>) {
    forall s, t :: 0 <= s < |a| && 0 <= t < |b| ==> a[s] != b[t]
  }

  /** The bytes at the given addresses. */
  function Load(m: Bytes, at: seq<nat>): (v: Bytes)
    requires Inside(at, |m|)
    ensures |v| == |at|
  {
    seq(|at|, t requires 0 <= t < |at| => m[at[t]])
  }

  /** `n` is `m` with `vals` at the addresses `at`, and nothing else changed. */
  ghost predicate Wrote(m: Bytes, n: Bytes, at: seq<nat>, vals: Bytes) {
    && |n| == |m| && |at| == |vals| && Inside(at, |m|)
    && (forall t :: 0 <= t < |at| ==> n[at[t]] == vals[t])
    && (forall x: nat :: x < |m| && x !in at ==> n[x] == m[x])
  }

  /** Reading addresses that were not written gives the old bytes. */
  lemma LoadElsewhere(m: Bytes, n: Bytes, at: seq<nat>, vals: Bytes, from: seq<nat>)
    requires Wrote(m, n, at, vals) && Inside(from, |m|) && Disjoint(at, from)
    ensures Load(n, from) == Load(m, from)
  {
    forall t | 0 <= t < |from| ensures n[from[t]] == m[from[t]] { assert from[t] !in at; }
  }

  lemma LoadWritten(m: Bytes, n: Bytes, at: seq<nat>, vals: Bytes)
    requires Wrote(m, n, at, vals)
    ensures Load(n, at) == vals
  {}

  /** Nothing but the bytes at the given addresses changed. */
  ghost predicate Outside(m: Bytes, n: Bytes, at: seq<nat>) {
    |n| == |m| && forall x: nat :: x < |m| && x !in at ==> n[x] == m[x]
  }

  lemma WroteOutside(m: Bytes, n: Bytes, at: seq<nat>, vals: Bytes)
    requires Wrote(m, n, at, vals)
    ensures Outside(m, n, at)
  {}

  lemma OutsideBoth(m: Bytes, n: Bytes, o: Bytes, a: seq<nat>, b: seq<nat>)
    requires Outside(m, n, a) && Outside(n, o, b)
    ensures Outside(m, o, a + b)
  {
    forall x: nat | x < |m| && x !in a + b ensures o[x] == m[x] {
      assert x !in a && x !in b;
    }
  }

  lemma LoadOutside(m: Bytes, n: Bytes, at: seq<nat>, from: seq<nat>)
    requires Outside(m, n, at) && Inside(from, |m|) && Disjoint(at, from)
    ensures Inside(from, |n|) && Load(n, from) == Load(m, from)
  {
    forall t | 0 <= t < |from| ensures n[from[t]] == m[from[t]] { assert from[t] !in at; }
  }

  lemma DisjointSwap(a: seq<nat>, b: seq<nat>)
    requires Disjoint(a, b)
    ensures Disjoint(b, a)
  {}

  /** Two writes to different addresses in a row. */
  lemma WroteBoth(m: Bytes, n: Bytes, o: Bytes, a: seq<nat>, v: Bytes, b: seq<nat>, w: Bytes)
    requires Wrote(m, n, a, v) && Wrote(n, o, b, w) && Disjoint(a, b)
    ensures Wrote(m, o, a + b, v + w)
  {
    forall t | 0 <= t < |a + b| ensures o[(a + b)[t]] == (v + w)[t] {
      if t < |a| { assert a[t] !in b; }
    }
    forall x: nat | x < |m| && x !in a + b ensures o[x] == m[x] {
      assert x !in a && x !in b;
    }
  }

  /** A write that later writes to the same addresses make irrelevant. */
  lemma WroteOver(m: Bytes, n: Bytes, o: Bytes, a: seq<nat>, v: Bytes, w: Bytes)
    requires Wrote(m, n, a, v) && Wrote(n, o, a, w)
    ensures Wrote(m, o, a, w)
  {}

  lemma DisjointPart(a: seq<nat>, b: seq<nat>, lo: nat, hi: nat)
    requires Disjoint(a, b) && lo <= hi <= |b|
    ensures Disjoint(a, b[lo..hi]) && Disjoint(b[lo..hi], a)
  {}

  lemma DistinctParts(a: seq<nat>, lo: nat, hi: nat)
    requires Distinct(a) && lo <= hi <= |a|
    ensures Disjoint(a[..lo], a[lo..hi]) && Distinct(a[lo..hi]) && Distinct(a[..lo])
  {}

  lemma JoinParts<T>(a: seq<T>, lo: nat, hi: nat)
    requires lo <= hi <= |a|
    ensures a[..lo] + a[lo..hi] == a[..hi]
  {}

  lemma LoadPart(m: Bytes, at: seq<nat>, lo: nat, hi: nat)
    requires Inside(at, |m|) && lo <= hi <= |at|
    ensures Inside(at[lo..hi], |m|) && Load(m, at[lo..hi]) == Load(m, at)[lo..hi]
  {}

  lemma LoadBoth(m: Bytes, a: seq<nat>, b: seq<nat>)
    requires Inside(a + b, |m|)
    ensures Inside(a, |m|) && Inside(b, |m|) && Load(m, a + b) == Load(m, a) + Load(m, b)
  {
    assert forall t :: 0 <= t < |a| ==> (a + b)[t] == a[t];
    assert forall t :: 0 <= t < |b| ==> (a + b)[|a| + t] == b[t];
  }

  /* ---- Runs of addresses ---- */

  lemma SpanJoin(a: nat, n: nat, m: nat)
    ensures Span(a, n) + Span(a + n, m) == Span(a, n + m)
  {}

  lemma SpanDrop(a: nat, n: nat, m: nat)
    requires m <= n
    ensures Span(a, n)[m..] == Span(a + m, n - m)
  {}

  lemma SpanHas(a: nat, n: nat, x: nat)
    ensures x in Span(a, n) <==> a <= x < a + n
  {
    if a <= x < a + n { assert Span(a, n)[x - a] == x; }
  }

  lemma SpanInside(a: nat, n: nat, size: nat)
    requires a + n <= size
    ensures Inside(Span(a, n), size)
  {}

  lemma SpanDistinct(a: nat, n: nat)
    ensures Distinct(Span(a, n))
  {}

  lemma LoadSpan(m: seq<bv8>, a: nat, n: nat)
    requires a + n <= |m|
    ensures Inside(Span(a, n), |m|) && Load(m, Span(a, n)) == m[a..a + n]
  {}

  lemma OneMore(m: seq<bv8>, n: seq<bv8>, o: seq<bv8>, at: seq<nat>, vals: seq<bv8>, j: nat)
    requires j < |at| == |vals| && Wrote(m, n, at[..j], vals[..j]) && at[j] < |n| && o == n[at[j] := vals[j]]
    requires Distinct(at)
    ensures Wrote(m, o, at[..j + 1], vals[..j + 1])
  {
    assert at[..j + 1] == at[..j] + [at[j]];
    forall x: nat | x < |m| && x !in at[..j + 1] ensures o[x] == m[x] { assert x !in at[..j] && x != at[j]; }
  }

  /** Bytes stored from address dst on. */
  method StoreBlock(mem: array<bv8>, dst: nat, vals: Bytes)
    requires dst + |vals| <= mem.Length
    modifies mem
    ensures Wrote(old(mem[..]), mem[..], Span(dst, |vals|), vals)
  {
    ghost var m := mem[..];
    var j := 0;
    while j < |vals|
      invariant 0 <= j <= |vals|
      invariant Wrote(m, mem[..], Span(dst, |vals|)[..j], vals[..j])
    {
      ghost var before := mem[..];
      mem[dst + j] := vals[j];
      assert mem[..] == before[dst + j := vals[j]];
      OneMore(m, before, mem[..], Span(dst, |vals|), vals, j);
      j := j + 1;
    }
    assert Span(dst, |vals|)[..|vals|] == Span(dst, |vals|) && vals[..|vals|] == vals;
  }

  lemma SpanWritten(m: Bytes, n: Bytes, at: nat, b: nat, y: Bytes)
    requires |y| == b && at + b <= |m| && Wrote(m, n, Span(at, b), y)
    ensures |n| == |m| && n[at..at + b] == y
  {
    LoadWritten(m, n, Span(at, b), y);
    LoadSpan(n, at, b);
  }
}

/**
 Iterated ciphers in general.  `Up` runs numbered rounds 1 to r; `Down` runs numbered rounds
 n, n - 1, ... .  If each inverse round undoes the round of the same number, possibly only on
 a `view` of the state that may depend on the round, then running down undoes running up.
 */
module Network {

  function Up<S>(round: (S, nat) -> S, s: S, r: nat): S {
    if r == 0 then s else round(Up(round, s, r - 1), r)
  }

  function Down<S>(round: (S, nat) -> S, s: S, n: nat, j: nat): S
    requires j <= n
  {
    if j == 0 then s else round(Down(round, s, n, j - 1), n - j + 1)
  }

  lemma UpZero<S>(round: (S, nat) -> S, s: S)
    ensures Up(round, s, 0) == s
  {}

  lemma DownZero<S>(round: (S, nat) -> S, s: S, n: nat)
    ensures Down(round, s, n, 0) == s
  {}

  lemma UpNext<S>(round: (S, nat) -> S, s: S, r: nat)
    requires r > 0
    ensures Up(round, s, r) == round(Up(round, s, r - 1), r)
  {}

  lemma DownNext<S>(round: (S, nat) -> S, s: S, n: nat, j: nat)
    requires 0 < j <= n
    ensures Down(round, s, n, j) == round(Down(round, s, n, j - 1), n - j + 1)
  {}

  /** The states before, between and after rounds 1 to n. */
  ghost function StatesUp<S>(round: (S, nat) -> S, s: S, n: nat): (t: seq<S>)
    ensures |t| == n + 1 && t[0] == s && t[n] == Up(round, s, n)
    ensures forall r: nat :: 0 < r <= n ==> t[r] == round(t[r - 1], r)
  {
    seq(n + 1, r requires 0 <= r <= n => Up(round, s, r))
  }

  /** The states before, between and after rounds n to 1. */
  ghost function StatesDown<S>(round: (S, nat) -> S, s: S, n: nat): (t: seq<S>)
    ensures |t| == n + 1 && t[0] == s && t[n] == Down(round, s, n, n)
    ensures forall j: nat :: 0 < j <= n ==> t[j] == round(t[j - 1], n - j + 1)
  {
    seq(n + 1, j requires 0 <= j <= n => Down(round, s, n, j))
  }

  ghost predicate Undoes<S(!new)>(inverse: (S, nat) -> S, round: (S, nat) -> S, view: (S, nat) -> S, n: nat) {
    forall s, r: nat :: 0 < r <= n ==> inverse(view(round(s, r), r), r) == view(s, r - 1)
  }

  /** The state on the way down mirrors the state on the way up. */
  lemma {:induction false} Mirror<S(!new)>(inverse: (S, nat) -> S, round: (S, nat) -> S, view: (S, nat) -> S, s: S,
                                           n: nat, j: nat)
    requires j <= n && Undoes(inverse, round, view, n)
    ensures Down(inverse, view(Up(round, s, n), n), n, j) == view(Up(round, s, n - j), n - j)
  {
    if j > 0 { Mirror(inverse, round, view, s, n, j - 1); }
  }

  /** The state itself, in every round. */
  function Plain<S>(): (S, nat) -> S { (s: S, r: nat) => s }

  /** A whole cipher: whiten, run the rounds, finish. */
  function Encrypt<S>(first: S -> S, round: (S, nat) -> S, last: S -> S, n: nat, s: S): S {
    last(Up(round, first(s), n))
  }

  function Decrypt<S>(open: S -> S, inverse: (S, nat) -> S, close: S -> S, n: nat, s: S): S {
    close(Down(inverse, open(s), n, n))
  }

  ghost predicate UndoesEnds<S(!new)>(first: S -> S, last: S -> S, view: (S, nat) -> S, open: S -> S, close: S -> S,
                                      n: nat) {
    (forall s :: open(last(s)) == view(s, n)) && (forall s :: close(view(first(s), 0)) == s)
  }

  ghost predicate SameRounds<S(!new)>(a: (S, nat) -> S, b: (S, nat) -> S) {
    forall s, r: nat :: a(s, r) == b(s, r)
  }

  ghost predicate SameEnd<S(!new)>(a: S -> S, b: S -> S) {
    forall s :: a(s) == b(s)
  }

  lemma DecryptUndoesEncrypt<S(!new)>(first: S -> S, round: (S, nat) -> S, last: S -> S, view: (S, nat) -> S,
                                      open: S -> S, inverse: (S, nat) -> S, close: S -> S, n: nat, s: S)
    requires Undoes(inverse, round, view, n)
    requires UndoesEnds(first, last, view, open, close, n)
    ensures Decrypt(open, inverse, close, n, Encrypt(first, round, last, n, s)) == s
  {
    Mirror(inverse, round, view, first(s), n, n);
  }

  lemma {:induction false} SameDown<S(!new)>(a: (S, nat) -> S, b: (S, nat) -> S, s: S, n: nat, j: nat)
    requires j <= n && SameRounds(a, b)
    ensures Down(a, s, n, j) == Down(b, s, n, j)
  {
    if j > 0 { SameDown(a, b, s, n, j - 1); }
  }

  lemma SameDecrypt<S(!new)>(open: S -> S, inverse: (S, nat) -> S, close: S -> S,
                             inverse': (S, nat) -> S, close': S -> S, n: nat, s: S)
    requires SameRounds(inverse, inverse') && SameEnd(close, close')
    ensures Decrypt(open, inverse, close, n, s) == Decrypt(open, inverse', close', n, s)
  {
    SameDown(inverse, inverse', open(s), n, n);
  }
}

/**
 The lookup tables of crypto/aes.c, built at run time by gen_tabs: logarithms and powers of
 0x03, the S-box and its inverse, the round constants, and the four rotated copies of the
 forward and inverse round tables.  A table declared [4][256] is laid out row after row.
 */
module AesTables {
  import opened Machine
  import opened Bits
  import opened Gf256
  import opened Fips197

  /** The tables as gen_tabs leaves them; nothing writes them afterwards. */
  datatype Tables = Tables(ft: seq<bv32>, it: seq<bv32>, fl: seq<bv32>, il: seq<bv32>, rco: seq<bv32>)

  method GenLogs() returns (pow: seq<bv8>, log: seq<Octet>)
    ensures PowsUpTo(pow, 256) && LogsUpTo(log, 255)
  {
    hide Slot, LogsUpTo, PowsUpTo, Times3;
    var powTab := new bv8[256];
    var logTab := new Octet[256];
    NoPowsYet(powTab[..], logTab[..]);
    var i, p := 0, 1;
    while i < 256
      invariant 0 <= i <= 256 && p == Pow(i)
      invariant PowsUpTo(powTab[..], i)
      invariant LogsUpTo(if i <= 255 then logTab[..] else logTab[..][1 := 0], if i <= 255 then i else 255)
    {
      ghost var before := logTab[..];
      PowsExtend(powTab[..], i);
      ghost var powers := powTab[..];
      powTab[i] := p;
      assert powTab[..] == powers[i := p];
      logTab[Slot(p)] := i;
      assert logTab[..] == before[Slot(p) := i];
      if i < 255 { LogsExtend(before, i); } else { LogsWrap(before); }
      p := Times3(p);
      i := i + 1;
    }
    log := logTab[..];
    logTab[1] := 0;
    assert logTab[..] == log[1 := 0];
    return powTab[..], logTab[..];
  }

  lemma NoPowsYet(pow: seq<bv8>, log: seq<Octet>)
    requires |pow| == |log| == 256
    ensures PowsUpTo(pow, 0) && LogsUpTo(log, 0)
  {}

  method GenRcon() returns (rco: seq<bv32>)
    ensures RconUpTo(rco, 10)
  {
    var rcoTab := new bv32[10];
    var i, p := 0, 1;
    while i < 10
      invariant 0 <= i <= 10 && p == Shifted(1, i)
      invariant RconUpTo(rcoTab[..], i)
    {
      ghost var before := rcoTab[..];
      rcoTab[i] := Word(p, 0, 0, 0);
      assert rcoTab[..] == before[i := Word(Shifted(1, i), 0, 0, 0)];
      p := Xtime(p);
      i := i + 1;
    }
    return rcoTab[..];
  }

  method GenSBox(pow: seq<bv8>, log: seq<Octet>) returns (sbx: seq<bv8>, isb: seq<bv8>)
    requires PowsUpTo(pow, 256) && LogsUpTo(log, 255)
    ensures SBoxUpTo(sbx, 256) && InvSBoxUpTo(isb, 256)
  {
    var sbxTab := new bv8[256];
    var isbTab := new bv8[256];
    var i, b := 0, 0;
    SlotZero();
    NoBytesYet(sbxTab[..], isbTab[..]);
    TablesSize(pow, log);
    hide *;
    while i < 256
      invariant 0 <= i <= 256 && (i < 256 ==> Slot(b) == i)
      invariant SBoxUpTo(sbxTab[..], i) && InvSBoxUpTo(isbTab[..], i)
    {
      var p := SBoxByte(pow, log, i);
      SBoxByteIsSubByte(pow, log, b);
      ghost var s, t := sbxTab[..], isbTab[..];
      sbxTab[i] := p;
      isbTab[Slot(p)] := b;
      assert sbxTab[..] == s[i := p] && isbTab[..] == t[Slot(p) := b];
      SBoxExtend(s, i, b);
      InvSBoxExtend(t, i, b);
      if i < 255 { SlotNext(b); }
      b := b + 1;
      i := i + 1;
    }
    return sbxTab[..], isbTab[..];
  }

  lemma NoBytesYet(sbx: seq<bv8>, isb: seq<bv8>)
    requires |sbx| == |isb| == 256
    ensures SBoxUpTo(sbx, 0) && InvSBoxUpTo(isb, 0)
  {}

  lemma SlotZero()
    ensures Slot(0) == 0
  {}

  lemma TablesSize(pow: seq<bv8>, log: seq<Octet>)
    requires PowsUpTo(pow, 256) && LogsUpTo(log, 255)
    ensures |pow| == |log| == 256
  {}

  /** Enter a word and its three rotations in column i of a [4][256] table. */
  method StoreColumn(t: array<bv32>, i: nat, w: bv32)
    requires t.Length == 1024 && i < 256
    modifies t
    ensures t[..] == WithColumn(old(t[..]), i, w)
  {
    t[i] := w;
    t[256 + i] := RotlBytes(w, 1);
    t[512 + i] := RotlBytes(w, 2);
    t[768 + i] := RotlBytes(w, 3);
  }

  /** Fill a [4][256] table: entry i is made from the S-box byte at i. */
  method FillTable(box: seq<bv8>, make: bv8 -> bv32, ghost entry: bv8 -> bv32) returns (t: seq<bv32>)
    requires Makes(box, make, entry)
    ensures ColumnsUpTo(t, 256, entry)
  {
    var tab := new bv32[1024];
    var i := 0;
    ghost var b := 0;
    while i < 256
      invariant 0 <= i <= 256 && (i < 256 ==> Slot(b) == i)
      invariant ColumnsUpTo(tab[..], i, entry)
    {
      ColumnsExtend(tab[..], i, b, entry);
      assert make(box[Slot(b)]) == entry(b);
      StoreColumn(tab, i, make(box[i]));
      if i < 255 { SlotNext(b); }
      b := b + 1;
      i := i + 1;
    }
    return tab[..];
  }

  method GenTabs() returns (t: Tables)
    ensures Ready(t, SBox(), InvSBox())
  {
    var pow, log := GenLogs();
    var rco := GenRcon();
    var sbx, isb := GenSBox(pow, log);
    SBoxTabulated(sbx, isb);
    t := GenRounds(pow, log, rco, sbx, isb, SBox(), InvSBox());
  }

  method GenRounds(pow: seq<bv8>, log: seq<Octet>, rco: seq<bv32>, sbx: seq<bv8>, isb: seq<bv8>,
                   ghost f: bv8 -> bv8, ghost g: bv8 -> bv8)
    returns (t: Tables)
    requires PowsUpTo(pow, 256) && LogsUpTo(log, 255) && RconUpTo(rco, 10) && Tabulates(sbx, f) && Tabulates(isb, g)
    ensures Ready(t, f, g)
  {
    LastEntriesMade(sbx, f);
    var fl := FillTable(sbx, LastWord(), LastEntry(f));
    ForwardEntriesMade(pow, log, sbx, f);
    var ft := FillTable(sbx, ForwardWord(pow, log), ForwardEntry(f));
    LastEntriesMade(isb, g);
    var il := FillTable(isb, LastWord(), LastEntry(g));
    InverseEntriesMade(pow, log, isb, g);
    var it := FillTable(isb, InverseWord(pow, log), InverseEntry(g));
    return Tables(ft, it, fl, il, rco);
  }

  /* ---- Bytes as table positions ---- */

  function Weight(a: bv8, bit: bv8, w: nat): nat { if a & bit != 0 then w else 0 }

  /** The position of a byte in a table of 256 entries: its value as a number. */
  function Slot(a: bv8): (n: nat)
    ensures n < 256
  {
    Weight(a, 1, 1) + Weight(a, 2, 2) + Weight(a, 4, 4) + Weight(a, 8, 8) +
    Weight(a, 0x10, 16) + Weight(a, 0x20, 32) + Weight(a, 0x40, 64) + Weight(a, 0x80, 128)
  }

  lemma SlotInjective(a: bv8, b: bv8)
    requires Slot(a) == Slot(b)
    ensures a == b
  {}

  lemma SlotNext(a: bv8)
    requires Slot(a) < 255
    ensures Slot(a + 1) == Slot(a) + 1
  {}

  /* ---- Logarithms ---- */

  ghost predicate PowsUpTo(pow: seq<bv8>, n: nat) {
    |pow| == 256 && n <= 256 && forall k: nat :: k < n ==> pow[k] == Pow(k)
  }

  ghost predicate LogsUpTo(log: seq<Octet>, n: nat) {
    |log| == 256 && n <= 255 && forall k: nat :: k < n ==> log[Slot(Pow(k))] == k
  }

  lemma PowsExtend(pow: seq<bv8>, i: nat)
    requires i < 256 && PowsUpTo(pow, i)
    ensures PowsUpTo(pow[i := Pow(i)], i + 1)
  {}

  /** Storing one more logarithm keeps the earlier ones. */
  lemma LogsExtend(log: seq<Octet>, i: nat)
    requires i < 255 && LogsUpTo(log, i)
    ensures LogsUpTo(log[Slot(Pow(i)) := i], i + 1)
  {
    forall k: nat | k < i ensures Slot(Pow(k)) != Slot(Pow(i)) { DistinctSlots(k, i); }
  }

  /** 3^255 falls on the slot of 3^0, which is set back to 0 afterwards. */
  lemma LogsWrap(log: seq<Octet>)
    requires LogsUpTo(log, 255)
    ensures LogsUpTo(log[Slot(Pow(255)) := 255][1 := 0], 255)
  {
    PowValues(0);
    assert Slot(1) == 1;
    forall k: nat | 0 < k < 255 ensures Slot(Pow(k)) != 1 { DistinctSlots(0, k); }
  }

  lemma DistinctPowers(k: nat, i: nat)
    requires k < i <= 255 && (i < 255 || k != 0)
    ensures Pow(k) != Pow(i)
  {
    if i < 255 {
      if Pow(k) == Pow(i) { PowInjective(k, i); }
    } else {
      PowValues(0);
      Order(k, 0);
    }
  }

  lemma DistinctSlots(k: nat, i: nat)
    requires k < i <= 255 && (i < 255 || k != 0)
    ensures Slot(Pow(k)) != Slot(Pow(i))
  {
    DistinctPowers(k, i);
    if Slot(Pow(k)) == Slot(Pow(i)) { SlotInjective(Pow(k), Pow(i)); }
  }

  /** The 8-bit sum of two logarithms, plus one if it wrapped around. */
  function LogSum(aa: int, bb: int): int {
    var cc := (aa + bb) % 256;
    cc + (if cc < aa then 1 else 0)
  }

  lemma LogSumModulo255(i: nat, j: nat)
    requires i < 256 && j < 256
    ensures 0 <= LogSum(i, j) < 256
    ensures i < 255 && j < 255 ==> Pow(LogSum(i, j)) == Pow(i + j)
  {
    if 255 < i + j { PowWrap(i + j, 0); }
  }

  /** f_mult: multiplication by adding logarithms modulo 255. */
  function FMult(pow: seq<bv8>, log: seq<Octet>, a: bv8, b: bv8): bv8
    requires |pow| == |log| == 256
  {
    var aa, bb := log[Slot(a)], log[Slot(b)];
    LogSumModulo255(aa, bb);
    pow[LogSum(aa, bb)]
  }

  /** ff_mult: f_mult, except that a zero factor gives zero. */
  function FfMult(pow: seq<bv8>, log: seq<Octet>, a: bv8, b: bv8): bv8
    requires |pow| == |log| == 256
  {
    if a != 0 && b != 0 then FMult(pow, log, a, b) else 0
  }

  lemma LogByTable(log: seq<Octet>, a: bv8)
    requires LogsUpTo(log, 255) && a != 0
    ensures log[Slot(a)] == Log(a)
  {
    assert Pow(Log(a)) == a;
  }

  lemma PowWrap(n: nat, zero: nat)
    requires n >= 255 && zero == 0
    ensures Pow(n) == Pow(n - 255)
  {
    PowValues(zero);
    PowAfterOne(255 + zero, n - 255);
  }

  lemma PowByTable(pow: seq<bv8>, k: nat)
    requires PowsUpTo(pow, 256) && k < 256
    ensures pow[k] == Pow(k)
  {}

  lemma FMultIsMul(pow: seq<bv8>, log: seq<Octet>, a: bv8, b: bv8)
    requires PowsUpTo(pow, 256) && LogsUpTo(log, 255) && a != 0 && b != 0
    ensures FMult(pow, log, a, b) == Mul(a, b)
  {
    LogByTable(log, a);
    LogByTable(log, b);
    var i, j := Log(a), Log(b);
    LogSumModulo255(i, j);
    PowByTable(pow, LogSum(i, j));
    MulPow(i, j);
  }

  /** The tables multiply in GF(2^8), for all bytes. */
  lemma FfMultIsMul(pow: seq<bv8>, log: seq<Octet>, a: bv8, b: bv8)
    requires PowsUpTo(pow, 256) && LogsUpTo(log, 255)
    ensures FfMult(pow, log, a, b) == Mul(a, b)
  {
    if a == 0 {
      ZeroMul(b, 8);
    } else if b == 0 {
      MulZero(a);
    } else {
      FMultIsMul(pow, log, a, b);
    }
  }

  lemma {:induction false} ZeroMul(b: bv8, n: nat)
    ensures MulLow(0, b, n) == 0
  {
    if n > 0 {
      ZeroMul(b, n - 1);
      assert Pick(0, Monomial(n - 1), Shifted(b, n - 1)) == 0;
      assert Xor(0, 0) == 0;
    }
  }

  /* ---- Round constants ---- */

  ghost predicate RconUpTo(rco: seq<bv32>, n: nat) {
    |rco| == 10 && n <= 10 && forall k: nat :: k < n ==> rco[k] == Word(Shifted(1, k), 0, 0, 0)
  }

  /* ---- The S-box ---- */

  ghost predicate SBoxUpTo(sbx: seq<bv8>, n: nat) {
    |sbx| == 256 && forall a :: Slot(a) < n ==> sbx[Slot(a)] == SubByte(a)
  }

  ghost predicate InvSBoxUpTo(isb: seq<bv8>, n: nat) {
    |isb| == 256 && forall a :: Slot(a) < n ==> isb[Slot(SubByte(a))] == a
  }

  /** The power table gives the inverse byte, with 0 for 0. */
  lemma InverseByTable(pow: seq<bv8>, log: seq<Octet>, b: bv8)
    requires PowsUpTo(pow, 256) && LogsUpTo(log, 255)
    ensures Slot(b) != 0 ==> b != 0 && pow[255 - log[Slot(b)]] == Inverse(b)
    ensures Slot(b) == 0 ==> Inverse(b) == 0
  {
    if b == 0 {
      assert Slot(0) == 0;
    } else {
      if Slot(b) == Slot(0) { SlotInjective(b, 0); }
      LogByTable(log, b);
      InverseUnique(b, Inverse(b));
    }
  }

  /** The S-box entry for table position i, as gen_tabs computes it. */
  function SBoxByte(pow: seq<bv8>, log: seq<Octet>, i: nat): bv8
    requires |pow| == |log| == 256 && i < 256
  {
    var p := if i != 0 then pow[255 - log[i]] else 0;
    var q := ((p >> 7) | (p << 1)) ^ ((p >> 6) | (p << 2));
    p ^ 0x63 ^ q ^ ((q >> 6) | (q << 2))
  }

  /** Two rotations and a sum of them give the affine map of section 5.1.1 of FIPS 197. */
  lemma AffineByCode(p: bv8, q: bv8)
    requires q == ((p >> 7) | (p << 1)) ^ ((p >> 6) | (p << 2))
    ensures p ^ 0x63 ^ q ^ ((q >> 6) | (q << 2)) == Affine(p)
  {}

  lemma SBoxByteIsSubByte(pow: seq<bv8>, log: seq<Octet>, b: bv8)
    requires PowsUpTo(pow, 256) && LogsUpTo(log, 255)
    ensures SBoxByte(pow, log, Slot(b)) == SubByte(b)
  {
    InverseByTable(pow, log, b);
    var p := if Slot(b) != 0 then pow[255 - log[Slot(b)]] else 0;
    AffineByCode(p, ((p >> 7) | (p << 1)) ^ ((p >> 6) | (p << 2)));
  }

  lemma SBoxExtend(sbx: seq<bv8>, n: nat, b: bv8)
    requires SBoxUpTo(sbx, n) && Slot(b) == n
    ensures SBoxUpTo(sbx[n := SubByte(b)], n + 1)
  {
    forall a | Slot(a) == n ensures a == b { SlotInjective(a, b); }
  }

  lemma SubByteSlots(a: bv8, b: bv8)
    requires Slot(SubByte(a)) == Slot(SubByte(b))
    ensures a == b
  {
    SlotInjective(SubByte(a), SubByte(b));
    InvSubByteOfSubByte(a);
    InvSubByteOfSubByte(b);
  }

  lemma InvSBoxExtend(isb: seq<bv8>, n: nat, b: bv8)
    requires InvSBoxUpTo(isb, n) && Slot(b) == n
    ensures InvSBoxUpTo(isb[Slot(SubByte(b)) := b], n + 1)
  {
    hide Slot, SubByte;
    forall a | Slot(a) < n + 1 ensures a == b || (Slot(a) < n && Slot(SubByte(a)) != Slot(SubByte(b))) {
      if Slot(a) == n { SlotInjective(a, b); }
      if Slot(SubByte(a)) == Slot(SubByte(b)) { SubByteSlots(a, b); }
    }
  }

  lemma SBoxByTable(sbx: seq<bv8>, b: bv8)
    requires SBoxUpTo(sbx, 256)
    ensures sbx[Slot(b)] == SubByte(b)
  {}

  lemma AffineOfInvAffine(b: bv8)
    ensures Affine(InvAffine(b)) == b
  {}

  lemma SubByteOfInvSubByte(a: bv8)
    ensures SubByte(InvSubByte(a)) == a
  {
    InverseInvolution(InvAffine(a));
    AffineOfInvAffine(a);
  }

  lemma InvSBoxByTable(isb: seq<bv8>, b: bv8)
    requires InvSBoxUpTo(isb, 256)
    ensures isb[Slot(b)] == InvSubByte(b)
  {
    SubByteOfInvSubByte(b);
    assert Slot(InvSubByte(b)) < 256;
  }

  /* ---- The round tables ---- */

  function WithColumn(t: seq<bv32>, i: nat, w: bv32): seq<bv32>
    requires |t| == 1024 && i < 256
  {
    t[i := w][256 + i := RotlBytes(w, 1)][512 + i := RotlBytes(w, 2)][768 + i := RotlBytes(w, 3)]
  }

  /** Table entries made from an S-box `f`. */
  function LastEntry(f: bv8 -> bv8): bv8 -> bv32 {
    (a: bv8) => Word(f(a), 0, 0, 0)
  }

  function ForwardEntry(f: bv8 -> bv8): bv8 -> bv32 {
    (a: bv8) => var s := f(a); Word(Mul(2, s), s, s, Mul(3, s))
  }

  function InverseEntry(g: bv8 -> bv8): bv8 -> bv32 {
    (a: bv8) => var s := g(a); Word(Mul(14, s), Mul(9, s), Mul(13, s), Mul(11, s))
  }

  function ForwardWord(pow: seq<bv8>, log: seq<Octet>): bv8 -> bv32
    requires |pow| == |log| == 256
  {
    (p: bv8) => Word(FfMult(pow, log, 2, p), p, p, FfMult(pow, log, 3, p))
  }

  function InverseWord(pow: seq<bv8>, log: seq<Octet>): bv8 -> bv32
    requires |pow| == |log| == 256
  {
    (p: bv8) => Word(FfMult(pow, log, 14, p), FfMult(pow, log, 9, p), FfMult(pow, log, 13, p), FfMult(pow, log, 11, p))
  }

  function LastWord(): bv8 -> bv32 {
    (p: bv8) => Word(p, 0, 0, 0)
  }

  ghost predicate Makes(box: seq<bv8>, make: bv8 -> bv32, entry: bv8 -> bv32) {
    |box| == 256 && forall b :: make(box[Slot(b)]) == entry(b)
  }

  /** `box` tabulates `f`. */
  ghost predicate Tabulates(box: seq<bv8>, f: bv8 -> bv8) {
    |box| == 256 && forall b :: box[Slot(b)] == f(b)
  }

  lemma SBoxTabulated(sbx: seq<bv8>, isb: seq<bv8>)
    requires SBoxUpTo(sbx, 256) && InvSBoxUpTo(isb, 256)
    ensures Tabulates(sbx, SBox()) && Tabulates(isb, InvSBox())
  {
    forall b ensures sbx[Slot(b)] == SBox()(b) { SBoxByTable(sbx, b); }
    forall b ensures isb[Slot(b)] == InvSBox()(b) { InvSBoxByTable(isb, b); }
  }

  lemma LastEntriesMade(box: seq<bv8>, f: bv8 -> bv8)
    requires Tabulates(box, f)
    ensures Makes(box, LastWord(), LastEntry(f))
  {}

  lemma ForwardEntriesMade(pow: seq<bv8>, log: seq<Octet>, box: seq<bv8>, f: bv8 -> bv8)
    requires PowsUpTo(pow, 256) && LogsUpTo(log, 255) && Tabulates(box, f)
    ensures Makes(box, ForwardWord(pow, log), ForwardEntry(f))
  {
    forall b ensures ForwardWord(pow, log)(box[Slot(b)]) == ForwardEntry(f)(b) {
      FfMultIsMul(pow, log, 2, f(b));
      FfMultIsMul(pow, log, 3, f(b));
    }
  }

  lemma InverseEntriesMade(pow: seq<bv8>, log: seq<Octet>, box: seq<bv8>, g: bv8 -> bv8)
    requires PowsUpTo(pow, 256) && LogsUpTo(log, 255) && Tabulates(box, g)
    ensures Makes(box, InverseWord(pow, log), InverseEntry(g))
  {
    forall b ensures InverseWord(pow, log)(box[Slot(b)]) == InverseEntry(g)(b) {
      FfMultIsMul(pow, log, 14, g(b));
      FfMultIsMul(pow, log, 9, g(b));
      FfMultIsMul(pow, log, 13, g(b));
      FfMultIsMul(pow, log, 11, g(b));
    }
  }

  /** Row j of the table holds the entries rotated left by j bytes, for all bytes below n. */
  ghost predicate ColumnsUpTo(t: seq<bv32>, n: nat, entry: bv8 -> bv32) {
    && |t| == 1024
    && forall a: bv8 :: Slot(a) < n ==>
         t[Slot(a)] == entry(a) && t[256 + Slot(a)] == RotlBytes(entry(a), 1) &&
         t[512 + Slot(a)] == RotlBytes(entry(a), 2) && t[768 + Slot(a)] == RotlBytes(entry(a), 3)
  }

  lemma ColumnsExtend(t: seq<bv32>, n: nat, b: bv8, entry: bv8 -> bv32)
    requires ColumnsUpTo(t, n, entry) && Slot(b) == n
    ensures ColumnsUpTo(WithColumn(t, n, entry(b)), n + 1, entry)
  {
    hide Slot, RotlBytes;
    forall a | Slot(a) == n ensures a == b { SlotInjective(a, b); }
  }

  lemma TableSize(t: seq<bv32>, n: nat, entry: bv8 -> bv32)
    requires ColumnsUpTo(t, n, entry)
    ensures |t| == 1024
  {}

  /** The tables for an S-box `f` and its inverse `g`. */
  ghost predicate Ready(t: Tables, f: bv8 -> bv8, g: bv8 -> bv8) {
    && RconUpTo(t.rco, 10)
    && ColumnsUpTo(t.ft, 256, ForwardEntry(f)) && ColumnsUpTo(t.it, 256, InverseEntry(g))
    && ColumnsUpTo(t.fl, 256, LastEntry(f)) && ColumnsUpTo(t.il, 256, LastEntry(g))
  }
}

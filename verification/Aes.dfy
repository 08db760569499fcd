/**
 crypto/aes.c: the key schedule and the table-driven rounds, on 32-bit words that hold one
 state column each, least significant byte first.
 */
module Aes {
  import opened Bits
  import opened Gf256
  import opened Fips197
  import opened AesTables
  import opened Network

  function Col(x: bv32): Column {
    Column(ByteOf(x, 0), ByteOf(x, 1), ByteOf(x, 2), ByteOf(x, 3))
  }

  lemma ColOfWord(b0: bv8, b1: bv8, b2: bv8, b3: bv8)
    ensures Col(Word(b0, b1, b2, b3)) == Column(b0, b1, b2, b3)
  {
    BytesOfWord(b0, b1, b2, b3);
  }

  lemma ColXor(x: bv32, y: bv32)
    ensures Col(Xor32(x, y)) == AddColumn(Col(x), Col(y))
  {
    var a, b := Col(x), Col(y);
    WordOfBytes(x);
    WordOfBytes(y);
    XorOfWords(a.b0, a.b1, a.b2, a.b3, b.b0, b.b1, b.b2, b.b3);
    ColOfWord(Xor(a.b0, b.b0), Xor(a.b1, b.b1), Xor(a.b2, b.b2), Xor(a.b3, b.b3));
  }

  /* ---- Rounds ---- */

  /** Four table lookups, one per row of the [4][256] table, and a key word. */
  function Lookup(t: seq<bv32>, b0: bv8, b1: bv8, b2: bv8, b3: bv8): bv32
    requires |t| == 1024
  {
    Xor32(Xor32(Xor32(t[Slot(b0)], t[256 + Slot(b1)]), t[512 + Slot(b2)]), t[768 + Slot(b3)])
  }

  lemma LookupEntries(t: seq<bv32>, entry: bv8 -> bv32, b0: bv8, b1: bv8, b2: bv8, b3: bv8)
    requires ColumnsUpTo(t, 256, entry)
    ensures Lookup(t, b0, b1, b2, b3)
         == Xor32(Xor32(Xor32(entry(b0), RotlBytes(entry(b1), 1)), RotlBytes(entry(b2), 2)), RotlBytes(entry(b3), 3))
  {}

  /** Four columns of a circulant matrix, added up. */
  lemma CirculantColumns(k0: bv8, k1: bv8, k2: bv8, k3: bv8, c: Column, w0: bv32, w1: bv32, w2: bv32, w3: bv32)
    requires w0 == Word(Mul(k0, c.b0), Mul(k3, c.b0), Mul(k2, c.b0), Mul(k1, c.b0))
    requires w1 == Word(Mul(k0, c.b1), Mul(k3, c.b1), Mul(k2, c.b1), Mul(k1, c.b1))
    requires w2 == Word(Mul(k0, c.b2), Mul(k3, c.b2), Mul(k2, c.b2), Mul(k1, c.b2))
    requires w3 == Word(Mul(k0, c.b3), Mul(k3, c.b3), Mul(k2, c.b3), Mul(k1, c.b3))
    ensures Col(Xor32(Xor32(Xor32(w0, RotlBytes(w1, 1)), RotlBytes(w2, 2)), RotlBytes(w3, 3)))
         == Column(Row(k0, k1, k2, k3, c), Row(k3, k0, k1, k2, c), Row(k2, k3, k0, k1, c), Row(k1, k2, k3, k0, c))
  {
    Rotl1OfWord(Mul(k0, c.b1), Mul(k3, c.b1), Mul(k2, c.b1), Mul(k1, c.b1));
    Rotl2OfWord(Mul(k0, c.b2), Mul(k3, c.b2), Mul(k2, c.b2), Mul(k1, c.b2));
    Rotl3OfWord(Mul(k0, c.b3), Mul(k3, c.b3), Mul(k2, c.b3), Mul(k1, c.b3));
    ColXor4(w0, RotlBytes(w1, 1), RotlBytes(w2, 2), RotlBytes(w3, 3));
    ColOfWord(Mul(k0, c.b0), Mul(k3, c.b0), Mul(k2, c.b0), Mul(k1, c.b0));
    ColOfWord(Mul(k1, c.b1), Mul(k0, c.b1), Mul(k3, c.b1), Mul(k2, c.b1));
    ColOfWord(Mul(k2, c.b2), Mul(k1, c.b2), Mul(k0, c.b2), Mul(k3, c.b2));
    ColOfWord(Mul(k3, c.b3), Mul(k2, c.b3), Mul(k1, c.b3), Mul(k0, c.b3));
  }

  lemma ColXor4(w0: bv32, w1: bv32, w2: bv32, w3: bv32)
    ensures Col(Xor32(Xor32(Xor32(w0, w1), w2), w3))
         == AddColumn(AddColumn(Col(w0), Col(w1)), AddColumn(Col(w2), Col(w3)))
  {
    Xor32Assoc(Xor32(w0, w1), w2, w3);
    ColXor(Xor32(w0, w1), Xor32(w2, w3));
    ColXor(w0, w1);
    ColXor(w2, w3);
  }

  lemma ForwardLookup(t: seq<bv32>, f: bv8 -> bv8, b0: bv8, b1: bv8, b2: bv8, b3: bv8)
    requires ColumnsUpTo(t, 256, ForwardEntry(f))
    ensures Col(Lookup(t, b0, b1, b2, b3)) == MixColumn(SubColumn(f, Column(b0, b1, b2, b3)))
  {
    var e := ForwardEntry(f);
    LookupEntries(t, e, b0, b1, b2, b3);
    var c := SubColumn(f, Column(b0, b1, b2, b3));
    MulByOne(c.b0); MulByOne(c.b1); MulByOne(c.b2); MulByOne(c.b3);
    CirculantColumns(2, 3, 1, 1, c, e(b0), e(b1), e(b2), e(b3));
  }

  lemma InverseLookup(t: seq<bv32>, g: bv8 -> bv8, b0: bv8, b1: bv8, b2: bv8, b3: bv8)
    requires ColumnsUpTo(t, 256, InverseEntry(g))
    ensures Col(Lookup(t, b0, b1, b2, b3)) == InvMixColumn(SubColumn(g, Column(b0, b1, b2, b3)))
  {
    var e := InverseEntry(g);
    LookupEntries(t, e, b0, b1, b2, b3);
    var c := SubColumn(g, Column(b0, b1, b2, b3));
    CirculantColumns(14, 11, 13, 9, c, e(b0), e(b1), e(b2), e(b3));
  }

  lemma MulByOne(b: bv8)
    ensures Mul(1, b) == b
  {
    MulConstants(b, Xtime(b), Xtime(Xtime(b)), Xtime(Xtime(Xtime(b))));
  }

  lemma LastColumns(c: Column)
    ensures Col(Xor32(Xor32(Xor32(Word(c.b0, 0, 0, 0), RotlBytes(Word(c.b1, 0, 0, 0), 1)),
                            RotlBytes(Word(c.b2, 0, 0, 0), 2)), RotlBytes(Word(c.b3, 0, 0, 0), 3))) == c
  {
    Rotl1OfWord(c.b1, 0, 0, 0);
    Rotl2OfWord(c.b2, 0, 0, 0);
    Rotl3OfWord(c.b3, 0, 0, 0);
    ColXor4(Word(c.b0, 0, 0, 0), Word(0, c.b1, 0, 0), Word(0, 0, c.b2, 0), Word(0, 0, 0, c.b3));
    ColOfWord(c.b0, 0, 0, 0);
    ColOfWord(0, c.b1, 0, 0);
    ColOfWord(0, 0, c.b2, 0);
    ColOfWord(0, 0, 0, c.b3);
    LanesAreColumn(c);
  }

  lemma LastLookup(t: seq<bv32>, f: bv8 -> bv8, b0: bv8, b1: bv8, b2: bv8, b3: bv8)
    requires ColumnsUpTo(t, 256, LastEntry(f))
    ensures Col(Lookup(t, b0, b1, b2, b3)) == SubColumn(f, Column(b0, b1, b2, b3))
  {
    LookupEntries(t, LastEntry(f), b0, b1, b2, b3);
    LastColumns(SubColumn(f, Column(b0, b1, b2, b3)));
  }

  /** The state held in four words. */
  function StateOf(w: seq<bv32>): State
    requires |w| == 4
  {
    State(Col(w[0]), Col(w[1]), Col(w[2]), Col(w[3]))
  }

  /** f_nround and f_lround before the key is added: row r of column n comes from column n + r. */
  function ForwardWords(t: seq<bv32>, w: seq<bv32>): seq<bv32>
    requires |t| == 1024 && |w| == 4
  {
    [Lookup(t, ByteOf(w[0], 0), ByteOf(w[1], 1), ByteOf(w[2], 2), ByteOf(w[3], 3)),
     Lookup(t, ByteOf(w[1], 0), ByteOf(w[2], 1), ByteOf(w[3], 2), ByteOf(w[0], 3)),
     Lookup(t, ByteOf(w[2], 0), ByteOf(w[3], 1), ByteOf(w[0], 2), ByteOf(w[1], 3)),
     Lookup(t, ByteOf(w[3], 0), ByteOf(w[0], 1), ByteOf(w[1], 2), ByteOf(w[2], 3))]
  }

  /** i_nround and i_lround before the key is added: row r of column n comes from column n - r. */
  function InverseWords(t: seq<bv32>, w: seq<bv32>): seq<bv32>
    requires |t| == 1024 && |w| == 4
  {
    [Lookup(t, ByteOf(w[0], 0), ByteOf(w[3], 1), ByteOf(w[2], 2), ByteOf(w[1], 3)),
     Lookup(t, ByteOf(w[1], 0), ByteOf(w[0], 1), ByteOf(w[3], 2), ByteOf(w[2], 3)),
     Lookup(t, ByteOf(w[2], 0), ByteOf(w[1], 1), ByteOf(w[0], 2), ByteOf(w[3], 3)),
     Lookup(t, ByteOf(w[3], 0), ByteOf(w[2], 1), ByteOf(w[1], 2), ByteOf(w[0], 3))]
  }

  /** The words of a state with the words of a round key added. */
  function Keyed(v: seq<bv32>, k: seq<bv32>): seq<bv32>
    requires |v| == |k| == 4
  {
    [Xor32(v[0], k[0]), Xor32(v[1], k[1]), Xor32(v[2], k[2]), Xor32(v[3], k[3])]
  }

  lemma KeyedIsAddRoundKey(v: seq<bv32>, k: seq<bv32>)
    requires |v| == |k| == 4
    ensures StateOf(Keyed(v, k)) == AddRoundKey(StateOf(v), StateOf(k))
  {
    ColXor(v[0], k[0]);
    ColXor(v[1], k[1]);
    ColXor(v[2], k[2]);
    ColXor(v[3], k[3]);
  }

  lemma ForwardWordsAre(t: seq<bv32>, f: bv8 -> bv8, w: seq<bv32>)
    requires ColumnsUpTo(t, 256, ForwardEntry(f)) && |w| == 4
    ensures StateOf(ForwardWords(t, w)) == MixColumns(Shuffled(f, StateOf(w)))
  {
    var c0, c1, c2, c3 := Col(w[0]), Col(w[1]), Col(w[2]), Col(w[3]);
    ForwardLookup(t, f, c0.b0, c1.b1, c2.b2, c3.b3);
    ForwardLookup(t, f, c1.b0, c2.b1, c3.b2, c0.b3);
    ForwardLookup(t, f, c2.b0, c3.b1, c0.b2, c1.b3);
    ForwardLookup(t, f, c3.b0, c0.b1, c1.b2, c2.b3);
  }

  lemma LastWordsAre(t: seq<bv32>, f: bv8 -> bv8, w: seq<bv32>)
    requires ColumnsUpTo(t, 256, LastEntry(f)) && |w| == 4
    ensures StateOf(ForwardWords(t, w)) == Shuffled(f, StateOf(w))
  {
    var c0, c1, c2, c3 := Col(w[0]), Col(w[1]), Col(w[2]), Col(w[3]);
    LastLookup(t, f, c0.b0, c1.b1, c2.b2, c3.b3);
    LastLookup(t, f, c1.b0, c2.b1, c3.b2, c0.b3);
    LastLookup(t, f, c2.b0, c3.b1, c0.b2, c1.b3);
    LastLookup(t, f, c3.b0, c0.b1, c1.b2, c2.b3);
  }

  lemma InverseWordsAre(t: seq<bv32>, g: bv8 -> bv8, w: seq<bv32>)
    requires ColumnsUpTo(t, 256, InverseEntry(g)) && |w| == 4
    ensures StateOf(InverseWords(t, w)) == InvMixColumns(InvShiftRows(SubBytes(g, StateOf(w))))
  {
    var c0, c1, c2, c3 := Col(w[0]), Col(w[1]), Col(w[2]), Col(w[3]);
    InverseLookup(t, g, c0.b0, c3.b1, c2.b2, c1.b3);
    InverseLookup(t, g, c1.b0, c0.b1, c3.b2, c2.b3);
    InverseLookup(t, g, c2.b0, c1.b1, c0.b2, c3.b3);
    InverseLookup(t, g, c3.b0, c2.b1, c1.b2, c0.b3);
  }

  lemma InverseLastWordsAre(t: seq<bv32>, g: bv8 -> bv8, w: seq<bv32>)
    requires ColumnsUpTo(t, 256, LastEntry(g)) && |w| == 4
    ensures StateOf(InverseWords(t, w)) == InvShiftRows(SubBytes(g, StateOf(w)))
  {
    var c0, c1, c2, c3 := Col(w[0]), Col(w[1]), Col(w[2]), Col(w[3]);
    LastLookup(t, g, c0.b0, c3.b1, c2.b2, c1.b3);
    LastLookup(t, g, c1.b0, c0.b1, c3.b2, c2.b3);
    LastLookup(t, g, c2.b0, c1.b1, c0.b2, c3.b3);
    LastLookup(t, g, c3.b0, c2.b1, c1.b2, c0.b3);
  }

  /** f_nround (with ft_tab) and f_lround (with fl_tab): write `bo` from `bi` and four key words. */
  method ForwardRound(tab: seq<bv32>, bo: array<bv32>, bi: array<bv32>, key: seq<bv32>, kp: nat)
    requires |tab| == 1024 && bo.Length == bi.Length == 4 && bo != bi && kp + 4 <= |key|
    modifies bo
    ensures bo[..] == Keyed(ForwardWords(tab, old(bi[..])), key[kp..kp + 4])
  {
    var w := bi[..];
    bo[0] := Xor32(Lookup(tab, ByteOf(w[0], 0), ByteOf(w[1], 1), ByteOf(w[2], 2), ByteOf(w[3], 3)), key[kp]);
    bo[1] := Xor32(Lookup(tab, ByteOf(w[1], 0), ByteOf(w[2], 1), ByteOf(w[3], 2), ByteOf(w[0], 3)), key[kp + 1]);
    bo[2] := Xor32(Lookup(tab, ByteOf(w[2], 0), ByteOf(w[3], 1), ByteOf(w[0], 2), ByteOf(w[1], 3)), key[kp + 2]);
    bo[3] := Xor32(Lookup(tab, ByteOf(w[3], 0), ByteOf(w[0], 1), ByteOf(w[1], 2), ByteOf(w[2], 3)), key[kp + 3]);
  }

  /** i_nround (with it_tab) and i_lround (with il_tab). */
  method InverseRound(tab: seq<bv32>, bo: array<bv32>, bi: array<bv32>, key: seq<bv32>, kp: nat)
    requires |tab| == 1024 && bo.Length == bi.Length == 4 && bo != bi && kp + 4 <= |key|
    modifies bo
    ensures bo[..] == Keyed(InverseWords(tab, old(bi[..])), key[kp..kp + 4])
  {
    var w := bi[..];
    bo[0] := Xor32(Lookup(tab, ByteOf(w[0], 0), ByteOf(w[3], 1), ByteOf(w[2], 2), ByteOf(w[1], 3)), key[kp]);
    bo[1] := Xor32(Lookup(tab, ByteOf(w[1], 0), ByteOf(w[0], 1), ByteOf(w[3], 2), ByteOf(w[2], 3)), key[kp + 1]);
    bo[2] := Xor32(Lookup(tab, ByteOf(w[2], 0), ByteOf(w[1], 1), ByteOf(w[0], 2), ByteOf(w[3], 3)), key[kp + 2]);
    bo[3] := Xor32(Lookup(tab, ByteOf(w[3], 0), ByteOf(w[2], 1), ByteOf(w[1], 2), ByteOf(w[0], 3)), key[kp + 3]);
  }

  /* ---- Blocks ---- */

  function BlockState(b: seq<bv8>): State
    requires |b| == 16
  {
    State(Column(b[0], b[1], b[2], b[3]), Column(b[4], b[5], b[6], b[7]),
          Column(b[8], b[9], b[10], b[11]), Column(b[12], b[13], b[14], b[15]))
  }

  function StateBlock(s: State): seq<bv8> {
    [s.c0.b0, s.c0.b1, s.c0.b2, s.c0.b3, s.c1.b0, s.c1.b1, s.c1.b2, s.c1.b3,
     s.c2.b0, s.c2.b1, s.c2.b2, s.c2.b3, s.c3.b0, s.c3.b1, s.c3.b2, s.c3.b3]
  }

  /** u32_in: a little-endian word of the block. */
  function U32In(b: seq<bv8>, i: nat): bv32
    requires i + 4 <= |b|
  {
    Word(b[i], b[i + 1], b[i + 2], b[i + 3])
  }

  function BlockWords(b: seq<bv8>): seq<bv32>
    requires |b| == 16
  {
    [U32In(b, 0), U32In(b, 4), U32In(b, 8), U32In(b, 12)]
  }

  lemma BlockWordsState(b: seq<bv8>)
    requires |b| == 16
    ensures StateOf(BlockWords(b)) == BlockState(b)
  {
    ColOfWord(b[0], b[1], b[2], b[3]);
    ColOfWord(b[4], b[5], b[6], b[7]);
    ColOfWord(b[8], b[9], b[10], b[11]);
    ColOfWord(b[12], b[13], b[14], b[15]);
  }

  lemma BlockOfState(s: State)
    ensures BlockState(StateBlock(s)) == s
  {}

  lemma StateOfBlock(b: seq<bv8>)
    requires |b| == 16
    ensures StateBlock(BlockState(b)) == b
  {}

  /* ---- Encryption and decryption of one block ---- */

  // E_KEY is at words 0 to 59 and D_KEY at words 60 to 119, as laid out in struct aes_ctx.

  ghost predicate ForwardKeys(e: seq<bv32>, rk: nat -> State, nr: nat) {
    |e| == 120 && nr <= 14 && forall r: nat :: r <= nr ==> StateOf(e[4 * r..4 * r + 4]) == rk(r)
  }

  ghost predicate InverseKeys(e: seq<bv32>, rk: nat -> State, nr: nat) {
    && |e| == 120 && 0 < nr <= 14 && StateOf(e[60..64]) == rk(0) && StateOf(e[4 * nr..4 * nr + 4]) == rk(nr)
    && forall r: nat :: 0 < r < nr ==> StateOf(e[60 + 4 * r..60 + 4 * r + 4]) == InvMixColumns(rk(r))
  }

  /** The table-driven rounds are the rounds of FIPS 197. */
  lemma ForwardRoundIs(t: seq<bv32>, f: bv8 -> bv8, w: seq<bv32>, k: seq<bv32>)
    requires ColumnsUpTo(t, 256, ForwardEntry(f)) && |w| == |k| == 4
    ensures StateOf(Keyed(ForwardWords(t, w), k)) == FullRound(f, StateOf(w), StateOf(k))
  {
    ForwardWordsAre(t, f, w);
    KeyedIsAddRoundKey(ForwardWords(t, w), k);
  }

  lemma LastRoundIs(t: seq<bv32>, f: bv8 -> bv8, w: seq<bv32>, k: seq<bv32>)
    requires ColumnsUpTo(t, 256, LastEntry(f)) && |w| == |k| == 4
    ensures StateOf(Keyed(ForwardWords(t, w), k)) == LastRound(f, StateOf(w), StateOf(k))
  {
    LastWordsAre(t, f, w);
    KeyedIsAddRoundKey(ForwardWords(t, w), k);
  }

  lemma InverseRoundIs(t: seq<bv32>, g: bv8 -> bv8, w: seq<bv32>, k: seq<bv32>, key: State)
    requires ColumnsUpTo(t, 256, InverseEntry(g)) && |w| == |k| == 4 && StateOf(k) == InvMixColumns(key)
    ensures StateOf(Keyed(InverseWords(t, w), k)) == EqInvRound(g, StateOf(w), key)
  {
    InverseWordsAre(t, g, w);
    KeyedIsAddRoundKey(InverseWords(t, w), k);
  }

  lemma InverseLastRoundIs(t: seq<bv32>, g: bv8 -> bv8, w: seq<bv32>, k: seq<bv32>)
    requires ColumnsUpTo(t, 256, LastEntry(g)) && |w| == |k| == 4
    ensures StateOf(Keyed(InverseWords(t, w), k)) == EqInvLastRound(g, StateOf(w), StateOf(k))
  {
    InverseLastWordsAre(t, g, w);
    KeyedIsAddRoundKey(InverseWords(t, w), k);
  }

  lemma UpStep(f: bv8 -> bv8, rk: nat -> State, s: State, r: nat)
    requires r > 0
    ensures Up(CipherRound(f, rk), s, r) == FullRound(f, Up(CipherRound(f, rk), s, r - 1), rk(r))
  {}

  lemma DownStep(g: bv8 -> bv8, rk: nat -> State, s: State, n: nat, j: nat)
    requires 0 < j <= n
    ensures Down(EqInvCipherRound(g, rk), s, n, j)
         == EqInvRound(g, Down(EqInvCipherRound(g, rk), s, n, j - 1), rk(n - j + 1))
  {}

  lemma ForwardKeyAt(e: seq<bv32>, rk: nat -> State, nr: nat, r: nat)
    requires ForwardKeys(e, rk, nr) && r <= nr
    ensures |e| == 120 && nr <= 14 && StateOf(e[4 * r..4 * r + 4]) == rk(r)
  {}

  lemma InverseKeyAt(e: seq<bv32>, rk: nat -> State, nr: nat, r: nat)
    requires InverseKeys(e, rk, nr) && 0 < r < nr
    ensures |e| == 120 && nr <= 14 && StateOf(e[60 + 4 * r..60 + 4 * r + 4]) == InvMixColumns(rk(r))
  {}

  lemma InverseKeyEnds(e: seq<bv32>, rk: nat -> State, nr: nat)
    requires InverseKeys(e, rk, nr)
    ensures |e| == 120 && nr <= 14 && StateOf(e[60..64]) == rk(0) && StateOf(e[4 * nr..4 * nr + 4]) == rk(nr)
  {}

  /** One forward round at key position kp = 4 * r, seen as round r of the cipher on `s`. */
  method EncRound(t: Tables, bo: array<bv32>, bi: array<bv32>, key: seq<bv32>, kp: nat,
                  ghost f: bv8 -> bv8, ghost rk: nat -> State, ghost nr: nat, ghost s: State, ghost r: nat)
    requires ColumnsUpTo(t.ft, 256, ForwardEntry(f)) && bo.Length == bi.Length == 4 && bo != bi
    requires ForwardKeys(key, rk, nr) && kp == 4 * r && 0 < r <= nr
    requires StateOf(bi[..]) == Up(CipherRound(f, rk), s, r - 1)
    modifies bo
    ensures StateOf(bo[..]) == Up(CipherRound(f, rk), s, r)
  {
    hide *;
    ghost var w := bi[..];
    ForwardKeyAt(key, rk, nr, r);
    TableSize(t.ft, 256, ForwardEntry(f));
    ForwardRound(t.ft, bo, bi, key, kp);
    ForwardRoundIs(t.ft, f, w, key[kp..kp + 4]);
    UpStep(f, rk, s, r);
  }

  /** The two rounds of one line pair of the source: into b1 and back into b0. */
  method EncPair(t: Tables, b0: array<bv32>, b1: array<bv32>, key: seq<bv32>, kp: nat,
                 ghost f: bv8 -> bv8, ghost rk: nat -> State, ghost nr: nat, ghost s: State, ghost r: nat)
    requires ColumnsUpTo(t.ft, 256, ForwardEntry(f)) && b0.Length == b1.Length == 4 && b0 != b1
    requires ForwardKeys(key, rk, nr) && kp == 4 * r && 0 < r < nr
    requires StateOf(b0[..]) == Up(CipherRound(f, rk), s, r - 1)
    modifies b0, b1
    ensures StateOf(b0[..]) == Up(CipherRound(f, rk), s, r + 1)
  {
    EncRound(t, b1, b0, key, kp, f, rk, nr, s, r);
    EncRound(t, b0, b1, key, kp + 4, f, rk, nr, s, r + 1);
  }

  method DecRound(t: Tables, bo: array<bv32>, bi: array<bv32>, key: seq<bv32>, kp: nat,
                  ghost g: bv8 -> bv8, ghost rk: nat -> State, ghost nr: nat, ghost s: State, ghost j: nat)
    requires ColumnsUpTo(t.it, 256, InverseEntry(g)) && bo.Length == bi.Length == 4 && bo != bi
    requires InverseKeys(key, rk, nr) && 0 < j < nr && kp == 60 + 4 * (nr - j)
    requires StateOf(bi[..]) == Down(EqInvCipherRound(g, rk), s, nr - 1, j - 1)
    modifies bo
    ensures StateOf(bo[..]) == Down(EqInvCipherRound(g, rk), s, nr - 1, j)
  {
    hide *;
    ghost var w := bi[..];
    InverseKeyAt(key, rk, nr, nr - j);
    TableSize(t.it, 256, InverseEntry(g));
    InverseRound(t.it, bo, bi, key, kp);
    InverseRoundIs(t.it, g, w, key[kp..kp + 4], rk(nr - j));
    DownStep(g, rk, s, nr - 1, j);
  }

  method DecPair(t: Tables, b0: array<bv32>, b1: array<bv32>, key: seq<bv32>, kp: nat,
                 ghost g: bv8 -> bv8, ghost rk: nat -> State, ghost nr: nat, ghost s: State, ghost j: nat)
    requires ColumnsUpTo(t.it, 256, InverseEntry(g)) && b0.Length == b1.Length == 4 && b0 != b1
    requires InverseKeys(key, rk, nr) && 0 < j < nr - 1 && kp == 60 + 4 * (nr - j)
    requires StateOf(b0[..]) == Down(EqInvCipherRound(g, rk), s, nr - 1, j - 1)
    modifies b0, b1
    ensures StateOf(b0[..]) == Down(EqInvCipherRound(g, rk), s, nr - 1, j + 1)
  {
    DecRound(t, b1, b0, key, kp, g, rk, nr, s, j);
    DecRound(t, b0, b1, key, kp - 4, g, rk, nr, s, j + 1);
  }
}

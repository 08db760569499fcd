/**
 The AES of FIPS 197, stated on its four-by-four byte state: the round transformations and
 their inverses, the key expansion, the cipher (section 5.1), the inverse cipher (section
 5.3) and the equivalent inverse cipher (section 5.3.5), with the proof that the last two
 agree and undo the first.
 */
module Fips197 {
  import opened Bits
  import opened Gf256
  import opened Network

  datatype Column = Column(b0: bv8, b1: bv8, b2: bv8, b3: bv8)
  datatype State = State(c0: Column, c1: Column, c2: Column, c3: Column)

  /* ---- SubBytes ---- */

  /** Bit i of the result is bit (i + k) mod 8 of `b`. */
  function RotR(b: bv8, k: nat): bv8
    requires 0 < k < 8
  {
    (b >> k) | (b << (8 - k))
  }

  function Affine(b: bv8): bv8 {
    b ^ RotR(b, 4) ^ RotR(b, 5) ^ RotR(b, 6) ^ RotR(b, 7) ^ 0x63
  }

  function InvAffine(b: bv8): bv8 {
    RotR(b, 2) ^ RotR(b, 5) ^ RotR(b, 7) ^ 0x05
  }

  ghost function SubByte(a: bv8): bv8 { Affine(Inverse(a)) }

  ghost function InvSubByte(a: bv8): bv8 { Inverse(InvAffine(a)) }

  lemma InvAffineOfAffine(b: bv8)
    ensures InvAffine(Affine(b)) == b
  {}

  lemma InvSubByteOfSubByte(a: bv8)
    ensures InvSubByte(SubByte(a)) == a
  {
    InvAffineOfAffine(Inverse(a));
    InverseInvolution(a);
  }

  ghost function SBox(): bv8 -> bv8 { (a: bv8) => SubByte(a) }

  ghost function InvSBox(): bv8 -> bv8 { (a: bv8) => InvSubByte(a) }

  /** The round structure below works for any S-box `f` with inverse `g`. */
  ghost predicate Inverts(g: bv8 -> bv8, f: bv8 -> bv8) {
    forall a :: g(f(a)) == a
  }

  lemma SBoxInverts()
    ensures Inverts(InvSBox(), SBox())
  {
    forall a ensures InvSBox()(SBox()(a)) == a { InvSubByteOfSubByte(a); }
  }

  function SubColumn(f: bv8 -> bv8, c: Column): Column {
    Column(f(c.b0), f(c.b1), f(c.b2), f(c.b3))
  }

  function SubBytes(f: bv8 -> bv8, s: State): State {
    State(SubColumn(f, s.c0), SubColumn(f, s.c1), SubColumn(f, s.c2), SubColumn(f, s.c3))
  }

  /* ---- ShiftRows: row r moves left by r columns ---- */

  function ShiftRows(s: State): State {
    State(Column(s.c0.b0, s.c1.b1, s.c2.b2, s.c3.b3),
          Column(s.c1.b0, s.c2.b1, s.c3.b2, s.c0.b3),
          Column(s.c2.b0, s.c3.b1, s.c0.b2, s.c1.b3),
          Column(s.c3.b0, s.c0.b1, s.c1.b2, s.c2.b3))
  }

  function InvShiftRows(s: State): State {
    State(Column(s.c0.b0, s.c3.b1, s.c2.b2, s.c1.b3),
          Column(s.c1.b0, s.c0.b1, s.c3.b2, s.c2.b3),
          Column(s.c2.b0, s.c1.b1, s.c0.b2, s.c3.b3),
          Column(s.c3.b0, s.c2.b1, s.c1.b2, s.c0.b3))
  }

  /* ---- MixColumns ---- */

  function Row(k0: bv8, k1: bv8, k2: bv8, k3: bv8, c: Column): bv8 {
    Xor(Xor(Mul(k0, c.b0), Mul(k1, c.b1)), Xor(Mul(k2, c.b2), Mul(k3, c.b3)))
  }

  function MixColumn(c: Column): Column {
    Column(Row(2, 3, 1, 1, c), Row(1, 2, 3, 1, c), Row(1, 1, 2, 3, c), Row(3, 1, 1, 2, c))
  }

  function InvMixColumn(c: Column): Column {
    Column(Row(14, 11, 13, 9, c), Row(9, 14, 11, 13, c), Row(13, 9, 14, 11, c), Row(11, 13, 9, 14, c))
  }

  function MixColumns(s: State): State {
    State(MixColumn(s.c0), MixColumn(s.c1), MixColumn(s.c2), MixColumn(s.c3))
  }

  function InvMixColumns(s: State): State {
    State(InvMixColumn(s.c0), InvMixColumn(s.c1), InvMixColumn(s.c2), InvMixColumn(s.c3))
  }

  /* ---- AddRoundKey ---- */

  function AddColumn(c: Column, d: Column): Column {
    Column(Xor(c.b0, d.b0), Xor(c.b1, d.b1), Xor(c.b2, d.b2), Xor(c.b3, d.b3))
  }

  function AddRoundKey(s: State, k: State): State {
    State(AddColumn(s.c0, k.c0), AddColumn(s.c1, k.c1), AddColumn(s.c2, k.c2), AddColumn(s.c3, k.c3))
  }

  /* ---- InvMixColumn undoes MixColumn ---- */

  lemma RowAdd(k0: bv8, k1: bv8, k2: bv8, k3: bv8, c: Column, d: Column)
    ensures Row(k0, k1, k2, k3, AddColumn(c, d)) == Xor(Row(k0, k1, k2, k3, c), Row(k0, k1, k2, k3, d))
  {
    MulLowXor(k0, c.b0, d.b0, 8);
    MulLowXor(k1, c.b1, d.b1, 8);
    MulLowXor(k2, c.b2, d.b2, 8);
    MulLowXor(k3, c.b3, d.b3, 8);
    XorSwap(Mul(k0, c.b0), Mul(k0, d.b0), Mul(k1, c.b1), Mul(k1, d.b1));
    XorSwap(Mul(k2, c.b2), Mul(k2, d.b2), Mul(k3, c.b3), Mul(k3, d.b3));
    XorSwap(Xor(Mul(k0, c.b0), Mul(k1, c.b1)), Xor(Mul(k0, d.b0), Mul(k1, d.b1)),
            Xor(Mul(k2, c.b2), Mul(k3, c.b3)), Xor(Mul(k2, d.b2), Mul(k3, d.b3)));
  }

  lemma MixColumnAdd(c: Column, d: Column)
    ensures MixColumn(AddColumn(c, d)) == AddColumn(MixColumn(c), MixColumn(d))
  {
    RowAdd(2, 3, 1, 1, c, d);
    RowAdd(1, 2, 3, 1, c, d);
    RowAdd(1, 1, 2, 3, c, d);
    RowAdd(3, 1, 1, 2, c, d);
  }

  lemma InvMixColumnAdd(c: Column, d: Column)
    ensures InvMixColumn(AddColumn(c, d)) == AddColumn(InvMixColumn(c), InvMixColumn(d))
  {
    RowAdd(14, 11, 13, 9, c, d);
    RowAdd(9, 14, 11, 13, c, d);
    RowAdd(13, 9, 14, 11, c, d);
    RowAdd(11, 13, 9, 14, c, d);
  }

  /** The four distinct entries of the product of the two circulant matrices. */
  lemma Circulant(b: bv8)
    ensures Xor(Xor(Mul(14, Mul(2, b)), Mul(11, b)), Xor(Mul(13, b), Mul(9, Mul(3, b)))) == b
    ensures Xor(Xor(Mul(9, Mul(2, b)), Mul(14, b)), Xor(Mul(11, b), Mul(13, Mul(3, b)))) == 0
    ensures Xor(Xor(Mul(13, Mul(2, b)), Mul(9, b)), Xor(Mul(14, b), Mul(11, Mul(3, b)))) == 0
    ensures Xor(Xor(Mul(11, Mul(2, b)), Mul(13, b)), Xor(Mul(9, b), Mul(14, Mul(3, b)))) == 0
  {
    var x1 := Xtime(b);
    var x2 := Xtime(x1);
    var x3 := Xtime(x2);
    var x4 := Xtime(x3);
    MulConstants(b, x1, x2, x3);
    MulConstants(x1, x2, x3, x4);
    MulLowXor(9, b, x1, 8);
    MulLowXor(13, b, x1, 8);
    MulLowXor(11, b, x1, 8);
    MulLowXor(14, b, x1, 8);
    CirculantSum0(b, x1, x2, x3, x4);
    CirculantSum1(b, x1, x2, x3, x4);
    CirculantSum2(b, x1, x2, x3, x4);
    CirculantSum3(b, x1, x2, x3, x4);
  }

  lemma CirculantSum0(b: bv8, x1: bv8, x2: bv8, x3: bv8, x4: bv8)
    requires x1 == Xtime(b) && x2 == Xtime(x1) && x3 == Xtime(x2) && x4 == Xtime(x3)
    ensures Xor(Xor(Xor(x2, Xor(x3, x4)), Xor(Xor(b, x1), x3)),
                Xor(Xor(b, Xor(x2, x3)), Xor(Xor(b, x3), Xor(x1, x4)))) == b
  {}

  lemma CirculantSum1(b: bv8, x1: bv8, x2: bv8, x3: bv8, x4: bv8)
    requires x1 == Xtime(b) && x2 == Xtime(x1) && x3 == Xtime(x2) && x4 == Xtime(x3)
    ensures Xor(Xor(Xor(x1, x4), Xor(x1, Xor(x2, x3))),
                Xor(Xor(Xor(b, x1), x3), Xor(Xor(b, Xor(x2, x3)), Xor(x1, Xor(x3, x4))))) == 0
  {}

  lemma CirculantSum2(b: bv8, x1: bv8, x2: bv8, x3: bv8, x4: bv8)
    requires x1 == Xtime(b) && x2 == Xtime(x1) && x3 == Xtime(x2) && x4 == Xtime(x3)
    ensures Xor(Xor(Xor(x1, Xor(x3, x4)), Xor(b, x3)),
                Xor(Xor(x1, Xor(x2, x3)), Xor(Xor(Xor(b, x1), x3), Xor(Xor(x1, x2), x4)))) == 0
  {}

  lemma CirculantSum3(b: bv8, x1: bv8, x2: bv8, x3: bv8, x4: bv8)
    requires x1 == Xtime(b) && x2 == Xtime(x1) && x3 == Xtime(x2) && x4 == Xtime(x3)
    ensures Xor(Xor(Xor(Xor(x1, x2), x4), Xor(b, Xor(x2, x3))),
                Xor(Xor(b, x3), Xor(Xor(x1, Xor(x2, x3)), Xor(x2, Xor(x3, x4))))) == 0
  {}

  /** Both matrices are circulant: turning the column turns the result. */
  function Turn(c: Column): Column { Column(c.b3, c.b0, c.b1, c.b2) }

  lemma RowTurn(k0: bv8, k1: bv8, k2: bv8, k3: bv8, c: Column)
    ensures Row(k3, k0, k1, k2, Turn(c)) == Row(k0, k1, k2, k3, c)
  {
    var p, q, r, t := Mul(k0, c.b0), Mul(k1, c.b1), Mul(k2, c.b2), Mul(k3, c.b3);
    XorComm(Xor(p, q), Xor(r, t));
    XorComm(r, t);
    XorSwap(t, r, p, q);
    XorComm(r, q);
  }

  lemma MixColumnTurn(c: Column)
    ensures MixColumn(Turn(c)) == Turn(MixColumn(c))
  {
    RowTurn(2, 3, 1, 1, c);
    RowTurn(1, 2, 3, 1, c);
    RowTurn(1, 1, 2, 3, c);
    RowTurn(3, 1, 1, 2, c);
  }

  lemma InvMixColumnTurn(c: Column)
    ensures InvMixColumn(Turn(c)) == Turn(InvMixColumn(c))
  {
    RowTurn(14, 11, 13, 9, c);
    RowTurn(9, 14, 11, 13, c);
    RowTurn(13, 9, 14, 11, c);
    RowTurn(11, 13, 9, 14, c);
  }

  lemma FirstLane(b: bv8)
    ensures InvMixColumn(MixColumn(Column(b, 0, 0, 0))) == Column(b, 0, 0, 0)
  {
    MulZero(1); MulZero(2); MulZero(3);
    MulConstants(b, Xtime(b), Xtime(Xtime(b)), Xtime(Xtime(Xtime(b))));
    XorZero(b); XorZero(Mul(2, b)); XorZero(Mul(3, b)); XorZero(0);
    assert MixColumn(Column(b, 0, 0, 0)) == Column(Mul(2, b), b, b, Mul(3, b));
    Circulant(b);
  }

  lemma NextLane(c: Column)
    requires InvMixColumn(MixColumn(c)) == c
    ensures InvMixColumn(MixColumn(Turn(c))) == Turn(c)
  {
    MixColumnTurn(c);
    InvMixColumnTurn(MixColumn(c));
  }

  lemma InvMixOfLane(b: bv8)
    ensures InvMixColumn(MixColumn(Column(b, 0, 0, 0))) == Column(b, 0, 0, 0)
    ensures InvMixColumn(MixColumn(Column(0, b, 0, 0))) == Column(0, b, 0, 0)
    ensures InvMixColumn(MixColumn(Column(0, 0, b, 0))) == Column(0, 0, b, 0)
    ensures InvMixColumn(MixColumn(Column(0, 0, 0, b))) == Column(0, 0, 0, b)
  {
    FirstLane(b);
    NextLane(Column(b, 0, 0, 0));
    NextLane(Column(0, b, 0, 0));
    NextLane(Column(0, 0, b, 0));
  }

  function Lanes(c: Column): Column {
    AddColumn(AddColumn(Column(c.b0, 0, 0, 0), Column(0, c.b1, 0, 0)),
              AddColumn(Column(0, 0, c.b2, 0), Column(0, 0, 0, c.b3)))
  }

  lemma LanesAreColumn(c: Column)
    ensures Lanes(c) == c
  {
    XorZero(c.b0); XorZero(c.b1); XorZero(c.b2); XorZero(c.b3); XorZero(0);
  }

  lemma InvMixOfMix(c: Column)
    ensures InvMixColumn(MixColumn(c)) == c
  {
    var d0, d1 := Column(c.b0, 0, 0, 0), Column(0, c.b1, 0, 0);
    var d2, d3 := Column(0, 0, c.b2, 0), Column(0, 0, 0, c.b3);
    LanesAreColumn(c);
    MixColumnAdd(AddColumn(d0, d1), AddColumn(d2, d3));
    MixColumnAdd(d0, d1);
    MixColumnAdd(d2, d3);
    var m0, m1, m2, m3 := MixColumn(d0), MixColumn(d1), MixColumn(d2), MixColumn(d3);
    InvMixColumnAdd(AddColumn(m0, m1), AddColumn(m2, m3));
    InvMixColumnAdd(m0, m1);
    InvMixColumnAdd(m2, m3);
    InvMixOfLane(c.b0);
    InvMixOfLane(c.b1);
    InvMixOfLane(c.b2);
    InvMixOfLane(c.b3);
  }

  /* ---- Key expansion (section 5.2) ---- */

  function RotWord(c: Column): Column { Column(c.b1, c.b2, c.b3, c.b0) }

  function Rcon(j: nat): Column
    requires j > 0
  {
    Column(Shifted(1, j - 1), 0, 0, 0)
  }

  predicate IsKey(key: seq<bv8>) { |key| == 16 || |key| == 24 || |key| == 32 }

  /** Word i of the expanded key. */
  function KeyWord(f: bv8 -> bv8, key: seq<bv8>, i: nat): Column
    requires IsKey(key)
    decreases i, 1
  {
    var nk := |key| / 4;
    if i < nk then Column(key[4 * i], key[4 * i + 1], key[4 * i + 2], key[4 * i + 3])
    else AddColumn(KeyWord(f, key, i - nk), KeyTemp(f, key, i))
  }

  /** The previous word, transformed at the multiples of Nk and, for Nk = 8, halfway between them. */
  function KeyTemp(f: bv8 -> bv8, key: seq<bv8>, i: nat): Column
    requires IsKey(key) && i >= |key| / 4
    decreases i, 0
  {
    var nk := |key| / 4;
    var temp := KeyWord(f, key, i - 1);
    if i % nk == 0 then AddColumn(SubColumn(f, RotWord(temp)), Rcon(i / nk))
    else if nk > 6 && i % nk == 4 then SubColumn(f, temp)
    else temp
  }

  function Rounds(key: seq<bv8>): nat
    requires IsKey(key)
  {
    |key| / 4 + 6
  }

  function RoundKeys(f: bv8 -> bv8, key: seq<bv8>): nat -> State
    requires IsKey(key)
  {
    (r: nat) => State(KeyWord(f, key, 4 * r), KeyWord(f, key, 4 * r + 1),
                      KeyWord(f, key, 4 * r + 2), KeyWord(f, key, 4 * r + 3))
  }

  /* ---- The ciphers ---- */

  function FullRound(f: bv8 -> bv8, s: State, k: State): State {
    AddRoundKey(MixColumns(ShiftRows(SubBytes(f, s))), k)
  }

  function LastRound(f: bv8 -> bv8, s: State, k: State): State {
    AddRoundKey(ShiftRows(SubBytes(f, s)), k)
  }

  function CipherRound(f: bv8 -> bv8, rk: nat -> State): (State, nat) -> State {
    (s: State, r: nat) => FullRound(f, s, rk(r))
  }

  function AddKey(k: State): State -> State {
    (s: State) => AddRoundKey(s, k)
  }

  function CipherEnd(f: bv8 -> bv8, k: State): State -> State {
    (s: State) => LastRound(f, s, k)
  }

  function Cipher(f: bv8 -> bv8, rk: nat -> State, nr: nat, s: State): State
    requires nr > 0
  {
    Encrypt(AddKey(rk(0)), CipherRound(f, rk), CipherEnd(f, rk(nr)), nr - 1, s)
  }

  /** Section 5.3: the inverse transformations in reverse order. */
  function InvRound(g: bv8 -> bv8, s: State, k: State): State {
    InvMixColumns(AddRoundKey(SubBytes(g, InvShiftRows(s)), k))
  }

  function InvLastRound(g: bv8 -> bv8, s: State, k: State): State {
    AddRoundKey(SubBytes(g, InvShiftRows(s)), k)
  }

  function InvCipherRound(g: bv8 -> bv8, rk: nat -> State): (State, nat) -> State {
    (s: State, r: nat) => InvRound(g, s, rk(r))
  }

  function InvCipherEnd(g: bv8 -> bv8, k: State): State -> State {
    (s: State) => InvLastRound(g, s, k)
  }

  function InvCipher(g: bv8 -> bv8, rk: nat -> State, nr: nat, s: State): State
    requires nr > 0
  {
    Decrypt(AddKey(rk(nr)), InvCipherRound(g, rk), InvCipherEnd(g, rk(0)), nr - 1, s)
  }

  /** Section 5.3.5: the steps in the order of the cipher, with transformed round keys. */
  function EqInvRound(g: bv8 -> bv8, s: State, k: State): State {
    AddRoundKey(InvMixColumns(InvShiftRows(SubBytes(g, s))), InvMixColumns(k))
  }

  function EqInvLastRound(g: bv8 -> bv8, s: State, k: State): State {
    AddRoundKey(InvShiftRows(SubBytes(g, s)), k)
  }

  function EqInvCipherRound(g: bv8 -> bv8, rk: nat -> State): (State, nat) -> State {
    (s: State, r: nat) => EqInvRound(g, s, rk(r))
  }

  function EqInvCipherEnd(g: bv8 -> bv8, k: State): State -> State {
    (s: State) => EqInvLastRound(g, s, k)
  }

  function EqInvCipher(g: bv8 -> bv8, rk: nat -> State, nr: nat, s: State): State
    requires nr > 0
  {
    Decrypt(AddKey(rk(nr)), EqInvCipherRound(g, rk), EqInvCipherEnd(g, rk(0)), nr - 1, s)
  }

  lemma InvMixColumnsOfMixColumns(s: State)
    ensures InvMixColumns(MixColumns(s)) == s
  {
    InvMixOfMix(s.c0);
    InvMixOfMix(s.c1);
    InvMixOfMix(s.c2);
    InvMixOfMix(s.c3);
  }

  lemma InvMixColumnsAdd(s: State, k: State)
    ensures InvMixColumns(AddRoundKey(s, k)) == AddRoundKey(InvMixColumns(s), InvMixColumns(k))
  {
    InvMixColumnAdd(s.c0, k.c0);
    InvMixColumnAdd(s.c1, k.c1);
    InvMixColumnAdd(s.c2, k.c2);
    InvMixColumnAdd(s.c3, k.c3);
  }

  lemma AddColumnCancel(c: Column, d: Column)
    ensures AddColumn(AddColumn(c, d), d) == c
  {
    XorCancel(c.b0, d.b0);
    XorCancel(c.b1, d.b1);
    XorCancel(c.b2, d.b2);
    XorCancel(c.b3, d.b3);
  }

  lemma AddRoundKeyCancel(s: State, k: State)
    ensures AddRoundKey(AddRoundKey(s, k), k) == s
  {
    AddColumnCancel(s.c0, k.c0);
    AddColumnCancel(s.c1, k.c1);
    AddColumnCancel(s.c2, k.c2);
    AddColumnCancel(s.c3, k.c3);
  }

  lemma ShiftAndSubCommute(g: bv8 -> bv8, s: State)
    ensures InvShiftRows(SubBytes(g, s)) == SubBytes(g, InvShiftRows(s))
  {}

  function Shuffled(f: bv8 -> bv8, s: State): State { ShiftRows(SubBytes(f, s)) }

  function ShuffledView(f: bv8 -> bv8): (State, nat) -> State { (s: State, r: nat) => Shuffled(f, s) }

  /** Undoing SubBytes and ShiftRows in the order of the equivalent inverse cipher. */
  lemma UndoShuffle(f: bv8 -> bv8, g: bv8 -> bv8, s: State)
    requires Inverts(g, f)
    ensures InvShiftRows(SubBytes(g, Shuffled(f, s))) == s
  {
    ShiftAndSubCommute(g, Shuffled(f, s));
  }

  lemma EqInvRoundUndoesRound(f: bv8 -> bv8, g: bv8 -> bv8, s: State, k: State)
    requires Inverts(g, f)
    ensures EqInvRound(g, Shuffled(f, FullRound(f, s, k)), k) == Shuffled(f, s)
  {
    UndoShuffle(f, g, FullRound(f, s, k));
    InvMixColumnsAdd(MixColumns(Shuffled(f, s)), k);
    InvMixColumnsOfMixColumns(Shuffled(f, s));
    AddRoundKeyCancel(Shuffled(f, s), InvMixColumns(k));
  }

  lemma RoundsUndo(f: bv8 -> bv8, g: bv8 -> bv8, rk: nat -> State, n: nat)
    requires Inverts(g, f)
    ensures Undoes(EqInvCipherRound(g, rk), CipherRound(f, rk), ShuffledView(f), n)
  {
    var enc, dec, view := CipherRound(f, rk), EqInvCipherRound(g, rk), ShuffledView(f);
    forall t, r: nat | r > 0 ensures dec(view(enc(t, r), r), r) == view(t, r - 1) {
      EqInvRoundUndoesRound(f, g, t, rk(r));
    }
  }

  lemma EndsUndo(f: bv8 -> bv8, g: bv8 -> bv8, k0: State, k: State, n: nat)
    requires Inverts(g, f)
    ensures UndoesEnds(AddKey(k0), CipherEnd(f, k), ShuffledView(f), AddKey(k), EqInvCipherEnd(g, k0), n)
  {
    forall s ensures AddKey(k)(CipherEnd(f, k)(s)) == ShuffledView(f)(s, n) {
      AddRoundKeyCancel(Shuffled(f, s), k);
    }
    forall s ensures EqInvCipherEnd(g, k0)(ShuffledView(f)(AddKey(k0)(s), 0)) == s {
      UndoShuffle(f, g, AddRoundKey(s, k0));
      AddRoundKeyCancel(s, k0);
    }
  }

  lemma NetworkUndone(f: bv8 -> bv8, g: bv8 -> bv8, rk: nat -> State, n: nat, k0: State, k: State, s: State)
    requires Inverts(g, f)
    ensures Decrypt(AddKey(k), EqInvCipherRound(g, rk), EqInvCipherEnd(g, k0), n,
                    Encrypt(AddKey(k0), CipherRound(f, rk), CipherEnd(f, k), n, s)) == s
  {
    RoundsUndo(f, g, rk, n);
    EndsUndo(f, g, k0, k, n);
    DecryptUndoesEncrypt(AddKey(k0), CipherRound(f, rk), CipherEnd(f, k), ShuffledView(f),
                         AddKey(k), EqInvCipherRound(g, rk), EqInvCipherEnd(g, k0), n, s);
  }

  /** For all round keys and all blocks, the equivalent inverse cipher undoes the cipher. */
  lemma EqInvCipherUndoesCipher(f: bv8 -> bv8, g: bv8 -> bv8, rk: nat -> State, nr: nat, s: State)
    requires nr > 0 && Inverts(g, f)
    ensures EqInvCipher(g, rk, nr, Cipher(f, rk, nr, s)) == s
  {
    NetworkUndone(f, g, rk, nr - 1, rk(0), rk(nr), s);
  }

  lemma EqInvRoundIsInvRound(g: bv8 -> bv8, s: State, k: State)
    ensures EqInvRound(g, s, k) == InvRound(g, s, k)
  {
    ShiftAndSubCommute(g, s);
    InvMixColumnsAdd(SubBytes(g, InvShiftRows(s)), k);
  }

  lemma EqInvStepsAgree(g: bv8 -> bv8, rk: nat -> State, k: State)
    ensures SameRounds(EqInvCipherRound(g, rk), InvCipherRound(g, rk))
    ensures SameEnd(EqInvCipherEnd(g, k), InvCipherEnd(g, k))
  {
    forall s, r: nat ensures EqInvCipherRound(g, rk)(s, r) == InvCipherRound(g, rk)(s, r) {
      EqInvRoundIsInvRound(g, s, rk(r));
    }
    forall s ensures EqInvCipherEnd(g, k)(s) == InvCipherEnd(g, k)(s) { ShiftAndSubCommute(g, s); }
  }

  /** The equivalent inverse cipher is the inverse cipher, on every block. */
  lemma EqInvCipherIsInvCipher(g: bv8 -> bv8, rk: nat -> State, nr: nat, s: State)
    requires nr > 0
    ensures EqInvCipher(g, rk, nr, s) == InvCipher(g, rk, nr, s)
  {
    EqInvStepsAgree(g, rk, rk(0));
    SameDecrypt(AddKey(rk(nr)), EqInvCipherRound(g, rk), EqInvCipherEnd(g, rk(0)),
                InvCipherRound(g, rk), InvCipherEnd(g, rk(0)), nr - 1, s);
  }
}

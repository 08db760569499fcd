/** crypto/aes.c: expansion of the key into E_KEY and D_KEY. */
module AesKey {
  import opened Bits
  import opened Gf256
  import opened Fips197
  import opened AesTables
  import opened Aes

  /* ---- imix_col ---- */

  /** star_x: doubles the four bytes of a word at once. */
  function StarX(x: bv32): bv32 {
    ((x & 0x7f7f7f7f) << 1) ^ (((x & 0x80808080) >> 7) * 0x1b)
  }

  function XtimeColumn(c: Column): Column {
    Column(Xtime(c.b0), Xtime(c.b1), Xtime(c.b2), Xtime(c.b3))
  }

  lemma StarX0(x: bv32) ensures ByteOf(StarX(x), 0) == Xtime(ByteOf(x, 0)) {}

  lemma StarX1(x: bv32) ensures ByteOf(StarX(x), 1) == Xtime(ByteOf(x, 1)) {}

  lemma StarX2(x: bv32) ensures ByteOf(StarX(x), 2) == Xtime(ByteOf(x, 2)) {}

  lemma StarX3(x: bv32) ensures ByteOf(StarX(x), 3) == Xtime(ByteOf(x, 3)) {}

  lemma StarXDoubles(x: bv32)
    ensures Col(StarX(x)) == XtimeColumn(Col(x))
  {
    hide StarX, ByteOf;
    StarX0(x); StarX1(x); StarX2(x); StarX3(x);
  }

  lemma Rotr1Column(x: bv32)
    ensures Col(RotlBytes(x, 3)) == RotWord(Col(x))
  {
    WordOfBytes(x);
    Rotl3OfWord(ByteOf(x, 0), ByteOf(x, 1), ByteOf(x, 2), ByteOf(x, 3));
    ColOfWord(ByteOf(x, 1), ByteOf(x, 2), ByteOf(x, 3), ByteOf(x, 0));
  }

  lemma Rotr2Column(x: bv32)
    ensures Col(RotlBytes(x, 2)) == RotWord(RotWord(Col(x)))
  {
    WordOfBytes(x);
    Rotl2OfWord(ByteOf(x, 0), ByteOf(x, 1), ByteOf(x, 2), ByteOf(x, 3));
    ColOfWord(ByteOf(x, 2), ByteOf(x, 3), ByteOf(x, 0), ByteOf(x, 1));
  }

  lemma Rotr3Column(x: bv32)
    ensures Col(RotlBytes(x, 1)) == RotWord(RotWord(RotWord(Col(x))))
  {
    WordOfBytes(x);
    Rotl1OfWord(ByteOf(x, 0), ByteOf(x, 1), ByteOf(x, 2), ByteOf(x, 3));
    ColOfWord(ByteOf(x, 3), ByteOf(x, 0), ByteOf(x, 1), ByteOf(x, 2));
  }

  /** imix_col, with rotations to the right written as rotations to the left. */
  function ImixCol(x: bv32): bv32 {
    var u := StarX(x);
    var v := StarX(u);
    var w := StarX(v);
    var t := Xor32(w, x);
    Xor32(Xor32(Xor32(Xor32(Xor32(u, v), w), RotlBytes(Xor32(u, t), 3)), RotlBytes(Xor32(v, t), 2)), RotlBytes(t, 1))
  }

  function MulColumn(k: bv8, c: Column): Column {
    Column(Mul(k, c.b0), Mul(k, c.b1), Mul(k, c.b2), Mul(k, c.b3))
  }

  lemma MulBytes(b: bv8)
    ensures var u := Xtime(b); var v := Xtime(u); var w := Xtime(v);
            Mul(14, b) == Xor(Xor(u, v), w) && Mul(11, b) == Xor(u, Xor(w, b)) &&
            Mul(13, b) == Xor(v, Xor(w, b)) && Mul(9, b) == Xor(w, b)
  {
    var u := Xtime(b); var v := Xtime(u); var w := Xtime(v);
    MulConstants(b, u, v, w);
    XorAssoc(u, v, w);
    XorComm(b, w);
    XorComm(b, u); XorAssoc(u, b, w);
    XorComm(b, Xor(v, w)); XorAssoc(v, w, b);
  }

  lemma MulColumns(c: Column)
    ensures var u := XtimeColumn(c); var v := XtimeColumn(u); var w := XtimeColumn(v);
            MulColumn(14, c) == AddColumn(AddColumn(u, v), w) && MulColumn(11, c) == AddColumn(u, AddColumn(w, c)) &&
            MulColumn(13, c) == AddColumn(v, AddColumn(w, c)) && MulColumn(9, c) == AddColumn(w, c)
  {
    MulBytes(c.b0); MulBytes(c.b1); MulBytes(c.b2); MulBytes(c.b3);
  }

  lemma InvMixByRotations(c: Column)
    ensures InvMixColumn(c)
         == AddColumn(AddColumn(MulColumn(14, c), RotWord(MulColumn(11, c))),
                      AddColumn(RotWord(RotWord(MulColumn(13, c))), RotWord(RotWord(RotWord(MulColumn(9, c))))))
  {
    TurnRow(c.b0, c.b1, c.b2, c.b3);
    TurnRow(c.b1, c.b2, c.b3, c.b0);
    TurnRow(c.b2, c.b3, c.b0, c.b1);
    TurnRow(c.b3, c.b0, c.b1, c.b2);
  }

  /** The four orders in which the rows of InvMixColumns list the same four products. */
  lemma TurnRow(x0: bv8, x1: bv8, x2: bv8, x3: bv8)
    ensures Xor(Xor(Mul(14, x0), Mul(11, x1)), Xor(Mul(13, x2), Mul(9, x3)))
         == Xor(Xor(Mul(9, x3), Mul(14, x0)), Xor(Mul(11, x1), Mul(13, x2)))
         == Xor(Xor(Mul(13, x2), Mul(9, x3)), Xor(Mul(14, x0), Mul(11, x1)))
         == Xor(Xor(Mul(11, x1), Mul(13, x2)), Xor(Mul(9, x3), Mul(14, x0)))
  {
    TurnSum(Mul(14, x0), Mul(11, x1), Mul(13, x2), Mul(9, x3));
  }

  lemma TurnSum(p: bv8, q: bv8, r: bv8, s: bv8)
    ensures Xor(Xor(p, q), Xor(r, s)) == Xor(Xor(s, p), Xor(q, r))
         == Xor(Xor(r, s), Xor(p, q)) == Xor(Xor(q, r), Xor(s, p))
  {
    XorComm(Xor(p, q), Xor(r, s));
    XorComm(Xor(s, p), Xor(q, r));
    XorComm(r, s);
    XorSwap(s, r, p, q);
    XorComm(r, q);
  }

  /** imix_col is InvMixColumn. */
  lemma ImixColIs(x: bv32)
    ensures Col(ImixCol(x)) == InvMixColumn(Col(x))
  {
    hide *;
    var u := StarX(x); var v := StarX(u); var w := StarX(v); var t := Xor32(w, x);
    StarXDoubles(x); StarXDoubles(u); StarXDoubles(v);
    ColXor(w, x); ColXor(u, t); ColXor(v, t); ColXor(u, v); ColXor(Xor32(u, v), w);
    Rotr1Column(Xor32(u, t)); Rotr2Column(Xor32(v, t)); Rotr3Column(t);
    MulColumns(Col(x));
    InvMixByRotations(Col(x));
    ColXor4(Xor32(Xor32(u, v), w), RotlBytes(Xor32(u, t), 3), RotlBytes(Xor32(v, t), 2), RotlBytes(t, 1));
    ImixColUnfolds(x, u, v, w, t);
  }

  lemma ImixColUnfolds(x: bv32, u: bv32, v: bv32, w: bv32, t: bv32)
    requires u == StarX(x) && v == StarX(u) && w == StarX(v) && t == Xor32(w, x)
    ensures ImixCol(x) == Xor32(Xor32(Xor32(Xor32(Xor32(u, v), w), RotlBytes(Xor32(u, t), 3)),
                                      RotlBytes(Xor32(v, t), 2)), RotlBytes(t, 1))
  {
    hide StarX, Xor32, RotlBytes;
  }

  /* ---- E_KEY ---- */

  /** The first n words hold the first n words of the expanded key.  `e` is E_KEY followed by D_KEY. */
  ghost predicate KeysUpTo(e: seq<bv32>, f: bv8 -> bv8, key: seq<bv8>, n: nat) {
    IsKey(key) && |e| == 120 && n <= 64 && forall i: nat :: i < n ==> Col(e[i]) == KeyWord(f, key, i)
  }

  lemma KeyAt(e: seq<bv32>, f: bv8 -> bv8, key: seq<bv8>, n: nat, i: nat)
    requires KeysUpTo(e, f, key, n) && i < n
    ensures |e| == 120 && Col(e[i]) == KeyWord(f, key, i)
  {}

  lemma KeysExtend(e: seq<bv32>, f: bv8 -> bv8, key: seq<bv8>, n: nat, x: bv32)
    requires KeysUpTo(e, f, key, n) && n < 64 && Col(x) == KeyWord(f, key, n)
    ensures KeysUpTo(e[n := x], f, key, n + 1)
  {
    hide KeyWord, Col;
  }

  lemma KeyWordIs(f: bv8 -> bv8, key: seq<bv8>, i: nat)
    requires IsKey(key) && i >= |key| / 4
    ensures KeyWord(f, key, i) == AddColumn(KeyWord(f, key, i - |key| / 4), KeyTemp(f, key, i))
  {}

  /** Away from the special positions, the word to add is the previous one. */
  lemma PlainTemp(f: bv8 -> bv8, key: seq<bv8>, i: nat)
    requires IsKey(key) && i >= |key| / 4 && i % (|key| / 4) != 0 && (|key| != 32 || i % 8 != 4)
    ensures KeyTemp(f, key, i) == KeyWord(f, key, i - 1)
  {}

  lemma MiddleTemp(f: bv8 -> bv8, key: seq<bv8>, i: nat)
    requires |key| == 32 && i >= 8 && i % 8 == 4
    ensures KeyTemp(f, key, i) == SubColumn(f, KeyWord(f, key, i - 1))
  {}

  lemma CoreTemp(f: bv8 -> bv8, key: seq<bv8>, nk: nat, i: nat)
    requires IsKey(key) && nk == |key| / 4
    ensures KeyTemp(f, key, nk * (i + 1))
         == AddColumn(SubColumn(f, RotWord(KeyWord(f, key, nk * (i + 1) - 1))), Rcon(i + 1))
  {
    Multiple(nk, i);
    CoreTempAt(f, key, nk * (i + 1));
  }

  lemma CoreTempAt(f: bv8 -> bv8, key: seq<bv8>, n: nat)
    requires IsKey(key) && n >= |key| / 4 && n % (|key| / 4) == 0
    ensures KeyTemp(f, key, n) == AddColumn(SubColumn(f, RotWord(KeyWord(f, key, n - 1))), Rcon(n / (|key| / 4)))
  {}

  lemma Multiple(nk: nat, i: nat)
    requires nk == 4 || nk == 6 || nk == 8
    ensures (nk * (i + 1)) % nk == 0 && (nk * (i + 1)) / nk == i + 1 && nk * (i + 1) >= nk
  {}

  /** ls_box substitutes the four bytes of a word. */
  function LsBox(fl: seq<bv32>, x: bv32): bv32
    requires |fl| == 1024
  {
    Lookup(fl, ByteOf(x, 0), ByteOf(x, 1), ByteOf(x, 2), ByteOf(x, 3))
  }

  lemma LsBoxSubstitutes(fl: seq<bv32>, f: bv8 -> bv8, x: bv32)
    requires ColumnsUpTo(fl, 256, LastEntry(f))
    ensures |fl| == 1024 && Col(LsBox(fl, x)) == SubColumn(f, Col(x))
  {
    LastLookup(fl, f, ByteOf(x, 0), ByteOf(x, 1), ByteOf(x, 2), ByteOf(x, 3));
  }

  /** What the key expansion needs of the tables. */
  ghost predicate KeyTables(t: Tables, f: bv8 -> bv8) {
    RconUpTo(t.rco, 10) && ColumnsUpTo(t.fl, 256, LastEntry(f))
  }

  lemma KeyTablesGive(t: Tables, f: bv8 -> bv8)
    requires KeyTables(t, f)
    ensures ColumnsUpTo(t.fl, 256, LastEntry(f)) && |t.fl| == 1024 && |t.rco| == 10
  {}

  lemma RconColumn(t: Tables, f: bv8 -> bv8, i: nat)
    requires KeyTables(t, f) && i < 10
    ensures |t.rco| == 10 && Col(t.rco[i]) == Rcon(i + 1)
  {
    ColOfWord(Shifted(1, i), 0, 0, 0);
  }

  /** The first line of loop4, loop6 and loop8: rotate, substitute, add the round constant. */
  method Core(t: Tables, x: bv32, i: nat, ghost f: bv8 -> bv8, ghost key: seq<bv8>, ghost nk: nat, ghost n: nat)
    returns (y: bv32)
    requires KeyTables(t, f) && i < 10 && IsKey(key) && nk == |key| / 4
    requires n == nk * (i + 1) && n >= nk && Col(x) == KeyWord(f, key, n - 1)
    ensures Col(y) == KeyTemp(f, key, n)
  {
    hide *;
    KeyTablesGive(t, f);
    CoreTemp(f, key, nk, i);
    RconColumn(t, f, i);
    var r := RotlBytes(x, 3);
    Rotr1Column(x);
    LsBoxSubstitutes(t.fl, f, r);
    y := Xor32(LsBox(t.fl, r), t.rco[i]);
    ColXor(LsBox(t.fl, r), t.rco[i]);
  }

  /** One `t ^= E_KEY[n - nk]; E_KEY[n] = t`. */
  method Step(ed: array<bv32>, nk: nat, n: nat, x: bv32, ghost f: bv8 -> bv8, ghost key: seq<bv8>) returns (y: bv32)
    requires KeysUpTo(ed[..], f, key, n) && nk == |key| / 4 && nk <= n < 64
    requires Col(x) == KeyTemp(f, key, n)
    modifies ed
    ensures KeysUpTo(ed[..], f, key, n + 1) && Col(y) == KeyWord(f, key, n)
  {
    hide *;
    ghost var e := ed[..];
    KeysSize(e, f, key, n);
    KeyAt(e, f, key, n, n - nk);
    y := Xor32(x, ed[n - nk]);
    Xor32Comm(x, ed[n - nk]);
    ColXor(ed[n - nk], x);
    KeyWordIs(f, key, n);
    KeysExtend(e, f, key, n, y);
    ed[n] := y;
    assert ed[..] == e[n := y];
  }

  lemma KeySize(key: seq<bv8>)
    ensures IsKey(key) <==> |key| == 16 || |key| == 24 || |key| == 32
  {}

  lemma KeysSize(e: seq<bv32>, f: bv8 -> bv8, key: seq<bv8>, n: nat)
    requires KeysUpTo(e, f, key, n)
    ensures |e| == 120 && IsKey(key) && 16 <= |key| <= 32
  {}

  /** A Step away from the special positions, continuing from the previous word. */
  method Next(ed: array<bv32>, nk: nat, n: nat, x: bv32, ghost f: bv8 -> bv8, ghost key: seq<bv8>) returns (y: bv32)
    requires KeysUpTo(ed[..], f, key, n) && nk == |key| / 4 && nk <= n < 64
    requires n % nk != 0 && (nk != 8 || n % 8 != 4)
    requires Col(x) == KeyWord(f, key, n - 1)
    modifies ed
    ensures KeysUpTo(ed[..], f, key, n + 1) && Col(y) == KeyWord(f, key, n)
  {
    PlainTemp(f, key, n);
    y := Step(ed, nk, n, x, f, key);
  }

  method Loop4(t: Tables, ed: array<bv32>, i: nat, x: bv32, ghost f: bv8 -> bv8, ghost key: seq<bv8>) returns (y: bv32)
    requires KeyTables(t, f) && |key| == 16 && i < 10
    requires KeysUpTo(ed[..], f, key, 4 * i + 4) && Col(x) == KeyWord(f, key, 4 * i + 3)
    modifies ed
    ensures KeysUpTo(ed[..], f, key, 4 * i + 8) && Col(y) == KeyWord(f, key, 4 * i + 7)
  {
    hide *;
    KeySize(key);
    y := Core(t, x, i, f, key, 4, 4 * i + 4);
    y := Step(ed, 4, 4 * i + 4, y, f, key);
    y := Next(ed, 4, 4 * i + 5, y, f, key);
    y := Next(ed, 4, 4 * i + 6, y, f, key);
    y := Next(ed, 4, 4 * i + 7, y, f, key);
  }

  method Loop6(t: Tables, ed: array<bv32>, i: nat, x: bv32, ghost f: bv8 -> bv8, ghost key: seq<bv8>) returns (y: bv32)
    requires KeyTables(t, f) && |key| == 24 && i < 8
    requires KeysUpTo(ed[..], f, key, 6 * i + 6) && Col(x) == KeyWord(f, key, 6 * i + 5)
    modifies ed
    ensures KeysUpTo(ed[..], f, key, 6 * i + 12) && Col(y) == KeyWord(f, key, 6 * i + 11)
  {
    hide *;
    KeySize(key);
    y := Core(t, x, i, f, key, 6, 6 * i + 6);
    y := Step(ed, 6, 6 * i + 6, y, f, key);
    y := Next(ed, 6, 6 * i + 7, y, f, key);
    y := Next(ed, 6, 6 * i + 8, y, f, key);
    y := Next(ed, 6, 6 * i + 9, y, f, key);
    y := Next(ed, 6, 6 * i + 10, y, f, key);
    y := Next(ed, 6, 6 * i + 11, y, f, key);
  }

  /** The last four words of loop8(6) land in D_KEY[0..4]. */
  method Loop8(t: Tables, ed: array<bv32>, i: nat, x: bv32, ghost f: bv8 -> bv8, ghost key: seq<bv8>) returns (y: bv32)
    requires KeyTables(t, f) && |key| == 32 && i < 7
    requires KeysUpTo(ed[..], f, key, 8 * i + 8) && Col(x) == KeyWord(f, key, 8 * i + 7)
    modifies ed
    ensures KeysUpTo(ed[..], f, key, 8 * i + 16) && Col(y) == KeyWord(f, key, 8 * i + 15)
  {
    hide *;
    KeySize(key);
    y := Core(t, x, i, f, key, 8, 8 * i + 8);
    y := Step(ed, 8, 8 * i + 8, y, f, key);
    y := NextThree(ed, 8 * i + 9, y, f, key);
    KeyTablesGive(t, f);
    LsBoxSubstitutes(t.fl, f, y);
    MiddleTemp(f, key, 8 * i + 12);
    y := Step(ed, 8, 8 * i + 12, LsBox(t.fl, y), f, key);
    y := NextThree(ed, 8 * i + 13, y, f, key);
  }

  method NextThree(ed: array<bv32>, n: nat, x: bv32, ghost f: bv8 -> bv8, ghost key: seq<bv8>) returns (y: bv32)
    requires |key| == 32 && 8 < n < 62 && n % 4 == 1
    requires KeysUpTo(ed[..], f, key, n) && Col(x) == KeyWord(f, key, n - 1)
    modifies ed
    ensures KeysUpTo(ed[..], f, key, n + 3) && Col(y) == KeyWord(f, key, n + 2)
  {
    hide *;
    y := Next(ed, 8, n, x, f, key);
    y := Next(ed, 8, n + 1, y, f, key);
    y := Next(ed, 8, n + 2, y, f, key);
  }

  /* ---- aes_set_key ---- */

  lemma FirstKeyWord(f: bv8 -> bv8, key: seq<bv8>, i: nat)
    requires IsKey(key) && i < |key| / 4
    ensures Col(U32In(key, 4 * i)) == KeyWord(f, key, i)
  {
    ColOfWord(key[4 * i], key[4 * i + 1], key[4 * i + 2], key[4 * i + 3]);
  }

  /** One `E_KEY[n] = u32_in(in_key + 4 * n)`. */
  method Put(ed: array<bv32>, key: seq<bv8>, n: nat, ghost f: bv8 -> bv8)
    requires IsKey(key) && n < |key| / 4 && KeysUpTo(ed[..], f, key, n)
    modifies ed
    ensures KeysUpTo(ed[..], f, key, n + 1)
  {
    ghost var e := ed[..];
    var x := U32In(key, 4 * n);
    FirstKeyWord(f, key, n);
    KeysExtend(e, f, key, n, x);
    ed[n] := x;
    assert ed[..] == e[n := x];
  }

  /** Copies the key itself; `x` is the last word copied. */
  method LoadKey(ed: array<bv32>, key: seq<bv8>, ghost f: bv8 -> bv8) returns (x: bv32)
    requires ed.Length == 120 && IsKey(key)
    modifies ed
    ensures KeysUpTo(ed[..], f, key, |key| / 4) && Col(x) == KeyWord(f, key, |key| / 4 - 1)
  {
    NoKeys(ed[..], f, key);
    hide *;
    KeySize(key);
    Put(ed, key, 0, f);
    Put(ed, key, 1, f);
    Put(ed, key, 2, f);
    Put(ed, key, 3, f);
    if |key| > 16 {
      Put(ed, key, 4, f);
      Put(ed, key, 5, f);
      if |key| > 24 {
        Put(ed, key, 6, f);
        Put(ed, key, 7, f);
      }
    }
    KeyAt(ed[..], f, key, |key| / 4, |key| / 4 - 1);
    x := ed[|key| / 4 - 1];
  }

  lemma NoKeys(e: seq<bv32>, f: bv8 -> bv8, key: seq<bv8>)
    requires |e| == 120 && IsKey(key)
    ensures KeysUpTo(e, f, key, 0)
  {}

  lemma ReadyForKeys(t: Tables, f: bv8 -> bv8, g: bv8 -> bv8)
    requires Ready(t, f, g)
    ensures KeyTables(t, f)
  {}

  /** Fills E_KEY: all 4 (Nr + 1) words of the expanded key. */
  method Expand(t: Tables, ed: array<bv32>, key: seq<bv8>, ghost f: bv8 -> bv8)
    requires ed.Length == 120 && IsKey(key) && KeyTables(t, f)
    modifies ed
    ensures KeysUpTo(ed[..], f, key, 4 * (Rounds(key) + 1))
  {
    var x := LoadKey(ed, key, f);
    var i := 0;
    if |key| == 16 {
      while i < 10
        invariant 0 <= i <= 10 && KeysUpTo(ed[..], f, key, 4 * i + 4) && Col(x) == KeyWord(f, key, 4 * i + 3)
      {
        x := Loop4(t, ed, i, x, f, key);
        i := i + 1;
      }
    } else if |key| == 24 {
      while i < 8
        invariant 0 <= i <= 8 && KeysUpTo(ed[..], f, key, 6 * i + 6) && Col(x) == KeyWord(f, key, 6 * i + 5)
      {
        x := Loop6(t, ed, i, x, f, key);
        i := i + 1;
      }
      KeysFewer(ed[..], f, key, 54, 52);
    } else {
      while i < 7
        invariant 0 <= i <= 7 && KeysUpTo(ed[..], f, key, 8 * i + 8) && Col(x) == KeyWord(f, key, 8 * i + 7)
      {
        x := Loop8(t, ed, i, x, f, key);
        i := i + 1;
      }
      KeysFewer(ed[..], f, key, 64, 60);
    }
  }

  lemma KeysFewer(e: seq<bv32>, f: bv8 -> bv8, key: seq<bv8>, n: nat, m: nat)
    requires KeysUpTo(e, f, key, n) && m <= n
    ensures KeysUpTo(e, f, key, m)
  {}

  /** D_KEY[0..4] is E_KEY[0..4]; D_KEY[i] is E_KEY[i] through InvMixColumn for 4 <= i < n. */
  ghost predicate DKeysUpTo(e: seq<bv32>, n: nat) {
    && |e| == 120 && n <= 56
    && (forall i: nat :: i < 4 && i < n ==> DKey(e, i) == e[i])
    && (forall i: nat :: 4 <= i < n ==> Col(DKey(e, i)) == InvMixColumn(Col(e[i])))
  }

  function DKey(e: seq<bv32>, i: nat): bv32
    requires |e| == 120 && i < 60
  {
    e[60 + i]
  }

  lemma DKeysExtend(e: seq<bv32>, n: nat, x: bv32)
    requires DKeysUpTo(e, n) && n < 56
    requires if n < 4 then x == e[n] else Col(x) == InvMixColumn(Col(e[n]))
    ensures DKeysUpTo(e[60 + n := x], n + 1)
  {
    hide Col, InvMixColumn;
  }

  lemma ForwardWordsUntouched(e: seq<bv32>, f: bv8 -> bv8, key: seq<bv8>, n: nat, k: nat, x: bv32)
    requires KeysUpTo(e, f, key, n) && n <= k < 120
    ensures KeysUpTo(e[k := x], f, key, n)
  {
    hide Col, KeyWord;
  }

  /** One word of D_KEY. */
  method PutInverse(ed: array<bv32>, i: nat, x: bv32, ghost f: bv8 -> bv8, ghost key: seq<bv8>)
    requires IsKey(key) && i < 56 && KeysUpTo(ed[..], f, key, 4 * (Rounds(key) + 1)) && DKeysUpTo(ed[..], i)
    requires if i < 4 then x == ed[i] else Col(x) == InvMixColumn(Col(ed[i]))
    modifies ed
    ensures KeysUpTo(ed[..], f, key, 4 * (Rounds(key) + 1)) && DKeysUpTo(ed[..], i + 1)
  {
    hide Col, KeyWord, InvMixColumn;
    ghost var e := ed[..];
    DKeysExtend(e, i, x);
    ForwardWordsUntouched(e, f, key, 4 * (Rounds(key) + 1), 60 + i, x);
    ed[60 + i] := x;
    assert ed[..] == e[60 + i := x];
  }

  /** Fills D_KEY for the equivalent inverse cipher. */
  method Invert(ed: array<bv32>, key: seq<bv8>, ghost f: bv8 -> bv8)
    requires IsKey(key) && KeysUpTo(ed[..], f, key, 4 * (Rounds(key) + 1))
    modifies ed
    ensures KeysUpTo(ed[..], f, key, 4 * (Rounds(key) + 1)) && DKeysUpTo(ed[..], 4 * Rounds(key))
  {
    hide Col, KeyWord, InvMixColumn;
    PutInverse(ed, 0, ed[0], f, key);
    PutInverse(ed, 1, ed[1], f, key);
    PutInverse(ed, 2, ed[2], f, key);
    PutInverse(ed, 3, ed[3], f, key);
    var i := 4;
    while i < |key| + 24
      invariant 4 <= i <= |key| + 24
      invariant KeysUpTo(ed[..], f, key, 4 * (Rounds(key) + 1)) && DKeysUpTo(ed[..], i)
    {
      ImixColIs(ed[i]);
      PutInverse(ed, i, ImixCol(ed[i]), f, key);
      i := i + 1;
    }
  }

  lemma ScheduleIs(e: seq<bv32>, f: bv8 -> bv8, key: seq<bv8>)
    requires IsKey(key) && KeysUpTo(e, f, key, 4 * (Rounds(key) + 1)) && DKeysUpTo(e, 4 * Rounds(key))
    ensures ForwardKeys(e, RoundKeys(f, key), Rounds(key)) && InverseKeys(e, RoundKeys(f, key), Rounds(key))
  {
    ForwardScheduleIs(e, f, key, RoundKeys(f, key));
    InverseScheduleIs(e, key, RoundKeys(f, key));
  }

  /** The body of aes_set_key once the length is known to be good. */
  method Schedule(t: Tables, ed: array<bv32>, key: seq<bv8>, ghost f: bv8 -> bv8)
    requires ed.Length == 120 && IsKey(key) && KeyTables(t, f)
    modifies ed
    ensures ForwardKeys(ed[..], RoundKeys(f, key), Rounds(key)) && InverseKeys(ed[..], RoundKeys(f, key), Rounds(key))
  {
    hide *;
    Expand(t, ed, key, f);
    Invert(ed, key, f);
    ScheduleIs(ed[..], f, key);
  }

  lemma ForwardScheduleIs(e: seq<bv32>, f: bv8 -> bv8, key: seq<bv8>, rk: nat -> State)
    requires IsKey(key) && KeysUpTo(e, f, key, 4 * (Rounds(key) + 1)) && rk == RoundKeys(f, key)
    ensures ForwardKeys(e, rk, Rounds(key))
  {
    hide StateOf, RoundKeys, KeyWord, Col;
    forall r: nat | r <= Rounds(key) ensures StateOf(e[4 * r..4 * r + 4]) == rk(r) { RoundKeyAt(e, f, key, r); }
  }

  lemma InverseScheduleIs(e: seq<bv32>, key: seq<bv8>, rk: nat -> State)
    requires IsKey(key) && ForwardKeys(e, rk, Rounds(key)) && DKeysUpTo(e, 4 * Rounds(key))
    ensures InverseKeys(e, rk, Rounds(key))
  {
    hide StateOf, DKeysUpTo, InvMixColumns, Col;
    var nr := Rounds(key);
    ForwardKeyAt(e, rk, nr, 0);
    FirstDKey(e, key);
    forall r: nat | 0 < r < nr ensures StateOf(e[60 + 4 * r..60 + 4 * r + 4]) == InvMixColumns(rk(r)) {
      ForwardKeyAt(e, rk, nr, r);
      InvRoundKeyAt(e, key, r);
    }
  }

  lemma RoundKeyAt(e: seq<bv32>, f: bv8 -> bv8, key: seq<bv8>, r: nat)
    requires IsKey(key) && KeysUpTo(e, f, key, 4 * (Rounds(key) + 1)) && r <= Rounds(key)
    ensures StateOf(e[4 * r..4 * r + 4]) == RoundKeys(f, key)(r)
  {
    hide KeyWord, Col;
    var n := 4 * (Rounds(key) + 1);
    KeyAt(e, f, key, n, 4 * r);
    KeyAt(e, f, key, n, 4 * r + 1);
    KeyAt(e, f, key, n, 4 * r + 2);
    KeyAt(e, f, key, n, 4 * r + 3);
  }

  lemma FirstDKey(e: seq<bv32>, key: seq<bv8>)
    requires IsKey(key) && DKeysUpTo(e, 4 * Rounds(key))
    ensures e[60..64] == e[0..4]
  {
    assert DKey(e, 0) == e[0] && DKey(e, 1) == e[1] && DKey(e, 2) == e[2] && DKey(e, 3) == e[3];
  }

  lemma InvRoundKeyAt(e: seq<bv32>, key: seq<bv8>, r: nat)
    requires IsKey(key) && DKeysUpTo(e, 4 * Rounds(key)) && 0 < r < Rounds(key)
    ensures StateOf(e[60 + 4 * r..60 + 4 * r + 4]) == InvMixColumns(StateOf(e[4 * r..4 * r + 4]))
  {
    hide Col, InvMixColumn;
    var i := 4 * r;
    assert Col(DKey(e, i)) == InvMixColumn(Col(e[i]));
    assert Col(DKey(e, i + 1)) == InvMixColumn(Col(e[i + 1]));
    assert Col(DKey(e, i + 2)) == InvMixColumn(Col(e[i + 2]));
    assert Col(DKey(e, i + 3)) == InvMixColumn(Col(e[i + 3]));
  }
}

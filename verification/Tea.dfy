/** crypto/tea.c: TEA and XTEA.  Round r uses the r-th multiple of the constant delta. */
module Tea {
  import opened Bits
  import opened Network

  const DELTA: bv32 := 0x9e3779b9

  datatype Key = Key(k0: bv32, k1: bv32, k2: bv32, k3: bv32)

  function Sub(a: bv32, b: bv32): bv32 { a - b }

  lemma SubOfSum(a: bv32, b: bv32)
    ensures Sub(a + b, b) == a
  {}

  lemma SubUndoesAdd(a: bv32, b: bv32)
    ensures Sub(Add(a, b), b) == a
  {
    hide Sub;
    SubOfSum(a, b);
  }

  /** r times delta, modulo 2^32. */
  function Sum(r: nat): bv32 { if r == 0 then 0 else Add(Sum(r - 1), DELTA) }

  /* ---- TEA ---- */

  function TeaMix(v: bv32, sum: bv32, k: bv32, l: bv32): bv32 {
    ((v << 4) + k) ^ (v + sum) ^ ((v >> 5) + l)
  }

  function TeaRound(key: Key): (Pair, nat) -> Pair {
    (s: Pair, r: nat) =>
      var y := Add(s.x, TeaMix(s.y, Sum(r), key.k0, key.k1));
      Pair(y, Add(s.y, TeaMix(y, Sum(r), key.k2, key.k3)))
  }

  function TeaBack(key: Key): (Pair, nat) -> Pair {
    (s: Pair, r: nat) =>
      var z := Sub(s.y, TeaMix(s.x, Sum(r), key.k2, key.k3));
      Pair(Sub(s.x, TeaMix(z, Sum(r), key.k0, key.k1)), z)
  }

  lemma TeaRoundIs(key: Key, s: Pair, r: nat)
    ensures var y := Add(s.x, TeaMix(s.y, Sum(r), key.k0, key.k1));
            TeaRound(key)(s, r) == Pair(y, Add(s.y, TeaMix(y, Sum(r), key.k2, key.k3)))
    ensures var z := Sub(s.y, TeaMix(s.x, Sum(r), key.k2, key.k3));
            TeaBack(key)(s, r) == Pair(Sub(s.x, TeaMix(z, Sum(r), key.k0, key.k1)), z)
  {
    hide TeaMix, Add, Sub, Sum;
  }

  lemma TeaBackUndoes(key: Key, n: nat)
    ensures Undoes(TeaBack(key), TeaRound(key), Plain(), n)
  {
    hide TeaMix, Add, Sub, Sum;
    forall s: Pair, r: nat ensures TeaBack(key)(TeaRound(key)(s, r), r) == s {
      var y := Add(s.x, TeaMix(s.y, Sum(r), key.k0, key.k1));
      SubUndoesAdd(s.x, TeaMix(s.y, Sum(r), key.k0, key.k1));
      SubUndoesAdd(s.y, TeaMix(y, Sum(r), key.k2, key.k3));
    }
  }

  /* ---- XTEA ---- */

  /** KEY[i & 3] */
  function Pick(key: Key, i: bv32): bv32 {
    if i & 3 == 0 then key.k0 else if i & 3 == 1 then key.k1 else if i & 3 == 2 then key.k2 else key.k3
  }

  /** sum >> 11 */
  function High(sum: bv32): bv32 { sum >> 11 }

  function XteaMix(v: bv32, sum: bv32, k: bv32): bv32 {
    ((v << 4) ^ (v >> 5)) + (v ^ sum) + k
  }

  function XteaRound(key: Key): (Pair, nat) -> Pair {
    (s: Pair, r: nat) =>
      if r == 0 then s
      else
        var y := Add(s.x, XteaMix(s.y, Sum(r - 1), Pick(key, Sum(r - 1))));
        Pair(y, Add(s.y, XteaMix(y, Sum(r), Pick(key, High(Sum(r))))))
  }

  function XteaBack(key: Key): (Pair, nat) -> Pair {
    (s: Pair, r: nat) =>
      if r == 0 then s
      else
        var z := Sub(s.y, XteaMix(s.x, Sum(r), Pick(key, High(Sum(r)))));
        Pair(Sub(s.x, XteaMix(z, Sum(r - 1), Pick(key, Sum(r - 1)))), z)
  }

  lemma XteaRoundIs(key: Key, s: Pair, r: nat)
    requires r > 0
    ensures var y := Add(s.x, XteaMix(s.y, Sum(r - 1), Pick(key, Sum(r - 1))));
            XteaRound(key)(s, r) == Pair(y, Add(s.y, XteaMix(y, Sum(r), Pick(key, High(Sum(r))))))
    ensures var z := Sub(s.y, XteaMix(s.x, Sum(r), Pick(key, High(Sum(r)))));
            XteaBack(key)(s, r) == Pair(Sub(s.x, XteaMix(z, Sum(r - 1), Pick(key, Sum(r - 1)))), z)
  {
    hide XteaMix, Add, Sub, Sum, Pick, High;
  }

  lemma XteaBackUndoes(key: Key, n: nat)
    ensures Undoes(XteaBack(key), XteaRound(key), Plain(), n)
  {
    hide XteaMix, Add, Sub, Sum, Pick, High;
    forall s: Pair, r: nat | r > 0 ensures XteaBack(key)(XteaRound(key)(s, r), r) == s {
      var y := Add(s.x, XteaMix(s.y, Sum(r - 1), Pick(key, Sum(r - 1))));
      SubUndoesAdd(s.x, XteaMix(s.y, Sum(r - 1), Pick(key, Sum(r - 1))));
      SubUndoesAdd(s.y, XteaMix(y, Sum(r), Pick(key, High(Sum(r)))));
    }
  }

  /* ---- The multiples of delta ---- */

  lemma SumZero()
    ensures Sum(0) == 0
  {}

  lemma SumNext(r: nat)
    requires r > 0
    ensures Sum(r) == Add(Sum(r - 1), DELTA) && Sub(Sum(r), DELTA) == Sum(r - 1)
  {
    SubUndoesAdd(Sum(r - 1), DELTA);
  }

  /** delta * 32, where XTEA's encrypting loop stops. */
  const LIMIT: bv32 := 0xc6ef3720

  /** The multiples of delta from 0 to 32. */
  function Multiples(): (t: seq<bv32>)
    ensures |t| == 33
  {
    [0x00000000, 0x9e3779b9, 0x3c6ef372, 0xdaa66d2b, 0x78dde6e4, 0x1715609d, 0xb54cda56, 0x5384540f,
     0xf1bbcdc8, 0x8ff34781, 0x2e2ac13a, 0xcc623af3, 0x6a99b4ac, 0x08d12e65, 0xa708a81e, 0x454021d7,
     0xe3779b90, 0x81af1549, 0x1fe68f02, 0xbe1e08bb, 0x5c558274, 0xfa8cfc2d, 0x98c475e6, 0x36fbef9f,
     0xd5336958, 0x736ae311, 0x11a25cca, 0xafd9d683, 0x4e11503c, 0xec48c9f5, 0x8a8043ae, 0x28b7bd67,
     0xc6ef3720]
  }

  lemma AddsUp(x: bv32, y: bv32)
    requires x + 0x9e3779b9 == y
    ensures Add(x, DELTA) == y
  {}

  lemma FirstEight(r: nat)
    requires 0 <= r < 8
    ensures Add(Multiples()[r], DELTA) == Multiples()[r + 1]
  {
    hide Add;
    match r
    case 0 => AddsUp(0x00000000, 0x9e3779b9);
    case 1 => AddsUp(0x9e3779b9, 0x3c6ef372);
    case 2 => AddsUp(0x3c6ef372, 0xdaa66d2b);
    case 3 => AddsUp(0xdaa66d2b, 0x78dde6e4);
    case 4 => AddsUp(0x78dde6e4, 0x1715609d);
    case 5 => AddsUp(0x1715609d, 0xb54cda56);
    case 6 => AddsUp(0xb54cda56, 0x5384540f);
    case 7 => AddsUp(0x5384540f, 0xf1bbcdc8);
  }

  lemma SecondEight(r: nat)
    requires 8 <= r < 16
    ensures Add(Multiples()[r], DELTA) == Multiples()[r + 1]
  {
    hide Add;
    match r
    case 8 => AddsUp(0xf1bbcdc8, 0x8ff34781);
    case 9 => AddsUp(0x8ff34781, 0x2e2ac13a);
    case 10 => AddsUp(0x2e2ac13a, 0xcc623af3);
    case 11 => AddsUp(0xcc623af3, 0x6a99b4ac);
    case 12 => AddsUp(0x6a99b4ac, 0x08d12e65);
    case 13 => AddsUp(0x08d12e65, 0xa708a81e);
    case 14 => AddsUp(0xa708a81e, 0x454021d7);
    case 15 => AddsUp(0x454021d7, 0xe3779b90);
  }

  lemma ThirdEight(r: nat)
    requires 16 <= r < 24
    ensures Add(Multiples()[r], DELTA) == Multiples()[r + 1]
  {
    hide Add;
    match r
    case 16 => AddsUp(0xe3779b90, 0x81af1549);
    case 17 => AddsUp(0x81af1549, 0x1fe68f02);
    case 18 => AddsUp(0x1fe68f02, 0xbe1e08bb);
    case 19 => AddsUp(0xbe1e08bb, 0x5c558274);
    case 20 => AddsUp(0x5c558274, 0xfa8cfc2d);
    case 21 => AddsUp(0xfa8cfc2d, 0x98c475e6);
    case 22 => AddsUp(0x98c475e6, 0x36fbef9f);
    case 23 => AddsUp(0x36fbef9f, 0xd5336958);
  }

  lemma FourthEight(r: nat)
    requires 24 <= r < 32
    ensures Add(Multiples()[r], DELTA) == Multiples()[r + 1]
  {
    hide Add;
    match r
    case 24 => AddsUp(0xd5336958, 0x736ae311);
    case 25 => AddsUp(0x736ae311, 0x11a25cca);
    case 26 => AddsUp(0x11a25cca, 0xafd9d683);
    case 27 => AddsUp(0xafd9d683, 0x4e11503c);
    case 28 => AddsUp(0x4e11503c, 0xec48c9f5);
    case 29 => AddsUp(0xec48c9f5, 0x8a8043ae);
    case 30 => AddsUp(0x8a8043ae, 0x28b7bd67);
    case 31 => AddsUp(0x28b7bd67, 0xc6ef3720);
  }

  lemma MultipleNext(r: nat)
    requires r < 32
    ensures Add(Multiples()[r], DELTA) == Multiples()[r + 1]
  {
    hide Add, Multiples;
    if r < 8 { FirstEight(r); }
    else if r < 16 { SecondEight(r); }
    else if r < 24 { ThirdEight(r); }
    else { FourthEight(r); }
  }

  /** No multiple before the 32nd is the limit, and none after the 0th is zero. */
  lemma MultiplesDiffer(r: nat)
    requires r <= 32
    ensures Multiples()[r] == LIMIT <==> r == 32
    ensures Multiples()[r] == 0 <==> r == 0
  {}

  lemma {:induction false} SumIsMultiple(r: nat)
    requires r <= 32
    ensures Sum(r) == Multiples()[r]
  {
    hide Add, Multiples;
    if r > 0 {
      SumIsMultiple(r - 1);
      MultipleNext(r - 1);
    } else {
      MultiplesDiffer(0);
    }
  }

  /** r times delta modulo 2^32, in integer arithmetic. */
  function Multiple(r: nat): bv32 { (r * 0x9e3779b9 % 0x1_0000_0000) as bv32 }

  lemma MultipleIs(r: nat, x: bv32)
    requires r * 0x9e3779b9 % 0x1_0000_0000 == x as nat
    ensures Multiple(r) == x
  {}

  lemma FirstProducts(r: nat)
    requires 0 <= r < 8
    ensures Multiples()[r] == Multiple(r)
  {
    hide Multiple;
    match r
    case 0 => MultipleIs(0, 0x00000000);
    case 1 => MultipleIs(1, 0x9e3779b9);
    case 2 => MultipleIs(2, 0x3c6ef372);
    case 3 => MultipleIs(3, 0xdaa66d2b);
    case 4 => MultipleIs(4, 0x78dde6e4);
    case 5 => MultipleIs(5, 0x1715609d);
    case 6 => MultipleIs(6, 0xb54cda56);
    case 7 => MultipleIs(7, 0x5384540f);
  }

  lemma SecondProducts(r: nat)
    requires 8 <= r < 16
    ensures Multiples()[r] == Multiple(r)
  {
    hide Multiple;
    match r
    case 8 => MultipleIs(8, 0xf1bbcdc8);
    case 9 => MultipleIs(9, 0x8ff34781);
    case 10 => MultipleIs(10, 0x2e2ac13a);
    case 11 => MultipleIs(11, 0xcc623af3);
    case 12 => MultipleIs(12, 0x6a99b4ac);
    case 13 => MultipleIs(13, 0x08d12e65);
    case 14 => MultipleIs(14, 0xa708a81e);
    case 15 => MultipleIs(15, 0x454021d7);
  }

  lemma ThirdProducts(r: nat)
    requires 16 <= r < 24
    ensures Multiples()[r] == Multiple(r)
  {
    hide Multiple;
    match r
    case 16 => MultipleIs(16, 0xe3779b90);
    case 17 => MultipleIs(17, 0x81af1549);
    case 18 => MultipleIs(18, 0x1fe68f02);
    case 19 => MultipleIs(19, 0xbe1e08bb);
    case 20 => MultipleIs(20, 0x5c558274);
    case 21 => MultipleIs(21, 0xfa8cfc2d);
    case 22 => MultipleIs(22, 0x98c475e6);
    case 23 => MultipleIs(23, 0x36fbef9f);
  }

  lemma FourthProducts(r: nat)
    requires 24 <= r < 33
    ensures Multiples()[r] == Multiple(r)
  {
    hide Multiple;
    match r
    case 24 => MultipleIs(24, 0xd5336958);
    case 25 => MultipleIs(25, 0x736ae311);
    case 26 => MultipleIs(26, 0x11a25cca);
    case 27 => MultipleIs(27, 0xafd9d683);
    case 28 => MultipleIs(28, 0x4e11503c);
    case 29 => MultipleIs(29, 0xec48c9f5);
    case 30 => MultipleIs(30, 0x8a8043ae);
    case 31 => MultipleIs(31, 0x28b7bd67);
    case 32 => MultipleIs(32, 0xc6ef3720);
  }

  /** The running sum after r additions of delta is the product. */
  lemma SumIsProduct(r: nat)
    requires r <= 32
    ensures Sum(r) == Multiple(r)
  {
    hide Multiple, Multiples, Sum;
    SumIsMultiple(r);
    if r < 8 { FirstProducts(r); }
    else if r < 16 { SecondProducts(r); }
    else if r < 24 { ThirdProducts(r); }
    else { FourthProducts(r); }
  }

  lemma SumStops(r: nat)
    requires r <= 32
    ensures Sum(r) == LIMIT <==> r == 32
    ensures Sum(r) == 0 <==> r == 0
  {
    SumIsMultiple(r);
    MultiplesDiffer(r);
  }

  /** TEA_DELTA << 5 */
  function Start(): bv32 { 0x9e3779b9 << 5 }

  /** XTEA_DELTA * XTEA_ROUNDS */
  function Limit(): bv32 { 0x9e3779b9 * 32 }

  lemma LimitIs()
    ensures Start() == LIMIT && Limit() == LIMIT
  {}

  /* ---- The cycles in the operators of the language ---- */

  /** Half a cycle of tea_encrypt: one word gets a mixture of the other, the sum and two key words added. */
  ghost predicate TeaAdds(a: bv32, v: bv32, sum: bv32, k: bv32, l: bv32, b: bv32) {
    b == a + (((v << 4) + k) ^ (v + sum) ^ ((v >> 5) + l))
  }

  /** Half a cycle of tea_decrypt. */
  ghost predicate TeaTakes(a: bv32, v: bv32, sum: bv32, k: bv32, l: bv32, b: bv32) {
    b == a - (((v << 4) + k) ^ (v + sum) ^ ((v >> 5) + l))
  }

  /** One cycle of tea_encrypt from (y, z) = s to t. */
  ghost predicate TeaCycle(key: Key, sum: bv32, s: Pair, t: Pair) {
    TeaAdds(s.x, s.y, sum, key.k0, key.k1, t.x) && TeaAdds(s.y, t.x, sum, key.k2, key.k3, t.y)
  }

  /** One cycle of tea_decrypt from (y, z) = s to t. */
  ghost predicate TeaUncycle(key: Key, sum: bv32, s: Pair, t: Pair) {
    TeaTakes(s.y, s.x, sum, key.k2, key.k3, t.y) && TeaTakes(s.x, t.y, sum, key.k0, key.k1, t.x)
  }

  /** The key word that the two low bits of i number. */
  ghost function KeyWord(key: Key, i: bv32): bv32 { [key.k0, key.k1, key.k2, key.k3][(i & 3) as nat] }

  /** Half a turn of xtea_encrypt. */
  ghost predicate XteaAdds(a: bv32, v: bv32, sum: bv32, k: bv32, b: bv32) {
    b == a + (((v << 4) ^ (v >> 5)) + (v ^ sum) + k)
  }

  /** Half a turn of xtea_decrypt. */
  ghost predicate XteaTakes(a: bv32, v: bv32, sum: bv32, k: bv32, b: bv32) {
    b == a - (((v << 4) ^ (v >> 5)) + (v ^ sum) + k)
  }

  /** One turn of xtea_encrypt, which steps from `sum` to `next` between its two halves. */
  ghost predicate XteaCycle(key: Key, sum: bv32, next: bv32, s: Pair, t: Pair) {
    XteaAdds(s.x, s.y, sum, KeyWord(key, sum), t.x) && XteaAdds(s.y, t.x, next, KeyWord(key, next >> 11), t.y)
  }

  /** One turn of xtea_decrypt, which steps back from `next` to `sum` between its two halves. */
  ghost predicate XteaUncycle(key: Key, sum: bv32, next: bv32, s: Pair, t: Pair) {
    XteaTakes(s.y, s.x, next, KeyWord(key, next >> 11), t.y) && XteaTakes(s.x, t.y, sum, KeyWord(key, sum), t.x)
  }

  /** `src` and `dst` hold, least significant byte first, the words that the 33 pairs start and end with. */
  ghost predicate Between(src: seq<bv8>, dst: seq<bv8>, ps: seq<Pair>)
    requires |src| == |dst| == 8
  {
    |ps| == 33 && LePairIs(src, ps[0]) && LePairIs(dst, ps[32])
  }

  ghost predicate TeaEncrypted(key: Key, src: seq<bv8>, dst: seq<bv8>, ps: seq<Pair>)
    requires |src| == |dst| == 8
  {
    Between(src, dst, ps) && forall r :: 0 < r <= 32 ==>
      TeaCycle(key, Multiple(r), ps[r - 1], ps[r])
  }

  ghost predicate TeaDecrypted(key: Key, src: seq<bv8>, dst: seq<bv8>, ps: seq<Pair>)
    requires |src| == |dst| == 8
  {
    Between(src, dst, ps) && forall r :: 0 < r <= 32 ==>
      TeaUncycle(key, Multiple(33 - r), ps[r - 1], ps[r])
  }

  ghost predicate XteaEncrypted(key: Key, src: seq<bv8>, dst: seq<bv8>, ps: seq<Pair>)
    requires |src| == |dst| == 8
  {
    Between(src, dst, ps) && forall r :: 0 < r <= 32 ==>
      XteaCycle(key, Multiple(r - 1), Multiple(r), ps[r - 1], ps[r])
  }

  ghost predicate XteaDecrypted(key: Key, src: seq<bv8>, dst: seq<bv8>, ps: seq<Pair>)
    requires |src| == |dst| == 8
  {
    Between(src, dst, ps) && forall r :: 0 < r <= 32 ==>
      XteaUncycle(key, Multiple(32 - r), Multiple(33 - r), ps[r - 1], ps[r])
  }

  lemma Mixed(a: bv32, v: bv32, sum: bv32, k: bv32, l: bv32)
    ensures TeaAdds(a, v, sum, k, l, Add(a, TeaMix(v, sum, k, l)))
    ensures TeaTakes(a, v, sum, k, l, Sub(a, TeaMix(v, sum, k, l)))
  {}

  lemma TeaRoundCycles(key: Key, s: Pair, r: nat)
    ensures TeaCycle(key, Sum(r), s, TeaRound(key)(s, r))
    ensures TeaUncycle(key, Sum(r), s, TeaBack(key)(s, r))
  {
    hide Sum, Add, Sub, TeaMix, TeaRound, TeaBack, TeaAdds, TeaTakes;
    TeaRoundIs(key, s, r);
    var t, u := TeaRound(key)(s, r), TeaBack(key)(s, r);
    Mixed(s.x, s.y, Sum(r), key.k0, key.k1);
    Mixed(s.y, t.x, Sum(r), key.k2, key.k3);
    Mixed(s.y, s.x, Sum(r), key.k2, key.k3);
    Mixed(s.x, u.y, Sum(r), key.k0, key.k1);
  }

  lemma XMixed(a: bv32, v: bv32, sum: bv32, k: bv32)
    ensures XteaAdds(a, v, sum, k, Add(a, XteaMix(v, sum, k)))
    ensures XteaTakes(a, v, sum, k, Sub(a, XteaMix(v, sum, k)))
  {}

  lemma PickIs(key: Key, i: bv32)
    ensures Pick(key, i) == KeyWord(key, i)
  {}

  lemma XteaCycleIs(key: Key, sum: bv32, next: bv32, s: Pair, t: Pair)
    requires XteaAdds(s.x, s.y, sum, KeyWord(key, sum), t.x)
    requires XteaAdds(s.y, t.x, next, KeyWord(key, High(next)), t.y)
    ensures XteaCycle(key, sum, next, s, t)
  {
    hide XteaAdds, KeyWord;
  }

  lemma XteaUncycleIs(key: Key, sum: bv32, next: bv32, s: Pair, t: Pair)
    requires XteaTakes(s.y, s.x, next, KeyWord(key, High(next)), t.y)
    requires XteaTakes(s.x, t.y, sum, KeyWord(key, sum), t.x)
    ensures XteaUncycle(key, sum, next, s, t)
  {
    hide XteaTakes, KeyWord;
  }

  lemma XteaRoundCycles(key: Key, s: Pair, r: nat)
    requires r > 0
    ensures XteaCycle(key, Sum(r - 1), Sum(r), s, XteaRound(key)(s, r))
    ensures XteaUncycle(key, Sum(r - 1), Sum(r), s, XteaBack(key)(s, r))
  {
    hide *;
    XteaRoundIs(key, s, r);
    PickIs(key, Sum(r - 1));
    PickIs(key, High(Sum(r)));
    var k, l := KeyWord(key, Sum(r - 1)), KeyWord(key, High(Sum(r)));
    var t, u := XteaRound(key)(s, r), XteaBack(key)(s, r);
    XMixed(s.x, s.y, Sum(r - 1), k);
    XMixed(s.y, t.x, Sum(r), l);
    XteaCycleIs(key, Sum(r - 1), Sum(r), s, t);
    XMixed(s.y, s.x, Sum(r), l);
    XMixed(s.x, u.y, Sum(r - 1), k);
    XteaUncycleIs(key, Sum(r - 1), Sum(r), s, u);
  }

  lemma XteaTurns(key: Key, s: Pair, r: nat)
    requires 0 < r <= 32
    ensures XteaCycle(key, Multiple(r - 1), Multiple(r), s, XteaRound(key)(s, r))
    ensures XteaUncycle(key, Multiple(r - 1), Multiple(r), s, XteaBack(key)(s, r))
  {
    hide *;
    XteaRoundCycles(key, s, r);
    SumIsProduct(r);
    SumIsProduct(r - 1);
  }

  lemma TeaUpIs(key: Key, src: seq<bv8>)
    requires |src| == 8
    ensures exists ps :: TeaEncrypted(key, src, LePairBytes(Up(TeaRound(key), LePair(src), 32)), ps)
  {
    hide TeaRound, TeaCycle, LePairIs, LePairBytes, LePair, Up, Sum, Multiple;
    var ps := StatesUp(TeaRound(key), LePair(src), 32);
    LePairAre(src, ps[32]);
    forall r: nat | 0 < r <= 32 ensures TeaCycle(key, Multiple(r), ps[r - 1], ps[r]) {
      TeaRoundCycles(key, ps[r - 1], r);
      SumIsProduct(r);
    }
    assert TeaEncrypted(key, src, LePairBytes(ps[32]), ps);
  }

  lemma TeaDownIs(key: Key, src: seq<bv8>)
    requires |src| == 8
    ensures exists ps :: TeaDecrypted(key, src, LePairBytes(Down(TeaBack(key), LePair(src), 32, 32)), ps)
  {
    hide TeaBack, TeaUncycle, LePairIs, LePairBytes, LePair, Down, Sum, Multiple;
    var ps := StatesDown(TeaBack(key), LePair(src), 32);
    LePairAre(src, ps[32]);
    forall r: nat | 0 < r <= 32
      ensures TeaUncycle(key, Multiple(33 - r), ps[r - 1], ps[r])
    {
      TeaRoundCycles(key, ps[r - 1], 33 - r);
      SumIsProduct(33 - r);
    }
    assert TeaDecrypted(key, src, LePairBytes(ps[32]), ps);
  }

  lemma XteaUpIs(key: Key, src: seq<bv8>)
    requires |src| == 8
    ensures exists ps :: XteaEncrypted(key, src, LePairBytes(Up(XteaRound(key), LePair(src), 32)), ps)
  {
    hide XteaRound, XteaCycle, LePairIs, LePairBytes, LePair, Up, Sum, Multiple;
    var ps := StatesUp(XteaRound(key), LePair(src), 32);
    LePairAre(src, ps[32]);
    forall r: nat | 0 < r <= 32
      ensures XteaCycle(key, Multiple(r - 1), Multiple(r), ps[r - 1], ps[r])
    {
      XteaTurns(key, ps[r - 1], r);
    }
    assert XteaEncrypted(key, src, LePairBytes(ps[32]), ps);
  }

  lemma XteaDownIs(key: Key, src: seq<bv8>)
    requires |src| == 8
    ensures exists ps :: XteaDecrypted(key, src, LePairBytes(Down(XteaBack(key), LePair(src), 32, 32)), ps)
  {
    hide XteaBack, XteaUncycle, LePairIs, LePairBytes, LePair, Down, Sum, Multiple;
    var ps := StatesDown(XteaBack(key), LePair(src), 32);
    LePairAre(src, ps[32]);
    forall r: nat | 0 < r <= 32
      ensures XteaUncycle(key, Multiple(32 - r), Multiple(33 - r), ps[r - 1], ps[r])
    {
      XteaTurns(key, ps[r - 1], 33 - r);
    }
    assert XteaDecrypted(key, src, LePairBytes(ps[32]), ps);
  }

  /* ---- The loops ---- */

  lemma InWords(b: seq<bv8>)
    requires |b| == 8
    ensures LePair(b) == Pair(LeWord(b, 0), LeWord(b, 1))
  {}

  /** tea_encrypt */
  method TeaEncrypt(key: Key, src: seq<bv8>) returns (dst: seq<bv8>)
    requires |src| == 8
    ensures dst == LePairBytes(Up(TeaRound(key), LePair(src), 32))
    ensures exists ps :: TeaEncrypted(key, src, dst, ps)
  {
    hide *;
    var y, z, sum: bv32 := LeWord(src, 0), LeWord(src, 1), 0;
    SumZero();
    InWords(src);
    ghost var s := LePair(src);
    UpZero(TeaRound(key), s);
    var n := 32;
    while n > 0
      invariant 0 <= n <= 32 && sum == Sum(32 - n) && Pair(y, z) == Up(TeaRound(key), s, 32 - n)
    {
      TeaRoundIs(key, Pair(y, z), 32 - n + 1);
      UpNext(TeaRound(key), s, 32 - n + 1);
      SumNext(32 - n + 1);
      n := n - 1;
      sum := Add(sum, DELTA);
      y := Add(y, TeaMix(z, sum, key.k0, key.k1));
      z := Add(z, TeaMix(y, sum, key.k2, key.k3));
    }
    TeaUpIs(key, src);
    dst := LePairBytes(Pair(y, z));
  }

  /** tea_decrypt */
  method TeaDecrypt(key: Key, src: seq<bv8>) returns (dst: seq<bv8>)
    requires |src| == 8
    ensures dst == LePairBytes(Down(TeaBack(key), LePair(src), 32, 32))
    ensures exists ps :: TeaDecrypted(key, src, dst, ps)
  {
    hide *;
    LimitIs();
    SumStops(32);
    var y, z, sum := LeWord(src, 0), LeWord(src, 1), Start();
    InWords(src);
    ghost var s := LePair(src);
    DownZero(TeaBack(key), s, 32);
    var n := 32;
    while n > 0
      invariant 0 <= n <= 32 && sum == Sum(n) && Pair(y, z) == Down(TeaBack(key), s, 32, 32 - n)
    {
      TeaRoundIs(key, Pair(y, z), n);
      DownNext(TeaBack(key), s, 32, 32 - n + 1);
      SumNext(n);
      n := n - 1;
      z := Sub(z, TeaMix(y, sum, key.k2, key.k3));
      y := Sub(y, TeaMix(z, sum, key.k0, key.k1));
      sum := Sub(sum, DELTA);
    }
    TeaDownIs(key, src);
    dst := LePairBytes(Pair(y, z));
  }

  /** xtea_encrypt: the loop is guarded only by the sum, and takes exactly 32 turns. */
  method XteaEncrypt(key: Key, src: seq<bv8>) returns (dst: seq<bv8>, turns: nat)
    requires |src| == 8
    ensures turns == 32 && dst == LePairBytes(Up(XteaRound(key), LePair(src), 32))
    ensures exists ps :: XteaEncrypted(key, src, dst, ps)
  {
    hide *;
    LimitIs();
    SumZero();
    var y, z, sum, limit: bv32 := LeWord(src, 0), LeWord(src, 1), 0, Limit();
    turns := 0;
    InWords(src);
    ghost var s := LePair(src);
    UpZero(XteaRound(key), s);
    SumStops(32);
    while sum != limit
      invariant turns <= 32 && sum == Sum(turns) && Pair(y, z) == Up(XteaRound(key), s, turns)
      decreases 32 - turns
    {
      SumStops(turns);
      SumNext(turns + 1);
      XteaRoundIs(key, Pair(y, z), turns + 1);
      UpNext(XteaRound(key), s, turns + 1);
      y := Add(y, XteaMix(z, sum, Pick(key, sum)));
      sum := Add(sum, DELTA);
      z := Add(z, XteaMix(y, sum, Pick(key, High(sum))));
      turns := turns + 1;
    }
    SumStops(turns);
    XteaUpIs(key, src);
    dst := LePairBytes(Pair(y, z));
  }

  /** xtea_decrypt */
  method XteaDecrypt(key: Key, src: seq<bv8>) returns (dst: seq<bv8>, turns: nat)
    requires |src| == 8
    ensures turns == 32 && dst == LePairBytes(Down(XteaBack(key), LePair(src), 32, 32))
    ensures exists ps :: XteaDecrypted(key, src, dst, ps)
  {
    hide *;
    LimitIs();
    SumStops(32);
    var y, z, sum := LeWord(src, 0), LeWord(src, 1), Limit();
    turns := 0;
    InWords(src);
    ghost var s := LePair(src);
    DownZero(XteaBack(key), s, 32);
    while sum != 0
      invariant turns <= 32 && sum == Sum(32 - turns) && Pair(y, z) == Down(XteaBack(key), s, 32, turns)
      decreases 32 - turns
    {
      SumStops(32 - turns);
      SumNext(32 - turns);
      XteaRoundIs(key, Pair(y, z), 32 - turns);
      DownNext(XteaBack(key), s, 32, turns + 1);
      z := Sub(z, XteaMix(y, sum, Pick(key, High(sum))));
      sum := Sub(sum, DELTA);
      y := Sub(y, XteaMix(z, sum, Pick(key, sum)));
      turns := turns + 1;
    }
    SumStops(32 - turns);
    XteaDownIs(key, src);
    dst := LePairBytes(Pair(y, z));
  }

  /* ---- Decryption undoes encryption ---- */

  lemma TeaRoundTrip(key: Key, src: seq<bv8>)
    requires |src| == 8
    ensures var c := LePairBytes(Up(TeaRound(key), LePair(src), 32));
            LePairBytes(Down(TeaBack(key), LePair(c), 32, 32)) == src
  {
    hide TeaRound, TeaBack, LePairBytes, LePair;
    TeaBackUndoes(key, 32);
    Mirror(TeaBack(key), TeaRound(key), Plain(), LePair(src), 32, 32);
    UpZero(TeaRound(key), LePair(src));
    LePairTrip(Up(TeaRound(key), LePair(src), 32), src);
  }

  lemma XteaRoundTrip(key: Key, src: seq<bv8>)
    requires |src| == 8
    ensures var c := LePairBytes(Up(XteaRound(key), LePair(src), 32));
            LePairBytes(Down(XteaBack(key), LePair(c), 32, 32)) == src
  {
    hide XteaRound, XteaBack, LePairBytes, LePair;
    XteaBackUndoes(key, 32);
    Mirror(XteaBack(key), XteaRound(key), Plain(), LePair(src), 32, 32);
    UpZero(XteaRound(key), LePair(src));
    LePairTrip(Up(XteaRound(key), LePair(src), 32), src);
  }
}

/** crypto/hmac.c over any digest algorithm that hashes piece by piece. */
module Hmac {
  import opened Machine
  import opened Bits
  import opened Hashing
  import opened Memory
  import opened ScatterWalk
  import opened Digest

  /** Section 2 of RFC 2104. */
  function Hmac(hash: Bytes -> Bytes, b: nat, key: Bytes, text: Bytes): Bytes {
    hash(Masked(KeyBlock(hash, b, key), 0x5c) + hash(Inner(hash, b, key, text)))
  }

  /** What the inner hash is taken of. */
  function Inner(hash: Bytes -> Bytes, b: nat, key: Bytes, text: Bytes): Bytes {
    Masked(KeyBlock(hash, b, key), 0x36) + text
  }

  /** The key, hashed first if longer than a block, and filled up with zeros. */
  function KeyBlock(hash: Bytes -> Bytes, b: nat, key: Bytes): Bytes {
    var k := if |key| > b then hash(key) else key;
    if |k| <= b then k + Zeros(b - |k|) else k
  }

  function Masked(k: Bytes, mask: bv8): (r: Bytes)
    ensures |r| == |k|
  {
    seq(|k|, i requires 0 <= i < |k| => Xor(k[i], mask))
  }

  lemma KeyBlockIs(hash: Bytes -> Bytes, b: nat, key: Bytes, k: Bytes)
    requires k == (if |key| > b then hash(key) else key) && |k| <= b
    ensures KeyBlock(hash, b, key) == k + Zeros(b - |k|)
  {}

  /** `m` is a block of b bytes: those of the key k exclusive-ored with the mask, and behind them the bare mask. */
  ghost predicate MasksKey(m: Bytes, k: Bytes, b: nat, mask: bv8) {
    && |k| <= |m| == b
    && (forall i :: 0 <= i < |k| ==> m[i] == k[i] ^ mask)
    && (forall i :: |k| <= i < b ==> m[i] == mask)
  }

  lemma MaskedIs(k: Bytes, b: nat, mask: bv8)
    requires |k| <= b
    ensures MasksKey(Masked(k + Zeros(b - |k|), mask), k, b, mask)
  {}

  /** `mac` is the HMAC of section 2 of RFC 2104, for a key k that has been hashed if it was longer than a block. */
  ghost predicate IsHmac(hash: Bytes -> Bytes, b: nat, k: Bytes, text: Bytes, mac: Bytes) {
    exists i, o :: MasksKey(i, k, b, 0x36) && MasksKey(o, k, b, 0x5c) && mac == hash(o + hash(i + text))
  }

  lemma HmacMeets(hash: Bytes -> Bytes, b: nat, key: Bytes, k: Bytes, text: Bytes)
    requires k == (if |key| > b then hash(key) else key) && |k| <= b
    ensures IsHmac(hash, b, k, text, Hmac(hash, b, key, text))
  {
    hide MasksKey, Masked, Zeros;
    KeyBlockIs(hash, b, key, k);
    MaskedIs(k, b, 0x36);
    MaskedIs(k, b, 0x5c);
  }

  /* ---- The functions of crypto/hmac.c ---- */

  /** A scatterlist entry for n bytes at an address: virt_to_page and offset_in_page. */
  function Entry(a: nat, n: nat): Seg { Seg(a / PAGE, a % PAGE, n) }

  lemma EntryIs(a: nat, n: nat, size: nat)
    requires a + n <= size
    ensures Addrs([Entry(a, n)]) == Span(a, n) && Inside(Span(a, n), size)
    ensures Read([Entry(a, n)]) == Span(a, n)
    ensures Straight([Entry(a, n)]) && Fine([Entry(a, n)]) && (n < 0x2000_0000 ==> Words([Entry(a, n)]))
  {
    var e := Entry(a, n);
    assert PAGE * e.page + e.offset == a;
    PagesIs(e);
    assert Read([e]) == Pages(e.page, e.offset, e.length) + Read([]);
  }

  /** hash_key: the digest of the key replaces its first bytes. */
  method HashKey<S(!new)>(tfm: DigestTfm<S>, key: nat, keylen: nat, ghost hash: Bytes -> Bytes)
    requires Computes(tfm.alg, hash) && tfm.alg.digestSize <= keylen < 0x2000_0000 && key + keylen <= tfm.mem.Length
    modifies tfm`ctx, tfm.mem
    ensures var k := old(tfm.mem[key..key + keylen]);
            && Wrote(old(tfm.mem[..]), tfm.mem[..], Span(key, tfm.alg.digestSize), hash(k))
            && tfm.ctx == Spent(tfm.alg.update(tfm.alg.init, k))
  {
    hide Computes, Addrs, Wrote, Span;
    EntryIs(key, keylen, tfm.mem.Length);
    LoadSpan(tfm.mem[..], key, keylen);
    tfm.Digest([Entry(key, keylen)], key, hash);
  }

  /** memset, memcpy and the masking loop on the hmac block. */
  method MaskKey<S(!new)>(tfm: DigestTfm<S>, key: nat, keylen: nat, mask: bv8)
    requires keylen <= tfm.alg.blockSize && key + keylen <= tfm.mem.Length
    requires tfm.hmacBlock + tfm.alg.blockSize <= tfm.mem.Length
    requires Disjoint(Span(tfm.hmacBlock, tfm.alg.blockSize), Span(key, keylen))
    modifies tfm.mem
    ensures var b := tfm.alg.blockSize;
            Wrote(old(tfm.mem[..]), tfm.mem[..], Span(tfm.hmacBlock, b),
                  Masked(old(tfm.mem[key..key + keylen]) + Zeros(b - keylen), mask))
    ensures var b, at := tfm.alg.blockSize, tfm.hmacBlock;
            at + b <= tfm.mem.Length && MasksKey(tfm.mem[at..at + b], old(tfm.mem[key..key + keylen]), b, mask)
  {
    hide Wrote, Span, Zeros, Masked, Disjoint, MasksKey;
    var mem, at, b := tfm.mem, tfm.hmacBlock, tfm.alg.blockSize;
    ghost var m, k := mem[..], mem[key..key + keylen];
    StoreBlock(mem, at, Zeros(b));
    ghost var m1 := mem[..];
    KeyKept(m, m1, at, b, key, keylen);
    StoreBlock(mem, at, mem[key..key + keylen]);
    ghost var m2 := mem[..];
    Filled(m, m1, m2, at, b, k);
    SpanWritten(m, m2, at, b, k + Zeros(b - keylen));
    MaskBlock(mem, at, b, mask);
    WroteOver(m, m2, mem[..], Span(at, b), k + Zeros(b - keylen), Masked(k + Zeros(b - keylen), mask));
    SpanWritten(m, mem[..], at, b, Masked(k + Zeros(b - keylen), mask));
    MaskedIs(k, b, mask);
  }

  lemma KeyKept(m: Bytes, n: Bytes, at: nat, b: nat, key: nat, keylen: nat)
    requires Wrote(m, n, Span(at, b), Zeros(b)) && key + keylen <= |m| && Disjoint(Span(at, b), Span(key, keylen))
    ensures |n| == |m| && n[key..key + keylen] == m[key..key + keylen]
  {
    LoadSpan(m, key, keylen);
    LoadSpan(n, key, keylen);
    LoadElsewhere(m, n, Span(at, b), Zeros(b), Span(key, keylen));
  }

  /** The first bytes of a cleared block. */
  lemma Filled(m: Bytes, n: Bytes, o: Bytes, at: nat, b: nat, k: Bytes)
    requires Wrote(m, n, Span(at, b), Zeros(b)) && |k| <= b && Wrote(n, o, Span(at, |k|), k)
    ensures Wrote(m, o, Span(at, b), k + Zeros(b - |k|))
  {
    forall t | 0 <= t < b ensures Span(at, b)[t] < |o| && o[Span(at, b)[t]] == (k + Zeros(b - |k|))[t] {
      if t < |k| {
        assert Span(at, |k|)[t] == Span(at, b)[t];
      } else {
        assert Span(at, b)[t] !in Span(at, |k|);
        assert n[Span(at, b)[t]] == Zeros(b)[t];
      }
    }
    forall x: nat | x < |m| && x !in Span(at, b) ensures o[x] == m[x] {
      SpanHas(at, b, x);
      SpanHas(at, |k|, x);
    }
  }

  method MaskBlock(mem: array<bv8>, at: nat, b: nat, mask: bv8)
    requires at + b <= mem.Length
    modifies mem
    ensures Wrote(old(mem[..]), mem[..], Span(at, b), Masked(old(mem[at..at + b]), mask))
  {
    hide Xor, Span;
    ghost var m := mem[..];
    ghost var vals := Masked(m[at..at + b], mask);
    var i := 0;
    while i < b
      invariant 0 <= i <= b
      invariant forall j :: 0 <= j < i ==> mem[at + j] == vals[j]
      invariant forall x :: 0 <= x < mem.Length && !(at <= x < at + i) ==> mem[x] == m[x]
    {
      mem[at + i] := Xor(mem[at + i], mask);
      i := i + 1;
    }
    BlockWritten(m, mem[..], at, b, vals);
  }

  lemma BlockWritten(m: Bytes, n: Bytes, at: nat, b: nat, vals: Bytes)
    requires |n| == |m| && at + b <= |m| && |vals| == b && n[at..at + b] == vals
    requires forall x :: 0 <= x < |m| && !(at <= x < at + b) ==> n[x] == m[x]
    ensures Wrote(m, n, Span(at, b), vals)
  {
    forall x: nat | x < |m| && x !in Span(at, b) ensures n[x] == m[x] { SpanHas(at, b, x); }
    forall t | 0 <= t < b ensures n[at + t] == vals[t] { assert n[at..at + b][t] == vals[t]; }
  }

  /** What the callers of the hmac functions provide: the key apart from the hmac block. */
  ghost predicate Ready<S(!new)>(tfm: DigestTfm<S>, key: nat, keylen: nat, hash: Bytes -> Bytes) {
    && Computes(tfm.alg, hash) && tfm.hmacBlock + tfm.alg.blockSize <= tfm.mem.Length
    && key + keylen <= tfm.mem.Length && keylen < 0x2000_0000
    && Disjoint(Span(tfm.hmacBlock, tfm.alg.blockSize), Span(key, keylen))
  }

  /** The part of the key that hash_key overwrites. */
  function Overwritten<S>(alg: Alg<S>, key: nat, keylen: nat): seq<nat> {
    Span(key, if keylen > alg.blockSize then alg.digestSize else 0)
  }

  /** *keylen afterwards. */
  function NewLength<S>(alg: Alg<S>, keylen: nat): nat { if keylen > alg.blockSize then alg.digestSize else keylen }

  lemma ReadyGives<S(!new)>(tfm: DigestTfm<S>, key: nat, keylen: nat, hash: Bytes -> Bytes)
    requires Ready(tfm, key, keylen, hash)
    ensures Computes(tfm.alg, hash) && 0 < tfm.alg.digestSize <= tfm.alg.blockSize < 0x2000_0000
    ensures tfm.hmacBlock + tfm.alg.blockSize <= tfm.mem.Length && key + keylen <= tfm.mem.Length
    ensures keylen < 0x2000_0000
    ensures NewLength(tfm.alg, keylen) <= tfm.alg.blockSize && NewLength(tfm.alg, keylen) <= keylen
    ensures Disjoint(Span(tfm.hmacBlock, tfm.alg.blockSize), Span(key, NewLength(tfm.alg, keylen)))
    ensures Ready(tfm, key, NewLength(tfm.alg, keylen), hash)
  {
    DisjointShorter(Span(tfm.hmacBlock, tfm.alg.blockSize), key, keylen, NewLength(tfm.alg, keylen));
  }

  lemma DisjointShorter(a: seq<nat>, key: nat, n: nat, m: nat)
    requires Disjoint(a, Span(key, n)) && m <= n
    ensures Disjoint(a, Span(key, m))
  {
    forall s, t | 0 <= s < |a| && 0 <= t < m ensures a[s] != Span(key, m)[t] {
      assert Span(key, m)[t] == Span(key, n)[t];
    }
  }

  /** The head of crypto_hmac_init and crypto_hmac_final: an over-long key is replaced by its digest. */
  method ShortenKey<S(!new)>(tfm: DigestTfm<S>, key: nat, keylen: nat,
                             ghost hash: Bytes -> Bytes) returns (keylen': nat)
    requires Ready(tfm, key, keylen, hash)
    modifies tfm`ctx, tfm.mem
    ensures keylen' == NewLength(tfm.alg, keylen) && key + keylen' <= tfm.mem.Length
    ensures var k := old(tfm.mem[key..key + keylen]);
            && Outside(old(tfm.mem[..]), tfm.mem[..], Overwritten(tfm.alg, key, keylen))
            && tfm.mem[key..key + keylen'] == (if keylen > tfm.alg.blockSize then hash(k) else k)
            && tfm.ctx == if keylen > tfm.alg.blockSize then Spent(tfm.alg.update(tfm.alg.init, k)) else old(tfm.ctx)
  {
    hide Computes, Span, Wrote;
    ReadyGives(tfm, key, keylen, hash);
    keylen' := keylen;
    if keylen > tfm.alg.blockSize {
      ghost var m, k := tfm.mem[..], tfm.mem[key..key + keylen];
      HashKey(tfm, key, keylen, hash);
      keylen' := tfm.alg.digestSize;
      Sizes(tfm.alg, hash, k);
      SpanWritten(m, tfm.mem[..], key, keylen', hash(k));
      WroteOutside(m, tfm.mem[..], Span(key, keylen'), hash(k));
    }
  }

  /** The masked key goes into the hmac block and from there into a fresh context. */
  method BeginWith<S(!new)>(tfm: DigestTfm<S>, key: nat, keylen: nat, mask: bv8) returns (ghost pieces: seq<Bytes>)
    requires keylen <= tfm.alg.blockSize < 0x2000_0000 && key + keylen <= tfm.mem.Length
    requires tfm.hmacBlock + tfm.alg.blockSize <= tfm.mem.Length
    requires Disjoint(Span(tfm.hmacBlock, tfm.alg.blockSize), Span(key, keylen))
    modifies tfm`ctx, tfm.mem
    ensures var b := tfm.alg.blockSize;
            && Outside(old(tfm.mem[..]), tfm.mem[..], Span(tfm.hmacBlock, b))
            && tfm.Holds(pieces) && Short(pieces)
            && Concat(pieces) == Masked(old(tfm.mem[key..key + keylen]) + Zeros(b - keylen), mask)
  {
    hide Span, Wrote, Disjoint, Masked, Zeros, Outside, Concat, Read, Fine, Straight, Words, Inside, Load, UpdateAll;
    var b := tfm.alg.blockSize;
    ghost var m, vals := tfm.mem[..], Masked(tfm.mem[key..key + keylen] + Zeros(b - keylen), mask);
    MaskKey(tfm, key, keylen, mask);
    WroteOutside(m, tfm.mem[..], Span(tfm.hmacBlock, b), vals);
    LoadWritten(m, tfm.mem[..], Span(tfm.hmacBlock, b), vals);
    tfm.Init();
    EntryIs(tfm.hmacBlock, b, tfm.mem.Length);
    NoPieces(vals);
    pieces := tfm.Update([Entry(tfm.hmacBlock, b)], []);
  }

  /** crypto_hmac_init: `keylen'` is what is left in *keylen. */
  method HmacInit<S(!new)>(tfm: DigestTfm<S>, key: nat, keylen: nat, ghost hash: Bytes -> Bytes)
    returns (keylen': nat, ghost pieces: seq<Bytes>)
    requires Ready(tfm, key, keylen, hash)
    modifies tfm`ctx, tfm.mem
    ensures keylen' == NewLength(tfm.alg, keylen) && key + keylen' <= tfm.mem.Length
    ensures var b, k := tfm.alg.blockSize, old(tfm.mem[key..key + keylen]);
            && Outside(old(tfm.mem[..]), tfm.mem[..], Overwritten(tfm.alg, key, keylen) + Span(tfm.hmacBlock, b))
            && tfm.mem[key..key + keylen'] == (if keylen > b then hash(k) else k)
            && tfm.Holds(pieces) && Short(pieces) && Concat(pieces) == Masked(KeyBlock(hash, b, k), 0x36)
            && MasksKey(Concat(pieces), if keylen > b then hash(k) else k, b, 0x36)
  {
    hide *;
    ReadyGives(tfm, key, keylen, hash);
    ghost var m, k := tfm.mem[..], tfm.mem[key..key + keylen];
    keylen' := ShortenKey(tfm, key, keylen, hash);
    ghost var m1, k1 := tfm.mem[..], tfm.mem[key..key + keylen'];
    KeyBlockIs(hash, tfm.alg.blockSize, k, k1);
    MaskedIs(k1, tfm.alg.blockSize, 0x36);
    pieces := BeginWith(tfm, key, keylen', 0x36);
    OutsideBoth(m, m1, tfm.mem[..], Overwritten(tfm.alg, key, keylen), Span(tfm.hmacBlock, tfm.alg.blockSize));
    RegionKept(m1, tfm.mem[..], Span(tfm.hmacBlock, tfm.alg.blockSize), key, keylen');
  }

  lemma RegionKept(m: Bytes, n: Bytes, at: seq<nat>, a: nat, k: nat)
    requires Outside(m, n, at) && a + k <= |m| && Disjoint(at, Span(a, k))
    ensures |n| == |m| && n[a..a + k] == m[a..a + k]
  {
    LoadSpan(m, a, k);
    LoadOutside(m, n, at, Span(a, k));
    LoadSpan(n, a, k);
  }

  /** What crypto_hmac_final puts out when the context has absorbed `inner`.  With a length that is
      still over-long the key is hashed again, and that overwrites the running digest. */
  function FinalOutput<S>(alg: Alg<S>, hash: Bytes -> Bytes, key: Bytes, inner: Bytes): Bytes {
    var digest := if |key| > alg.blockSize then alg.again(alg.update(alg.init, key)) else hash(inner);
    hash(Masked(KeyBlock(hash, alg.blockSize, key), 0x5c) + digest)
  }

  /** `mac` is the hash of the key masked with 0x5c and of `digest` behind it. */
  ghost predicate FinishesHmac(hash: Bytes -> Bytes, b: nat, k: Bytes, digest: Bytes, mac: Bytes) {
    exists o :: MasksKey(o, k, b, 0x5c) && mac == hash(o + digest)
  }

  lemma FinalMeets<S>(alg: Alg<S>, hash: Bytes -> Bytes, key: Bytes, k: Bytes, inner: Bytes)
    requires k == (if |key| > alg.blockSize then hash(key) else key) && |k| <= alg.blockSize
    ensures var digest := if |key| > alg.blockSize then alg.again(alg.update(alg.init, key)) else hash(inner);
            FinishesHmac(hash, alg.blockSize, k, digest, FinalOutput(alg, hash, key, inner))
  {
    hide MasksKey, Masked, Zeros;
    KeyBlockIs(hash, alg.blockSize, key, k);
    MaskedIs(k, alg.blockSize, 0x5c);
  }

  /** Room for the digest, apart from the key and from the hmac block. */
  ghost predicate Room<S(!new)>(tfm: DigestTfm<S>, key: nat, keylen: nat, out: nat) {
    && out + tfm.alg.digestSize <= tfm.mem.Length
    && Disjoint(Span(out, tfm.alg.digestSize), Span(key, keylen))
    && Disjoint(Span(tfm.hmacBlock, tfm.alg.blockSize), Span(out, tfm.alg.digestSize))
  }

  /** The context is finished into `out` and the result hashed behind the masked key. */
  method HashOnce<S(!new)>(tfm: DigestTfm<S>, key: nat, keylen: nat, out: nat, ghost hash: Bytes -> Bytes)
    requires Computes(tfm.alg, hash) && keylen <= tfm.alg.blockSize < 0x2000_0000 && key + keylen <= tfm.mem.Length
    requires tfm.hmacBlock + tfm.alg.blockSize <= tfm.mem.Length && Room(tfm, key, keylen, out)
    requires Disjoint(Span(tfm.hmacBlock, tfm.alg.blockSize), Span(key, keylen))
    requires !tfm.ctx.SpentTwice? && |tfm.Output()| == tfm.alg.digestSize
    modifies tfm`ctx, tfm.mem
    ensures var b, n := tfm.alg.blockSize, tfm.alg.digestSize;
            && Outside(old(tfm.mem[..]), tfm.mem[..], Span(out, n) + Span(tfm.hmacBlock, b) + Span(out, n))
            && out + n <= tfm.mem.Length
            && tfm.mem[out..out + n]
            == hash(Masked(old(tfm.mem[key..key + keylen]) + Zeros(b - keylen), 0x5c) + old(tfm.Output()))
  {
    hide *;
    RoomGives(tfm, key, keylen, out);
    Sizes(tfm.alg, hash, []);
    var b, n := tfm.alg.blockSize, tfm.alg.digestSize;
    ghost var m, k, d := tfm.mem[..], tfm.mem[key..key + keylen], tfm.Output();
    tfm.Final(out);
    ghost var m1 := tfm.mem[..];
    WroteOutside(m, m1, Span(out, n), d);
    SpanWritten(m, m1, out, n, d);
    RegionKept(m, m1, Span(out, n), key, keylen);
    ghost var pieces := BeginWith(tfm, key, keylen, 0x5c);
    ghost var m2 := tfm.mem[..];
    RegionKept(m1, m2, Span(tfm.hmacBlock, b), out, n);
    LoadSpan(m2, out, n);
    EntryIs(out, n, tfm.mem.Length);
    pieces := tfm.Update([Entry(out, n)], pieces);
    Computed(tfm.alg, hash, pieces);
    Sizes(tfm.alg, hash, Concat(pieces));
    FinishPieces(tfm, pieces, out, hash);
    WroteOutside(m2, tfm.mem[..], Span(out, n), hash(Concat(pieces)));
    SpanWritten(m2, tfm.mem[..], out, n, hash(Concat(pieces)));
    OutsideBoth(m, m1, m2, Span(out, n), Span(tfm.hmacBlock, b));
    OutsideBoth(m, m2, tfm.mem[..], Span(out, n) + Span(tfm.hmacBlock, b), Span(out, n));
  }

  lemma RoomGives<S(!new)>(tfm: DigestTfm<S>, key: nat, keylen: nat, out: nat)
    requires Room(tfm, key, keylen, out)
    ensures out + tfm.alg.digestSize <= tfm.mem.Length
    ensures Disjoint(Span(out, tfm.alg.digestSize), Span(key, keylen))
    ensures Disjoint(Span(tfm.hmacBlock, tfm.alg.blockSize), Span(out, tfm.alg.digestSize))
    ensures Room(tfm, key, NewLength(tfm.alg, keylen), out) || NewLength(tfm.alg, keylen) > keylen
  {
    if NewLength(tfm.alg, keylen) <= keylen {
      DisjointShorter(Span(out, tfm.alg.digestSize), key, keylen, NewLength(tfm.alg, keylen));
    }
  }

  method FinishPieces<S(!new)>(tfm: DigestTfm<S>, ghost pieces: seq<Bytes>, out: nat, ghost hash: Bytes -> Bytes)
    requires Computes(tfm.alg, hash) && tfm.Holds(pieces) && Short(pieces) && out + tfm.alg.digestSize <= tfm.mem.Length
    modifies tfm`ctx, tfm.mem
    ensures Wrote(old(tfm.mem[..]), tfm.mem[..], Span(out, tfm.alg.digestSize), hash(Concat(pieces)))
  {
    hide Computes, UpdateAll, Concat, Wrote;
    Computed(tfm.alg, hash, pieces);
    Sizes(tfm.alg, hash, Concat(pieces));
    tfm.Final(out);
  }

  /** crypto_hmac_final */
  method HmacFinal<S(!new)>(tfm: DigestTfm<S>, key: nat, keylen: nat, out: nat,
                            ghost hash: Bytes -> Bytes, ghost inner: seq<Bytes>)
    returns (keylen': nat)
    requires Ready(tfm, key, keylen, hash) && Room(tfm, key, keylen, out) && tfm.Holds(inner) && Short(inner)
    modifies tfm`ctx, tfm.mem
    ensures keylen' == NewLength(tfm.alg, keylen) && out + tfm.alg.digestSize <= tfm.mem.Length
    ensures tfm.mem[out..out + tfm.alg.digestSize]
         == FinalOutput(tfm.alg, hash, old(tfm.mem[key..key + keylen]), Concat(inner))
    ensures var k, b := old(tfm.mem[key..key + keylen]), tfm.alg.blockSize;
            FinishesHmac(hash, b, if keylen > b then hash(k) else k,
                         if keylen > b then tfm.alg.again(tfm.alg.update(tfm.alg.init, k)) else hash(Concat(inner)),
                         tfm.mem[out..out + tfm.alg.digestSize])
    ensures var n := tfm.alg.digestSize;
            Outside(old(tfm.mem[..]), tfm.mem[..],
                    Overwritten(tfm.alg, key, keylen)
                    + (Span(out, n) + Span(tfm.hmacBlock, tfm.alg.blockSize) + Span(out, n)))
  {
    hide *;
    ReadyGives(tfm, key, keylen, hash);
    RoomGives(tfm, key, keylen, out);
    ghost var m, k, n := tfm.mem[..], tfm.mem[key..key + keylen], tfm.alg.digestSize;
    Sizes(tfm.alg, hash, k);
    Sizes(tfm.alg, hash, Concat(inner));
    Computed(tfm.alg, hash, inner);
    HoldsGives(tfm, inner);
    keylen' := ShortenKey(tfm, key, keylen, hash);
    ghost var m1, k1 := tfm.mem[..], tfm.mem[key..key + keylen'];
    KeyBlockIs(hash, tfm.alg.blockSize, k, k1);
    OutputIs(tfm);
    FinalOutputIs(tfm.alg, hash, k, Concat(inner));
    FinalMeets(tfm.alg, hash, k, k1, Concat(inner));
    HashOnce(tfm, key, keylen', out, hash);
    OutsideBoth(m, m1, tfm.mem[..], Overwritten(tfm.alg, key, keylen),
                Span(out, n) + Span(tfm.hmacBlock, tfm.alg.blockSize) + Span(out, n));
  }

  lemma HoldsGives<S(!new)>(tfm: DigestTfm<S>, pieces: seq<Bytes>)
    requires tfm.Holds(pieces)
    ensures tfm.ctx == Live(UpdateAll(tfm.alg, tfm.alg.init, pieces))
  {}

  lemma OutputIs<S(!new)>(tfm: DigestTfm<S>)
    requires !tfm.ctx.SpentTwice?
    ensures tfm.Output() == if tfm.ctx.Live? then tfm.alg.final(tfm.ctx.s) else tfm.alg.again(tfm.ctx.s)
  {}

  lemma FinalOutputIs<S>(alg: Alg<S>, hash: Bytes -> Bytes, key: Bytes, inner: Bytes)
    ensures var digest := if |key| > alg.blockSize then alg.again(alg.update(alg.init, key)) else hash(inner);
            FinalOutput(alg, hash, key, inner) == hash(Masked(KeyBlock(hash, alg.blockSize, key), 0x5c) + digest)
  {}

  /** crypto_hmac: HMAC of RFC 2104 for every key length and every text, read page by page.  The text
      may lie anywhere but in the hmac block and in a key that gets overwritten. */
  method HmacAll<S(!new)>(tfm: DigestTfm<S>, key: nat, keylen: nat, sg: seq<Seg>, out: nat, ghost hash: Bytes -> Bytes)
    returns (keylen': nat)
    requires Ready(tfm, key, keylen, hash) && Room(tfm, key, keylen, out)
    requires Words(sg) && Fine(sg) && Inside(Read(sg), tfm.mem.Length)
    requires Disjoint(Overwritten(tfm.alg, key, keylen) + Span(tfm.hmacBlock, tfm.alg.blockSize), Read(sg))
    modifies tfm`ctx, tfm.mem
    ensures keylen' == NewLength(tfm.alg, keylen) && out + tfm.alg.digestSize <= tfm.mem.Length
    ensures tfm.mem[out..out + tfm.alg.digestSize]
         == Hmac(hash, tfm.alg.blockSize, old(tfm.mem[key..key + keylen]), Load(old(tfm.mem[..]), Read(sg)))
    ensures var b, k := tfm.alg.blockSize, old(tfm.mem[key..key + keylen]);
            IsHmac(hash, b, if keylen > b then hash(k) else k, Load(old(tfm.mem[..]), Read(sg)),
                   tfm.mem[out..out + tfm.alg.digestSize])
    ensures Straight(sg) <==> Read(sg) == Addrs(sg)
  {
    hide *;
    ReadyGives(tfm, key, keylen, hash);
    RoomGives(tfm, key, keylen, out);
    ghost var m, b, k := tfm.mem[..], tfm.alg.blockSize, tfm.mem[key..key + keylen];
    var n; ghost var pieces;
    n, pieces := HmacInit(tfm, key, keylen, hash);
    ghost var k1 := tfm.mem[key..key + n];
    LoadOutside(m, tfm.mem[..], Overwritten(tfm.alg, key, keylen) + Span(tfm.hmacBlock, b), Read(sg));
    pieces := tfm.Update(sg, pieces);
    HmacIs(tfm.alg, hash, k, k1, Load(m, Read(sg)));
    HmacMeets(hash, b, k, k1, Load(m, Read(sg)));
    InnerIs(hash, b, k, Load(m, Read(sg)));
    keylen' := HmacFinal(tfm, key, n, out, hash, pieces);
    NewLengthTwice(tfm.alg, keylen, hash);
  }

  lemma InnerIs(hash: Bytes -> Bytes, b: nat, key: Bytes, text: Bytes)
    ensures Inner(hash, b, key, text) == Masked(KeyBlock(hash, b, key), 0x36) + text
  {}

  lemma NewLengthTwice<S(!new)>(alg: Alg<S>, n: nat, hash: Bytes -> Bytes)
    requires Computes(alg, hash)
    ensures NewLength(alg, NewLength(alg, n)) == NewLength(alg, n)
  {}

  /** Called with the shortened key, crypto_hmac_final completes the HMAC of the whole key. */
  lemma HmacIs<S(!new)>(alg: Alg<S>, hash: Bytes -> Bytes, key: Bytes, k: Bytes, text: Bytes)
    requires Computes(alg, hash) && k == if |key| > alg.blockSize then hash(key) else key
    ensures FinalOutput(alg, hash, k, Inner(hash, alg.blockSize, key, text)) == Hmac(hash, alg.blockSize, key, text)
  {
    Sizes(alg, hash, key);
  }

  /* ---- An over-long length passed to crypto_hmac_final ---- */

  /** Then the result is the same for every text. */
  lemma TextDropsOut<S>(alg: Alg<S>, hash: Bytes -> Bytes, key: Bytes, text: Bytes, text': Bytes)
    requires |key| > alg.blockSize
    ensures FinalOutput(alg, hash, key, Inner(hash, alg.blockSize, key, text))
         == FinalOutput(alg, hash, key, Inner(hash, alg.blockSize, key, text'))
  {}

  /** For every algorithm and key whose HMAC depends on the text at all: crypto_hmac_final gives the HMAC
      of every text if and only if it is called with a length of at most a block. */
  lemma FinalRightIff<S(!new)>(alg: Alg<S>, hash: Bytes -> Bytes, key: Bytes, text: Bytes, text': Bytes)
    requires Computes(alg, hash) && Hmac(hash, alg.blockSize, key, text) != Hmac(hash, alg.blockSize, key, text')
    ensures (forall t: Bytes ::
               FinalOutput(alg, hash, key, Inner(hash, alg.blockSize, key, t)) == Hmac(hash, alg.blockSize, key, t))
       <==> |key| <= alg.blockSize
  {
    if |key| <= alg.blockSize {
      forall t: Bytes
        ensures FinalOutput(alg, hash, key, Inner(hash, alg.blockSize, key, t)) == Hmac(hash, alg.blockSize, key, t)
      {
        HmacIs(alg, hash, key, key, t);
      }
    } else {
      TextDropsOut(alg, hash, key, text, text');
    }
  }

  /** An algorithm to show it with: the digest is the last byte of the message. */
  function LastByte(m: Bytes): Bytes { [if m == [] then 0 else m[|m| - 1]] }

  function LastByteAlg(b: nat): Alg<bv8> {
    Alg(0, (s: bv8, d: Bytes) => if d == [] then s else d[|d| - 1], (s: bv8) => [s], (s: bv8) => [s], b, 1)
  }

  lemma {:induction false} LastByteUpdates(b: nat, pieces: seq<Bytes>)
    ensures [UpdateAll(LastByteAlg(b), 0, pieces)] == LastByte(Concat(pieces))
  {
    if pieces != [] { LastByteUpdates(b, pieces[..|pieces| - 1]); }
  }

  lemma LastByteComputes(b: nat)
    requires 0 < b < 0x2000_0000
    ensures Computes(LastByteAlg(b), LastByte)
  {
    forall pieces: seq<Bytes> | Short(pieces)
      ensures LastByteAlg(b).final(UpdateAll(LastByteAlg(b), 0, pieces)) == LastByte(Concat(pieces))
    {
      LastByteUpdates(b, pieces);
    }
  }

  /** Its HMAC of the texts 1 and 2 is 1 and 2, for every key and every block size; so with an over-long
      length crypto_hmac_final is wrong for one of them. */
  lemma OverLongFails(b: nat, key: Bytes)
    requires 0 < b < 0x2000_0000 && b < |key|
    ensures Computes(LastByteAlg(b), LastByte)
    ensures Hmac(LastByte, b, key, [1]) == [1] && Hmac(LastByte, b, key, [2]) == [2]
    ensures !forall t: Bytes ::
              FinalOutput(LastByteAlg(b), LastByte, key, Inner(LastByte, b, key, t)) == Hmac(LastByte, b, key, t)
  {
    LastByteComputes(b);
    var x, y := Masked(KeyBlock(LastByte, b, key), 0x5c), Masked(KeyBlock(LastByte, b, key), 0x36);
    LastOf(y, 1);
    LastOf(y, 2);
    LastOf(x, 1);
    LastOf(x, 2);
    FinalRightIff(LastByteAlg(b), LastByte, key, [1], [2]);
  }

  lemma LastOf(x: Bytes, c: bv8)
    ensures LastByte(x + [c]) == [c]
  {}
}

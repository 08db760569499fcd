/** sha256, md5 and wp512 as algorithms of the digest layer. */
module HashAlgs {
  import opened Machine
  import opened Hashing
  import opened Digest
  import Sha256
  import Md5
  import Wp512

  // sha256_final and md5_final clear the context, so a second final hashes nothing from an all-zero
  // state; wp512_final leaves its last block in the buffer.

  function Sha256Alg<H>(comp: (H, Bytes) -> H, out: H -> Bytes, h0: H, zero: H): Alg<Sha256.ShaState<H>> {
    Alg(Sha256.Start(h0), (s: Sha256.ShaState<H>, d: Bytes) => Sha256.Absorb(comp, s, d),
        (s: Sha256.ShaState<H>) => Sha256.Finish(comp, out, s),
        (s: Sha256.ShaState<H>) => Sha256.Finish(comp, out, Sha256.Start(zero)), 64, 32)
  }

  function Md5Alg<H>(comp: (H, Bytes) -> H, out: H -> Bytes, h0: H, zero: H): Alg<Md5.Md5State<H>> {
    Alg(Md5.Start(h0), (s: Md5.Md5State<H>, d: Bytes) => Md5.Absorb(comp, s, d),
        (s: Md5.Md5State<H>) => Md5.Finish(comp, out, s),
        (s: Md5.Md5State<H>) => Md5.Finish(comp, out, Md5.Start(zero)), 64, 16)
  }

  function Wp512Alg<H>(comp: (H, Bytes) -> H, out: H -> Bytes, h0: H): Alg<Wp512.WpState<H>> {
    Alg(Wp512.Start(h0), (s: Wp512.WpState<H>, d: Bytes) => Wp512.Absorb(comp, s, d),
        (s: Wp512.WpState<H>) => Wp512.Finish(comp, out, s),
        (s: Wp512.WpState<H>) => Wp512.Again(comp, out, s), 64, 64)
  }

  lemma {:induction false} Sha256Updates<H>(comp: (H, Bytes) -> H, out: H -> Bytes, h0: H, zero: H, pieces: seq<Bytes>)
    ensures var alg := Sha256Alg(comp, out, h0, zero);
            UpdateAll(alg, alg.init, pieces) == Sha256.AbsorbAll(comp, h0, pieces)
  {
    if pieces != [] { Sha256Updates(comp, out, h0, zero, pieces[..|pieces| - 1]); }
  }

  lemma {:induction false} Md5Updates<H>(comp: (H, Bytes) -> H, out: H -> Bytes, h0: H, zero: H, pieces: seq<Bytes>)
    ensures var alg := Md5Alg(comp, out, h0, zero);
            UpdateAll(alg, alg.init, pieces) == Md5.AbsorbAll(comp, h0, pieces)
  {
    if pieces != [] { Md5Updates(comp, out, h0, zero, pieces[..|pieces| - 1]); }
  }

  lemma {:induction false} Wp512Updates<H>(comp: (H, Bytes) -> H, out: H -> Bytes, h0: H, pieces: seq<Bytes>)
    ensures var alg := Wp512Alg(comp, out, h0);
            UpdateAll(alg, alg.init, pieces) == Wp512.AbsorbAll(comp, h0, pieces)
  {
    if pieces != [] { Wp512Updates(comp, out, h0, pieces[..|pieces| - 1]); }
  }

  /** A hash function on whole messages: pad, fold, put out. */
  function Iterated<H>(comp: (H, Bytes) -> H, out: H -> Bytes, h0: H, pad: Bytes -> Bytes): Bytes -> Bytes {
    (m: Bytes) => out(Fold(comp, h0, pad(m)))
  }

  lemma FinishSizes<H(!new)>(comp: (H, Bytes) -> H, out: H -> Bytes, zero: H, n: nat)
    requires forall h: H :: |out(h)| == n
    ensures |Sha256.Finish(comp, out, Sha256.Start(zero))| == |Md5.Finish(comp, out, Md5.Start(zero))| == n
  {}

  lemma Sha256Computes<H(!new)>(comp: (H, Bytes) -> H, out: H -> Bytes, h0: H, zero: H)
    requires forall h: H :: |out(h)| == 32
    ensures Computes(Sha256Alg(comp, out, h0, zero), Iterated(comp, out, h0, Sha256.Padded))
  {
    hide Fold, Sha256.Finish, Sha256.Absorb, Sha256.AbsorbAll, UpdateAll, Concat;
    FinishSizes(comp, out, zero, 32);
    var alg, hash := Sha256Alg(comp, out, h0, zero), Iterated(comp, out, h0, Sha256.Padded);
    forall m: Bytes ensures |hash(m)| == alg.digestSize {}
    forall pieces: seq<Bytes> | Short(pieces)
      ensures alg.final(UpdateAll(alg, alg.init, pieces)) == hash(Concat(pieces))
    {
      Sha256Updates(comp, out, h0, zero, pieces);
      Sha256.DigestIs(comp, out, h0, pieces);
    }
  }

  lemma Md5Computes<H(!new)>(comp: (H, Bytes) -> H, out: H -> Bytes, h0: H, zero: H)
    requires forall h: H :: |out(h)| == 16
    ensures Computes(Md5Alg(comp, out, h0, zero), Iterated(comp, out, h0, Md5.Padded))
  {
    hide Fold, Md5.Finish, Md5.Absorb, Md5.AbsorbAll, UpdateAll, Concat;
    FinishSizes(comp, out, zero, 16);
    var alg, hash := Md5Alg(comp, out, h0, zero), Iterated(comp, out, h0, Md5.Padded);
    forall m: Bytes ensures |hash(m)| == alg.digestSize {}
    forall pieces: seq<Bytes> | Short(pieces)
      ensures alg.final(UpdateAll(alg, alg.init, pieces)) == hash(Concat(pieces))
    {
      Md5Updates(comp, out, h0, zero, pieces);
      Md5.DigestIs(comp, out, h0, pieces);
    }
  }

  lemma Wp512Computes<H(!new)>(comp: (H, Bytes) -> H, out: H -> Bytes, h0: H)
    requires forall h: H :: |out(h)| == 64
    ensures Computes(Wp512Alg(comp, out, h0), Iterated(comp, out, h0, Wp512.Padded))
  {
    hide Fold, Wp512.Finish, Wp512.Absorb, Wp512.AbsorbAll, UpdateAll, Concat;
    var alg, hash := Wp512Alg(comp, out, h0), Iterated(comp, out, h0, Wp512.Padded);
    forall m: Bytes ensures |hash(m)| == alg.digestSize {}
    forall pieces: seq<Bytes> | Short(pieces)
      ensures alg.final(UpdateAll(alg, alg.init, pieces)) == hash(Concat(pieces))
    {
      Wp512Updates(comp, out, h0, pieces);
      Wp512.DigestIs(comp, out, h0, pieces);
    }
  }
}

/** crypto/aes.c: encryption and decryption of one block under an expanded key. */
module AesBlock {
  import opened Bits
  import opened Fips197
  import opened AesTables
  import opened Aes
  import opened Network

  lemma ReadyForBlocks(t: Tables, f: bv8 -> bv8, g: bv8 -> bv8)
    requires Ready(t, f, g)
    ensures ColumnsUpTo(t.ft, 256, ForwardEntry(f)) && ColumnsUpTo(t.fl, 256, LastEntry(f))
    ensures ColumnsUpTo(t.it, 256, InverseEntry(g)) && ColumnsUpTo(t.il, 256, LastEntry(g))
  {}

  /** u32_in of the block, with four key words added. */
  method LoadBlock(b0: array<bv32>, input: seq<bv8>, key: seq<bv32>, kp: nat)
    requires |input| == 16 && b0.Length == 4 && kp + 4 <= |key|
    modifies b0
    ensures StateOf(b0[..]) == AddRoundKey(BlockState(input), StateOf(key[kp..kp + 4]))
  {
    b0[0] := Xor32(U32In(input, 0), key[kp]);
    b0[1] := Xor32(U32In(input, 4), key[kp + 1]);
    b0[2] := Xor32(U32In(input, 8), key[kp + 2]);
    b0[3] := Xor32(U32In(input, 12), key[kp + 3]);
    assert b0[..] == Keyed(BlockWords(input), key[kp..kp + 4]);
    KeyedIsAddRoundKey(BlockWords(input), key[kp..kp + 4]);
    BlockWordsState(input);
  }

  /** u32_out of the four words. */
  function StoreBlock(w: seq<bv32>): (out: seq<bv8>)
    requires |w| == 4
    ensures |out| == 16 && BlockState(out) == StateOf(w)
  {
    StateBlock(StateOf(w))
  }

  /** The ten unconditional rounds, the last without MixColumns. */
  method EncTail(t: Tables, b0: array<bv32>, b1: array<bv32>, key: seq<bv32>, kp: nat,
                 ghost f: bv8 -> bv8, ghost rk: nat -> State, ghost nr: nat, ghost s: State)
    requires ColumnsUpTo(t.ft, 256, ForwardEntry(f)) && ColumnsUpTo(t.fl, 256, LastEntry(f))
    requires b0.Length == b1.Length == 4 && b0 != b1
    requires ForwardKeys(key, rk, nr) && nr >= 10 && kp == 4 * (nr - 9)
    requires StateOf(b0[..]) == Up(CipherRound(f, rk), s, nr - 10)
    modifies b0, b1
    ensures StateOf(b0[..]) == LastRound(f, Up(CipherRound(f, rk), s, nr - 1), rk(nr))
  {
    hide *;
    EncPair(t, b0, b1, key, kp, f, rk, nr, s, nr - 9);
    EncPair(t, b0, b1, key, kp + 8, f, rk, nr, s, nr - 7);
    EncPair(t, b0, b1, key, kp + 16, f, rk, nr, s, nr - 5);
    EncPair(t, b0, b1, key, kp + 24, f, rk, nr, s, nr - 3);
    EncRound(t, b1, b0, key, kp + 32, f, rk, nr, s, nr - 1);
    EncLast(t, b0, b1, key, kp + 36, f, rk, nr);
  }

  method EncLast(t: Tables, b0: array<bv32>, b1: array<bv32>, key: seq<bv32>, kp: nat,
                 ghost f: bv8 -> bv8, ghost rk: nat -> State, ghost nr: nat)
    requires ColumnsUpTo(t.fl, 256, LastEntry(f)) && b0.Length == b1.Length == 4 && b0 != b1
    requires ForwardKeys(key, rk, nr) && kp == 4 * nr
    modifies b0
    ensures StateOf(b0[..]) == LastRound(f, old(StateOf(b1[..])), rk(nr))
  {
    hide *;
    ghost var w := b1[..];
    ForwardKeyAt(key, rk, nr, nr);
    TableSize(t.fl, 256, LastEntry(f));
    ForwardRound(t.fl, b0, b1, key, kp);
    LastRoundIs(t.fl, f, w, key[kp..kp + 4]);
  }

  lemma CipherIs(f: bv8 -> bv8, rk: nat -> State, nr: nat, s: State)
    requires nr > 0
    ensures Cipher(f, rk, nr, s) == LastRound(f, Up(CipherRound(f, rk), AddRoundKey(s, rk(0)), nr - 1), rk(nr))
  {}

  /** aes_encrypt: the cipher of FIPS 197 with Nr = 10, 12 or 14 by key length. */
  method EncryptBlock(t: Tables, keyLength: nat, key: seq<bv32>, input: seq<bv8>,
                      ghost f: bv8 -> bv8, ghost rk: nat -> State)
    returns (out: seq<bv8>)
    requires ColumnsUpTo(t.ft, 256, ForwardEntry(f)) && ColumnsUpTo(t.fl, 256, LastEntry(f))
    requires keyLength == 16 || keyLength == 24 || keyLength == 32
    requires ForwardKeys(key, rk, keyLength / 4 + 6) && |input| == 16
    ensures |out| == 16 && BlockState(out) == Cipher(f, rk, keyLength / 4 + 6, BlockState(input))
  {
    hide *;
    var b0, b1 := new bv32[4], new bv32[4];
    ghost var nr := keyLength / 4 + 6;
    ghost var s := AddRoundKey(BlockState(input), rk(0));
    ForwardKeyAt(key, rk, nr, 0);
    UpZero(CipherRound(f, rk), s);
    LoadBlock(b0, input, key, 0);
    var kp := 4;
    if keyLength > 24 {
      EncPair(t, b0, b1, key, kp, f, rk, nr, s, 1);
      kp := kp + 8;
    }
    if keyLength > 16 {
      EncPair(t, b0, b1, key, kp, f, rk, nr, s, nr - 11);
      kp := kp + 8;
    }
    EncTail(t, b0, b1, key, kp, f, rk, nr, s);
    CipherIs(f, rk, nr, BlockState(input));
    out := StoreBlock(b0[..]);
  }

  method DecTail(t: Tables, b0: array<bv32>, b1: array<bv32>, key: seq<bv32>, kp: nat,
                 ghost g: bv8 -> bv8, ghost rk: nat -> State, ghost nr: nat, ghost s: State)
    requires ColumnsUpTo(t.it, 256, InverseEntry(g)) && ColumnsUpTo(t.il, 256, LastEntry(g))
    requires b0.Length == b1.Length == 4 && b0 != b1
    requires InverseKeys(key, rk, nr) && nr >= 10 && kp == 60 + 36
    requires StateOf(b0[..]) == Down(EqInvCipherRound(g, rk), s, nr - 1, nr - 10)
    modifies b0, b1
    ensures StateOf(b0[..]) == EqInvLastRound(g, Down(EqInvCipherRound(g, rk), s, nr - 1, nr - 1), rk(0))
  {
    hide *;
    DecPair(t, b0, b1, key, kp, g, rk, nr, s, nr - 9);
    DecPair(t, b0, b1, key, kp - 8, g, rk, nr, s, nr - 7);
    DecPair(t, b0, b1, key, kp - 16, g, rk, nr, s, nr - 5);
    DecPair(t, b0, b1, key, kp - 24, g, rk, nr, s, nr - 3);
    DecRound(t, b1, b0, key, kp - 32, g, rk, nr, s, nr - 1);
    DecLast(t, b0, b1, key, kp - 36, g, rk, nr);
  }

  method DecLast(t: Tables, b0: array<bv32>, b1: array<bv32>, key: seq<bv32>, kp: nat,
                 ghost g: bv8 -> bv8, ghost rk: nat -> State, ghost nr: nat)
    requires ColumnsUpTo(t.il, 256, LastEntry(g)) && b0.Length == b1.Length == 4 && b0 != b1
    requires InverseKeys(key, rk, nr) && kp == 60
    modifies b0
    ensures StateOf(b0[..]) == EqInvLastRound(g, old(StateOf(b1[..])), rk(0))
  {
    hide *;
    ghost var w := b1[..];
    InverseKeyEnds(key, rk, nr);
    TableSize(t.il, 256, LastEntry(g));
    InverseRound(t.il, b0, b1, key, kp);
    InverseLastRoundIs(t.il, g, w, key[kp..kp + 4]);
  }

  lemma EqInvCipherIs(g: bv8 -> bv8, rk: nat -> State, nr: nat, s: State)
    requires nr > 0
    ensures EqInvCipher(g, rk, nr, s)
         == EqInvLastRound(g, Down(EqInvCipherRound(g, rk), AddRoundKey(s, rk(nr)), nr - 1, nr - 1), rk(0))
  {}

  /** aes_decrypt: the equivalent inverse cipher, reading D_KEY downwards from word key_len + 20. */
  method DecryptBlock(t: Tables, keyLength: nat, key: seq<bv32>, input: seq<bv8>,
                      ghost g: bv8 -> bv8, ghost rk: nat -> State)
    returns (out: seq<bv8>)
    requires ColumnsUpTo(t.it, 256, InverseEntry(g)) && ColumnsUpTo(t.il, 256, LastEntry(g))
    requires keyLength == 16 || keyLength == 24 || keyLength == 32
    requires InverseKeys(key, rk, keyLength / 4 + 6) && |input| == 16
    ensures |out| == 16 && BlockState(out) == EqInvCipher(g, rk, keyLength / 4 + 6, BlockState(input))
  {
    hide *;
    var b0, b1 := new bv32[4], new bv32[4];
    ghost var nr := keyLength / 4 + 6;
    ghost var s := AddRoundKey(BlockState(input), rk(nr));
    InverseKeyEnds(key, rk, nr);
    DownZero(EqInvCipherRound(g, rk), s, nr - 1);
    LoadBlock(b0, input, key, keyLength + 24);
    var kp := 60 + keyLength + 20;
    if keyLength > 24 {
      DecPair(t, b0, b1, key, kp, g, rk, nr, s, 1);
      kp := kp - 8;
    }
    if keyLength > 16 {
      DecPair(t, b0, b1, key, kp, g, rk, nr, s, nr - 11);
      kp := kp - 8;
    }
    DecTail(t, b0, b1, key, kp, g, rk, nr, s);
    EqInvCipherIs(g, rk, nr, BlockState(input));
    out := StoreBlock(b0[..]);
  }
}

/** crypto/aes.c as its callers see it: a context, a key, and blocks of 16 bytes. */
module AesCipher {
  import opened Machine
  import opened Fips197
  import opened AesTables
  import opened Aes
  import opened AesKey
  import opened AesBlock

  /** AES of FIPS 197 on byte blocks. */
  ghost function Encipher(key: seq<bv8>, block: seq<bv8>): (c: seq<bv8>)
    requires IsKey(key) && |block| == 16
    ensures |c| == 16
  {
    StateBlock(Cipher(SBox(), RoundKeys(SBox(), key), Rounds(key), BlockState(block)))
  }

  /** The inverse cipher of section 5.3 of FIPS 197 on byte blocks. */
  ghost function Decipher(key: seq<bv8>, block: seq<bv8>): (b: seq<bv8>)
    requires IsKey(key) && |block| == 16
    ensures |b| == 16
  {
    StateBlock(InvCipher(InvSBox(), RoundKeys(SBox(), key), Rounds(key), BlockState(block)))
  }

  lemma RoundsIs(key: seq<bv8>)
    requires IsKey(key)
    ensures Rounds(key) == |key| / 4 + 6
  {}

  lemma EncipherIs(key: seq<bv8>, block: seq<bv8>)
    requires IsKey(key) && |block| == 16
    ensures Encipher(key, block) == StateBlock(Cipher(SBox(), RoundKeys(SBox(), key), Rounds(key), BlockState(block)))
  {}

  /** Deciphering with the equivalent inverse cipher, as the code does, is deciphering. */
  lemma DecipherIs(key: seq<bv8>, block: seq<bv8>)
    requires IsKey(key) && |block| == 16
    ensures Decipher(key, block)
         == StateBlock(EqInvCipher(InvSBox(), RoundKeys(SBox(), key), Rounds(key), BlockState(block)))
  {
    hide SBox, InvSBox, RoundKeys, InvCipher, EqInvCipher;
    EqInvCipherIsInvCipher(InvSBox(), RoundKeys(SBox(), key), Rounds(key), BlockState(block));
  }

  /** For every key and every block, decryption undoes encryption. */
  lemma DecipherUndoesEncipher(key: seq<bv8>, block: seq<bv8>)
    requires IsKey(key) && |block| == 16
    ensures Decipher(key, Encipher(key, block)) == block
  {
    hide SBox, InvSBox, RoundKeys, Cipher, InvCipher, EqInvCipher;
    var rk, nr, s := RoundKeys(SBox(), key), Rounds(key), BlockState(block);
    SBoxInverts();
    var c := Cipher(SBox(), rk, nr, s);
    BlockOfState(c);
    StateOfBlock(block);
    EqInvCipherUndoesCipher(SBox(), InvSBox(), rk, nr, s);
    DecipherIs(key, StateBlock(c));
  }

  /** struct aes_ctx: E_KEY and D_KEY lie one after the other. */
  class AesCtx {
    var keyLength: nat
    const ed: array<bv32>

    constructor ()
      ensures fresh(ed) && ed.Length == 120
    {
      ed := new bv32[120];
    }

    ghost predicate Holds(key: seq<bv8>)
      reads this, ed
    {
      && IsKey(key) && keyLength == |key|
      && ForwardKeys(ed[..], RoundKeys(SBox(), key), Rounds(key))
      && InverseKeys(ed[..], RoundKeys(SBox(), key), Rounds(key))
    }

    lemma HoldsIs(key: seq<bv8>)
      ensures Holds(key) <==>
        && IsKey(key) && keyLength == |key|
        && ForwardKeys(ed[..], RoundKeys(SBox(), key), Rounds(key))
        && InverseKeys(ed[..], RoundKeys(SBox(), key), Rounds(key))
    {}

    /** aes_set_key */
    method SetKey(t: Tables, key: seq<bv8>) returns (err: int, badKeyLen: bool)
      requires Ready(t, SBox(), InvSBox()) && ed.Length == 120
      modifies this, ed
      ensures badKeyLen == !IsKey(key)
      ensures err == if IsKey(key) then 0 else -EINVAL
      ensures IsKey(key) ==> Holds(key)
      ensures !IsKey(key) ==> unchanged(this) && unchanged(ed)
    {
      hide *;
      KeySize(key);
      if |key| != 16 && |key| != 24 && |key| != 32 { return -EINVAL, true; }
      keyLength := |key|;
      ReadyForKeys(t, SBox(), InvSBox());
      Schedule(t, ed, key, SBox());
      HoldsIs(key);
      return 0, false;
    }

    /** aes_encrypt */
    method Encrypt(t: Tables, input: seq<bv8>, ghost key: seq<bv8>) returns (out: seq<bv8>)
      requires Ready(t, SBox(), InvSBox()) && Holds(key) && |input| == 16
      ensures out == Encipher(key, input)
    {
      hide *;
      HoldsIs(key);
      KeySize(key);
      RoundsIs(key);
      ReadyForBlocks(t, SBox(), InvSBox());
      out := EncryptBlock(t, keyLength, ed[..], input, SBox(), RoundKeys(SBox(), key));
      StateOfBlock(out);
      EncipherIs(key, input);
    }

    /** aes_decrypt */
    method Decrypt(t: Tables, input: seq<bv8>, ghost key: seq<bv8>) returns (out: seq<bv8>)
      requires Ready(t, SBox(), InvSBox()) && Holds(key) && |input| == 16
      ensures out == Decipher(key, input)
    {
      hide *;
      HoldsIs(key);
      KeySize(key);
      RoundsIs(key);
      ReadyForBlocks(t, SBox(), InvSBox());
      out := DecryptBlock(t, keyLength, ed[..], input, InvSBox(), RoundKeys(SBox(), key));
      StateOfBlock(out);
      DecipherIs(key, input);
    }
  }
}

/** crypto/aes.c under crypto/cipher.c: AES as the block function of ECB and CBC. */
module AesModes {
  import opened Fips197
  import opened AesCipher
  import Modes

  /** cia_encrypt and cia_decrypt of AES under a key; only blocks of 16 bytes occur. */
  ghost function Enc(key: seq<bv8>): seq<bv8> -> seq<bv8>
    requires IsKey(key)
  {
    (x: seq<bv8>) => if |x| == 16 then Encipher(key, x) else x
  }

  ghost function Dec(key: seq<bv8>): seq<bv8> -> seq<bv8>
    requires IsKey(key)
  {
    (x: seq<bv8>) => if |x| == 16 then Decipher(key, x) else x
  }

  lemma AesIsBlockCipher(key: seq<bv8>)
    requires IsKey(key)
    ensures Modes.BlockFn(Enc(key), 16) && Modes.BlockFn(Dec(key), 16) && Modes.Undoes(Dec(key), Enc(key), 16)
  {
    hide Encipher, Decipher;
    forall x: seq<bv8> | |x| == 16
      ensures |Enc(key)(x)| == 16 && |Dec(key)(x)| == 16 && Dec(key)(Enc(key)(x)) == x
    {
      DecipherUndoesEncipher(key, x);
    }
  }

  /** For every key, IV and message, AES-CBC decryption gives the message back. */
  lemma AesCbcRoundTrip(key: seq<bv8>, iv: seq<bv8>, x: seq<bv8>)
    requires IsKey(key) && |iv| == 16 && Modes.Whole(|x|, 16)
    ensures Modes.Fits(Modes.CbcEncrypt, Enc(key), 16, iv) && Modes.Fits(Modes.CbcDecrypt, Dec(key), 16, iv)
    ensures var (c, last) := Modes.Run(Modes.CbcEncrypt, Enc(key), 16, iv, x);
            Modes.Run(Modes.CbcDecrypt, Dec(key), 16, iv, c) == (x, last)
  {
    hide Enc, Dec, Modes.Run;
    AesIsBlockCipher(key);
    Modes.CbcRoundTrip(Enc(key), Dec(key), 16, iv, x);
  }
}

# Linux 2.6: asynchronous I/O, crypto transforms and block-layer bookkeeping in Dafny

This project models three parts of a Linux 2.6 kernel and proves what they promise.

- **Asynchronous I/O** (`fs/aio.c`). One I/O context with all its requests is a state machine
  (`Aio`): every critical section under `ctx_lock`, `ring_lock` or `ioctx_list_lock` is one step,
  and so is every action without a lock. `AioInvariant` and `AioSteps` prove an inductive invariant
  over every interleaving; `AioTheorems` and `AioProgress` say what it means, and `AioReports` and
  `AioResults` tell a whole run from its steps. `AioPasses`, `AioClosing`, `AioLate` and `AioRuns` are
  about the end of a context, with `io_destroy`, `__put_ioctx` and the work queue. `AioRing` is the
  completion ring itself, as a class over an array.
- **Crypto transforms.** `Gf256`, `Fips197` and `Network` are the mathematics: the field with 256
  elements, the cipher of FIPS 197, and iterated ciphers in general. `AesTables`, `Aes`, `AesKey`,
  `AesBlock` and `AesCipher` are `crypto/aes.c`, proved equal to FIPS 197 for all three key lengths.
  `Memory`, `ScatterWalk`, `ScatterCopy`, `Modes`, `InPlace` and `Cipher` are `crypto/scatterwalk.c`
  and `crypto/cipher.c`; `AesModes` puts AES into them. `Hashing`, `Sha256`, `Md5` and `Wp512` are three
  buffering schemes, `Digest`, `Hmac` and `HashAlgs` are `crypto/digest.c` and `crypto/hmac.c` on top of
  them. `Tea`, `Twofish`, `Cast6` and `Blowfish` are four more ciphers.
- **Block layer** (`fs/bio.c`, `fs/block_dev.c`). `BioSplit`, `BioRuns`, `BioDirty`, `BdClaim`,
  `BdOpen` and `BdRuns`.

`Machine` and `Bits` hold what the parts share.

State that the kernel updates in place is a class with `modifies` clauses, or an array; concurrent
protocols are state machines on values. Words are `bv32` or integers with explicit wrap-around.

## How the proofs are put together

- *AES.* `AesTables.GenTabs` fills the tables as the code does. Its log and power tables are tables of
  the powers of 3, which `Gf256` shows to run through all nonzero elements, so `f_mult` is the field
  product and the S-box is the affine map of the field inverse. The four-table lookups are then
  SubBytes, ShiftRows and MixColumns at once (`Aes`), the key schedule is the key expansion, and
  `imix_col` is InvMixColumns (`AesKey`). That the equivalent inverse cipher undoes the cipher follows
  from `Network.Mirror`, a general statement about rounds run up and down.
- *crypt.* `ScatterWalk.Walk.Rest` is the list of addresses still ahead of a walk, and
  `ScatterWalk.Pos` is where it stands. Every walker method says what it does to both, so that
  `Cipher.Crypt` can be stated on the bytes visited, `ScatterWalk.VisitedIsAddrs` says when these are
  the flattened list, and the in-place test can be told from the lists alone (`InPlace.Lost`).
- *Hashes.* Each context class is proved against a value-level update, and that update is shown to
  depend on the concatenated message only.
- *Asynchronous I/O.* Each request records where it is (nowhere, in a batch, in a pass), a history
  variable without effect on behaviour. Run lists and passes are tied to it, and everything else
  about a request becomes a local condition (`AioInvariant.ReqOk`). What a run reports is stated on its
  steps alone (`AioResults`), and so are the bytes told of a half (`BioRuns.Told`) and the opens of a disk.
- *Ciphers.* The rounds are numbered functions, which is what the round trips need. Beside them stands a
  description in the operators of the language, from the bytes of the input to those of the output
  (`Tea.TeaEncrypted`, `Twofish.Encrypted`, `Cast6.Encrypted`, `Blowfish.Encrypted`), and every block method
  is proved against both.

## Findings

- `crypto/sha256.c` adds `len >> 29` to the upper count word only on a carry of the lower one, and its
  block loop tests `i + 63 < len` in 32 bits. `Sha256.CountExactIff` says exactly when an update returns
  with the right context; `Sha256.CountLost` is an input for which the count is wrong, and
  `Sha256.LoopWraps` one for which the loop never ends.
- `crypto/wp512.c` computes `len * 8` in 32 bits and absorbs only `len mod 2^29` bytes:
  `Wp512.AbsorbExactIff`.
- `crypto/scatterwalk.c` goes to the page after `sg->page` when a segment crosses a page, whatever its
  offset: `ScatterWalk.SegVisitedIs` and `ScatterWalk.FarOffsetGoesBack`. `update` in
  `crypto/digest.c` subtracts the offset from the page size in 32 bits and goes wrong only for larger
  entries: `Digest.PagesIs` and `Digest.FarOffsetWraps`.
- `scatterwalk_samebuf` compares pages and offsets, so two lists that name the same bytes by different
  pages are not seen to be in place, and CBC decryption then takes the plaintext for the next chaining
  value. `InPlace.NamedTwice` and `InPlace.WrongPlaintext` are such an input, `InPlace.ClearIff` says for
  which lists decryption is right, and `InPlace.DecryptsIff` for which contents. Identical lists,
  lists without common bytes and lists with offsets below a page are always right, and ECB and CBC
  encryption do not depend on the test.
- `crypto_hmac_final` with a length that is still over-long hashes the key again and thereby overwrites
  the running digest, so its result does not depend on the text: `Hmac.TextDropsOut`,
  `Hmac.FinalRightIff`, and an algorithm to see it with in `Hmac.OverLongFails`. `crypto_hmac` itself
  passes the shortened length and is right for every key.
- `bio_split` after more sectors than the bio has leaves a second half of nearly 4 GB, and after 2^23
  sectors the shift loses all bits: `BioSplit.TilesIff`, `BioSplit.TooFar`, `BioSplit.ShiftedOut`.
- `aio_kick_handler` holds no reference to its context, and `flush_workqueue` waits only for what was
  queued when it began. `AioLate.FreedForGoodIff` says exactly when `__put_ioctx` leaves nobody behind:
  the last reference is not dropped by a pass of the worker, and neither a pass of the worker nor a
  kicker is about to queue the work. `AioRuns.WorkerFrees` is a run in which the pass that dropped the
  last reference still has to look at the run list of the freed context, since `wait_for_all_aios` reads
  `reqs_active` between `really_put_req` and `put_ioctx`; `AioRuns.WorkerComesBack` is one in which the
  work is queued again while `flush_workqueue` waits. At the moment the context is freed, a pass that
  was waited for is not over if and only if it dropped the last reference (`AioClosing.NotOverIff`).
- Where comments and code differ the model follows the code: the ring header is 32 bytes, not the 128
  of the comment at `include/linux/aio.h:112`, and `sha256_update` counts bytes modulo 64, not 128.

## Assumptions

- Userland does not write to the mapped ring. A driver that takes a request (`-EIOCBQUEUED`) completes
  it exactly once, possibly before the retry method returns. A cancel callback drops the reference it
  was given. `kick_iocb` is called on submitted requests that are still alive; memory of a finished
  request or context is not reused while a caller of `kick_iocb` that already set the flag is still
  under way.
- A block function reads its input before it writes its output. The scratch blocks of `crypt` are not
  part of either scatterlist. The hmac block, the key and the place for the digest are apart.
- Callers that loop over the run list of a context, read an event or destroy the context hold the
  reference of their lookup meanwhile.
- A driver stops calling `bio_endio` on a half once it has ended. Holders passed to `bd_claim` are not
  null and not the address of `bd_claim`.
- Compression functions, Feistel functions, drivers, file reference counts, memory, disks and user
  memory are parameters or step arguments.

## Model

| member | source | states |
|---|---|---|
| `Gf256.PowSurjective` | crypto/aes.c:162-171 | every nonzero field element is a power of 3 below the 255th, so the log table is complete |
| `Gf256.PowInjective` | crypto/aes.c:162-171 | the first 255 powers of 3 are distinct, so no entry of the log table is overwritten |
| `Gf256.MulPow` | crypto/aes.c:116-122 | multiplying by a power of 3 adds exponents, for the bitwise product modulo 0x11b |
| `Gf256.InverseInvolution` | crypto/aes.c:179-185 | the field inverse, with 0 for 0, is its own inverse |
| `AesTables.GenLogs` | crypto/aes.c:162-171 | pow_tab[k] is 3 to the k for all 256 entries and log_tab undoes it on the 255 nonzero elements |
| `AesTables.GenRcon` | crypto/aes.c:173-177 | rco_tab holds the first ten powers of x |
| `AesTables.FMultIsMul` | crypto/aes.c:116-122 | f_mult through the tables, with its wrapped sum, is multiplication in the field with 256 elements |
| `AesTables.FfMultIsMul` | crypto/aes.c:124-124 | ff_mult is field multiplication for all pairs of bytes, zero included |
| `AesTables.SBoxByteIsSubByte` | crypto/aes.c:179-184 | the rotations and xors of the code are the affine map of section 5.1.1 of FIPS 197 applied to the inverse |
| `AesTables.GenSBox` | crypto/aes.c:179-186 | sbx_tab is the S-box and isb_tab its inverse, at all 256 entries |
| `AesTables.GenTabs` | crypto/aes.c:156-225 | all four lookup tables and the round constants are the ones the S-box determines |
| `Fips197.SBoxInverts` | crypto/aes.c:179-186 | the inverse S-box undoes the S-box on every byte |
| `Fips197.InvMixOfMix` | crypto/aes.c:198-218 | InvMixColumns undoes MixColumns on every column |
| `Fips197.EqInvCipherIsInvCipher` | crypto/aes.c:394-431 | the equivalent inverse cipher of section 5.3.5 of FIPS 197 is the inverse cipher of section 5.3 |
| `Fips197.EqInvCipherUndoesCipher` | crypto/aes.c:341-431 | for all round keys and blocks the equivalent inverse cipher undoes the cipher |
| `Network.Mirror` | crypto/twofish.c:591-613 | if each inverse round undoes its round on a view of the state, the state on the way down mirrors the way up |
| `Network.DecryptUndoesEncrypt` | crypto/twofish.c:804-871 | whitening, rounds and output undone in reverse give the block back |
| `Aes.ForwardRound` | crypto/aes.c:126-130 | f_nround and f_lround write exactly the four looked-up words with the round key added |
| `Aes.InverseRound` | crypto/aes.c:132-136 | i_nround and i_lround likewise |
| `Aes.ForwardRoundIs` | crypto/aes.c:126-130 | a table-driven round is SubBytes, ShiftRows, MixColumns and AddRoundKey |
| `Aes.LastRoundIs` | crypto/aes.c:144-148 | the last round is SubBytes, ShiftRows and AddRoundKey |
| `Aes.InverseRoundIs` | crypto/aes.c:132-136 | an inverse table-driven round is a round of the equivalent inverse cipher |
| `Aes.InverseLastRoundIs` | crypto/aes.c:150-154 | the last inverse round is that of the equivalent inverse cipher |
| `AesKey.StarXDoubles` | crypto/aes.c:227-227 | star_x doubles the four bytes of a word in the field, without carries between them |
| `AesKey.ImixColIs` | crypto/aes.c:229-237 | imix_col is InvMixColumns of one column |
| `AesKey.LsBoxSubstitutes` | crypto/aes.c:138-142 | ls_box is SubWord |
| `AesKey.Loop4` | crypto/aes.c:241-247 | one loop4 appends the next four words of the key expansion |
| `AesKey.Loop6` | crypto/aes.c:249-257 | one loop6 appends the next six words |
| `AesKey.Loop8` | crypto/aes.c:259-270 | one loop8 appends the next eight words, including the extra SubWord of 256-bit keys |
| `AesKey.Expand` | crypto/aes.c:284-312 | E_KEY holds all 4 (Nr + 1) words of the key expansion for 16, 24 and 32 byte keys |
| `AesKey.Invert` | crypto/aes.c:314-321 | D_KEY holds the first round key and the InvMixColumns of the others, and E_KEY is untouched |
| `AesKey.ScheduleIs` | crypto/aes.c:272-324 | the words are the round keys both ciphers need |
| `AesBlock.EncryptBlock` | crypto/aes.c:341-377 | aes_encrypt is the cipher with 10, 12 or 14 rounds by key length |
| `AesBlock.DecryptBlock` | crypto/aes.c:394-431 | aes_decrypt is the equivalent inverse cipher with 10, 12 or 14 rounds |
| `AesCipher.AesCtx.SetKey` | crypto/aes.c:272-324 | good lengths leave the schedule of the key in the context; bad ones give -EINVAL and the flag and change nothing |
| `AesCipher.AesCtx.Encrypt` | crypto/aes.c:341-377 | encryption under a set key is AES of FIPS 197 on the block |
| `AesCipher.AesCtx.Decrypt` | crypto/aes.c:394-431 | decryption under a set key is the inverse cipher of FIPS 197 on the block |
| `AesCipher.DecipherUndoesEncipher` | crypto/aes.c:341-431 | for every key of every length and every block, decryption undoes encryption |
| `AesModes.AesIsBlockCipher` | crypto/aes.c:433-450 | AES fits the block functions of the transform layer, and decryption undoes encryption there |
| `AesModes.AesCbcRoundTrip` | crypto/cipher.c:98-121 | AES-CBC decryption gives every message back and both sides end with the same chaining value |
| `ScatterWalk.SegVisitedIs` | crypto/scatterwalk.c:49-90 | the walk visits the bytes of a segment if and only if its offset lies in its first page or it does not cross the end of that page |
| `ScatterWalk.FarOffsetGoesBack` | crypto/scatterwalk.c:80-86 | a segment for which the walk goes to the wrong page |
| `ScatterWalk.VisitedIsAddrs` | crypto/scatterwalk.c:49-90 | the first n bytes visited are those of the flattened list if and only if each segment they reach into has its offset in its first page or is left before the end of a page |
| `ScatterWalk.WholeListIff` | crypto/scatterwalk.c:49-90 | the same for a whole list, as a condition on each segment |
| `ScatterWalk.Walk.constructor` | crypto/scatterwalk.c:49-61 | a started walk has the whole list ahead |
| `ScatterWalk.Walk.Start` | crypto/scatterwalk.c:49-61 | starting at an entry leaves that entry and the later ones ahead |
| `ScatterWalk.Walk.Map` | crypto/scatterwalk.c:63-66 | the mapped address is that of the next byte |
| `ScatterWalk.Walk.WhichBuf` | crypto/scatterwalk.c:31-39 | a block is processed in place if and only if it lies in one page part |
| `ScatterWalk.Walk.PageDone` | crypto/scatterwalk.c:68-90 | exactly the rest of the page part is skipped, across pages, segments and empty segments; the new position |
| `ScatterWalk.NextPartRest` | crypto/scatterwalk.c:68-90 | the position after a page part has exactly the later bytes ahead |
| `ScatterWalk.Walk.Done` | crypto/scatterwalk.c:92-97 | nothing ahead is lost or gained |
| `ScatterWalk.Walk.Advance` | crypto/scatterwalk.c:120-122 | exactly the consumed bytes are dropped from what is ahead |
| `ScatterWalk.Skip` | crypto/scatterwalk.c:103-124 | skipping n bytes part by part ends and leaves exactly what follows them |
| `ScatterCopy.CopyChunks` | crypto/scatterwalk.c:103-124 | the next bytes of the list and the buffer become equal, in the given direction; nothing else changes; the walk stands behind them; it terminates with empty segments too |
| `Modes.RunConcat` | crypto/cipher.c:98-121 | two messages one after the other with the carried IV give what their concatenation gives |
| `Modes.CbcRoundTrip` | crypto/cipher.c:98-121 | CBC decryption from the same IV undoes encryption of every message |
| `Modes.EcbRoundTrip` | crypto/cipher.c:123-127 | ECB decryption undoes encryption of every message |
| `Modes.CbcChains` | crypto/cipher.c:109-112 | every ciphertext block is the cipher of z, where each byte of z is that of the plaintext block xor that of the previous ciphertext block or IV, as in section 6.2 of SP 800-38A |
| `Modes.CbcUnchains` | crypto/cipher.c:112-121 | every plaintext block is, byte by byte, the inverse cipher of the ciphertext block xor the previous ciphertext block or IV, and the last ciphertext block is left as the IV |
| `Modes.EcbBlocks` | crypto/cipher.c:123-127 | every block is enciphered by itself and the IV is not touched |
| `Modes.ChainValueIsLast` | crypto/cipher.c:109-112 | the IV left behind is the last ciphertext block |
| `Modes.WholeIsMultiple` | crypto/cipher.c:60-63 | the remainder test accepts exactly the messages of whole blocks |
| `InPlace.DecryptsIff` | crypto/cipher.c:98-121 | decryption with blocks overwritten before they become the chaining value is CBC if and only if each such block is its own plaintext |
| `InPlace.OthersDoNotCare` | crypto/cipher.c:98-127 | ECB and CBC encryption are the mode's whatever the in-place test says |
| `InPlace.ClearIff` | crypto/scatterwalk.h:36-43 | for two scatterlists, CBC decryption is the mode's for every cipher, IV and contents if and only if no block is at one address under different pages or offsets |
| `InPlace.ClearSame` | crypto/scatterwalk.h:36-43 | identical lists are always seen to be in place |
| `InPlace.ClearCanonical` | crypto/scatterwalk.h:36-43 | and so are lists with offsets below a page |
| `InPlace.ClearDisjoint` | crypto/scatterwalk.h:36-43 | lists without common bytes need no test |
| `InPlace.NamedTwice` | crypto/scatterwalk.h:36-43 | two lists of the same bytes whose first block the test misses |
| `InPlace.WrongPlaintext` | crypto/cipher.c:113-120 | the second plaintext block then comes out wrong |
| `InPlace.BlockRest` | crypto/cipher.c:65-95 | before each block the walk has visited exactly the blocks before it |
| `Cipher.Process` | crypto/cipher.c:98-127 | ecb_process and cbc_process put the mode's output at the destination and the next chaining value in iv, in place or not, as seen or not; without an IV CBC changes nothing |
| `Cipher.CryptBlock` | crypto/cipher.c:68-95 | one iteration processes one block, whether direct or through scratch on either side |
| `Cipher.Crypt` | crypto/cipher.c:47-96 | for every pair of lists the bytes visited in the destination become the result of the mode on those visited in the source, with the blocks overwritten unseen if there are any; these are the flattened lists exactly if the lists are walkable; other memory stays, iv is carried, bad lengths give -EINVAL and change nothing |
| `Cipher.CbcThereAndBack` | crypto/cipher.c:47-121 | plaintext comes back through ciphertext that the two sides fragment differently |
| `Cipher.CryptTwice` | crypto/cipher.c:47-121 | two consecutive calls on split lists do what the mode does to their concatenation |
| `Hashing.FoldConcat` | crypto/sha256.c:252-282 | a message may be cut anywhere: fold the first part, then its tail with the rest |
| `Hashing.FoldPadded` | crypto/md5.c:190-214 | padding the tail finishes the fold over the whole padded message |
| `Hashing.PaddingIs` | crypto/md5.c:190-214 | the padding is 0x80, zeros as few as fill the last block, and the length field, byte by byte |
| `Sha256.Sha256Ctx.constructor` | crypto/sha256.c:237-250 | a fresh context has absorbed nothing |
| `Sha256.Sha256Ctx.Count` | crypto/sha256.c:257-264 | the two count words as the code updates them |
| `Sha256.Sha256Ctx.Update` | crypto/sha256.c:252-282 | compressing straight from the input is folding buffered bytes and input, and buffers the tail, whenever the block loop ends |
| `Sha256.Sha256Ctx.Direct` | crypto/sha256.c:273-274 | the loop with its 32-bit test compresses exactly the whole blocks |
| `Sha256.Sha256Ctx.Final` | crypto/sha256.c:284-323 | the digest is that of the padded remaining bytes with the counted length; the context is cleared |
| `Sha256.EndsIff` | crypto/sha256.c:266-277 | some value of i ends the block loop if and only if there is none to compress or i + 63 does not wrap before the last block |
| `Sha256.LoopWraps` | crypto/sha256.c:273-274 | behind one byte, an update of 2^32 - 1 bytes never ends |
| `Sha256.CountExactIff` | crypto/sha256.c:252-282 | an update returns with the exact context if and only if it is below 2^29 bytes, or the low count word carries and the loop ends |
| `Sha256.CountLost` | crypto/sha256.c:260-264 | an update of 2^29 bytes for which the count is wrong |
| `Sha256.AbsorbAllIs` | crypto/sha256.c:252-282 | however a message is cut up, the context depends on the message only |
| `Sha256.DigestIs` | crypto/sha256.c:284-323 | the digest is the fold over the message padded as in section 5.1.1 of FIPS 180-2 |
| `Sha256.PaddedIs` | crypto/sha256.c:284-323 | the padded message ends with 0x80, zeros and the eight digits in base 256 of its length in bits, most significant first |
| `Sha256.HashPieces` | crypto/sha256.c:237-323 | init, updates and final over any pieces give that digest |
| `Md5.Md5Ctx.constructor` | crypto/md5.c:149-158 | a fresh context has absorbed nothing |
| `Md5.Md5Ctx.Update` | crypto/md5.c:160-188 | copying every block is folding buffered bytes and input, and buffers the tail |
| `Md5.Md5Ctx.Final` | crypto/md5.c:190-214 | one or two final blocks are the padded tail with the length; the context is cleared |
| `Md5.LengthFieldIs` | crypto/md5.c:206-207 | the two length words are the bit length modulo 2^64, low word first |
| `Md5.AbsorbAllIs` | crypto/md5.c:160-188 | however a message is cut up, the context depends on the message only |
| `Md5.DigestIs` | crypto/md5.c:160-214 | the digest is the fold over the message padded as in sections 3.1 and 3.2 of RFC 1321 |
| `Md5.PaddedIs` | crypto/md5.c:160-214 | the padded message ends with 0x80, zeros and the eight digits in base 256 of its length in bits, least significant first |
| `Md5.HashPieces` | crypto/md5.c:149-214 | init, updates and final over any pieces give that digest |
| `Wp512.AddLength` | crypto/wp512.c:1018-1024 | the carry loop adds modulo 2^256 to the big-endian counter |
| `Wp512.ToBytesIsBigEndian` | crypto/wp512.c:1086-1087 | the counter's bytes are the big-endian length field |
| `Wp512.Wp512Ctx.PutByte` | crypto/wp512.c:1028-1036 | one byte goes through the shifting buffer unchanged; position, bit count and the cleared byte stay in step |
| `Wp512.Wp512Ctx.Bits` | crypto/wp512.c:1025-1060 | the bit-shifting loop is byte buffering and folding |
| `Wp512.Wp512Ctx.Update` | crypto/wp512.c:1003-1062 | hash, buffer and counter after an update |
| `Wp512.Wp512Ctx.Final` | crypto/wp512.c:1064-1104 | all fields after final, whatever they were; between init and final one or two blocks are the padded tail with the 256-bit length |
| `Wp512.RawFinish` | crypto/wp512.c:1064-1104 | on a context in use the fields amount to padding and folding, and bytes behind the position do not matter |
| `Wp512.Wp512Ctx.FinalTwice` | crypto/wp512.c:1064-1104 | what a second final puts out: the last block of the first is still in the buffer |
| `Wp512.AbsorbExactIff` | crypto/wp512.c:1008-1008 | the whole update is absorbed if and only if it is below 2^29 bytes |
| `Wp512.AbsorbAllIs` | crypto/wp512.c:1003-1062 | however a message is cut up, the context depends on the message only |
| `Wp512.DigestIs` | crypto/wp512.c:1003-1104 | the digest is the fold over the padded message |
| `Wp512.PaddedIs` | crypto/wp512.c:1064-1104 | the padded message ends with 0x80, zeros and the 32 digits in base 256 of its length in bits, most significant first |
| `Wp512.HashPieces` | crypto/wp512.c:991-1104 | init, updates and final over any pieces give that digest |
| `Digest.PagesIs` | crypto/digest.c:35-51 | update reads the bytes of an entry if and only if its offset does not exceed a page or its length does not exceed PAGE_SIZE - offset in 32 bits |
| `Digest.FarOffsetWraps` | crypto/digest.c:38-50 | an entry whose second piece is read from the wrong page |
| `Digest.ReadIsAddrs` | crypto/digest.c:26-53 | update reads the flattened list if and only if every entry is such an entry |
| `Digest.DigestTfm.UpdateSeg` | crypto/digest.c:31-52 | splitting an entry at pages feeds the bytes at page + offset, then those of the next pages, in order |
| `Digest.DigestTfm.Update` | crypto/digest.c:26-53 | update absorbs the bytes of the whole list in order |
| `Digest.DigestTfm.Final` | crypto/digest.c:55-58 | the digest is stored, and a second call puts out what the spent context gives |
| `Digest.DigestTfm.Digest` | crypto/digest.c:69-84 | digest stores the hash of the flattened list |
| `Hmac.HashKey` | crypto/hmac.c:24-33 | the digest of the key replaces its first bytes |
| `Hmac.MaskKey` | crypto/hmac.c:67-71 | byte i of the hmac block becomes k[i] ^ mask below the key length and the bare mask behind it, and nothing else changes |
| `Hmac.MaskedIs` | crypto/hmac.c:67-71 | the masked zero-filled key is k[i] ^ mask in each byte of the key and the mask behind it |
| `Hmac.HmacInit` | crypto/hmac.c:56-79 | the context has absorbed a block whose bytes are k[i] ^ 0x36 and then 0x36, where an over-long key is replaced by its hash, once |
| `Hmac.HmacFinal` | crypto/hmac.c:87-120 | at out is the hash of a block with the bytes k[i] ^ 0x5c and then 0x5c, followed by the inner digest; with a still over-long length that is the digest of a spent context |
| `Hmac.HmacAll` | crypto/hmac.c:122-128 | HMAC of section 2 of RFC 2104, with both masked blocks given byte by byte, for every key length and every text, as read page by page, wherever they lie |
| `Hmac.HmacMeets` | crypto/hmac.c:122-128 | the HMAC function is the hash of the key ^ 0x5c block and the hash of the key ^ 0x36 block and the text |
| `Hmac.HmacIs` | crypto/hmac.c:87-128 | with the shortened key the final step completes the HMAC of the whole key |
| `Hmac.TextDropsOut` | crypto/hmac.c:94-99 | with an over-long length the result is the same for every text |
| `Hmac.FinalRightIff` | crypto/hmac.c:87-120 | wherever HMAC depends on the text, crypto_hmac_final gives it for every text if and only if the length is at most a block |
| `Hmac.OverLongFails` | crypto/hmac.c:94-99 | an algorithm for which it fails with every over-long key on one of two texts |
| `HashAlgs.Sha256Computes` | crypto/sha256.c:326-337 | sha256, with the cleared context that final leaves, is an algorithm HMAC may use |
| `HashAlgs.Md5Computes` | crypto/md5.c:216-227 | md5, with the cleared context that final leaves, is an algorithm HMAC may use |
| `HashAlgs.Wp512Computes` | crypto/wp512.c:1126-1137 | wp512, with the spent context that final leaves, is an algorithm HMAC may use |
| `Tea.SumStops` | crypto/tea.c:147-161 | among the first 33 multiples of delta only the 32nd is the limit and only the 0th is zero |
| `Tea.SumIsProduct` | crypto/tea.c:83-84 | the running sum after r additions is r * 0x9e3779b9 modulo 2^32 |
| `Tea.TeaEncrypt` | crypto/tea.c:66-91 | from the little-endian words of src to those of dst there are 32 cycles y += ((z << 4) + k0) ^ (z + sum) ^ ((z >> 5) + k1), z likewise with k2 and k3, sum being r * delta modulo 2^32; they are the 32 numbered rounds |
| `Tea.TeaDecrypt` | crypto/tea.c:93-121 | the mirrored cycles with -= and sum from 32 * delta down, in operators; they are the 32 numbered inverse rounds |
| `Tea.XteaEncrypt` | crypto/tea.c:144-164 | the loop guarded by the sum takes exactly 32 turns, each as written with key words sum & 3 and sum >> 11 & 3, in operators; they are the numbered rounds |
| `Tea.XteaDecrypt` | crypto/tea.c:166-186 | the loop guarded by the sum takes exactly 32 turns, each the mirrored one in operators; they are the numbered inverse rounds |
| `Tea.TeaRoundTrip` | crypto/tea.c:66-121 | decryption undoes encryption for every key and block |
| `Tea.XteaRoundTrip` | crypto/tea.c:144-186 | decryption undoes encryption for every key and block |
| `Twofish.HalfUndone` | crypto/twofish.c:591-603 | DECROUND undoes ENCROUND for any g functions and subkeys |
| `Twofish.RoundIs` | crypto/twofish.c:591-603 | a numbered round is ENCROUND, and an inverse one DECROUND, in sums, rotations and xors |
| `Twofish.EncryptBlock` | crypto/twofish.c:804-837 | from the little-endian words of the input to those of the output: xor with w[0..3], sixteen ENCROUNDs, xor with w[4..7] and exchanged halves, in operators |
| `Twofish.DecryptBlock` | crypto/twofish.c:839-871 | the words xor w[4..7] into c, d, a, b, sixteen DECROUNDs downwards, xor w[0..3], in operators |
| `Twofish.RoundTrip` | crypto/twofish.c:804-871 | decryption undoes encryption of every block |
| `Cast6.QBarUndoesQ` | crypto/cast6.c:430-445 | the reverse quad-round undoes the forward one |
| `Cast6.QUndoesQBar` | crypto/cast6.c:430-445 | the forward quad-round undoes the reverse one |
| `Cast6.QIs` | crypto/cast6.c:430-436 | the four xor assignments of Q, each from the words as they are then |
| `Cast6.QBarIs` | crypto/cast6.c:439-445 | the four xor assignments of QBAR |
| `Cast6.EncryptBlock` | crypto/cast6.c:447-487 | from the big-endian words of the input to those of the output six Q and six QBAR, in operators; they are the twelve numbered quad-rounds |
| `Cast6.DecryptBlock` | crypto/cast6.c:489-529 | the same with the subkeys from the eleventh down to the zeroth, in operators |
| `Cast6.RoundTrip` | crypto/cast6.c:447-529 | decryption undoes encryption of every block |
| `Blowfish.BackUndoes` | crypto/blowfish.c:312-313 | a round with the next subkey undoes a round on the exchanged and keyed halves |
| `Blowfish.KeyedIs` | crypto/blowfish.c:312-313 | ROUND: one half xor P[n], the other xor F of it |
| `Blowfish.EncryptBlock` | crypto/blowfish.c:319-361 | from the big-endian words of src to those of dst sixteen ROUNDs with P[0] to P[15] and xor with P[16] and P[17], in operators |
| `Blowfish.DecryptBlock` | crypto/blowfish.c:363-394 | the same with P[17] down to P[2] and xor with P[1] and P[0], in operators |
| `Blowfish.RoundTrip` | crypto/blowfish.c:319-394 | decryption undoes encryption of every block |
| `AioRing.RingEvents` | fs/aio.c:111-121 | the ring has room for at least max_reqs + 2 events and is one short of whole pages |
| `AioRing.EventsDoNotOverlap` | fs/aio.c:178-189 | event slots lie in the mapped pages, apart from each other and from the header |
| `AioRing.AvailIsFree` | include/linux/aio.h:114-114 | aio_ring_avail is nr - 1 minus the unread events |
| `AioRing.PushAppends` | fs/aio.c:985-1004 | with a free slot the update appends to the queue and overwrites nothing unread |
| `AioRing.PushOverrun` | fs/aio.c:985-1004 | without one it would lose every unread event |
| `AioRing.PopRemovesFirst` | fs/aio.c:1054-1062 | advancing head removes the oldest event, the one at head |
| `AioRing.EventRing.constructor` | fs/aio.c:103-170 | a new ring is empty and has the computed size |
| `AioRing.EventRing.Add` | fs/aio.c:985-1004 | both tails advance and the event is at the end of the queue |
| `AioRing.EventRing.Read` | fs/aio.c:1036-1072 | 0 exactly on an empty ring, else the oldest event is taken |
| `AioInvariant.LedgerEmit` | fs/aio.c:980-1017 | completing a request keeps all accounts; there is room for its event, behind all others |
| `AioInvariant.LedgerPut` | fs/aio.c:493-519 | dropping the last reference keeps the accounts of context, requests and deferred fputs |
| `AioSteps.GetReqKeeps` | fs/aio.c:392-433 | admission below the free slots keeps the invariant |
| `AioSteps.FinishKeeps` | fs/aio.c:745-791 | leaving a retry, requeueing if kicked meanwhile, and dropping the extra reference keep the invariant |
| `AioSteps.PickRunKeeps` | fs/aio.c:660-708 | taking a request off the list and starting its retry keep the invariant |
| `AioSteps.PickCapKeeps` | fs/aio.c:660-664 | giving up at the retry cap keeps the invariant |
| `AioSteps.EngineCompleteKeeps` | fs/aio.c:709-737 | completion by the retry itself keeps the invariant |
| `AioSteps.DriverCompleteKeeps` | fs/aio.c:929-1027 | completion by the driver keeps the invariant |
| `AioSteps.KickTestKeeps` | fs/aio.c:906-921 | the test-and-set of kick_iocb keeps the invariant |
| `AioSteps.KickQueueKeeps` | fs/aio.c:882-897 | queueing a kicked request keeps the invariant |
| `AioSteps.StepKeeps` | fs/aio.c:271-1072 | every step of every thread keeps the invariant |
| `AioSteps.Always` | fs/aio.c:271-1250 | the invariant holds after every interleaving |
| `AioTheorems.RingIsQueue` | fs/aio.c:413-425 | in every reachable state the ring is the queue of unreaped completions, and requests that may complete plus unread events are at most nr - 1 |
| `AioTheorems.ReaderGetsOldest` | fs/aio.c:1036-1072 | what a reader copies is the oldest completion not reaped, although head advances later |
| `AioTheorems.OneRetryAtATime` | fs/aio.c:654-769 | no request is retried twice at once or is on a run list while retried |
| `AioTheorems.KickedIsRemembered` | fs/aio.c:619-630 | a kicked request is queued exactly where it should be, being retried, or about to be queued |
| `AioTheorems.NoLostKick` | fs/aio.c:654-921 | when everything is quiet, every request the engine owns was retried after its last kick |
| `AioTheorems.RetryCap` | fs/aio.c:660-664 | a request is given up exactly at the attempt after 1024 * 1024 + 1 started retries |
| `AioTheorems.AdmitsAsPromised` | fs/aio.c:1252-1263 | a context set up for n events admits a request while active requests and unread events are at most n |
| `AioTheorems.UsersArePositive` | fs/aio.c:493-519 | ki_users counts the references held and never becomes negative |
| `AioTheorems.FreedMeansIdle` | fs/aio.c:363-381 | the user count is the number of references held by list, list put, lookups, request puts and active requests; at 0 reqs_active is 0, so the BUG is unreachable, and everybody has gone |
| `AioTheorems.ListDroppedOnce` | fs/aio.c:1226-1250 | concurrent destroyers drop the list reference exactly once |
| `AioProgress.ServedInTurn` | fs/aio.c:774-798 | in every run, a queued request with n before it has another retry started, or is given up at the cap, within the next n + 1 picks of its pass |
| `AioReports.StepEffect` | fs/aio.c:929-1027 | what every step reports, admits, cancels and takes or drops of the references to requests and context |
| `AioResults.ResultsAreReported` | fs/aio.c:973-1001 | over every run the events reaped and in the ring are, in order, Event(i, data, res, res2) of the completing steps whose request was not cancelled at that step; as many are reaped as were taken; the count of the context follows the steps |
| `AioResults.CompletionAppends` | fs/aio.c:929-1027 | the event of every step goes behind the unread ones, overwrites none, and its request has not completed before |
| `AioResults.RequestsAreTold` | fs/aio.c:400-441 | request i has the user data of the i-th admission, is cancelled exactly if a step cancelled it, and ki_users is 2 plus the references taken less those dropped |
| `AioResults.KicksAreServed` | fs/aio.c:654-921 | in every run, after a step that submits or kicks a request or returns for another call, a retry of it is started before everything comes to rest with the engine owning it |
| `AioResults.StartPutsInHand` | fs/aio.c:774-798 | such a start puts the request into the hands of the pass |
| `AioResults.CancelledIsNotRetried` | fs/aio.c:709-713 | a pass goes on to the retry exactly if no step has cancelled the request |
| `AioResults.ReaderFindsOldest` | fs/aio.c:1036-1072 | a look at the ring finds the oldest unreaped event if there is one |
| `AioPasses.CoveredAlways` | fs/aio.c:774-845 | whoever loops over the run list, reads an event or destroys the context holds a lookup reference, and a pass about to put the context the reference of a request, after every interleaving |
| `AioClosing.OnlyTheWorker` | fs/aio.c:363-381 | without references only ends of passes, the work item, a late kicker and __put_ioctx itself can still move |
| `AioClosing.LastPutIsTheWorkers` | fs/aio.c:790-791 | a pass that drops the last reference is the worker's |
| `AioClosing.SoundAlways` | fs/aio.c:363-381 | who waits for __put_ioctx, whom flush_workqueue waits for and what comes later, after every interleaving |
| `AioClosing.PassesOfFreed` | fs/aio.c:774-798 | on a freed context no pass has a request in hand or ahead; one that is not over is the worker's and dropped the last reference or began after flush_workqueue |
| `AioClosing.NotOverIff` | kernel/workqueue.c:229-285 | when the context is freed, a pass that was waited for is not over if and only if it dropped the last reference |
| `AioClosing.AwaitedAlways` | kernel/workqueue.c:229-285 | if nothing is late when the last reference goes, everything that may still run is waited for |
| `AioLate.LateRun` | fs/aio.c:856-874 | if something is late, some continuation frees the context with a pass under way or work queued |
| `AioLate.FreedForGoodIff` | fs/aio.c:363-381 | all continuations leave the freed context alone if and only if the worker did not drop the last reference and nobody is about to queue its work |
| `AioRuns.WorkerFrees` | fs/aio.c:774-798 | a run in which the destroyer waits for all requests, and then the worker drops the last reference and still has to look at the run list |
| `AioRuns.WorkerComesBack` | fs/aio.c:856-874 | a run in which the work is queued again while flush_workqueue waits |
| `BioSplit.TilesIff` | fs/bio.c:862-895 | for every int the halves tile the bio if and only if the first is neither negative nor larger than the bio |
| `BioSplit.TooFar` | fs/bio.c:875-877 | a split that does not tile |
| `BioSplit.ShiftedOut` | fs/bio.c:875-877 | one for which the shift gives 0 bytes |
| `BioSplit.Bio.Progress` | fs/bio.c:802-815 | bytes done are clamped to what is left, and an error clears the up-to-date flag |
| `BioSplit.Bio.EndIo` | fs/bio.c:802-818 | the owner is told the clamped bytes and the error |
| `BioSplit.ErrorIffReported` | fs/bio.c:830-856 | the pair's error is set if and only if some half reported one |
| `BioSplit.BioPair.Split` | fs/bio.c:862-895 | the halves with sectors, bytes and vectors, and three references |
| `BioSplit.BioPair.Release` | fs/bio.c:820-828 | only the third release ends the master |
| `BioSplit.BioPair.End1` | fs/bio.c:830-842 | a half lets go exactly when its last byte is done |
| `BioSplit.BioPair.End2` | fs/bio.c:844-856 | the same for the second half |
| `BioSplit.BioPair.SubmitterRelease` | fs/bio.c:820-828 | the submitter's release |
| `BioSplit.BioPair.EndsOnce` | fs/bio.c:802-895 | in a valid state the master has ended, once and in full, exactly if all three let go, with an error exactly if a half had one |
| `BioRuns.DropKeeps` | fs/bio.c:820-828 | only one of three concurrent droppers finds the count at zero |
| `BioRuns.StepKeeps` | fs/bio.c:802-856 | progress, error store, size test, drop and end of the master each keep the invariant |
| `BioRuns.Always` | fs/bio.c:802-895 | the invariant holds after every interleaving of both halves and the submitter |
| `BioRuns.EndsOnce` | fs/bio.c:802-895 | after every run from bio_split the master has ended, once and in full, exactly if all three are done; then the bytes reported of each half add up to its size, and the error is the one stored last, nonzero exactly if one was reported |
| `BioRuns.WaitsForItsBytes` | fs/bio.c:802-856 | a half lets go only once the bytes reported of it add up to its size, and waits again only while they do not |
| `BioRuns.StepsMean` | fs/bio.c:802-856 | size left, error to store, error stored and errors reported are those the steps of the run say |
| `BioRuns.CompleteRunEnds` | fs/bio.c:802-895 | a run that cannot go on has ended the master |
| `BioDirty.StepKeeps` | fs/bio.c:691-785 | every step of checks, workers and writeback keeps the invariant |
| `BioDirty.Always` | fs/bio.c:691-785 | the invariant holds after every interleaving |
| `BioDirty.AtMostOnce` | fs/bio.c:704-785 | no page reference is released twice and no bio put twice |
| `BioDirty.CheckReleasesIff` | fs/bio.c:757-785 | bio_check_pages_dirty releases a page exactly if it is dirty or compound at that moment |
| `BioDirty.CleanIsDirtiedFirst` | fs/bio.c:691-702 | in every run a page found clean by bio_check_pages_dirty is dirty at some moment between that and its release |
| `BioDirty.DirtiesOnlyHeld` | fs/bio.c:691-702 | in every run a page is dirtied only through an entry that still holds its reference and is not compound |
| `BioDirty.CleanedIff` | fs/bio.c:663-687 | a dirty page is cleaned by writeback and by no step of bio_check_pages_dirty or the worker |
| `BioDirty.AllReleased` | fs/bio.c:737-785 | when all is quiet every checked bio was put once and each of its page references released once |
| `BdClaim.Disk.Claim` | fs/block_dev.c:446-479 | granted if and only if already the holder, or free and not in conflict with whole device or partitions |
| `BdClaim.Disk.Release` | fs/block_dev.c:483-491 | one claim less, and the holder is forgotten with the last |
| `BdClaim.Disk.Exclusive` | fs/block_dev.c:446-491 | whole device and partitions are never claimed at once, one holder each, and bd_holders counts them |
| `BdClaim.AlwaysApart` | fs/block_dev.c:446-491 | after every sequence of claims and releases whole device and partitions are not claimed at once |
| `BdClaim.HeldUntilReleased` | fs/block_dev.c:446-491 | in every sequence a holder keeps the device until it was released as often as claimed, and nobody else is granted it |
| `BdOpen.Disk.OpenWhole` | fs/block_dev.c:576-618 | a failed open of the whole device leaves the counter |
| `BdOpen.Disk.PutWhole` | fs/block_dev.c:711-752 | one opener less |
| `BdOpen.Disk.Open` | fs/block_dev.c:560-672 | direct opens are counted, and failing ones are not |
| `BdOpen.Disk.OpenPart` | fs/block_dev.c:596-645 | succeeds exactly if the disk, and for a first open the whole device and the partition, are there, and fails with the error of the first thing missing; counters keep their meaning on every failure path |
| `BdOpen.Disk.Put` | fs/block_dev.c:711-752 | a put undoes an open of the whole device |
| `BdOpen.Disk.PutPart` | fs/block_dev.c:711-752 | a put undoes an open of a partition, and the last one that of the whole device |
| `BdOpen.Disk.AllClosed` | fs/block_dev.c:711-752 | with everything closed all counters are zero |
| `BdRuns.StepKeeps` | fs/block_dev.c:560-752 | every step of interleaved opens and puts of disk and partitions keeps the meaning of all counters |
| `BdRuns.Always` | fs/block_dev.c:560-752 | so does every interleaving |
| `BdRuns.CountersMean` | fs/block_dev.c:596-645 | bd_openers of the whole device counts its direct opens and the partitions holding it, also between opening it and raising bd_part_count, and it is open while one holds it |
| `BdRuns.OpensAreCounted` | fs/block_dev.c:560-752 | after every run the direct opens and bd_openers of a partition are the opens completed less the puts |
| `BdRuns.PutsAreCovered` | fs/block_dev.c:711-752 | the whole device is never put more often than opened |
| `BdRuns.AllClosed` | fs/block_dev.c:560-752 | after every run, with all closed and nothing under way all counters are zero, whatever failed |

## Left out

- Synchronous kiocbs, timeouts, mm switching, sys_io_setup and exit_aio in fs/aio.c; of wait queues only that wait_for_all_aios returns when reqs_active is 0.
- The context protocol of fs/aio.c is modelled on values; only the ring is a class. Steps are at least as fine as the critical sections and the tests between them, so every real interleaving is covered. flush_workqueue samples one CPU after the other; the model samples once, when it begins, and so allows every free that the code allows.
- AioProgress.ServedInTurn: says how many picks a queued request waits for, not that a pass keeps being scheduled; fairness of threads is not modelled.
- Several contexts at once, and the global limit aio_max_nr: contexts share only the fput list.
- Wp512.Wp512Ctx.PutByte: works on a context between init and final; bufferBits is a multiple of 8 there, as all through the file, because every update is a whole number of bytes. An update after final without init, where bufferBits and bufferPos disagree, is not modelled.
- BioSplit.BioPair.EndsOnce: speaks of one valid state; BioRuns.EndsOnce is about all runs.
- Cipher.Crypt: has an IV in CBC mode; Cipher.Process also says what happens without one. A destination byte that is also a source byte is so at the same position.
- CFB and CTR (which only return -ENOSYS), and crypto_yield.
- Cipher.XorIv: xor_64 and xor_128 work on 32-bit words; the model adds byte by byte.
- Hmac.HmacAll: keys, and entries with an offset beyond a page, shorter than 2^29 bytes, since they may be absorbed in one update.
- Digest.DigestTfm.Final: a third final in a row is not modelled; the functions of crypto/hmac.c call it at most twice.
- Sha256.Sha256Ctx.Update: takes the updates that return, see Sha256.EndsIff for the others.
- Sha256.HashPieces: pieces shorter than 2^29 bytes, see Sha256.CountExactIff for the others.
- Wp512.HashPieces: pieces shorter than 2^29 bytes, see Wp512.AbsorbExactIff for the others.
- wp384 and wp256 (truncations of wp512), key schedules of Twofish, CAST-256 and Blowfish, and the compression functions: parameters, or nothing to add.
- Cast6.EncryptBlock: quad-rounds are functions on four words instead of updates of an array.
- Twofish.EncryptBlock: rounds are functions on four words instead of assignments to variables.
- BioSplit.Cut: sectors are integers; the width of sector_t is not modelled.
- Hardware, highmem mappings and page reference counts of other users.
- The rest of fs/bio.c and fs/block_dev.c (allocation, mapping of user pages, inodes, partition scanning).

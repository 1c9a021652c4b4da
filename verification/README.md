# Verified models of the AES engine and the SHA-256 miner

Two hardware cores and the software around them, in Dafny.

**The AES-128 engine.** `aes_axi_stream` takes frames of 32-bit words, packs them into a block RAM, has
`aes_controller` run `aes_top` over the blocks and streams the results out. The model holds every register of
every module and one function per module for a clock edge (`AesCore`, `AesController`, `AesStream`). Above it
stand the algorithm of FIPS 197 (`AesBlock`), the modes of NIST SP 800-38A (`AesModes`) and the phases of a
transaction (`AesStreamSpec`). The proofs go bottom up: the S-box and its inverse, the field arithmetic and
the round trip of the block cipher; hardware functions against the C code; the core by age of the operation;
the controller by phase of the job; the stream by phase of the transaction; at last whole runs with any
stalls and resets (`AesStreamRuns.StreamComputesAnswers`), exact timing, and exactly which frames are
answered rightly (`AesStreamCapacity`). `AesC` holds the C reference as methods on arrays,
`AesDriver` the chunking loop of the kernel driver on byte buffers, with its own numbers for the commands,
and `AesDriverKeys` its choice of when to load a key and its four entry points.

**The SHA-256 pipeline.** `sha_block` keeps up to five jobs in flight in four round stages of sixteen cycles
and three message-schedule stages that are overwritten while the next stage still reads them. `ShaPipeline`
models it, `ShaPipelineProof` shows that jobs sixteen cycles apart never disturb each other, `ShaSpacing` says which
jobs come out under any spacing and that sixteen is exact, and `BitcoinBlock` chains three blocks into the double
hash of a block header. `Sha` is FIPS 180-4; `ShaC` is the C program. The C code, the hardware macros and the standard
each have functions of their own, which are proved equal; what those of the standard mean is said without them in `ShaLaws`
(bit by bit, and as numbers modulo 2^32), `ShaNumbers` and `ShaConstants`.

**The SPI slave** (`Spi`) is shown to decode every sampled waveform.

## How to read it

- A 128-bit vector is the list of its sixteen bytes, a 32-bit bus word of AES the list of its four, most
  significant first. A vector of SHA-256 words is the list of the words in their numbered order. The words of
  SHA-256 are 32-bit bit-vectors, bytes 8-bit ones; counters wrap where the registers do.
- A `...Regs` value holds the registers of a module and `...Next` is one clock edge, all registers changing at once.
  The classes of `AesClocked`, `AesClockedStream`, `ShaClocked` and `Spi` have the registers as fields and a
  `Tick` per edge that is proved to be that function. `AxiStream`, `ShaBlock` and `SpiSlave` carry the history of
  their ports as ghost fields and keep the main theorem as their invariant.
- The C code of AES works on `array2` states and `array` buffers in place; that of SHA-256 on arrays and rotating
  variables. Each method is proved against the functions of the standard.
- Reset is an input of every edge. For the stream it may come in any phase except while the core is at work, because
  `cipher.v` and `decipher.v` do not reset their state (`ResetRests`); the theorem on runs speaks of the words since the
  last reset. For the pipelines it may come when no job is under way, because `W_middle.v` does not reset its counter.
- What the stream needs of its user is the predicate `AesStreamSpec.Legal`: a known command, whole blocks with
  the flag on the last word only, at least one block besides a CBC vector and at most 511 in all. That these bounds are
  exact is `AesStreamCapacity.CapacityIsExact`.
- Where C code writes past a buffer, the model stops with an outcome of its own (`PastEnd`, `Overrun`, `Overflow`), and
  the contract says for which inputs exactly.
- `dafny verify dfyconfig.toml` checks everything.

## What the proofs brought to light

- The driver allocates 8164 bytes for a frame (zynq-aes.c:373), a full chunk and a command word; a CBC frame carries
  16 bytes of vector besides. So every CBC request of more than 8144 bytes, in either direction, writes up to 16 bytes past
  the buffer, and no other request does (`FrameFits`, `CryptoOp`).
- In the driver the vector for the next chunk of a CBC *encryption* is taken from the source buffer, that is from
  the plaintext (zynq-aes.c:93-94). `ChunkedCbcEncrypt` says exactly when the result is right all the same,
  `LongRequestFails` gives failing requests under every key, and `CbcEncryptBound` says that with room for the frames
  requests up to 8160 bytes, and no longer ones, always come out right. With the buffer as allocated the bound on CBC
  requests is 8144 bytes both ways. Chunked ECB is right at every length, and so is chunked CBC decryption given the room.
- `zynqaes_setkey` stores a key without telling the engine, and a request loads the key only if another transform used the
  engine last. A transform that is given a new key and was the last to use the engine goes on with its old one
  (`AesDriverKeys.KeyCache.Request`, `StaleKey`). A failed set-key transfer goes unnoticed if there is data to process.
- A frame of 512 blocks is recorded as empty by the slave. The engine then processes nothing and, for an ECB command, sends
  exactly the 512 blocks that stood in its output RAM; the same comes back for a CBC vector without data (`StaleAnswer`,
  `WrongAnswer`). For a CBC command on 512 blocks the controller compares its read pointer for the first time when it is
  already one, and so goes on for 15(2^32 - 1) cycles more, until the 32-bit pointer is zero again (`EmptyStep`).
- Two jobs of the SHA-256 pipeline less than sixteen cycles apart make one result, under the nonce
  of the later one (`ShaSpacing.EarlyJobIsLost`, `PulsesAreAdmitted`).
- `parse_pad` announces that it truncates long input but stops instead; its variable `len_k` is never used. With
  fewer than 56 or more than 119 bytes its buffer is not the standard's padding (`PadIsFips`), and with exactly 255 or
  256 characters it writes past the buffer (`ParsePad`).
- `to_hex` knows capital digits only. Any other character, small digits among them, counts as eight ones without an
  error, and so does the end of a text of odd length (`OtherCharacters`, `HexDecoded`).
- The SPI slave shows a zero in place of the first bit of a byte if the clock was low for a single sample before it
  (`MisoShowsBit`).
- After a set-key command the engine sends one zero block back for every key block.
- `sha256_compute` keeps its hash value in a local array and only prints it; in the model it is the result.

## Model

| member | source | states |
|---|---|---|
| `AesField.XtimeLinear` | Projects/AES/C/decipher.c:74-77 | `xtime` of a sum is the sum of the `xtime`s: the fact all of MixColumns rests on |
| `AesField.MultiplyIsProduct` | Projects/AES/C/decipher.c:79-84 | the macro `multiply`, which looks at five bits of its second operand, is the full GF(2^8) product for each of the four constants the code passes |
| `AesField.MixByteIsFips` | Projects/AES/C/cipher.c:85-123 | a byte of `mix_columns` is a row of the matrix 02 03 01 01 of FIPS 197 section 5.1.3 |
| `AesField.InvMixByteIsFips` | Projects/AES/C/decipher.c:79-102 | a byte of `inv_mix_columns` is a row of the matrix 0e 0b 0d 09 of FIPS 197 section 5.3.3 |
| `AesField.MultiplyOfSum` | Projects/AES/C/decipher.c:79-84 | multiplication by each inverse coefficient is linear |
| `AesField.InvMixAfterMix` | Projects/AES/C/decipher.c:86-102 | for every column the inverse column map undoes the column map |
| `AesField.MixAfterInvMix` | Projects/AES/C/cipher.c:103-118 | and the other way round |
| `AesTables.HdlTablesAgree` | Projects/AES/hdl/aes_functions.vh:134-139 | the hardware concatenations, listed from entry 255 down and indexed from the least significant byte, are the C tables, forward and inverse |
| `AesTables.SboxInverse` | Projects/AES/C/decipher.c:8-24 | `rsbox` and `sbox` undo each other on every byte, both ways |
| `AesTables.SboxIsFips` | Projects/AES/C/key_expansion.c:7-24 | every entry of `sbox` is the affine map of the multiplicative inverse (FIPS 197 section 5.1.1) |
| `AesTables.RconIsFips` | Projects/AES/C/key_expansion.c:26-27 | the round constants are the powers of x, in the C listing and in the reversed hardware listing |
| `AesBlock.ShiftRowsIsFips` | Projects/AES/C/cipher.c:52-82 | row r of the state moves r columns, and the inverse shift moves it back |
| `AesBlock.SubBytesInverse` | Projects/AES/C/decipher.c:58-71 | the byte substitutions undo each other on every state |
| `AesBlock.MixColumnsInverse` | Projects/AES/C/decipher.c:86-107 | the column mixings undo each other on every state, both ways |
| `AesBlock.DecryptionUnwinds` | Projects/AES/C/decipher.c:138-158 | the state of decryption before key r is the substituted and shifted state of encryption before key r, for every r |
| `AesBlock.RoundTrip` | Projects/AES/C/decipher.c:138-158 | for every block and every eleven round keys, expanded from a key or not, decipher(cipher(b)) = b and cipher(decipher(b)) = b |
| `AesBlock.ExpandRecurs` | Projects/AES/C/key_expansion.c:46-80 | the schedule of every key begins with its sixteen bytes, and byte n from 16 to 175 is byte n - 16 plus: byte n - 4; or, in the first word of a round key, the substituted byte n - 3 (for the last byte of the word n - 7), for the first byte with the round constant added |
| `AesBlock.RoundKeyTells` | Projects/AES/C/key_expansion.c:71-80 | no step loses anything: each single round key determines the key, so all round keys before and after it |
| `AesC.AddRoundKey` | Projects/AES/C/aes.h:36-50 | the nested loops add the sixteen key bytes at an offset to the state, column by column |
| `AesC.LoadState` | Projects/AES/C/cipher.c:7-21 | the state holds the text column by column |
| `AesC.StoreState` | Projects/AES/C/cipher.c:23-33 | the text receives the state; the rest of the buffer stays |
| `AesC.SubBytes` | Projects/AES/C/cipher.c:36-50 | in place, every byte is substituted |
| `AesC.ShiftRows` | Projects/AES/C/cipher.c:52-82 | in place, with one temporary, the rows are rotated as FIPS 197 section 5.1.2 says |
| `AesC.MixedColumnIsMixWord` | Projects/AES/C/cipher.c:114-118 | the four expressions of the loop body are the matrix rows, though each is written in another order |
| `AesC.MixColumns` | Projects/AES/C/cipher.c:103-123 | in place, every column is multiplied by the matrix |
| `AesC.Cipher` | Projects/AES/C/cipher.c:125-149 | the ciphertext buffer receives the FIPS 197 section 5.1 cipher of the plaintext under the schedule, even when the buffers coincide, and no other byte changes |
| `AesC.InvSubBytes` | Projects/AES/C/decipher.c:58-71 | in place, every byte is substituted back |
| `AesC.InvShiftRows` | Projects/AES/C/decipher.c:109-136 | in place, the rows are rotated back |
| `AesC.UnmixedColumnIsInvMixWord` | Projects/AES/C/decipher.c:98-101 | the four expressions of the loop body are the inverse matrix rows |
| `AesC.InvMixColumns` | Projects/AES/C/decipher.c:86-107 | in place, every column is multiplied by the inverse matrix |
| `AesC.Decipher` | Projects/AES/C/decipher.c:138-158 | the plaintext buffer receives the FIPS 197 section 5.3 inverse cipher, whatever buffers coincide, and no other byte changes |
| `AesC.RoundTrip` | Projects/AES/C/test.c:28-51 | enciphering one buffer into a second and deciphering that into a third with the same schedule gives what the first held, whatever the third held and whether the buffers are distinct or not |
| `AesC.Transform` | Projects/AES/C/key_expansion.c:52-70 | rotating, substituting and adding the round constant in the four-byte scratch array is the g of FIPS 197 section 5.2 |
| `AesC.StoreWord` | Projects/AES/C/key_expansion.c:77-80 | each byte of word i becomes the sum of that of word i - 4 and that of the scratch array; all other bytes stay |
| `AesC.KeyExpansion` | Projects/AES/C/key_expansion.c:41-81 | for every key the 176 bytes hold the eleven round keys of FIPS 197 section 5.2; byte by byte they begin with the key and follow the recurrence of `ExpandRecurs`; bytes past 176 stay |
| `AesHdl.HdlBytesAgree` | Projects/AES/hdl/aes_functions.vh:151-160 | the hardware substitutions are those of the C code |
| `AesHdl.HdlShiftsAgree` | Projects/AES/hdl/aes_functions.vh:163-173 | the index arithmetic of `shift_rows` and `inv_shift_rows` makes the C rotations |
| `AesHdl.HdlMixAgrees` | Projects/AES/hdl/aes_functions.vh:176-208 | the four expressions of `mix_word`, on doublings of its own, multiply a column by the matrix of FIPS 197 section 5.1.3 |
| `AesHdl.HdlInvMixAgrees` | Projects/AES/hdl/aes_functions.vh:239-276 | the four expressions of `inv_mix_word` multiply a column by the inverse matrix |
| `AesHdl.HdlMixColumnsAgree` | Projects/AES/hdl/aes_functions.vh:210-286 | on whole blocks both hardware mixings are those of the C code |
| `AesHdl.HdlRoundAgrees` | Projects/AES/hdl/cipher.v:31-37 | the combinational round is the C round, and without mixing when the counter shows 11 the last one |
| `AesHdl.HdlInvRoundAgrees` | Projects/AES/hdl/decipher.v:35-42 | the combinational inverse round is the C inverse round, and without unmixing at counter 0 the last one |
| `AesHdl.NextKeyIsRoundKey` | Projects/AES/hdl/round_key.v:38-58 | for every key, one hardware step on round key r with `rcon[r + 1]` gives round key r + 1 of the word-by-word recurrence |
| `AesCoreProof.CipherStep` | Projects/AES/hdl/cipher.v:39-95 | one clock keeps the relation of counter, visible key and rounds done, from age a to a + 1, provided the key shown next is key a - 1 |
| `AesCoreProof.EncryptStart` | Projects/AES/hdl/aes_top.v:80-97 | from idle an encrypt command enters age 1 with the offered block |
| `AesCoreProof.EncryptStep` | Projects/AES/hdl/cipher.v:39-95 | with the keys arriving from the shared RAM one cycle after their address, the done strobe shows at age 13 exactly, then the output is the cipher of the block, and the core is idle again |
| `AesCoreProof.DecipherStep` | Projects/AES/hdl/decipher.v:44-101 | the same for the keys coming 10 down to 0, the address being the register minus one |
| `AesCoreProof.DecryptStep` | Projects/AES/hdl/decipher.v:44-101 | done at age 13 exactly, with the inverse cipher of the block |
| `AesCoreProof.ExpandStart` | Projects/AES/hdl/aes_top.v:44-58 | a set-key command enters age 1 with the key itself as round key 0 |
| `AesCoreProof.ExpandStep` | Projects/AES/hdl/round_key.v:60-104 | each cycle writes the next round key; done at age 11 exactly, and one cycle later the RAM holds the whole schedule of the key and the core is idle |
| `AesCoreProof.IdleStep` | Projects/AES/hdl/aes_top.v:61-77 | an idle core stays idle, shows nothing done and keeps the stored keys, with or without reset |
| `AesCoreProof.ResetRests` | Projects/AES/hdl/cipher.v:39-45 | a reset brings the core to rest if and only if neither cipher is at work, whose state registers have no reset |
| `AesModes.EcbInverse` | Projects/AES/hdl/aes_controller.v:107-110 | ECB decryption undoes ECB encryption on every list of blocks, and the reverse |
| `AesModes.CbcInverse` | Projects/AES/hdl/aes_controller.v:187-194 | for every vector and list of blocks CBC decryption undoes CBC encryption, and the reverse |
| `AesModes.ResultAt` | Projects/AES/hdl/aes_controller.v:180-194 | block i of the modes of NIST SP 800-38A sections 6.1 and 6.2 is what the controller forms from its chaining register: E(iv xor p) with the ciphertext next, iv xor D(c) with c next |
| `AesController.SwapTwice` | Projects/AES/hdl/aes_controller.v:58-72 | turning the bytes of every word twice changes nothing |
| `AesControllerProof.StartJob` | Projects/AES/hdl/aes_controller.v:127-140 | from rest the start strobe enters the first phase of any job |
| `AesControllerProof.CoreStep` | Projects/AES/hdl/aes_controller.v:92-110 | inside a block the core works on the right block with the right keys; at its done strobe the value to write is result i and the value to chain is chain i + 1 |
| `AesControllerProof.CtrlStep` | Projects/AES/hdl/aes_controller.v:112-207 | in every phase of every command one clock leads to the next phase, with its pointers, its visible input block, its chaining value and the results already written; no end is announced early |
| `AesControllerProof.ElapsedStep` | Projects/AES/hdl/aes_controller.v:125-205 | each phase is one cycle later than the one before and never past the end: the measure that ends every job |
| `AesControllerProof.ControllerComputesCommand` | Projects/AES/hdl/aes_controller.v:112-207 | for every command on up to 511 blocks, `en_o` shows exactly 15 cycles a data block (13 a key) plus 3 (ECB, set key) or 4 (CBC) after the start strobe and not before; then the output RAM begins with the results, their number is recorded, the stored keys are those after the command, and the controller rests |
| `AesStreamSpec.UnpackPack` | Projects/AES/hdl/aes_axi_stream.v:178-186 | packing the words of any blocks by fours gives the blocks back |
| `AesStreamSpec.PhaseNextOk` | Projects/AES/hdl/aes_axi_stream.v:85-122 | legal inputs keep every count of a transaction in bounds |
| `AesStreamProof.Outputs` | Projects/AES/hdl/aes_axi_stream.v:180-188 | words are taken only while receiving, offered only while sending; the word offered is the next word of the answer, flagged exactly on the last |
| `AesStreamProof.ResetStep` | Projects/AES/hdl/aes_axi_stream.v:197-207 | a reset in any phase but the core at work makes the design ready, keys kept |
| `AesStreamProof.SlaveStep` | Projects/AES/hdl/aes_axi_stream.v:336-389 | each word accepted is shifted into its block, each block written behind the words that made it, and the word that completes a frame leaves the command, the block count and all blocks but the one being written in place |
| `AesStreamProof.LaunchStep` | Projects/AES/hdl/aes_axi_stream.v:392-396 | the start strobe lasts one cycle and the last block reaches the RAM in it |
| `AesStreamProof.WorkingStep` | Projects/AES/hdl/aes_axi_stream.v:416-434 | while the controller works it has both RAM ports, and the stream follows its phases |
| `AesStreamProof.DoneStep` | Projects/AES/hdl/aes_axi_stream.v:394-396 | the end of the job hands its results and the number of blocks to the sending side |
| `AesStreamProof.MasterStep` | Projects/AES/hdl/aes_axi_stream.v:228-263 | under any stalls one clock keeps: the block shown is block i of the answer, the address i + 1, and from the second word on the RAM shows block i + 1, so none is skipped, repeated or stale; behind the last word the master is quiet |
| `AesStreamProof.SendingStep` | Projects/AES/hdl/aes_axi_stream.v:178-266 | while sending, the whole design stays in step with the words handed over, and the results stay in the RAM |
| `AesStreamProof.StreamStep` | Projects/AES/hdl/aes_axi_stream.v:85-434 | for every phase of a transaction and every legal input one clock of the whole design is one step of the transaction |
| `AesStreamRuns.CycleKeepsHistory` | Projects/AES/hdl/aes_axi_stream.v:85-434 | one legal cycle, a reset in any phase but the work of the core included, keeps: the words given since the last reset are a prefix of the answers to the frames taken since then, and all of them at rest |
| `AesStreamRuns.RunHistory` | Projects/AES/hdl/aes_axi_stream.v:85-434 | the same over any legal run from any phase, with any number of resets |
| `AesStreamRuns.StreamComputesAnswers` | Projects/AES/hdl/aes_axi_stream.v:85-434 | the main theorem: over every run of any number of key, ECB and CBC transactions with any stalls on both ports and resets in any cycle in which the core does not work, the words given since the last reset are a prefix of the ECB, CBC and key answers to the frames taken since then, in order, flagged on the last word of each answer only; at rest nothing is outstanding and the stored keys are those of the last key frame |
| `AesStreamTheorems.PowerOnIsReady` | Projects/AES/hdl/aes_axi_stream.v:85-122 | with all registers zero and any RAM contents the design is ready |
| `AesStreamTheorems.RemainingStep` | Projects/AES/hdl/aes_axi_stream.v:190-266 | every cycle of a transaction that is not a stall by the receiver brings its end exactly one cycle nearer |
| `AesStreamTheorems.ExactTiming` | Projects/AES/hdl/aes_axi_stream.v:85-266 | so any transaction ends, after a number of cycles known beforehand plus the stalls |
| `AesStreamTheorems.TransactionTiming` | Projects/AES/hdl/aes_axi_stream.v:85-266 | the first word is offered exactly the controller latency plus 4 cycles after the last word was taken, and the design is at rest exactly 4n + 1 cycles and the stalls later, not before |
| `AesStreamCapacity.EmptyStep` | Projects/AES/hdl/aes_controller.v:142-205 | on a frame of 512 blocks, whose recorded count is zero, or of a CBC vector alone, the controller processes nothing and ends exactly 3 (ECB, set key) or 4 (CBC) cycles after its start; only for CBC on 512 blocks, whose pointer is already one when it is first compared, it ends 4 + 15(2^32 - 1) cycles after it, when the 32-bit pointer has come round |
| `AesStreamCapacity.SlaveFills` | Projects/AES/hdl/aes_axi_stream.v:363-377 | the slave packs the words of any frame of up to 512 blocks and records their number modulo 512; the word that closes block 512 ends the frame, flagged or not |
| `AesStreamCapacity.TripStep` | Projects/AES/hdl/aes_axi_stream.v:85-434 | for a frame of any command and 1 to 512 blocks, one clock of the whole design is one step of its transaction |
| `AesStreamCapacity.StaleAnswer` | Projects/AES/hdl/aes_axi_stream.v:85-434 | over every legal reset-free run with a frame of 512 blocks or of a CBC vector alone: it is answered with exactly the 512 blocks that stood in the output RAM, whatever the payload, and keys and RAM stay; for CBC on 512 blocks nothing comes back up to controller cycle 4 + 15(2^32 - 1), where the run is followed no further |
| `AesStreamCapacity.StepsStep` | Projects/AES/hdl/aes_axi_stream.v:85-266 | from rest to rest, each cycle in which neither partner lets the engine wait brings the end exactly one cycle nearer, for frames of all sizes |
| `AesStreamCapacity.ExchangeExists` | Projects/AES/hdl/aes_axi_stream.v:85-434 | for every frame of 1 to 512 blocks but CBC on 512 there is a run of at most 15(2^32 - 1) cycles that takes it and comes to rest |
| `AesStreamCapacity.ExchangeAnswers` | Projects/AES/hdl/aes_axi_stream.v:85-434 | every reset-free run that takes exactly the frame and comes to rest, whatever the stalls, gives the result of the command or, for the two exceptional sizes, what the output RAM held; the keys are those after the command |
| `AesStreamCapacity.OneOfTwoIsWrong` | Projects/AES/hdl/aes_axi_stream.v:363-377 | of two runs from the same state that complete different ECB payloads of 512 blocks, at least one gives a wrong answer |
| `AesStreamCapacity.WrongAnswer` | Projects/AES/hdl/aes_axi_stream.v:363-377 | in every state at rest there are a payload of 512 ECB blocks, and a CBC vector alone, and a run that completes it with a wrong answer |
| `AesStreamCapacity.CapacityIsExact` | Projects/AES/hdl/aes_axi_stream.v:363-377 | from every state at rest and for each of the four ciphers: all frames of n blocks have a run that completes them within 15(2^32 - 1) cycles, and all runs that complete them, whatever the stalls, give exactly the right answer, if and only if there is a data block among the n and n is below 512 |
| `AesStreamTheorems.EcbEngineRoundTrip` | Projects/AES/hdl/aes_controller.v:107-186 | what one ECB command of the engine sends back, the other turns into what was received, bytes swapped on the way in and out |
| `AesStreamTheorems.CbcEngineRoundTrip` | Projects/AES/hdl/aes_controller.v:107-194 | the same for the CBC commands with the same vector |
| `AesClocked.BlockRam.Tick` | Projects/AES/hdl/block_ram.v:18-25 | one edge on the array in place: write before read, read data one cycle later |
| `AesClocked.RoundKeyUnit.Tick` | Projects/AES/hdl/round_key.v:60-104 | one edge is `RoundKeyNext` |
| `AesClocked.CipherUnit.Tick` | Projects/AES/hdl/cipher.v:39-95 | one edge is `CipherNext` |
| `AesClocked.DecipherUnit.Tick` | Projects/AES/hdl/decipher.v:44-101 | one edge is `DecipherNext` |
| `AesClocked.AesTop.Tick` | Projects/AES/hdl/aes_top.v:43-113 | clocking the four units from wires read before the edge is one edge of the whole core |
| `AesClockedStream.Controller.Edge` | Projects/AES/hdl/aes_controller.v:112-207 | the clocked block is `CtrlEdge` on the registers |
| `AesClockedStream.Controller.Tick` | Projects/AES/hdl/aes_controller.v:92-207 | the controller and the core inside change together as `CtrlNext` says |
| `AesClockedStream.SlavePort.Tick` | Projects/AES/hdl/aes_axi_stream.v:336-389 | one edge is `SlaveNext` |
| `AesClockedStream.MasterPort.Tick` | Projects/AES/hdl/aes_axi_stream.v:197-266 | one edge is `MasterNext` |
| `AesClockedStream.AxiStream.Edge` | Projects/AES/hdl/aes_axi_stream.v:85-434 | ports, RAMs, controller and state machine clocked one by one from wires read before the edge make one edge of the whole design |
| `AesClockedStream.AxiStream.PoweredOnIsValid` | Projects/AES/hdl/aes_axi_stream.v:85-122 | a design just switched on keeps the invariant |
| `AesClockedStream.AxiStream.Tick` | Projects/AES/hdl/aes_axi_stream.v:85-434 | the object keeps, over its whole life and through resets in any phase but the work of the core, that the words it has given since the last reset are a prefix of the answers to the frames it has taken since then |
| `AesDriver.Decoded` | Projects/AES/driver/zynq-aes.c:21-26 | each number of the driver, stored by a little-endian processor and read as a bus word, is the constant that the hardware compares with for that operation (aes.vh:14-20) |
| `AesDriver.CommandsAgree` | Projects/AES/driver/zynq-aes.c:48-51 | for every number of 32 bits driver and hardware agree whether it is a CBC command, and whether it is a request at all |
| `AesDriver.CodesOnBus` | Projects/AES/hdl/aes.vh:14-20 | over every legal run from rest that takes exactly a frame whose first byte is 20, 30, 40 or 41 (hexadecimal) and whose next three are zero, the bytes given back are the ECB encryption, ECB decryption, CBC encryption or CBC decryption of the rest under the stored keys; with 10 the keys become the expansion of the last sixteen bytes |
| `AesDriver.ReplyIsResult` | Projects/AES/driver/zynq-aes.c:53-86 | a transaction on the bytes of a frame returns, byte for byte, the command on the blocks of the payload, and leaves the keys after the command |
| `AesDriver.ChunkedEcb` | Projects/AES/driver/zynq-aes.c:232-261 | for every request ECB in chunks of 8160 bytes is ECB on the whole, both ways |
| `AesDriver.ChunkedCbcDecrypt` | Projects/AES/driver/zynq-aes.c:232-261 | for every request CBC decryption in chunks is CBC decryption of the whole: the vector carried over is the right one |
| `AesDriver.ChunkedCbcEncrypt` | Projects/AES/driver/zynq-aes.c:88-95 | CBC encryption in chunks, whose carried vector is the last plaintext block, is CBC encryption exactly if every block before a chunk boundary encrypts to itself |
| `AesDriver.HardwareReplies` | Projects/AES/driver/zynq-aes.c:103-171 | over every legal run of the stream hardware that takes exactly the words of the bytes sent, the last one flagged, and comes to rest, the bytes of the words given back are the reply that the driver reads, and the keys are those after the command |
| `AesDriver.EcbDriverRoundTrip` | Projects/AES/driver/zynq-aes.c:290-298 | what the driver encrypted in ECB mode it decrypts, at every length |
| `AesDriver.CbcDriverRoundTrip` | Projects/AES/driver/zynq-aes.c:300-308 | in CBC mode the driver gets a message back if and only if every block before a chunk boundary encrypts to itself |
| `AesDriver.LongRequestFails` | Projects/AES/driver/zynq-aes.c:88-95 | under every key and vector, of two requests that differ only in block 508 at least one comes out wrong |
| `AesDriver.CbcEncryptBound` | Projects/AES/driver/zynq-aes.c:232-261 | the chunking encrypts every CBC request of n blocks rightly if and only if n is at most 510, that is up to 8160 bytes |
| `AesDriver.RequestResult` | Projects/AES/driver/zynq-aes.c:232-261 | the chunks of a request under the number of each entry point add up to that operation on the whole request, for CBC encryption if it is one chunk |
| `AesDriver.FrameFits` | Projects/AES/driver/zynq-aes.c:373 | the frame of a chunk fits the 8164 bytes that the driver allocates if and only if the command is not CBC or the chunk has at most 8144 bytes |
| `AesDriver.Engine.DmaOp` | Projects/AES/driver/zynq-aes.c:103-171 | a transfer either fails, and then nothing is known of the receive buffer and the engine, or has the engine answer the frame |
| `AesDriver.EcbSetTxKbuf` | Projects/AES/driver/zynq-aes.c:53-59 | the buffer holds the four bytes of the command, the lowest first, and the payload |
| `AesDriver.CbcSetTxKbuf` | Projects/AES/driver/zynq-aes.c:61-68 | the buffer holds the four bytes of the command, the lowest first, the vector and the payload |
| `AesDriver.SetTxKbuf` | Projects/AES/driver/zynq-aes.c:70-86 | the frame for each mode in any buffer it fits; a write past the end exactly if it is longer than the buffer; the error for exactly the commands that are no request, with the buffer untouched |
| `AesDriver.SetKeyHw` | Projects/AES/driver/zynq-aes.c:176-187 | afterwards, unless the transfer failed, the engine holds the FIPS 197 expansion of the key |
| `AesDriver.GetRxKbuf` | Projects/AES/driver/zynq-aes.c:88-95 | the answer goes to its place if there is a destination and, in CBC, the vector becomes the last source block |
| `AesDriver.FrameReply` | Projects/AES/driver/zynq-aes.c:70-86 | every frame of a chunk, vector included, is within what the engine takes, and its answer is the command on that chunk, keys unchanged |
| `AesDriver.ChunkStep` | Projects/AES/driver/zynq-aes.c:232-261 | a pass does the first chunk and leaves the same task on the rest |
| `AesDriver.Pass` | Projects/AES/driver/zynq-aes.c:241-257 | a pass appends the command on its chunk to what is done and sets the vector for the next; it writes past the end of the transmit buffer exactly if the frame is longer than that, and ends with an error and the destination untouched exactly if the transfer fails |
| `AesDriver.CryptoOp` | Projects/AES/driver/zynq-aes.c:228-265 | for every length that is a multiple of 16 and every number of transfers that succeed before one fails: the transmit buffer as allocated is overrun exactly by CBC requests of more than 8144 bytes; otherwise the loop ends in an error exactly if a transfer it needs fails, with the chunks before that one done; otherwise the destination holds the chunked result, which for ECB, CBC decryption and requests up to 8160 bytes is the command on the whole request |
| `AesDriverKeys.ExpandTells` | Projects/AES/C/key_expansion.c:41-81 | different keys have different schedules |
| `AesDriverKeys.SetKey` | Projects/AES/driver/zynq-aes.c:274-287 | the context of the transform gets the key and nothing else changes: the engine is not told |
| `AesDriverKeys.KeyCache.LoadKey` | Projects/AES/driver/zynq-aes.c:223-227 | a key is sent only when another transform used the engine last, and then it is the key in the context at that time; the exact error |
| `AesDriverKeys.KeyCache.Request` | Projects/AES/driver/zynq-aes.c:189-273 | the outcome for every request: overrun exactly for CBC above 8144 bytes, failure exactly if a needed transfer fails, where that of the key counts only if there is no data; while transfers succeed, a request runs under the key its transform had when it took the engine over, so under its own key exactly if it takes over now or the key has not been changed since |
| `AesDriverKeys.KeyCache.EcbEncryptOp` | Projects/AES/driver/zynq-aes.c:290-293 | never runs past the buffer and fails exactly if a transfer it needs fails; while transfers succeed the destination is the ECB encryption of the source, at every length, under the expansion of the key last loaded, which is the own key of the transform if it takes the engine over |
| `AesDriverKeys.KeyCache.EcbDecryptOp` | Projects/AES/driver/zynq-aes.c:295-298 | the same for ECB decryption |
| `AesDriverKeys.KeyCache.CbcEncryptOp` | Projects/AES/driver/zynq-aes.c:300-303 | for requests of up to 8144 bytes, and exactly these do not run past the buffer, the destination is the CBC encryption of the source with the vector of the request |
| `AesDriverKeys.KeyCache.CbcDecryptOp` | Projects/AES/driver/zynq-aes.c:305-308 | the same for CBC decryption |
| `AesDriverKeys.StaleKey` | Projects/AES/driver/zynq-aes.c:223-287 | a request, a new key for its transform, and another request: both succeed and the second runs under the first key |
| `Sha.ChChooses` | Projects/bitcoin_miner/C/sha256.c:53-56 | `ch` picks bits of y or z by the bits of x |
| `Sha.MajAgrees` | Projects/bitcoin_miner/C/sha256.c:58-61 | `maj` picks the bits on which two agree |
| `Sha.WordAtBytesOf` | Projects/bitcoin_miner/C/sha256.c:170-172 | the bytes of words, most significant first, read back as the words |
| `ShaNumbers.AddIsSum` | Projects/bitcoin_miner/C/sha256.c:204-205 | a sum of words is, as a number, the sum modulo 2^32: proved digit by digit with the carry |
| `ShaNumbers.WordTells` | Projects/bitcoin_miner/C/sha256.c:204-205 | a number below 2^32 is that of one word only, so what is said about numbers fixes the words |
| `ShaLaws.FunctionBits` | Projects/bitcoin_miner/C/sha256.c:63-81 | each bit of `ep0`, `ep1`, `sig0` and `sig1` is the sum of the three bits of x that lie 2, 13, 22; 6, 11, 25; 7, 18, 3; or 17, 19, 10 places above it, around the end for rotations, and without the bits that a shift has moved out (FIPS 180-4 section 4.1.2) |
| `ShaLaws.ExtendIsSum` | Projects/bitcoin_miner/C/sha256.c:175 | a new schedule word is as a number the sum modulo 2^32 of the four terms, written out with their rotations and shifts |
| `ShaLaws.ScheduleIsFips` | Projects/bitcoin_miner/C/sha256.c:171-175 | the schedule is the sixteen words of the block and then that recurrence, for every word from 16 to 63 |
| `ShaLaws.RoundIsFips` | Projects/bitcoin_miner/C/sha256.c:204-213 | a round sets two variables to T1 + T2 and d + T1, sums of the seven terms modulo 2^32, and moves the others on by one |
| `ShaLaws.PlusIsFips` | Projects/bitcoin_miner/C/sha256.c:223-230 | the sum at the end of a block, word by word as numbers modulo 2^32 |
| `ShaLaws.LengthIsNumber` | Projects/bitcoin_miner/C/sha256.c:116-130 | the last eight bytes of the padding are the digits of the length in base 256, the most significant first |
| `ShaLaws.WordIsBytes` | Projects/bitcoin_miner/C/sha256.c:173 | the bytes of a word are its digits in base 256, the most significant first |
| `ShaConstants.InitialIsRoots` | Projects/bitcoin_miner/C/sha256.c:28-31 | the initial hash value is the first 32 bits of the fractions of the square roots of the first eight primes (FIPS 180-4 section 5.3.3) |
| `ShaConstants.ConstantsAreRoots` | Projects/bitcoin_miner/C/sha256.c:17-26 | the round constants are the first 32 bits of the fractions of the cube roots of the first 64 primes (section 4.2.2) |
| `ShaPipeline.SlicesRotate` | Projects/bitcoin_miner/rtl/sha.vh:26 | the two slices of `rot_r` make a rotation, by every amount the macros use |
| `ShaPipeline.MacrosAgree` | Projects/bitcoin_miner/rtl/sha.vh:26-33 | the macros are the functions of FIPS 180-4 section 4.1.2 |
| `ShaPipeline.RoundAgrees` | Projects/bitcoin_miner/rtl/sha_round.v:61-113 | T1, T2 and the eight registers they feed make the round of FIPS 180-4 section 6.2.2 |
| `ShaPipeline.FeedForwardAgrees` | Projects/bitcoin_miner/rtl/sha_hash.v:34-41 | the eight assignments, from the least significant word of the bus with h to the most significant with a, add the variables in their order |
| `ShaPipeline.BusIsDigest` | Projects/bitcoin_miner/rtl/sha_hash.v:34-41 | the bytes of the hash bus from its most significant end are the message digest: a to h, each most significant byte first |
| `ShaPipelineProof.StartStep` | Projects/bitcoin_miner/rtl/W_start.v:14-27 | the front holds the message, hash value and nonce of a job for sixteen cycles |
| `ShaPipelineProof.CountStep` | Projects/bitcoin_miner/rtl/sha_round.v:83-120 | the counter of a stage shows how far the job inside has come; a job arrives only at a counter of zero |
| `ShaPipelineProof.WrittenWord` | Projects/bitcoin_miner/rtl/W_middle.v:40 | whatever stands in the window, the word written follows the recurrence of FIPS 180-4 section 6.2.2 on the words 2, 7, 15 and 16 places before it, as numbers; the other words stay |
| `ShaPipelineProof.NewWord` | Projects/bitcoin_miner/rtl/W_middle.v:40 | the word computed in step j of a job is word j of the next sixteen of its own message schedule |
| `ShaPipelineProof.Kept` | Projects/bitcoin_miner/rtl/W_middle.v:37-48 | a stage never overwrites a word that a job in flight still needs |
| `ShaPipelineProof.MiddleStep` | Projects/bitcoin_miner/rtl/W_middle.v:37-48 | word j of a middle stage belongs to a job from age 16m + 2 + j for sixteen cycles, whatever comes behind |
| `ShaPipelineProof.StageStep` | Projects/bitcoin_miner/rtl/sha_round.v:67-122 | a job of age a in or just behind stage s has exactly a - 1 rounds done, with its own hash value and nonce |
| `ShaPipelineProof.HashStep` | Projects/bitcoin_miner/rtl/sha_hash.v:24-45 | the feed-forward of the job that leaves the last stage, and one done pulse |
| `ShaPipelineProof.LaterOffered` | Projects/bitcoin_miner/rtl/sha_block.v:122-158 | each stage reads each schedule word of its job in the one cycle before the next job can replace it |
| `ShaPipelineProof.FlightStep` | Projects/bitcoin_miner/rtl/sha_block.v:35-180 | one clock keeps all stages right for all jobs in flight |
| `ShaPipelineProof.PipelineComputes` | Projects/bitcoin_miner/rtl/sha_block.v:35-180 | for every sequence of jobs at least sixteen cycles apart the done pulse shows exactly 66 cycles after each, with the compression of that job and its nonce |
| `ShaSpacing.FirstStageStep` | Projects/bitcoin_miner/rtl/sha_round.v:67-122 | in any run without reset, whatever the spacing, the first stage is at work exactly for the jobs that found it free, and the nonce with such a job is that of the last one sent in since |
| `ShaSpacing.PulsesAreAdmitted` | Projects/bitcoin_miner/rtl/sha_block.v:35-180 | in any run without reset the done pulse shows exactly 66 cycles after each job that found the first stage free, with the nonce of the last job sent in within its fifteen cycles there |
| `ShaSpacing.SpacingIsExact` | Projects/bitcoin_miner/rtl/sha_block.v:35-180 | the done pulse shows exactly 66 cycles after every job and at no other time if and only if no two jobs are closer than sixteen cycles |
| `ShaSpacing.EarlyJobIsLost` | Projects/bitcoin_miner/rtl/sha_round.v:83-91 | a job less than sixteen cycles behind one that found the stage free has no done pulse, and that one comes out under the nonce of the last job behind it |
| `BitcoinBlock.HdlTableIsK` | Projects/bitcoin_miner/rtl/bitcoin_block.v:30-47 | the constant, listed from the last to the first and indexed from the least significant word, is the table of FIPS 180-4 section 4.2.2 |
| `BitcoinBlockProof.PaddedWords` | Projects/bitcoin_miner/rtl/bitcoin_block.v:55-56 | appending a one bit, zeros and the length word is the byte padding of FIPS 180-4 section 5.1.1 |
| `BitcoinBlockProof.HeaderHash` | Projects/bitcoin_miner/rtl/bitcoin_block.v:62-88 | the SHA-256 digest of any 80-byte header is that of the hash value after the two compressions that the first two blocks are wired for |
| `BitcoinBlockProof.HashHash` | Projects/bitcoin_miner/rtl/bitcoin_block.v:90-103 | the SHA-256 digest of any 32-byte digest is that of the hash value after the compression that the third block is wired for |
| `BitcoinBlockProof.ThirdBlockOrder` | Projects/bitcoin_miner/rtl/bitcoin_block.v:98 | the third block is offered a to h of the second in this order |
| `BitcoinBlockProof.BlocksRun` | Projects/bitcoin_miner/rtl/bitcoin_block.v:62-104 | each of the three blocks runs on what the one before it put out |
| `BitcoinBlockProof.SecondSpaced` | Projects/bitcoin_miner/rtl/bitcoin_block.v:76-88 | jobs arrive at the second block as far apart as they started |
| `BitcoinBlockProof.BitcoinComputes` | Projects/bitcoin_miner/rtl/bitcoin_block.v:54-104 | for any number of starts at least sixteen cycles apart, `bitcoin_done` shows exactly 198 cycles after each start with its nonce, and the 32 bytes of the hash bus are SHA-256 of SHA-256 of the 80-byte header whose fields for the second block are those of 66 cycles after the start; so of the header of the start itself if these were still there |
| `ShaClocked.WStart.Tick` | Projects/bitcoin_miner/rtl/W_start.v:14-27 | one edge is `StartNext` |
| `ShaClocked.WMiddle.Tick` | Projects/bitcoin_miner/rtl/W_middle.v:37-48 | one edge on the buffer in place is `MiddleNext` |
| `ShaClocked.ShaRound.Tick` | Projects/bitcoin_miner/rtl/sha_round.v:67-122 | one edge is `RoundNext` |
| `ShaClocked.ShaHash.Tick` | Projects/bitcoin_miner/rtl/sha_hash.v:24-45 | one edge is `HashNext` |
| `ShaClocked.ShaBlock.Edge` | Projects/bitcoin_miner/rtl/sha_block.v:35-180 | the stages clocked one by one from wires read before the edge make one edge of the whole block |
| `ShaClocked.ShaBlock.Tick` | Projects/bitcoin_miner/rtl/sha_block.v:35-180 | the object puts out, 66 edges after each job it was given, the compression of that job and its nonce |
| `ShaC.ShiftsRotate` | Projects/bitcoin_miner/C/sha256.c:45-51 | the two shifts of `rot_r32` make a rotation for every amount used |
| `ShaC.FunctionsAgree` | Projects/bitcoin_miner/C/sha256.c:53-81 | the six functions on words are those of FIPS 180-4 section 4.1.2 |
| `ShaC.OtherCharacters` | Projects/bitcoin_miner/C/sha256.c:84-93 | exactly the characters that are no capital digit, small digits among them, read as 0xff; as the second of a pair, or where a text of odd length ends, such a character makes the byte ff, and as the first it leaves only the low half to the second |
| `ShaC.HexDecoded` | Projects/bitcoin_miner/C/sha256.c:125-126 | the bytes read, written in capital digits, are the text again if and only if it was pairs of capital digits |
| `ShaC.DecodedHex` | Projects/bitcoin_miner/C/sha256.c:84-93 | bytes written in capital hexadecimal digits are read back |
| `ShaC.PadIsFips` | Projects/bitcoin_miner/C/sha256.c:117-126 | for whole bytes the 128-byte buffer is the padding of FIPS 180-4 section 5.1.1 if and only if there are 56 to 119 of them |
| `ShaC.ParsePad` | Projects/bitcoin_miner/C/sha256.c:99-126 | more than 256 characters are refused with the buffer untouched; exactly 255 and 256 make it write past the buffer; otherwise the buffer holds the decoded bytes, a one bit, zeros and the length in its last eight places |
| `ShaC.MakeSchedule` | Projects/bitcoin_miner/C/sha256.c:168-175 | the array holds the message schedule of the block: its sixteen words, and each later one the sum modulo 2^32 of the four terms of FIPS 180-4 section 6.2.2 |
| `ShaC.RunRounds` | Projects/bitcoin_miner/C/sha256.c:195-218 | 64 turns of the rotating variables are the 64 rounds of FIPS 180-4 section 6.2.2 |
| `ShaC.AddTo` | Projects/bitcoin_miner/C/sha256.c:220-228 | the eight sums form the next hash value |
| `ShaC.Sha256Compute` | Projects/bitcoin_miner/C/sha256.c:143-240 | for every string: a hash value exactly up to 254 characters, the two compressions of the prepared buffer; for an even number of characters making 56 to 119 bytes the words of that value in order are the SHA-256 digest of those bytes |
| `Spi.FollowStep` | Projects/bitcoin_miner/rtl/spi/spi.v:21-53 | one clock keeps: the counter, the shift register and the strobe are those of the rising edges in the waveform so far |
| `Spi.LastEight` | Projects/bitcoin_miner/rtl/spi/spi.v:38-50 | the received byte depends on the last eight bits only |
| `Spi.MostSignificantFirst` | Projects/bitcoin_miner/rtl/spi/spi.v:49 | the bit received first is the most significant |
| `Spi.BytesAnnounced` | Projects/bitcoin_miner/rtl/spi/spi.v:21-53 | for every sampled waveform while selected, the bytes announced are the groups of eight bits at the rising edges, each bit as sampled just before its rise, none dropped, repeated or overlapping |
| `Spi.MisoShowsBit` | Projects/bitcoin_miner/rtl/spi/spi.v:55-65 | when the edge that takes in bit k is seen, the output shows bit k of the byte taken over last before this byte began; for the first bit that is the top bit of the byte now offered exactly if the clock was low for two samples or more, and zero after a single low sample |
| `Spi.FirstBit` | Projects/bitcoin_miner/rtl/spi/spi.v:55-58 | when the first rising edge of a byte is seen the buffer holds the byte offered, or nothing if the clock was low for one sample only |
| `Spi.SpiSlave.Tick` | Projects/bitcoin_miner/rtl/spi/spi.v:16-65 | the object announces exactly the bytes of the waveform since selection |

## Left out

- The Linux plumbing of the driver: DMA descriptors, completions, locks, scatter lists, allocation and probing.
- `AesDriver.Engine.DmaOp`: whether a transfer fails is a parameter; which of its steps fails, or that it times out, and
  what it leaves behind then, is not modelled.
- Reset while the AES core is at work or while a SHA-256 job is under way: registers without a reset keep old values.
- `AesStreamProof.StreamStep`: both ports on one clock, as the wrapper is used; the strobe lanes of the ports carry nothing.
- Undefined values: registers without an initial value start at zero, `get_rcon` past its table reads zero.
- Commands other than the five: the controller waits for a done strobe that never comes.
- `AesStreamCapacity.StaleAnswer`: without resets; and a CBC command on 512 blocks is followed only for the
  4 + 15(2^32 - 1) cycles of the controller in which nothing comes back.
- `ShaSpacing.EarlyJobIsLost`: the hash that comes out of two jobs sent too close together is not stated, only its nonce.
- `BitcoinBlockProof.BitcoinComputes`: the wires of `bitcoin_block` are a function, without a class of its own, because
  the module has no registers; its three blocks are values of `BlockRegs`.
- `ShaC.Sha256Compute`: the debug output is not modelled, and the string is taken without a zero character inside.
- `Spi.SpiSlave.Tick`: the wire `dataNeeded` is not an output of the model; the output `miso` is `Spi.Miso`.
- `bitcoin_miner_top.v` and `axis_bitcoin_miner.v`, which hold the start line high; `bitcoin_block` is driven with pulses.
- The miner's kernel module, its test clients, the stress test, the templates, the simpler stream FIFO and the LED
  example: device access and register plumbing.
- Known-answer vectors: single inputs.

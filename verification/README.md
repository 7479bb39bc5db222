# A model of the copy protocols and block layer of qemu-kvm

This project models, in Dafny, the parts of qemu-kvm in which many things happen at once or a fast form stands in
for a simple one, and proves what each of them is for.

* **Live block migration** (`BlockMigration.dfy`, `BlockMigrationCode.dfy`, `DirtyTracking.dfy`). A transition
  system: guest writes begin, land sector by sector and mark their chunks dirty; bulk and dirty reads are submitted,
  sample the disk sector by sector and complete in any order; the queue is flushed; stage 3 sends what is still
  dirty. The main theorem says, for every order of completion, that replaying the stream at the destination gives the
  source disk exactly when the newest copies were sent: none overtaken, none lost with the queue. The class `Migration`
  holds the code, and each method is proved to be a run of that system. The bitmap and its counter are proved to follow
  the dirty set of the protocol over every run.
* **Live RAM migration** (`RamWire.dfy`, `RamMigration.dfy`, `RamMigrationCode.dfy`). The wire format byte by byte,
  the receiver, two levels of dirty tracking and the sender. For every interleaving, once stage 3 is over the bytes of
  the stream load without error and the destination's memory is the source's.
* **AES and CBC** (`AesField.dfy`, `AesCipher.dfy`, `AesTables.dfy`, `AesCode.dfy`, `AesKeys.dfy`, `AesCbc.dfy`,
  `AesRoundTrip.dfy`, `AesSbox.dfy`, `AesIvs.dfy`, and `AesTrace.dfy` with `AesExample128.dfy`, `AesExample192.dfy` and
  `AesExample256.dfy`). The table-driven loops refine Cipher and the Equivalent Inverse Cipher of FIPS 197 (sections 5.1
  and 5.3.5), key expansion follows section 5.2, the S-box is that of section 5.1.1, the examples of appendix C come
  out, and decryption undoes encryption for every key, block, length and initialisation vector.
* **Block requests** (`Multiwrite.dfy`, `MultiwriteCompletion.dfy`, `BlockIo.dfy`, `BlockCommit.dfy`). What merging
  does to each byte of the disk, exactly-once completion, byte I/O over sectors with failing requests, and commit of an
  overlay.
* **Scheduling and streams** (`BottomHalves.dfy`, `BottomHalvesCode.dfy`, `Coroutine.dfy`, `BufferedFile.dfy`,
  `BufferedFileCode.dfy`). Re-entrant bottom halves, the handover between coroutine threads under a lock and a
  condition variable, and the buffered, rate-limited stream.
* **Word-level bitmaps** (`Bitops.dfy`, `Bitmap.dfy`) against a plain sequence of bits.

Protocols are written as `State`, `Step`, `Enabled`, `Apply`, `Legal` and `Exec`: a run is a sequence of steps each of
which is enabled when its turn comes. `Leads(s, run, r)` says that the run takes s to r; a method of a class that
changes the state of a protocol returns such a run. I/O results, scheduling and drivers are nondeterministic choices or
parameters (`approve`, `answers`, `waits`). Words of 64 bits are natural numbers below 2^64 with their binary digits;
bytes and 32-bit words of AES are bit-vectors.

## Where the code does less than one might expect

Each of these is stated as a lemma with the failing inputs, next to the exact condition where there is one.

* Block migration: a dirty read that overtakes the bulk read of its chunk loses the last write
  (`OvertakingLosesAWrite`); blocks still queued when stage 3 cleans up are lost (`DroppingLosesAChunk`).
  `MigrationConverges` has the exact condition for both (`NewestSent`). Bulk reads do not set the in-flight bit, so that
  nothing in the code keeps reads in order; `DrainedConverges` is the theorem for runs in which a chunk's bulk read is
  done before the chunk is read as dirty.
* Block migration: a read that fails in stage 3 is repeated, but with an error of the file nothing more is sent, so that
  its chunk and all later ones are cleaned and lost (`FailingLosesAWrite`). block_save_live then returns the error;
  `MigrationConverges` has the exact condition (`Arrived`, `Unsent`).
* `bdrv_set_dirty_tracking` zeroes the counter without clearing a bitmap that is already there: the counter is right
  afterwards exactly when that bitmap was empty (`MarkedThenEnabledAgain` is a failing case).
* `multiwrite_merge`: a request that contains a later, shorter one loses its tail (`ContainedRequestLosesTail`), or is
  overwritten with the zeros of an approved gap behind the shorter one (`ContainedRequestIsZeroed`; no driver in the
  repository sets bdrv_merge_requests, so this needs one from outside). `MergeExact` gives the value of every byte and
  says when it is that of the sorted list, in terms of the sorted list and the driver's answers (`Overhangs`, `InGap`).
* After a short last block, AES_cbc_encrypt leaves different ivs in its two directions unless the cipher maps that block
  to itself (`SameIv`). `OneByteSplitsIvs` and `IvsDiffer` show a key, an iv and a byte for which they differ.
* `buffered_put_buffer` goes on offering its data when the flush before it stopped at an answer of 0 or at an error, so
  that new bytes overtake buffered ones; an answer of 0 in its own loop drops data without an error. `PutExact` and
  `SessionExact` have the exact condition (`Orderly`).
* Coroutines: `qemu_coroutine_yield` clears the caller before it takes the lock. A second leader that enters the
  coroutine in that moment breaks the invariant, and no other step does (`InvKept`); the wake-up can then be lost
  (`LateEnterIsLost`). With one leader this cannot happen (`OneLeaderRun`).
* Bitmaps: the comment promises that unused bits never affect a result. They affect what bitmap_and and bitmap_andnot
  return (`TailBitMisleads`, exact condition `ResultExact`), and the one-word tests of zero bits (`FastTestAgrees`).

## Model

| member | source | states |
|---|---|---|
| `BlockMigration.MigrationConverges` | block-migration.c:558-643 | For every run of guest writes, reads, completions in any order, failures and flushes up to stage 3, and every run of stage 3 that ends without an error of the file: replaying the stream gives the source disk if and only if, on every clean sector, the copy sent last is the copy submitted last (or, where the read of that copy failed, happens to be right). If the file gets an error in stage 3, each chunk still dirty then must also have arrived before. |
| `BlockMigration.ConvergingKept` | block-migration.c:205-262 | Every step keeps the invariant, in whatever order reads complete: each sector behind the bulk cursor is dirty, or has a write not marked yet, or the copy of it submitted last has still to sample it or equals it. |
| `BlockMigration.InvHolds` | block-migration.c:379-447 | The invariant holds after every legal run. |
| `BlockMigration.BulkSkipped` | block-migration.c:214-232 | A sector that the bulk cursor passes is in the chunk being read, or is unallocated and already equal at the destination. |
| `BlockMigration.BulkReads` | block-migration.c:205-262 | A bulk step, in terms of the allocated sectors and the cursor: with a shared base it reads exactly the chunk of the first allocated sector from the cursor on, cleans it and moves the cursor to the end of the chunk; if there is none it reads nothing and goes to the end of the device. |
| `BlockMigration.BulkBegins` | block-migration.c:214-220 | There is exactly one such place. |
| `BlockMigration.FirstAllocated` | block-migration.c:214-220 | The scan ends at the first allocated sector: nothing before it is allocated. |
| `BlockMigration.MarkedIsTouched` | block.c:1097-1123 | A write marks exactly the chunks of the sectors it touches; an empty one marks the chunk it lies in, unless that is the first sector of a chunk other than the first. |
| `BlockMigration.OrderedNewest` | block-migration.c:186-203 | If reads of one chunk complete in the order of submission, the stream followed by the queue has the newest copy of every sector. |
| `BlockMigration.FilledKept` | block-migration.c:464-489 | Blocks in the queue and the stream have been sampled completely. |
| `BlockMigration.ReplayIsLatest` | block-migration.c:645-720 | Replay by block_load leaves each sector with its newest copy in the stream and changes no other address. |
| `BlockMigration.CleanSector` | block-migration.c:621-626 | When stage 3 begins and no queued read has failed, the copy of a clean sector that was submitted last is its content. |
| `BlockMigration.CleanIsWanted` | block-migration.c:621-626 | The same with failed reads: the last copy is the content, or it is missing. |
| `BlockMigration.FinalRun` | block-migration.c:621-627 | From stage 3 on the disk is fixed, and exactly the chunks that stop being dirty before the file gets an error are sent, as they are. |
| `BlockMigration.SectorAtEnd` | block-migration.c:558-643 | What each sector is at the destination after stage 3, whether or not blocks were dropped or the file got an error. |
| `BlockMigration.ConvergesFrom` | block-migration.c:621-643 | The same equivalence, from any state of the invariant. |
| `BlockMigration.OrderedConverges` | block-migration.c:534-643 | If reads of one chunk complete in order and the queued ones succeeded, the destination equals the source if and only if no copy dropped with the queue was needed and the chunks left unsent by an error had arrived; with an empty queue and no error it always does. |
| `BlockMigration.DrainedConverges` | block-migration.c:252-260 | The same for every order of completion, if a chunk's bulk read is done before the chunk is read as dirty. |
| `BlockMigration.DrainedIsOrdered` | block-migration.c:252-260 | Under that condition reads of one chunk do complete in order. |
| `BlockMigration.OneReadKept` | block-migration.c:140-172 | With that, two reads of one chunk are never outstanding together. |
| `BlockMigration.ReadsAccounted` | block-migration.c:464-489 | In every reachable state submitted, read_done and transferred account for every read issued, each counting exactly the blocks in its place. |
| `BlockMigration.OvertakingLosesAWrite` | block-migration.c:252-260 | A run with an overtaking read after which the destination has the older content. |
| `BlockMigration.DroppingLosesAChunk` | block-migration.c:534-556 | A run with a block left in the queue after which the destination lacks it. |
| `BlockMigration.FailingLosesAWrite` | block-migration.c:421-447 | A run in which a read of stage 3 fails and is repeated: the chunk is cleaned, and the destination keeps the older content. |
| `BlockMigration.NothingUnsent` | savevm.c:500-522 | If the file ends without an error, no chunk was cleaned without being sent. |
| `BlockMigrationCode.Migration.SkipUnallocated` | block-migration.c:214-220 | The loop over bdrv_is_allocated, for any run lengths it reports, finds the first allocated sector. |
| `BlockMigrationCode.Migration.SaveDeviceBulk` | block-migration.c:205-270 | One bulk step at that place, with the chunk submitted and cleaned, or nothing submitted and the cursor at the end; or a refused read that changes nothing but the error of the file. It reports completion exactly at the end of the device. |
| `BlockMigrationCode.Migration.ReadDone` | block-migration.c:186-203 | The read callback moves one block from the outstanding reads to the queue and clears its in-flight bit. |
| `BlockMigrationCode.Migration.FlushBlks` | block-migration.c:464-494 | A prefix of the queue goes to the stream, in order; a failed read stops it at that block and sets the error of the file; with an error nothing is sent. |
| `BlockMigrationCode.Migration.FindDirty` | block-migration.c:388-437 | The dirty cursor stops at a dirty chunk with no read of it outstanding, or at the end; each chunk passed was clean at a moment of the run, although guest writes may mark it again during a wait. The run holds only steps of the guest and of outstanding reads. |
| `BlockMigrationCode.Migration.AioFlush` | aio.c:101-121 | Waiting ends with no read of the migration outstanding and no in-flight bit set, whether the reads succeed or fail, and whatever requests of the guest begin, land or complete meanwhile. |
| `BlockMigrationCode.Migration.SaveDeviceDirtyAsync` | block-migration.c:379-447 | After such waits exactly one step: the dirty chunk at the cursor is submitted, cleaned and marked in flight; or the read is refused, the chunk stays dirty and the file has an error; or the device has none left. |
| `BlockMigrationCode.Migration.SaveDeviceDirtySync` | block-migration.c:379-447 | The same in stage 3 without waits: the chunk is cleaned, and sent unless the file has an error; after a failed read it is still dirty and the file has an error. |
| `BlockMigrationCode.Migration.SaveDirtyBlockSync` | block-migration.c:449-462 | It cleans a chunk or meets a failing read; it reports the end if and only if no device has a dirty chunk. |
| `BlockMigrationCode.Migration.SendRemaining` | block-migration.c:621-626 | The loop of stage 3 repeats failed reads and ends with no chunk dirty, as a run of the protocol, in which what is cleaned after a failure is not sent. |
| `BlockMigrationCode.Migration.Complete3` | block-migration.c:621-638 | It reports the error of the file. Without one the stream replays to the source disk if and only if the newest copies had been sent; with one, if and only if also the chunks dirty at the first failure had arrived. |
| `BlockMigrationCode.BackedKept` | block-migration.c:152-172 | An in-flight bit always stands for an outstanding read. |
| `DirtyTracking.Device.SetDirtyBitmap` | block.c:1097-1123 | Exactly the bits of the request's chunks change, which as a set adds or removes the marks of the migration protocol, and the counter stays the number of set bits. |
| `DirtyTracking.RangeIsMarks` | block.c:1097-1123 | Setting the bits from the first to the last chunk of a request is adding its marks to the dirty set, clearing them is removing them. |
| `DirtyTracking.CountIsSize` | block.c:3071-3074 | The number of set bits is the size of the dirty set. |
| `DirtyTracking.CallIsStep` | block-migration.c:259-259 | Every step of the migration changes the dirty set of a device as its call of set_dirty_bitmap, if any, does. |
| `DirtyTracking.Device.DoAll` | block.c:1097-1123 | Over every legal run of the migration the bitmap holds exactly the dirty chunks of the protocol and the counter is their number. |
| `DirtyTracking.MarkedThenEnabledAgain` | block.c:3031-3050 | Enabling tracking again after a write leaves a counter of 0 over a set bit. |
| `DirtyTracking.Device.SetDirtyTracking` | block.c:3031-3050 | The counter is the number of set bits afterwards, except that with a bitmap kept it is so if and only if that bitmap was empty. |
| `DirtyTracking.Device.GetDirty` | block.c:3052-3063 | The bit of the sector's chunk, within the device. |
| `DirtyTracking.CountOneChange` | block.c:1110-1120 | Changing one bit changes the number of set bits by one. |
| `RamWire.HeaderIsOr` | arch_init.c:292-292 | Or-ing flags into a page-aligned number is adding them. |
| `RamWire.PageHeaderIsOr` | arch_init.c:139-148 | The same for the two flags of a page header, as the sender or-s them. |
| `RamWire.ByteOfBe` | savevm.c:674-690 | Byte i of a number of n bytes is the number shifted right by 8 * (n - 1 - i): the most significant byte comes first. |
| `RamWire.PageLength` | arch_init.c:138-156 | The name is sent only when the block changes, and a page of equal bytes takes one byte. |
| `RamWire.Records` | arch_init.c:90-95 | Each kind of record byte by byte, with its flags. |
| `RamWire.ListExact` | arch_init.c:402-426 | The receiver accepts the block list of any sender if and only if it has a block of each name and length in it, and refuses it otherwise. |
| `RamWire.SizesRefused` | arch_init.c:391-428 | ram_load then returns the error. |
| `RamWire.LoadStops` | arch_init.c:385-464 | ram_load stops at the first record that it does not accept, with its result. |
| `RamWire.ListPasses` | arch_init.c:391-428 | In particular it accepts the list of a sender with the same blocks. |
| `RamWire.PageExact` | arch_init.c:345-459 | A page record at any receiver: it is stored if and only if its block is known, or remembered when the name is left out, and has the page; a compressed one whose block is not found is refused. |
| `RamWire.PageParses` | arch_init.c:127-159 | In particular one page record, with or without the block name, full or compressed, is read back as that page. |
| `RamWire.SectionParses` | arch_init.c:375-467 | ram_load reads any section back as exactly the pages sent, without error, and remembers the sender's last block. |
| `RamMigration.StreamParses` | arch_init.c:345-373 | The same for a stream of any number of sections. |
| `RamMigration.ConvergingKept` | arch_init.c:115-177 | Every step keeps the invariant: each page is in the log, dirty, being sent, or the stream gives its contents. |
| `RamMigration.InvariantHolds` | cpu-all.h:532-562 | It holds after every run. |
| `RamMigration.FinishedLoads` | arch_init.c:327-343 | When nothing is left to send, the bytes load without error to the source's memory. |
| `RamMigration.MigrationConverges` | arch_init.c:253-343 | From the state of stage 1, for every interleaving of guest writes, syncs, saves and sections. |
| `RamMigrationCode.IsDupPage` | arch_init.c:97-110 | The word-by-word comparison says whether all bytes of the page equal ch. |
| `RamMigrationCode.Sender.FindDirty` | arch_init.c:117-171 | The pages looked at are pairwise different, start at the last page sent and follow the cyclic order; it finds a dirty page if and only if there is one, the first in that order, and has looked at every page otherwise. The block it compares with is never missing. |
| `RamMigrationCode.Sender.SaveBlock` | arch_init.c:115-177 | 0 if and only if no page is dirty; otherwise exactly the first dirty page in cyclic order is cleaned and sent, as one byte if and only if all its bytes are equal (unless the guest writes to it meanwhile), and the result is the number of payload bytes. |
| `RamMigrationCode.Sender.Remaining` | arch_init.c:181-197 | The number of dirty pages. |
| `RamMigrationCode.Sender.constructor` | arch_init.c:271-298 | Stage 1: every page dirty, the sizes sent, the bytes written are those of the protocol's stream. |
| `RamMigrationCode.Sender.SaveSome` | arch_init.c:304-316 | The loop sends as many pages as the rate limit lets it, or stops with no page dirty; it is a run of the protocol. |
| `RamMigrationCode.Sender.Iterate` | arch_init.c:253-343 | One call of ram_save_live in stage 2 is a run that begins with a synchronisation, adds what the limit allows to the section and closes it. |
| `RamMigrationCode.Sender.Flush` | arch_init.c:328-336 | With the guest stopped the final loop runs exactly ram_save_remaining times and leaves no page dirty. |
| `RamMigrationCode.Sender.SendRest` | arch_init.c:327-343 | Stage 3 leaves nothing to send. |
| `RamMigrationCode.Sender.Complete` | arch_init.c:253-343 | After stage 3 the bytes that were written load, without error, to the memory of the source. |
| `RamMigrationCode.CopyTracks` | arch_init.c:132-156 | The bytes written stay those of the protocol's stream when a page is sent. |
| `RamMigrationCode.StreamAppend` | arch_init.c:338-338 | A further section only adds bytes at the end of the stream. |
| `AesField.InvMixUndoesMix` | aes.c:46-58 | InvMixColumns undoes MixColumns on every column, from linearity of multiplication by x alone. |
| `AesField.InvMixLinear` | aes.c:838-878 | InvMixColumns is linear over xor. |
| `AesTables.AesSboxLaw` | aes.c:656-721 | The inverse S-box undoes the S-box. |
| `AesSbox.SboxIs` | aes.c:325-390 | Each entry of the S-box is the affine map of FIPS 197, section 5.1.1, applied to the inverse of its index in the field with 256 elements. |
| `AesSbox.XTimeIs` | aes.c:46-58 | The multiplication by x in MixColumns is that of the field. |
| `AesTables.RconIsPower` | aes.c:722-726 | The round constants are the powers of x in the field. |
| `AesCipher.AesOpsInvertible` | aes.c:46-58 | The steps of a round have the inverses that the equivalent inverse cipher relies on. |
| `AesCipher.DecryptionRetraces` | aes.c:1168-1260 | After j rounds decryption is in the substituted state of encryption after nr - 1 - j rounds. |
| `AesCipher.EqInvCipherUndoesCipher` | aes.c:1168-1260 | The Equivalent Inverse Cipher under the reversed, InvMixColumns-transformed schedule undoes Cipher. |
| `AesCode.TableRoundIs` | aes.c:977-1030 | A table round is AddRoundKey after MixColumns after ShiftRows and SubBytes. |
| `AesCode.LastTableRoundIs` | aes.c:1036-1069 | The last round is the same without MixColumns. |
| `AesCode.InvTableRoundIs` | aes.c:1168-1222 | An inverse table round is a round of the Equivalent Inverse Cipher. |
| `AesCode.EncryptLoop` | aes.c:977-1069 | The loop of two rounds a turn computes Cipher. |
| `AesCode.DecryptLoop` | aes.c:1168-1260 | Its counterpart computes the Equivalent Inverse Cipher. |
| `AesCode.Expand128` | aes.c:756-772 | Key expansion for 128 bits fills the schedule of FIPS 197, section 5.2. |
| `AesCode.Expand192` | aes.c:773-794 | The same for 192 bits, leaving the loop half way through a group. |
| `AesCode.Expand256` | aes.c:795-824 | The same for 256 bits, with the substitution in the middle of each group. |
| `AesKeys.SetEncryptKey` | aes.c:731-826 | The error returns, and otherwise the whole schedule of the user key. |
| `AesKeys.InvertSchedule` | aes.c:838-878 | Reversing the round keys in place and transforming the inner ones gives the inverse schedule. |
| `AesKeys.SetDecryptKey` | aes.c:832-878 | The error returns, and otherwise the inverse schedule of the user key. |
| `AesKeys.Encrypt` | aes.c:885-1070 | The sixteen bytes written are the cipher of the sixteen read; nothing else changes, in place or not. |
| `AesKeys.Decrypt` | aes.c:1076-1261 | The same for decryption. |
| `AesKeys.DecBytesUndoesEncBytes` | aes.c:1076-1261 | Decryption of bytes undoes encryption under inverse schedules. |
| `AesCbc.CbcRoundTrip` | aes.c:1265-1314 | Decrypting the padded ciphertext returns the input, for every length and iv. |
| `AesCbc.EncBlock` | aes.c:1276-1294 | Ciphertext block j is the cipher of plaintext block j chained with ciphertext block j - 1, or the iv; the iv left behind is the last ciphertext block. |
| `AesCbc.DecBlock` | aes.c:1295-1312 | Plaintext block j is the decryption of ciphertext block j chained with ciphertext block j - 1, or the iv, cut to what is asked for. |
| `AesCbc.SameIv` | aes.c:1286-1311 | Both directions leave the same iv if and only if the length is a whole number of blocks or the cipher maps the last short block to itself. |
| `AesIvs.OneByteSplitsIvs` | aes.c:1286-1311 | With the AES under one key, after a message of one byte, the two directions leave different ivs. |
| `AesIvs.IvsDiffer` | aes.c:1265-1314 | The same for the code: both keys set, AES_cbc_encrypt run in place in both directions from the same iv. |
| `AesExample128.Encrypted` | aes.c:885-1070 | The AES-128 example of FIPS 197, appendix C.1: every schedule of its key encrypts its plaintext to its ciphertext, with the tables of the source. |
| `AesExample192.Encrypted` | aes.c:773-794 | The same for AES-192, appendix C.2. |
| `AesExample256.Encrypted` | aes.c:795-824 | The same for AES-256, appendix C.3. |
| `AesExample128.EncryptExample` | aes.c:731-772 | AES_set_encrypt_key and AES_encrypt give the ciphertext of appendix C.1. |
| `AesExample192.EncryptExample` | aes.c:773-794 | The same for appendix C.2. |
| `AesExample256.EncryptExample` | aes.c:795-824 | The same for appendix C.3. |
| `AesCbc.SplitEnc` | aes.c:1276-1294 | Splitting an encryption at a block boundary and carrying the iv over changes nothing. |
| `AesCbc.SplitDec` | aes.c:1296-1312 | The same for decryption. |
| `AesCbc.PaddedIs` | aes.c:1286-1294 | The ciphertext is the input rounded up to whole blocks. |
| `AesCbc.EncryptCbc` | aes.c:1276-1294 | The loop and its short tail compute CBC encryption of NIST SP 800-38A, section 6.2, in place or not, and leave the rest of the output alone. |
| `AesCbc.DecryptCbc` | aes.c:1295-1312 | The same for decryption. |
| `AesCbc.Cbc` | aes.c:1265-1314 | AES_cbc_encrypt in both directions, under the key's own schedule. |
| `AesRoundTrip.DecryptUndoesEncrypt` | aes.c:731-878 | With the real S-box and the two schedules of one key, decryption undoes encryption. |
| `AesRoundTrip.ThereAndBack` | aes.c:1265-1314 | Setting both keys, encrypting in place and decrypting in place returns the message, or the key size is refused. |
| `Multiwrite.ConcatIs` | cutils.c:178-214 | qemu_iovec_concat takes the first bytes of the buffers. |
| `Multiwrite.MergedBytes` | block.c:2338-2362 | The bytes of a merged request, with its gap of zeros or its overlap cut off. |
| `Multiwrite.MergedValue` | block.c:2338-2362 | What a merged request writes to each byte of the disk. |
| `Multiwrite.WriteAllIsValue` | block.c:2305-2374 | Applying requests in order leaves each byte as the last request that covers it says. |
| `Multiwrite.MergeMeaning` | block.c:2305-2374 | For every driver and every IOV_MAX: a byte in a filled gap is zero, and one that is not cut off has the value that the sorted requests give it. |
| `Multiwrite.GapIsApproved` | block.c:2322-2336 | A filled gap lies between the end of a request and the start of the next, and the driver approved it. |
| `Multiwrite.GapOverData` | block.c:2350-2356 | A byte in a filled gap belongs to a request if and only if one before the gap's left neighbour reaches that far. |
| `Multiwrite.CutOffIsOverhang` | block.c:2343-2347 | When IOV_MAX does not bind, the bytes cut off are those of a request that its successor ends before and no later request covers: a condition on the sorted list alone. |
| `Multiwrite.GapIsApproval` | block.c:2322-2336 | When IOV_MAX does not bind, a gap between neighbours is filled if and only if the driver approves. |
| `Multiwrite.FewBuffers` | block.c:2334-2336 | IOV_MAX does not bind if the buffers and requests together are at most as many. |
| `Multiwrite.MergedFew` | block.c:2334-2336 | Merging never makes a request of more than IOV_MAX buffers. |
| `Multiwrite.TouchingMerge` | block.c:2322-2336 | Requests that overlap or follow each other without a gap stay apart only because of IOV_MAX. |
| `Multiwrite.MergeExact` | block.c:2305-2374 | When IOV_MAX does not bind, the exact value of every byte after merging: zero in a gap, unwritten in an overhang, else that of the sorted requests. A byte means the same for every disk if and only if it is outside both, or lies in a gap where the requests write zero anyway. |
| `Multiwrite.DroppedIsUnwritten` | block.c:2343-2346 | A byte whose last owner was cut off is not written at all, although some request covers it. |
| `Multiwrite.GrowingEndsKeep` | block.c:2343-2346 | If end sectors do not decrease, nothing is cut off and no request covers a filled gap. |
| `Multiwrite.NoGapNoZero` | block.c:2321-2331 | Without approved gaps nothing is zeroed. |
| `Multiwrite.MergePreservesDisk` | block.c:2305-2374 | Then, for every driver, the merged requests leave every disk as the sorted ones do, except for zeros exactly in the filled gaps, which no request covers. |
| `Multiwrite.MergeOnDisk` | block.c:2305-2374 | Without that condition, when IOV_MAX does not bind: each byte of every disk after merging. |
| `Multiwrite.MergeApart` | block.c:2312-2336 | When IOV_MAX does not bind, merged requests are pairwise disjoint. |
| `Multiwrite.AnyCompletionOrder` | block.c:2444-2464 | So any completion order gives the same disk. |
| `Multiwrite.ContainedRequestLosesTail` | block.c:2343-2346 | Two requests of which the second lies inside the first: the tail of the first is lost. |
| `Multiwrite.ContainedRequestIsZeroed` | block.c:2350-2356 | Three requests of which the second lies inside the first: a gap in front of the third that a driver approves overwrites the first with zeros. |
| `Multiwrite.SortRequests` | block.c:2284-2311 | The requests are sorted by sector and are the same requests. |
| `Multiwrite.MultiwriteMerge` | block.c:2305-2374 | The loop in place leaves the merged list at the front of the array and returns its length. |
| `MultiwriteCompletion.InvKept` | block.c:2267-2282 | Every submission and completion keeps the counter equal to the requests in flight plus the dummy one. |
| `MultiwriteCompletion.CallbacksRunOnce` | block.c:2253-2282 | In every reachable state all user callbacks have run, once and with the first error, if and only if the loop has ended and nothing is in flight; after an early failure none has. |
| `MultiwriteCompletion.CallbacksGetFirst` | block.c:2267-2282 | Read off the steps of the run alone, the error of every callback is the first negative result of a request, a request refused late counting with -EIO when it is refused; else 0. |
| `MultiwriteCompletion.FirstToldIs` | block.c:2450-2462 | It is 0 if and only if no request failed and none was refused. |
| `MultiwriteCompletion.FailsAtOnce` | block.c:2454-2456 | The whole multiwrite fails if and only if its first request is refused. |
| `MultiwriteCompletion.NothingAfterRefusal` | block.c:2457-2461 | After a refusal no request is submitted any more. |
| `MultiwriteCompletion.NoUseAfterFree` | block.c:2267-2282 | No step is taken on the structure after it was freed. |
| `MultiwriteCompletion.NeverStuck` | block.c:2390-2476 | While the structure lives some step is possible. |
| `MultiwriteCompletion.Mcb.UserCb` | block.c:2253-2265 | Each callback runs once, in order, with the error. |
| `MultiwriteCompletion.Mcb.MultiwriteCb` | block.c:2267-2282 | One completion in the terms of the protocol. |
| `MultiwriteCompletion.Mcb.Submit` | block.c:2425-2476 | The submit loop, with completions in between and refusals, is a run of the protocol; -1 if and only if the first request was refused, and otherwise the error recorded is the first one of the run, negative after a late refusal. |
| `BlockIo.Device.PRead` | block.c:1137-1180 | A success returns exactly the bytes of the range; on a device that does not fail it succeeds if and only if the range is inside the device. |
| `BlockIo.Device.PWrite` | block.c:1182-1229 | Bytes outside the range keep their value whatever fails, bytes inside are old or new, and all new on success; on a device that does not fail it succeeds if and only if the range is inside. |
| `BlockIo.Device.WriteThenRead` | block.c:1137-1229 | What was written is what is read. |
| `BlockIo.PlaceNext` | block.c:1199-1228 | The head, the whole sectors and the tail together are one update of the byte range. |
| `BlockIo.PatchIsPart` | block.c:1199-1204 | Writing back a patched sector, even if the write fails part way, touches the patch only. |
| `BlockIo.FirstPart` | block.c:1145-1150 | The part before the first sector boundary lies in one sector and ends at the boundary or with the data, for negative offsets too. |
| `BlockCommit.BehindIsUnseen` | block.c:924-936 | Changing the backing file only where the overlay is allocated changes nothing a guest sees. |
| `BlockCommit.DropKeepsSeen` | block.c:938-941 | Dropping any of the copied sectors from the overlay changes nothing a guest sees. |
| `BlockCommit.Image.IsAllocated` | block.c:925-925 | The contract of the driver call: a run of equal state, of any length it chooses. |
| `BlockCommit.Image.CopyRun` | block.c:925-936 | One turn copies a run of sectors; the guest's view is the same even if the read or the write fails. |
| `BlockCommit.Image.CopyAll` | block.c:924-936 | The loop, for any run lengths, copies every allocated sector or fails with the guest's view unchanged. |
| `BlockCommit.Image.Commit` | block.c:921-949 | The guest's view never changes; after a success the backing file alone shows it and the overlay is empty. |
| `BottomHalves.InvKept` | async.c:44-121 | Every step, at any nesting, keeps each walk's saved pointer in the list and what it still owes at or behind it. |
| `BottomHalves.WalksAreSafe` | async.c:64-73 | In every reachable state every saved next pointer is in the list, and a walk that ends owes nothing. |
| `BottomHalves.PollServesAllDue` | async.c:55-92 | Each entry due when a poll begins has been called, cancelled or deleted when it ends. |
| `BottomHalves.DeletedNeverCalled` | async.c:64-73 | A deleted entry is never called again. |
| `BottomHalves.DueUntilServed` | async.c:94-121 | No request is lost: a due entry stays due and in the list until it is called, cancelled or deleted. |
| `BottomHalves.IdleAsMade` | async.c:94-110 | Over any run, a due entry is idle if and only if the step that made it due was qemu_bh_schedule_idle; only the two functions that schedule make an entry due. |
| `BottomHalves.SomeStepMadeDue` | async.c:94-110 | Every entry that has become due was made so by some step. |
| `BottomHalves.OwedUntilServed` | async.c:64-73 | What a walk owes shrinks only by entries that were called, cancelled or deleted. |
| `BottomHalves.ReturnIsBusy` | async.c:63-73 | A poll returns whether it has itself run a callback that was not idle. |
| `BottomHalvesCode.Context.BhSchedule` | async.c:102-110 | The entry is scheduled and not idle; if it already was scheduled nothing changes, so that an idle request stays idle. |
| `BottomHalvesCode.Context.BhScheduleIdle` | async.c:94-100 | The entry is scheduled and idle; if it already was scheduled nothing changes. |
| `BottomHalvesCode.Context.BhCancel` | async.c:112-115 | The entry is not due any more, for any active walk. |
| `BottomHalvesCode.Context.BhDelete` | async.c:117-121 | The entry is not due any more and stays in the list. |
| `BottomHalvesCode.Context.Advance` | async.c:64-73 | One turn up to the call: the next pointer is saved first and a due entry is unscheduled before its callback. |
| `BottomHalvesCode.Context.WalkList` | async.c:64-73 | The loop ends, although callbacks may add entries and poll again, and is a run of the protocol. |
| `BottomHalvesCode.Context.Sweep` | async.c:77-89 | The in-place loop keeps exactly the entries that are not deleted, in order. |
| `BottomHalvesCode.Context.Poll` | async.c:55-92 | After a poll from the main loop everything that was due has been served, no deleted entry is left, and the return value says whether it ran a callback that was not idle. |
| `BottomHalvesCode.Context.PollNested` | async.c:55-92 | The same for a poll inside a callback, which frees nothing; what it runs does not count for the poll around it. |
| `BottomHalvesCode.PollEnds` | async.c:55-92 | Both follow for every run between the beginning and the end of one poll. |
| `BottomHalvesCode.Context.UpdateTimeout` | async.c:123-142 | 0 if something is due, at most 10 if only idle entries are, else unchanged. |
| `Coroutine.InvKept` | coroutine-gthread.c:45-111 | A step of any thread keeps the invariant of the call stacks, the runnable flags and the condition variable if and only if it is not an enter that meets a coroutine on its way to yield. |
| `Coroutine.ExactlyOneRunnable` | coroutine-gthread.c:92-111 | In every reachable state the runnable coroutines are as many as the leaders, one for each. |
| `Coroutine.OnlyRunnableRuns` | coroutine-gthread.c:45-68 | Only a runnable coroutine executes its own code. |
| `Coroutine.NeverStuck` | coroutine-gthread.c:45-57 | No wake-up is lost: a runnable coroutine that waits has been woken and leaves the loop, and its next step is always possible. |
| `Coroutine.SwitchReturns` | coroutine-gthread.c:92-111 | A switch returns the action of the switch that resumed it, read after the lock was released; a termination is that of the coroutine that was entered. |
| `Coroutine.FreedAfterEnd` | coroutine-gthread.c:84-90 | A coroutine is freed only after its thread has ended, and by the only thread that is to free it. |
| `Coroutine.EveryoneIsFreed` | qemu-coroutine.c:27-43 | Somebody is to free every coroutine that has terminated. |
| `Coroutine.AbortsOnMisuse` | qemu-coroutine.c:45-75 | The checks abort exactly on entering a coroutine that is entered, being entered or terminated, and on yielding outside of one. |
| `Coroutine.OneLeaderRun` | qemu-coroutine.c:45-75 | With one leader no enter ever meets a coroutine on its way to yield. |
| `Coroutine.OneLeaderAlways` | coroutine-gthread.c:92-111 | So in every run of a process with one leader exactly one coroutine is runnable. |
| `Coroutine.LateEnterIsLost` | qemu-coroutine.c:61-75 | Whenever an enter does meet one, three further steps leave both waiting, and fewer runnable coroutines than leaders. |
| `Coroutine.LateEnterCanHappen` | qemu-coroutine.c:61-75 | With two leaders such a moment can be reached. |
| `BufferedFile.FlushKeeps` | buffered_file.c:71-108 | A flush neither loses nor reorders a byte, whatever the backend answers. |
| `BufferedFile.PutKeeps` | buffered_file.c:129-152 | The loop of a put keeps all of its own data, in order. |
| `BufferedFile.FlushEmpties` | buffered_file.c:71-108 | If the backend never answers 0, a flush that met no error and did not freeze has emptied the buffer. |
| `BufferedFile.PutRate` | buffered_file.c:129-152 | The bytes counted are the bytes sent, and the limit is passed by one put at most. |
| `BufferedFile.CountedSinceTick` | buffered_file.c:241-261 | Over any session, what is compared with the limit is the number of bytes that puts have sent since the last tick. |
| `BufferedFile.LimitIsTenth` | buffered_file.c:218-232 | The limit is a tenth of the rate, for ten ticks a second; with an error it does not change. |
| `BufferedFile.PutThaws` | buffered_file.c:124-152 | A put tries again after the backend was busy: if it now takes all, nothing is left. |
| `BufferedFile.BusyFreezes` | buffered_file.c:136-140 | A busy backend freezes the stream, and the data waits in the buffer. |
| `BufferedFile.TickFlushes` | buffered_file.c:255-257 | A tick tries again as well. |
| `BufferedFile.CloseWaits` | buffered_file.c:178-182 | A close waits while the backend is busy, and an error of the wait ends it. |
| `BufferedFile.PutExact` | buffered_file.c:110-169 | One put, for every backend: delivered and buffered bytes grow by exactly its data, in order, if and only if no error is pending, its own loop does not fail, and what it sends commutes with what the flush left behind. |
| `BufferedFile.DoExact` | buffered_file.c:110-261 | The same for every call; ticks and limit changes always conserve. |
| `BufferedFile.SessionExact` | buffered_file.c:47-169 | Over any session up to the tick that frees the stream, and every backend: the bytes delivered followed by the buffer are all bytes put, in order, at every moment, if and only if every put meets that condition. |
| `BufferedFile.Conserved` | buffered_file.c:47-169 | A backend that never answers 0 meets it as long as there is no error. |
| `BufferedFile.DrainDelivers` | buffered_file.c:171-192 | For every backend a close without an error delivers the whole buffer. |
| `BufferedFile.StreamDelivers` | buffered_file.c:171-261 | From opening to closing without an error the backend gets exactly the bytes that were put, if every put meets the condition above; without answers of 0 every one does. |
| `BufferedFile.ZeroInPutDrops` | buffered_file.c:142-147 | An answer of 0 in a put loses the data without an error. |
| `BufferedFile.ZeroInFlushReorders` | buffered_file.c:94-98 | An answer of 0 in a flush lets new bytes overtake buffered ones without an error. |
| `BufferedFile.ErrorInFlushIsPassedOver` | buffered_file.c:124-152 | After an error in the flush a put may still deliver its data past the buffer and report success. |
| `BufferedFileCode.Stream.Append` | buffered_file.c:47-69 | The data is added behind the buffer, growing it if need be. |
| `BufferedFileCode.Stream.Flush` | buffered_file.c:71-108 | The loop and the move in place compute the flush. |
| `BufferedFileCode.Stream.PutBuffer` | buffered_file.c:110-169 | The whole new state and the return value of a put, and when it notifies. |
| `BufferedFileCode.Stream.Close` | buffered_file.c:171-192 | The loop ends for every finite backend and drains the stream, which is then freed. |
| `BufferedFileCode.Stream.RateLimit` | buffered_file.c:200-216 | 0 if and only if there is no error, no freeze and the limit is not passed; an error is returned as such. |
| `BufferedFileCode.Stream.RateTick` | buffered_file.c:241-261 | A tick resets the count and flushes, and notifies unless frozen; after an error it closes and frees the stream instead. |
| `Bitops.Ffsl` | bitops.h:31-66 | The halving search finds the lowest set bit. |
| `Bitops.Flsl` | bitops.h:69-104 | Its mirror finds the highest set bit. |
| `Bitops.FindNextBit` | bitops.c:21-64 | The first set bit at or after the offset, or size. |
| `Bitops.FindNextZeroBit` | bitops.c:70-113 | The first clear bit at or after the offset, or size. |
| `Bitops.FindLastBit` | bitops.c:115-142 | The last set bit, or size. |
| `Bitmap.UpdateRange` | bitmap.c:160-198 | Exactly the bits of the range are set or cleared. |
| `Bitmap.ClearUndoesSet` | bitmap.c:160-198 | Setting a clear range and clearing it restores every word. |
| `Bitmap.AlignUpIsLeast` | bitmap.c:200-200 | The mask arithmetic gives the least aligned value at or above its argument. |
| `Bitmap.FindNextZeroArea` | bitmap.c:214-237 | The least aligned clear area at or after start, or a value above size if and only if there is none. |
| `Bitmap.SlowTest` | bitmap.c:39-94 | Empty, full, equal and intersects look at exactly the first bits, whatever the unused bits hold. |
| `Bitmap.FastTestAgrees` | bitmap.h:176-212 | The one-word paths agree with them if and only if there is at least one bit or the word tested is zero. |
| `Bitmap.SlowCombine` | bitmap.c:110-156 | And, or, xor and andnot give every bit of the words concerned, also in place, change no other word, and report whether any bit of these words is set. |
| `Bitmap.SlowComplement` | bitmap.c:96-108 | The complement of the first bits, with the unused bits zero. |
| `Bitmap.ResultExact` | bitmap.c:110-156 | That report is right for the bits asked for if and only if these give a set bit or the unused bits of the operands give none. |
| `Bitmap.CleanTailKept` | bitmap.c:21-33 | Operands without unused bits give results without them, and then the report is right; for and and andnot the first operand is enough. |
| `Bitmap.TailBitMisleads` | bitmap.c:110-121 | With an unused bit set, and reports a common bit of two bitmaps that have none. |

## Left out

- Block migration: the byte framing of its stream, progress records, bandwidth estimates and the test for the end of stage 2; stage 3 may begin at any time at which its assertion holds.
- `BlockMigrationCode.Migration.SendRemaining`: the reads of stage 3 fail finitely often (`faults`); a persistent error keeps the source's loop for ever, since it repeats a failed read.
- Block migration: the return of block_save_live when its flush finds an error; the protocol has the runs that reach stage 3.
- Block migration: an error inside one block; the stream is what was put into the file before the first error, and bytes of it that the file still held then are not counted as lost.
- RAM migration: version 3 of the stream, sort_ram_list (the blocks come in some fixed order), dirty flags of other users and the byte layout of phys_dirty, Xen and memory pinning.
- RAM migration: a full page whose block is not found, and a page outside its block, which the source does not check; the model ends there (`Stray`), since what follows is undefined in C.
- RAM migration: blocks are non-empty, have distinct names that contain no zero byte and together fit into 64 bits.
- AES: the FULL_UNROLL branches and the literal contents of Te0 to Te3 and Td0 to Td3, which are defined from the S-box by the formula in the source's comment.
- `AesKeys.Encrypt`: the keys are ready, that is, set by the functions above; an uninitialised key is not modelled.
- Multiwrite: memory of buffers and vectors, the error fields of the requests, and the answers for a missing medium or an empty list; `approve` stands for the driver's bdrv_merge_requests.
- `BlockIo.Device.PRead`: a negative count and devices that grow; the device has a fixed size of whole sectors.
- `BlockCommit.Image.Commit`: opening the backing file again for writing and the checks before it.
- `BottomHalvesCode.Context.Poll`: takes a bound on the depth of nested polls, any number; a callback that polls without end has no final state. The lemmas of `BottomHalves` have no such bound.
- Coroutines: the check of the caller and its assignment in qemu_coroutine_enter are one step, and leaders do not end.
- `BufferedFile.StreamDelivers`: states one direction for the end of a session, because bytes out of order may come into order again by accident; `BufferedFile.SessionExact` has both directions for every moment of it.
- `BufferedFileCode.Stream.Close`: is over a backend with a finite list of answers and an error after them; a backend that is busy for ever keeps it in its loop.
- `BufferedFileCode.Stream.PutBuffer`: reports the call of put_ready instead of making it, which is its last action; negative rates are not modelled.
- Bitmaps: 32-bit overflow of bit numbers, bitmap_zero, bitmap_fill and bitmap_copy, atomic and counting bit operations.
- Everything else in the repository: devices, disassemblers, consoles, option parsing and image formats, which would add easy members or depend on code outside of it.

# Recording stack of the camera SDK: verified model

A Dafny 4.11 model of the parts of the SDK that turn encoded frames into files, and proofs about them.
`dafny verify dfyconfig.toml` checks everything.

What is modelled:

- **Cached writers.** `StreamFile` is a stream as a value: a byte sequence with a position. `FsWriter` is
  `fileWriter`, the only way to a stream, with its error accounting. `FsCachedWriters` has the direct writer
  and the simple block cache, and that both are the same file to a client. The threaded ring
  (`FsCacheRing`) is a machine of atomic steps: each read or store of a shared variable, each byte of a
  memcpy and each byte given to `fileWriter` is a step, so that a schedule is any interleaving of the two
  threads, stale pointers included. `FsCacheSafety` is its invariant, `FsCacheRuns` the results about whole
  runs, `FsCacheProgress` that it moves on, `FsCacheReturns` that flushes and destroy return, `FsCacheCalls`
  what each call has done when the client is back from it.
- **Direct-I/O stream.** A device that takes only whole blocks, of any size that divides the 64 KiB unit
  (512 in the source), at block boundaries; `DirectIo` says what each call does to content, position and
  both ends, `DirectIoStream` has the calls, `DirectIoRuns` compares runs with the client's own idea of the
  file. `BufferedFile` is the stream without direct I/O.
- **AVI writer and reader.** `Riff` says what it means for bytes to be properly nested elements, by reading
  them. `AviIndex` and `AviIndexExact` are the OpenDML indexes on their own (OpenDML AVI File Format
  Extensions 1.02, sections "AVI Standard Index Chunk" and "AVI Super Index Chunk"), for any number of
  streams. `AviLayout`, `AviSections` and `AviFilm` are the file of one picture stream as a value;
  `AviWriter` has the calls, `AviWriterRuns`, `AviClose`, `AviSizes`, `AviLookup` and `AviFileRuns` what
  they come to, `AviLimits` when a section is begun, told by the frame lengths alone, `AviHeaders`,
  `AviIndexBytes` and `AviOldIndex` what the recorded bytes say, field by field, `AviRoom` what becomes of
  the block after the super index. `AviReader` is the reader, old
  and OpenDML index included; `AviElements` says what it makes of any file; `AviWalk` is its walk over a file
  of the writer; `AviRoundTrip`,
  `AviRecordings`, `AviIndexedTrip` and `AviIndexedRecordings` say which frames recorded it reads back, with
  and without OpenDML, and `AviMisreads` gives recordings it does not.
- **Text encoder rings.** `TextRings`: two chained rings of ten packets, with steps the size of a lock, or
  of what happens between two.
- **Circular list, event registry, frame-rate limiter.** `KernelList` on the heap, `Events` on top of it,
  `FpsControl`.

Where the code does not do what its caller would expect, the code is kept, an input is given on which it
goes wrong, and the condition under which it is right is proved exactly: a direct-I/O write inside one unit
past the end does not move the end and is cut off later; an empty one at a unit boundary past the end leaves
filler in the file; a truncate into a unit lets later writes and seeks go wrong; the buffered write refuses
one offset in 4 GiB; a ring write longer than the ring less a block can wait for ever; a super index can
outgrow its room, since the room is reckoned at 2044 entries an index and an index takes 2043, and then
overwrites the header list after it; with several streams the shared base offset misplaces entries; of a
recording without OpenDML only the first section's frames can be read; of one with OpenDML, frames near the
end of the file, and frames followed by a chunk at an unlucky distance, come back as nothing or as other
bytes; a reader's second `open` keeps the first one's index; putting a text packet back breaks the output
ring, and releases out of order let a held packet be overwritten; taking off a descriptor watched twice
spoils the sets or the maximum; a target rate above the full rate is not a share. The text packets handed
out never carry a time stamp.

Where the code and its documentation differ the model follows the code: `list_cut_position` says an empty
list is cut to an empty one, but the new list is left untouched then.

## Model

| member | source | states |
|---|---|---|
| FsCacheSafety.FreeIsRest | include/LIBRARY/libFsWriter/FsCache.c:68-85 | both branches of the free-space test leave the same room: all slots but one that are not unread |
| FsCacheSafety.CopyIsRing | include/LIBRARY/libFsWriter/FsCache.c:86-129 | a memcpy in one or two pieces fills consecutive slots of the ring, and the branches logged as fatal are not met |
| FsCacheSafety.PublishedBytes | include/LIBRARY/libFsWriter/FsCache.c:105-129 | storing the write pointer hands the copied bytes over, in order, after the unread ones |
| FsCacheSafety.CallerKeeps | include/LIBRARY/libFsWriter/FsCache.c:51-207 | every step of the calling thread, between any two steps of the drain thread, keeps the ring's invariant, stale reads of the read pointer included |
| FsCacheSafety.CallerDecides | include/LIBRARY/libFsWriter/FsCache.c:64-119 | by the pointers as it has read them, the caller copies exactly when what is unread and its block leave a slot, and has nothing to flush exactly when they are equal |
| FsCacheSafety.CallerRaises | include/LIBRARY/libFsWriter/FsCache.c:143-151 | after a write it raises the start semaphore exactly when 128 KiB or more are unread by them |
| FsCacheSafety.ThreadKeeps | include/LIBRARY/libFsWriter/FsCache.c:209-409 | every step of the drain thread keeps the invariant: the stream has a prefix of what was accepted and the ring exactly the rest |
| FsCacheSafety.PublishedContent | include/LIBRARY/libFsWriter/FsCache.c:262-302 | moving the read pointer gives up exactly the block that has reached the stream |
| FsCacheSafety.LoopBlockFits | include/LIBRARY/libFsWriter/FsCache.c:253-302 | the drain loop stops with less than 128 KiB before the write pointer, else writes all whole blocks of that size up to the write pointer or the end of the buffer, inside the unread bytes |
| FsCacheRuns.StreamThenRing | include/LIBRARY/libFsWriter/FsCache.c:51-303 | over every interleaving: bytes given to fileWriter, then the unread bytes of the ring, are exactly the bytes accepted, in order, and the ring holds fewer bytes than its size |
| FsCacheRuns.CopyHitsNothingUnread | include/LIBRARY/libFsWriter/FsCache.c:86-130 | no memcpy lands on a byte still to be written, or being written, by the drain thread |
| FsCacheRuns.FlushIsComplete | include/LIBRARY/libFsWriter/FsCache.c:155-207 | in every run, whenever the caller is at the end of a flush, every accepted byte is on the stream, the thread is not inside fileWriter, and the failure branch was not taken; that fsFlush, seek, tell and truncate go through it is in FsCacheCalls.CallIsDone |
| FsCacheRuns.ResetMeetsNoWriter | include/LIBRARY/libFsWriter/FsCache.c:346-349 | the thread resets both pointers only while the caller waits for the flush to end |
| FsCacheRuns.AcceptedIsAsked | include/LIBRARY/libFsWriter/FsCache.c:51-207 | what was accepted, and the call in progress, are the requests of the calls made, in order |
| FsCacheRuns.DestroyedIsDirect | include/LIBRARY/libFsWriter/FsCache.c:496-520 | after destroy the stream is what the client's requests make of it one by one, whatever the schedule: the same as with the direct writer |
| FsCacheRuns.ReplyIsDirect | include/LIBRARY/libFsWriter/FsCache.c:155-181 | a seek, tell or truncate is answered as a direct writer's stream would answer it |
| FsCacheRuns.AlignedAlways | include/LIBRARY/libFsWriter/FsCache.c:251-303 | with a buffer of whole blocks: the read offset stays on a block boundary outside flush and exit, every block written by the loop is a whole number of blocks, and no branch logged as fatal is reachable |
| FsCacheProgress.NoMissedWakeup | include/LIBRARY/libFsWriter/FsCache.c:143-151 | whenever a full block is unread, the start semaphore is up, the thread is draining, or the caller is about to raise it |
| FsCacheProgress.DrainMakesRoom | include/LIBRARY/libFsWriter/FsCache.c:223-303 | if a write leaves a block of the ring to spare, one drain pass by the thread alone makes room for it, and ends because each step of it makes progress |
| FsCacheProgress.WaitingWriteCompletes | include/LIBRARY/libFsWriter/FsCache.c:64-142 | in every run, such a write waiting for room has a continuation in which it completes |
| FsCacheProgress.LongWriteCanStall | include/LIBRARY/libFsWriter/FsCache.c:110-119 | the bound is sharp: for any longer write there is a run after which no continuation ever accepts it |
| FsCacheReturns.CallsReturn | include/LIBRARY/libFsWriter/FsCache.c:155-207 | from every run with the caller inside a flush, a seek, a tell or a truncate there is a continuation in which that call returns; inside a destroy, one in which it is done and all that was accepted is on the stream |
| FsCacheCalls.CallIsDone | include/LIBRARY/libFsWriter/FsCache.c:51-207 | in every run: once the client has begun a call and is idle again, having begun no other, exactly that call's requests have been accepted; after a flush, a seek, a tell or a truncate all that was accepted is on the stream; a client is never back from a destroy, and when that is done all is on the stream |
| FsCacheCalls.CallCanReturn | include/LIBRARY/libFsWriter/FsCache.c:51-207 | from every run with the client idle, whatever call it makes there is a continuation in which it is back from it, or the destroy is done; only a write of more than the ring less 128 KiB is excepted |
| FsWriter.Stream.FileWriter | include/LIBRARY/libFsWriter/FsWriter.c:100-159 | refused after an I/O error; otherwise one write of the stream, with its own result, a short count or -1, counted as an error and reported past ten, a full one clearing the count; what that comes to over runs is stated in the next rows |
| FsWriter.RunReaches | include/LIBRARY/libFsWriter/FsWriter.c:100-147 | up to and including its first I/O error, any run of writes, told by the outcome each was going to have: the file is what the outcomes let through, in order; the failure count is the length of the last row of failures; reported are the failures after more than ten in a row and the I/O error; and the error is latched exactly by that |
| FsWriter.ErrorEndsRun | include/LIBRARY/libFsWriter/FsWriter.c:107-147 | after the first I/O error of a run every write returns -EIO and changes nothing: neither the file nor the counts nor the recorder |
| FsWriter.EioLatches | include/LIBRARY/libFsWriter/FsWriter.c:107-110 | once an I/O error has been seen no sequence of writes touches the stream, or reports anything, again |
| FsWriter.FailuresReported | include/LIBRARY/libFsWriter/FsWriter.c:123-145 | of n failures in a row, none of them an I/O error, exactly those after the eleventh are reported |
| FsCachedWriters.DirectWriter.Write | include/LIBRARY/libFsWriter/FsWriteDirect.c:20-24 | a write is one fileWriter call; over a stream that does not fail it is a write to the file |
| FsCachedWriters.DirectWriter.Seek | include/LIBRARY/libFsWriter/FsWriteDirect.c:26-33 | the stream's own seek and its answer |
| FsCachedWriters.DirectWriter.Tell | include/LIBRARY/libFsWriter/FsWriteDirect.c:35-42 | the stream's own position |
| FsCachedWriters.DirectWriter.Truncate | include/LIBRARY/libFsWriter/FsWriteDirect.c:44-51 | the stream's own truncate and its answer |
| FsCachedWriters.SimpleCacheWriter.Write | include/LIBRARY/libFsWriter/FsSimpleCache.c:42-101 | the file the client has written grows by the data; the cache stays below its size and only multiples of the cache size go to the stream |
| FsCachedWriters.SimpleCacheWriter.PassBlocks | include/LIBRARY/libFsWriter/FsSimpleCache.c:87-93 | whole blocks of the rest go straight to the stream, and less than a block is left |
| FsCachedWriters.SimpleCacheWriter.Flush | include/LIBRARY/libFsWriter/FsSimpleCache.c:130-139 | the stream becomes the file the client has written, and the cache is empty |
| FsCachedWriters.SimpleCacheWriter.Seek | include/LIBRARY/libFsWriter/FsSimpleCache.c:103-110 | a seek of the file the client has written, with its answer |
| FsCachedWriters.SimpleCacheWriter.Tell | include/LIBRARY/libFsWriter/FsSimpleCache.c:112-119 | the position in the file the client has written |
| FsCachedWriters.SimpleCacheWriter.Truncate | include/LIBRARY/libFsWriter/FsSimpleCache.c:121-128 | a truncate of the file the client has written, with its answer |
| FsCachedWriters.SimpleCacheWriter.Destroy | include/LIBRARY/libFsWriter/FsSimpleCache.c:186-206 | what is cached reaches the stream |
| FsCachedWriters.RunDirect | include/LIBRARY/libFsWriter/FsWriteDirect.c:20-56 | any client run over the direct writer leaves the file, and gives the answers, of its requests applied one by one |
| FsCachedWriters.RunSimple | include/LIBRARY/libFsWriter/FsSimpleCache.c:42-206 | the same run of non-empty writes over the simple cache, then destroy: the same file, position and answers |
| StreamFile.ApplyPuts | include/LIBRARY/libFsWriter/FsWriter.c:115-115 | however a block of bytes is cut into writes, down to single bytes, the file is the same |
| DirectIoStream.DirectIoStream.HeadUnit | include/LIBRARY/libstream/cedarx_stream_file.c:412-496 | the unit a write starts in is read, completed with 0xFF when short, changed and written back; the logical end is not moved when the write stays in that unit |
| DirectIoStream.DirectIoStream.MiddleUnits | include/LIBRARY/libstream/cedarx_stream_file.c:497-559 | whole units go out directly or through the align buffer, by the alignment of the caller's memory, with the same bytes either way |
| DirectIoStream.DirectIoStream.TailUnit | include/LIBRARY/libstream/cedarx_stream_file.c:560-638 | the last partial unit is read unless it starts at the logical end, changed and written back, and both ends are settled |
| DirectIoStream.DirectIoStream.Write | include/LIBRARY/libstream/cedarx_stream_file.c:338-659 | for any position, length and memory alignment, and any block size of the device: the new content, position and both ends as a function of the old ones, every device access of whole units at unit boundaries, and none refused |
| DirectIoStream.DirectIoStream.Extend | include/LIBRARY/libstream/cedarx_stream_file.c:360-411 | an extension by filler: whole units, then the rest; the device refuses it exactly when the file ends inside one of its blocks and a unit or more is asked for; an access strays from unit boundaries exactly when the file ends inside a unit and a unit or more is asked for |
| DirectIoStream.DirectIoStream.Seek | include/LIBRARY/libstream/cedarx_stream_file.c:191-294 | the position asked for, from start, position or logical end; past the physical end the file is extended, and the device refuses exactly what it refuses of the extension |
| DirectIoStream.DirectIoStream.Truncate | include/LIBRARY/libstream/cedarx_stream_file.c:757-768 | both ends become the length; the position stays |
| DirectIoStream.DirectIoStream.Destroy | include/LIBRARY/libstream/cedarx_stream_file.c:898-912 | the slack of the last unit is cut off |
| DirectIo.WriteKeepsValid | include/LIBRARY/libstream/cedarx_stream_file.c:338-659 | a write keeps the physical end a whole number of units, or at the logical end, with less than a unit of slack |
| DirectIo.SeekKeepsValid | include/LIBRARY/libstream/cedarx_stream_file.c:191-294 | so does a seek, extending or not |
| DirectIoRuns.EndIsRightIff | include/LIBRARY/libstream/cedarx_stream_file.c:457-478 | a write leaves the logical end where it should be exactly when it is none of these: one inside a single unit past the end, which leaves it where it was; an empty one at a unit boundary past the end, and one whose tail falls in a last unit cut short by an explicit truncate, which put it where the write ends |
| DirectIoRuns.WriteBytes | include/LIBRARY/libstream/cedarx_stream_file.c:338-659 | for any state of the device, truncated or not: after a write each byte of the file is the data's, or the one that was there, or 0xFF, the position is the end of the data, and the file ends with the unit last touched or where it did |
| DirectIoRuns.WriteContent | include/LIBRARY/libstream/cedarx_stream_file.c:338-659 | the bytes on the device are always the client's text with the data spliced in, completed with filler to a whole unit; all others are unchanged |
| DirectIoRuns.WriteRefinesIff | include/LIBRARY/libstream/cedarx_stream_file.c:338-659 | the device write is the splice of the client's text, an empty one changing nothing, exactly when it is neither of the first two |
| DirectIoRuns.SeekRefines | include/LIBRARY/libstream/cedarx_stream_file.c:228-269 | a seek on the device is the seek on the text; past the slack both are extended with 0xFF to the target |
| DirectIoRuns.SeekFills | include/LIBRARY/libstream/cedarx_stream_file.c:191-294 | for any state of the device, truncated or not: a seek to before the start is refused and changes nothing, one inside the file moves the position alone, and one past the end changes no byte and adds none but 0xFF |
| DirectIoRuns.SeekEnds | include/LIBRARY/libstream/cedarx_stream_file.c:244-269 | a seek past the end goes by the whole units, unless the device refuses them, then by the rest, and takes the end with it, unless that rest starts inside a unit and stays in it |
| DirectIoRuns.TruncateText | include/LIBRARY/libstream/cedarx_stream_file.c:757-768 | an explicit truncate and destroy leave the front of the client's text, or the text, then 0xFF to the end of its last unit, then zeros |
| DirectIoRuns.GuardedRunIsExact | include/LIBRARY/libstream/cedarx_stream_file.c:898-912 | over any run of writes and seeks without such a write, on a device of any block size, the device holds the client's text, the stream knows its end, and destroy leaves exactly the text |
| DirectIoRuns.LosingWriteIsCut | include/LIBRARY/libstream/cedarx_stream_file.c:457-478 | one losing write after such a run, and destroy cuts the text back to where it ended before |
| DirectIoRuns.EmptyWritePads | include/LIBRARY/libstream/cedarx_stream_file.c:639-657 | one empty write in the slack at a unit boundary, and destroy leaves filler up to there after the text |
| DirectIoRuns.SmallAppendIsLost | include/LIBRARY/libstream/cedarx_stream_file.c:457-478 | ten thousand bytes, then a hundred: the hundred are gone after destroy |
| DirectIoRuns.EmptyWriteGrowsFile | include/LIBRARY/libstream/cedarx_stream_file.c:639-657 | ten thousand bytes, a seek to the end of their unit, an empty write: the file has 55536 bytes of filler more |
| DirectIoRuns.TruncateThenWriteShrinks | include/LIBRARY/libstream/cedarx_stream_file.c:585-594 | after a truncate into a unit, a short write at the front pulls the end back to its own end |
| DirectIoRuns.SeekLandsIff | include/LIBRARY/libstream/cedarx_stream_file.c:244-264 | an extending seek lands where it was asked to exactly when the file ends on a block of the device or the extension is less than a unit |
| DirectIoRuns.SeekLandsWhenWhole | include/LIBRARY/libstream/cedarx_stream_file.c:244-264 | so it always does while no explicit truncate has left the file off a unit boundary |
| DirectIoRuns.SeekFallsShort | include/LIBRARY/libstream/cedarx_stream_file.c:244-264 | after a truncate to ten thousand bytes, with blocks of 512, a seek to a unit past that stays at the end |
| BufferedFile.FdStream.StoreAll | include/LIBRARY/libstream/cedarx_stream_file.c:671-703 | for every sequence of short, interrupted and failing writes: the bytes stored are the prefix of the length not left over, contiguous; the loop ends |
| BufferedFile.FdStream.Write | include/LIBRARY/libstream/cedarx_stream_file.c:662-727 | that prefix is stored from the old position, which advances by its length; the result is its count of items; an offset the int result mistakes for -1 is refused with nothing written |
| BufferedFile.RetriesStoreAll | include/LIBRARY/libstream/cedarx_stream_file.c:675-698 | with only short writes and the errors 4 and 11, EINTR and EAGAIN, everything is stored |
| BufferedFile.FinalErrorStops | include/LIBRARY/libstream/cedarx_stream_file.c:692-696 | an error of any other number leaves exactly what the writes before it stored |
| BufferedFile.FalseFailureIff | include/LIBRARY/libstream/cedarx_stream_file.c:664-668 | the first seek, stored in an int, looks failed exactly at offsets that are 2^32-1 modulo 2^32 |
| BufferedFile.RefusedByte | include/LIBRARY/libstream/cedarx_stream_file.c:664-668 | one byte short of 4 GiB a byte is refused |
| AviWriter.AviWriter.Open | tool/avilib/writer.cpp:73-232 | refused without OpenDML and a frame count; otherwise the file is the first section's head with header blocks in place and sizes open, and every position to be patched is kept |
| AviWriter.AviWriter.OpenStream | tool/avilib/writer.cpp:110-190 | the stream list with its size filled in and, with OpenDML, zeros where the super index goes: room for as many indexes as dividing by 2044 gives |
| AviWriter.AviWriter.WriteData | tool/avilib/writer.cpp:382-467 | refused past the reserved frames; otherwise a section begun if the 32-bit count reaches the limit, then the chunk, its entries and the counts, as a function of the writer's state; from frame lengths alone in the rows of AviLimits |
| AviWriter.AviWriter.RollOver | tool/avilib/writer.cpp:393-419 | the section finished and the next begun, with its limit |
| AviWriter.AviWriter.FinishOld | tool/avilib/writer.cpp:349-373 | the movi size, the old index after the list, the RIFF size |
| AviWriter.AviWriter.FinishAvix | tool/avilib/writer.cpp:334-346 | the RIFF and movi sizes of a later section |
| AviWriter.AviWriter.CloseIndexes | tool/avilib/writer.cpp:250-290 | the standard indexes at the end of the file and the super index over its room, each entry with the place, size and count of its index |
| AviWriter.AviWriter.Close | tool/avilib/writer.cpp:234-332 | the whole file `close` leaves, as a function of the writer's state; what its bytes then say, field by field, is in the rows of AviHeaders, AviIndexBytes and AviOldIndex |
| AviSections.FinishFirst | tool/avilib/writer.cpp:349-373 | finish_old turns the open first section into one whose size fields are right |
| AviSections.FinishLater | tool/avilib/writer.cpp:334-346 | finish_avix does so for a later section, wherever it lies |
| AviSections.FinishLast | tool/avilib/writer.cpp:315-327 | so does close, in the other order |
| AviSections.FileElements | tool/avilib/writer.cpp:310-373 | a file of any number of finished sections, each under 4 GiB, is an exact tiling by RIFF elements, nested, each size field the number of bytes to the end of its element |
| AviWriterRuns.DataKeeps | tool/avilib/writer.cpp:382-467 | every write_data keeps: the file is the open file of a film of frames, all frames are in it where they were put, bodies nest, and the size counted is what the film's section accounts for |
| AviWriterRuns.RunKeeps | tool/avilib/writer.cpp:382-467 | so over any run of calls |
| AviWriterRuns.RunFrames | tool/avilib/writer.cpp:387-387 | the frames of the film are those given, in order, exactly as many as the reserved number allows |
| AviWriterRuns.RefusedStay | tool/avilib/writer.cpp:387-387 | once the reserved number of frames is written all others are refused and change nothing |
| AviLimits.OpenedBegins | tool/avilib/writer.cpp:73-232 | what open leaves to count with: 224 bytes and the super index's and extended header's, no frames, and as many reserved as announced, or 261,632 with OpenDML when none are |
| AviLimits.FirstSectionIff | tool/avilib/writer.cpp:392-435 | from the frame lengths alone: a run stays in its first section exactly when, for each frame, the opened head, 16, the length and 24 of each frame before it and its own length and 8 come to less than 10^9, in 32 bits; otherwise the old index has the frames before the first for which they do not |
| AviLimits.LaterSectionIff | tool/avilib/writer.cpp:392-435 | a frame begins one section at most, and the section it begins lasts exactly as long as 24, the length and 8 of each of its frames and the next one's length and 8 stay below 4*10^9, in 32 bits |
| AviFilm.AddedAccounts | tool/avilib/writer.cpp:421-425 | in the first section the count is the bytes written and an old index entry a frame and one ahead; later it is the section's bytes |
| AviFilm.RolledContent | tool/avilib/writer.cpp:393-419 | beginning a section adds its head after the finished one and leaves all before it |
| AviSizes.RollMissedIff | tool/avilib/writer.cpp:392-393 | a roll-over due is missed exactly when the 32-bit sum wraps |
| AviSizes.RolledSize | tool/avilib/writer.cpp:368-372 | the size field a finished section gets, from the count: less one old index entry for the first, less its own eight bytes for later ones |
| AviSizes.RunSized | tool/avilib/writer.cpp:392-435 | over any run of frames of at most 294,967,288 bytes, a first section closed by a roll-over has a size field below 10^9 and a later one below 4*10^9 |
| AviSizes.UsedLength | tool/avilib/writer.cpp:250-282 | the bytes the standard indexes of n frames take |
| AviSizes.ClosedSmall | tool/avilib/writer.cpp:310-327 | then every section of the closed file is below 4 GiB when those bytes are at most 294,967,296 |
| AviIndex.BuildShape | tool/avilib/writer.cpp:437-458 | for every stream: frame k is entry k mod 2043 of index k div 2043, with its length, and there are exactly ceil(f/2043) indexes |
| AviIndexExact.EntryExactIff | tool/avilib/writer.cpp:437-454 | with one stream, base plus offset is the frame's payload exactly when the payload is within 32 bits of its index's base |
| AviIndexExact.SharedBaseExactIff | tool/avilib/writer.cpp:448-453 | with several, exactly when the frame's stream was the last to begin an index, or none has: the base is shared |
| AviIndexExact.SoundAfterRollIsMisplaced | tool/avilib/writer.cpp:448-453 | so every sound chunk written after a picture stream's 2044th frame is misplaced |
| AviIndexExact.FitsIff | tool/avilib/writer.cpp:135-147 | the super index of f frames stays in its room exactly when f is at most 2043 times the indexes reserved |
| AviIndexExact.AlwaysFitsIff | tool/avilib/writer.cpp:135-147 | and does so for every number of frames the writer takes exactly when the limit on frames is at most that |
| AviIndexExact.ReservationGaps | tool/avilib/writer.cpp:135-142 | which holds for up to 2043 frames announced, and fails for 2044 and when none are announced |
| AviClose.CloseFinishes | tool/avilib/writer.cpp:234-332 | close leaves the finished file of the film: every section finished, the counts and indexes in their blocks |
| AviHeaders.RecordingCounts | tool/avilib/writer.cpp:73-312 | a recording's header, byte by byte: the number of frames stands at 48 in the main header, at 140 in the stream header and, with OpenDML, in the extended header, whose other bytes are 0; all else of the blocks is as it was set up; and the lists and chunks around them have their tags and sizes |
| AviIndexBytes.RecordingIndexes | tool/avilib/writer.cpp:250-290 | the index blocks of a recording made with OpenDML, field by field: the super index's size, kinds, number in use and zeros; each row's size and number of frames; and at the place the row gives the index's own size, kinds, number, chunk id and base |
| AviOldIndex.RecordingOldIndex | tool/avilib/writer.cpp:349-373 | the first section of a recording ends with the old index, entry by entry: 00dc, 0x10, the place from `movi` as 4 and the length and 8 of each frame before, and the length |
| AviClose.FinishedKeepsFrames | tool/avilib/writer.cpp:234-332 | and every frame where it was put |
| AviClose.ClosedNests | tool/avilib/writer.cpp:234-332 | and, with sections below 4 GiB, nothing but properly nested elements, for any number of sections |
| AviLookup.IndexesLeadToFrames | tool/avilib/writer.cpp:250-290 | in the closed file's bytes: super index entry k div 2043 leads to a standard index whose entry k mod 2043 has frame k's length and leads to frame k's bytes, exactly when they are within 32 bits of its base |
| AviFileRuns.RecordingHoldsFrames | tool/avilib/writer.cpp:73-467 | open, any frames there is room for, close: the finished file of the film, with every frame given in its place |
| AviFileRuns.RecordingNests | tool/avilib/writer.cpp:73-467 | and properly nested, under conditions on frame lengths and number alone |
| AviFileRuns.RecordingIndexesLead | tool/avilib/writer.cpp:73-467 | and, with OpenDML, with indexes that lead from the super index to every frame's bytes, exactly when they are within 32 bits of their index's base |
| AviRoom.RecordingRoomIff | tool/avilib/writer.cpp:135-170 | in the bytes of the recorded file, the header list after the super index stands where open put it exactly when the frames are at most 2043 times the indexes reserved |
| AviReader.AviReader.Open | tool/avilib/reader.cpp:45-360 | the walk over the elements, proved equal to its recursive definition for every file, then the OpenDML entries in the place of the others if there are any, what earlier opens listed still there; unless the walk met what the model does not have, accepted exactly when nothing was refused and a movi list was met |
| AviElements.BareTags | tool/avilib/reader.cpp:78-89 | in any file: a form type, strh, INFO, odml or Tdat stands for itself, and what follows it is taken for the next element |
| AviElements.ListElement | tool/avilib/reader.cpp:75-86 | a RIFF or a list is entered, its size kept |
| AviElements.MainElement | tool/avilib/reader.cpp:90-96 | a main header of a size other than 56 makes `open` fail; else it is passed over |
| AviElements.StreamElement | tool/avilib/reader.cpp:101-106 | the first two stream headers are read, and decide whether the format after them is of sound |
| AviElements.ThirdStream | tool/avilib/reader.cpp:101-102 | a third stream header makes `open` fail |
| AviElements.FormatElement | tool/avilib/reader.cpp:178-181 | a format of pictures is passed over whole, of any length |
| AviElements.NameElement | tool/avilib/reader.cpp:196-199 | a stream name leaves the walk four bytes before its end, or 4 GiB on when it is shorter than four |
| AviElements.MoviElement | tool/avilib/reader.cpp:200-204 | the place of a list of frames is kept, and the list passed over by the size read last |
| AviElements.OtherElement | tool/avilib/reader.cpp:340-345 | an element of any tag the reader does not know is passed over whole and leaves nothing behind |
| AviElements.StepChanges | tool/avilib/reader.cpp:65-346 | whatever is in a file: only a list of frames adds a place to those kept, only an old index touches the entries, only a super index the OpenDML ones, and only a main or a stream header makes `open` fail |
| AviElements.AcceptedIff | tool/avilib/reader.cpp:348-360 | `open` says yes exactly when the walk was not made to fail and met a list of frames |
| AviReader.AviReader.ReadFrame | tool/avilib/reader.cpp:363-420 | a frame, by its number: the value returned, the bytes read and what is kept, as a function of what was kept; in terms of the file in AviElements.EntryRead and NothingRead |
| AviElements.OldIndexElement | tool/avilib/reader.cpp:205-225 | an old index of any file, cut short or not: for every stream, the whole entries whose id begins with its number, in order, rec lists apart, come after those there are |
| AviElements.AtoiOfTwo | tool/avilib/reader.cpp:222-223 | that number is what `atoi` makes of the first two characters: blanks, a sign, digits |
| AviElements.StandardIndex | tool/avilib/reader.cpp:280-323 | a standard index of any file: for every stream, one of 00dc, 00db, 01dc, 01db, 00wb or 01wb gives its rows, in order, to the stream of the super index, with their places in 64 signed bits and sizes without the top bit; any other id gives none |
| AviElements.UnreadIndex | tool/avilib/reader.cpp:280-324 | a standard index that is not in the file, or is come to after a failed read, lists nothing, and the failure is cleared |
| AviElements.IndexBeforeFile | tool/avilib/reader.cpp:280-324 | a place of 2^63 or more is before the start of the file, and nothing is listed |
| AviElements.CutIndex | tool/avilib/reader.cpp:280-324 | one cut short in its head clears the failure of reading it, unless it is of rec lists, which go on with it |
| AviElements.SuperIndexElement | tool/avilib/reader.cpp:254-327 | a super index of any file, its rows there: the standard indexes are taken at the rows' places for the stream its chunk id names, and the walk goes on after the block |
| AviElements.EntryRead | tool/avilib/reader.cpp:363-420 | reading a frame of any file by any entry: tried in its place, unless the last was found from the first `movi`, then from there; with the id found, the bytes after its chunk's head, else those in the entry's place, as many as there are; and what is kept for the next read |
| AviElements.EntryOutside | tool/avilib/reader.cpp:393-420 | an entry that stands before the start of the file or past its end comes back as nothing, with the stream failed, unless its id is what was in the tag buffer before |
| AviElements.NothingRead | tool/avilib/reader.cpp:373-386 | a number past the last entry gives 0, an entry of no bytes 1, and nothing is read or forgotten |
| AviReader.AviReader.TakeIndex | tool/avilib/reader.cpp:205-240 | as many entries as whole ones were read, each to the stream its id names, `rec ` lists passed over |
| AviReader.AviReader.ReadPlaces | tool/avilib/reader.cpp:273-278 | the rows of a super index, read one by one, are those of one read of all, and complete exactly when that is |
| AviReader.AviReader.ListRows | tool/avilib/reader.cpp:304-318 | as many entries as the standard index counts, each with base plus offset and its size without the top bit |
| AviWalk.WalkOfFile | tool/avilib/reader.cpp:62-346 | on a file the writer leaves, with or without OpenDML and of any number of sections, whatever earlier opens listed, the walk takes one movi list a section, the old index and the OpenDML entries, and nothing else |
| AviRoundTrip.IndexReadBack | tool/avilib/reader.cpp:205-240 | reading the old index puts its entries, in order, after those there are |
| AviRoundTrip.FrameReadsBack | tool/avilib/reader.cpp:383-419 | a read by an entry that leads to its frame, with the movi offset in use or not, returns exactly the frame, and leaves the reader as able to read the next |
| AviRoundTrip.LandsIff | tool/avilib/reader.cpp:391-413 | without that offset in use, probing comes back to the entry's own place exactly when neither the bytes there nor those the first movi's place further on, all within the file, begin with the chunk's id |
| AviRoundTrip.FirstReadIff | tool/avilib/reader.cpp:391-413 | by an old index, reading a non-empty frame 0 puts the movi offset to use, and reads the frame, exactly when the first section's RIFF size is not the number `00dc` makes: the first probe reads that size |
| AviRoundTrip.ReadsReturnFrames | tool/avilib/reader.cpp:363-420 | frames with entries that lead to them read back in any order and any number of times |
| AviRecordings.FilmOpens | tool/avilib/reader.cpp:45-360 | opening a file written without OpenDML lists the frames of its first section, in order |
| AviRecordings.LaterOpenIff | tool/avilib/reader.cpp:55-55 | a later open of the same reader lists a file's frames by their numbers exactly when no entries are left that stand before them or in their place |
| AviRecordings.SecondOpenDoubles | tool/avilib/reader.cpp:55-55 | opening the same file twice lists its frames twice |
| AviRecordings.FilmReadsBack | tool/avilib/reader.cpp:363-420 | the frames listed read back after frame 0, with the exact condition on the first section's size |
| AviRecordings.LimitAvoidsId | tool/avilib/writer.cpp:392-393 | which a first section kept within the writer's limit always meets |
| AviRecordings.RecordingReadsBack | tool/avilib/reader.cpp:363-420 | a recording without OpenDML opens to an entry a frame exactly when it needed no second section, and the frames listed read back whole |
| AviLimits.RecordingLists | tool/avilib/writer.cpp:392-435 | a recording without OpenDML lists exactly the frames before the first for which 224, 16, the length and 24 of each frame before it and its own length and 8 come to 10^9 or more; so all of them exactly when that is so for none |
| AviRecordings.LongRecordingListsPart | tool/avilib/writer.cpp:423-435 | a recording of 10^9 bytes or more always needs one, so not all of its frames are listed |
| AviIndexedTrip.StdRead | tool/avilib/reader.cpp:280-323 | from wherever the reader stands, taking a standard index of the writer adds its entries in order, and no failure is left, though the size read after its head is more than its entries |
| AviIndexedTrip.SuperRead | tool/avilib/reader.cpp:254-327 | taking a super index adds the entries of all the indexes its rows lead to, in order, and goes on after its block |
| AviIndexedRecordings.RecordingOpensByIndex | tool/avilib/reader.cpp:254-351 | a recording made with OpenDML, of any number of sections and indexes, opens to one entry a frame, in order, with the frame's length, giving the place of the frame's bytes exactly when that is within 32 bits of its index's base |
| AviIndexedRecordings.RecordingReadIff | tool/avilib/reader.cpp:391-419 | a frame in such reach, read first, is read from its own bytes, and whole, exactly when both probes miss |
| AviIndexedRecordings.RecordingReadsByIndex | tool/avilib/reader.cpp:363-420 | all such frames read back, in any order and any number of times |
| AviMisreads.LoneFrameUnread | tool/avilib/reader.cpp:404-412 | a recording of one frame, up to 68 bytes shorter than where the frames start, reads back as nothing: the failed second probe is not cleared |
| AviMisreads.EvenFramesMisread | tool/avilib/reader.cpp:404-412 | in a recording of frames all as long as the first movi's place, a frame read first comes back as the one after it |
| TextRings.NextKeeps | include/LIBRARY/textEncLib/TextEncApi.c:92-530 | every step of source, encoder and consumer keeps the rings' invariant |
| TextRings.RunKeeps | include/LIBRARY/textEncLib/TextEncApi.c:92-530 | in every reachable state write_id is read_id and what lies between, modulo ten, on both sides, 0 <= prefetch_cnt <= buf_used <= 10, and slots hold what they should |
| TextRings.InOrder | include/LIBRARY/textEncLib/TextEncApi.c:455-478 | packets leave in arrival order, each with its text, and a packet held is still what was handed out; every time stamp is 0 |
| TextRings.NothingLost | include/LIBRARY/textEncLib/TextEncApi.c:92-530 | every text queued is in the input ring, with the encoder, waiting or delivered |
| TextRings.WriteTakesIff | include/LIBRARY/textEncLib/TextEncApi.c:92-132 | in every reachable state a text handed over is queued, and one more is in use, exactly when fewer than ten are; otherwise nothing changes |
| TextRings.DeliveredIsHanded | include/LIBRARY/textEncLib/TextEncApi.c:92-478 | over every run the texts delivered are, in order, the first of those handed over while fewer than ten were in use, or blanks with the text setting off |
| TextRings.RequestTakesIff | include/LIBRARY/textEncLib/TextEncApi.c:455-478 | in every reachable state a request hands out the next packet published exactly when there is one not handed out yet |
| TextRings.ReleaseTakesIff | include/LIBRARY/textEncLib/TextEncApi.c:508-527 | in every reachable state a release gives back the packet held longest exactly when one is held |
| TextRings.RoundPublishes | include/LIBRARY/textEncLib/TextEncApi.c:336-378 | wherever the encoder is, with a text waiting and a slot free, the rest of its round publishes one packet and changes nothing the source or the consumer sees |
| TextRings.UnderWayIsFree | include/LIBRARY/textEncLib/TextEncApi.c:360-366 | the slot being filled outside the lock is none waiting and none held |
| TextRings.NothingRepeats | include/LIBRARY/textEncLib/TextEncApi.c:109-128 | handing over nothing queues the text queued ten before again, or a blank, unless the ring is full |
| TextRings.PutBackBreaksIff | include/LIBRARY/textEncLib/TextEncApi.c:481-500 | in every run, ReturnTextEncBuf is accepted exactly for time 0 and the number of the slot before the read position, or 0 if that slot was never published, and exactly then do positions and count disagree after it |
| TextRings.PutBackOnFreshRing | include/LIBRARY/textEncLib/TextEncApi.c:481-500 | on a fresh ring, with nothing ever handed out, it is accepted for time 0 and number 0 and moves the read position to 9 |
| TextRings.PutBackRepeats | include/LIBRARY/textEncLib/TextEncApi.c:481-500 | used as meant, the packet put back is handed out again while the last one published is no longer counted |
| TextRings.ReleaseKeepsIff | include/LIBRARY/textEncLib/TextEncApi.c:508-527 | a release keeps prefetch_cnt within buf_used exactly when a packet is held or nothing is in use |
| TextRings.OutOfOrderReleaseIff | include/LIBRARY/textEncLib/TextEncApi.c:514-526 | with the ring full, the slot the encoder takes next is not held exactly when the packet released was the one held longest |
| TextRings.WrongReleaseOverwrites | include/LIBRARY/textEncLib/TextEncApi.c:508-527 | a run that fills the ring and hands two packets out; releasing the second then lets the encoder clear the first, still held |
| KernelList.AddBetween | include/libisp/isp_dev/list.h:41-47 | a new entry between the last and the first of a ring |
| KernelList.Add | include/libisp/isp_dev/list.h:57-57 | the entry after the head |
| KernelList.AddTail | include/libisp/isp_dev/list.h:67-67 | the entry before the head |
| KernelList.Del | include/libisp/isp_dev/list.h:90-95 | the entry gone, the others in order, its own links poison |
| KernelList.DelInit | include/libisp/isp_dev/list.h:122-126 | the same, and the entry an empty list |
| KernelList.Replace | include/libisp/isp_dev/list.h:104-110 | the new entry in the old one's place, an empty old list included |
| KernelList.ReplaceInit | include/libisp/isp_dev/list.h:112-116 | and the old entry an empty list |
| KernelList.Move | include/libisp/isp_dev/list.h:133-137 | the entry first in the list, from the same list or another, which loses it |
| KernelList.MoveTail | include/libisp/isp_dev/list.h:144-148 | the entry last in it |
| KernelList.IsLast | include/libisp/isp_dev/list.h:155-158 | true exactly for the last entry, or the head of an empty list |
| KernelList.Empty | include/libisp/isp_dev/list.h:164-164 | true exactly for a list without entries |
| KernelList.RotateLeft | include/libisp/isp_dev/list.h:189-197 | the first entry goes last; an empty list stays |
| KernelList.IsSingular | include/libisp/isp_dev/list.h:203-206 | true exactly for one entry |
| KernelList.CutPosition | include/libisp/isp_dev/list.h:208-241 | the entries up to the one given go to the new list; an empty list, and one of a single other entry, are left alone |
| KernelList.SpliceBetween | include/libisp/isp_dev/list.h:243-254 | a list's entries in between the last and the first of a ring |
| KernelList.Splice | include/libisp/isp_dev/list.h:260-263 | before the other list's entries |
| KernelList.SpliceTail | include/libisp/isp_dev/list.h:270-273 | after them |
| KernelList.SpliceInit | include/libisp/isp_dev/list.h:282-288 | and the list emptied |
| KernelList.SpliceTailInit | include/libisp/isp_dev/list.h:298-304 | the same at the tail |
| KernelList.CutAndSplice | include/libisp/isp_dev/list.h:233-288 | cutting at an entry and splicing back restores the list |
| Events.EventList.constructor | include/libisp/isp_events/events.c:181-190 | no watches, empty sets, maximum 0 |
| Events.EventList.Monitor | include/libisp/isp_events/events.c:42-72 | the watch last on the list, its set and the maximum updated |
| Events.EventList.Find | include/libisp/isp_events/events.c:80-85 | the last watch of the descriptor and the maximum of the others |
| Events.EventList.Unmonitor | include/libisp/isp_events/events.c:74-105 | that watch off the list, its set and the maximum updated; nothing when there is none |
| Events.EventList.Dispatch | include/libisp/isp_events/events.c:107-128 | the callbacks called and whether events are done, as a function of the watches |
| Events.MonitorKeeps | include/libisp/isp_events/events.c:57-71 | monitoring keeps each set the descriptors watched for its kind and the maximum theirs |
| Events.UnmonitorKeepsIff | include/libisp/isp_events/events.c:80-103 | unmonitoring does so exactly when the descriptor is not watched twice for the same kind, nor twice at all while above all others |
| Events.RepeatSpoilsSet | include/libisp/isp_events/events.c:80-103 | watched twice for reading and taken off once, a descriptor is still watched and in no set |
| Events.RepeatSpoilsMax | include/libisp/isp_events/events.c:80-103 | watched for reading and for writing and taken off once, the sets are right and the maximum is 0 |
| Events.RunExact | include/libisp/isp_events/events.c:42-105 | so over any run that watches no descriptor twice at a time |
| Events.RunIsLive | include/libisp/isp_events/events.c:42-105 | over any such run the registry has exactly the watches given and not taken off since, in order |
| Events.UnmonitorTakesLast | include/libisp/isp_events/events.c:80-103 | in any registry the watch taken off is the last of its descriptor, and the others stay, in order |
| Events.DispatchCallsReady | include/libisp/isp_events/events.c:113-127 | exactly the watches ready are called, once each, in order, up to and including the first whose callback stops events; when they are stopped already, the first if it is ready |
| FpsControl.FpsCtrl.Control | include/utils/plat_math.h:227-240 | one call adds its frame, or none, to the frames taken |
| FpsControl.TakesItsShare | include/utils/plat_math.h:227-240 | after n calls floor(n*T/F) frames have been taken and the key is n*T mod F |
| FpsControl.SpreadEvenly | include/utils/plat_math.h:227-240 | any k calls in a row take floor(k*T/F) or ceil(k*T/F) |
| FpsControl.AboveShareIff | include/utils/plat_math.h:227-240 | with T above F every call takes a frame, so the share is right exactly while it is one a call |
| FpsControl.AboveFallsShort | include/utils/plat_math.h:227-240 | thirty of twenty-five: five frames after five calls, where six are due |

## Left out

- FsCacheRing.CallerStep: `cdx_sem_*` is not part of this model beyond its meaning: down waits for a positive count, `up_unique` raises 0 to 1, and the wait for the done semaphore may return at any time, since the loop looks again.
- FsCacheRing.ThreadStep: a `fileWriter` call of the ring puts its bytes on the stream one by one and does not fail; short writes are in `FsWriter` alone.
- FsCachedWriters.RunSimple: the writers are compared over a stream that does not fail; what failures do to the cached bytes is not stated.
- Writer creation and its parameter checks, allocation failures, the wait-time logging and the statistics block of `fileWriter`, which is compiled out.
- DirectIoStream.DirectIoStream.Write: the device fails only for alignment to its block; other errors of read, write and lseek, a descriptor with a base offset, and writing while an explicit truncate has left the position past the end are not modelled.
- DirectIoStream.DirectIoStream.Extend: the memory for a long extension is always there.
- Reading through the stream, `fallocate`, path lookup, and the length the stream reports.
- AviWriter.AviWriter.Open: one picture stream; sound streams are in the index model only, so nesting and section sizes are not stated for picture and sound together. The header blocks are fixed-size opaque bytes apart from their tags, sizes and frame counts, and their places, which do not depend on the payload, are constants. What an earlier recording of the same writer leaves in the indexes is kept, but only a writer's first recording is followed to its end.
- AviWriter.AviWriter.WriteData: the stream's fail bits are not modelled, nor is the log. Chunks of odd length get no padding byte, as in the code.
- AviWriter.AviWriter.Close: without OpenDML the index bookkeeping the code still does reaches no file and is not modelled.
- AviClose.ClosedNests: when the super index outgrows its room, that the block after it is overwritten is stated, and exactly when; what a reader then makes of the file is not.
- AviReader.AviReader.Open: sound formats and `vprp` blocks end the model's walk as beyond it, and so do a super index cut short or with a sub-type, where the code asserts or goes on with uninitialised memory, and a standard index with more entries than bytes, where it reads past a buffer. Header payloads are not kept. The file exists, and an earlier one has been closed.
- AviRecordings.RecordingReadsBack: a frame read before frame 0 is not covered, since there the first probe's outcome depends on frame bytes.
- AviIndexedRecordings.RecordingReadsByIndex: frames whose probes do not both miss are covered one read at a time only, since a hit changes how later frames are looked for.
- TextRings.Released: the consumer releases the packet it has held longest; the code never checks, and what another order does is stated apart.
- `ClearDataMgr`, two encoders at once, and the packet's fields other than its text.
- KernelList.Del: poison is a null link. `list_empty_careful` and the traversal macros are left out.
- Events.EventList.Monitor: the entry's record is found by a map instead of address arithmetic; a failed allocation, descriptors `fd_set` cannot hold, and callbacks that change the list are left out.
- `events_loop` around `select`, and everything else of the ISP code.
- FpsControl.TakesItsShare: rates whose sum does not fit 32 bits are left out.
- `gcd`, `cancel`, the C wrappers of avilib, and its property setters and getters.

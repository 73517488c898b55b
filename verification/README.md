# Access database reader: model and proofs

This project models the parts of the repository that have a fast form and a simple meaning, or that
run concurrently, and proves that they agree, stay in order, and end. The pure-Go reader is in
`internal/gomdb`, the SQL drivers in `driver`, and the C library behind the other driver in
`internal/cmdb/mdbtools`.

- **Parallel scan** (`ScanModel`, `ScanInvariant`, `ScanShape`, `ScanLedger`, `ScanMeaning`, `ScanProgress`,
  `ScanRuns`, `ScanRace`, `ScanHang`): the producer, the workers, one enqueue goroutine per batch and the
  consumer as a step system. Row writes, channel operations and the atomic operations of the workers are
  steps of their own; resetting the count and flags of a recycled batch, sealing a batch, and the
  producer's own load of `remaining` with the signal that follows it are one step each. The real constants
  (256 rows a batch, 128 a task, 8 slots, 8 pooled batches, queue of 4) are used throughout.
  The invariant has three layers. Who is where is kept by every step; it gives token conservation,
  a bound on every run, and the end of both waits of `close`. Which tasks are outstanding is kept unless
  a batch is recycled before its tasks are done; it gives the absence of deadlock. What slots and ready
  signals mean is kept unless a batch is signalled before its tasks are done; it gives the order of the rows.
  Line 505 of `fastscan.go` can signal a batch that was recycled between its two loads, so the upper two
  layers can fail. When they can is decided exactly, by the table alone. Every schedule signals only
  finished batches, delivers only finished batches and closes no channel twice if and only if the table has
  at most 256 row slots; for tables that size, and no larger, the rows always come out in order (`ScanRace`).
  No schedule leaves the scan hanging if and only if the producer cuts the table into at most two batches
  (`ScanHang`).
  `canFastScan` sends only tables of 2048 rows or more down this path, so each of them has schedules of
  both kinds.
- **Synchronous scan** (`PageWalk`, `SparseMap`, `RowFormat`, `SyncScan`, `ScanRefinement`, `DeletedRows`,
  `StoredRows`): the page
  walk over usage maps, finding and cracking rows, the `FetchRow` loop with LIMIT, and the theorem that
  both scans return the same rows. That holds exactly when no row fails to crack and no later page that
  counts no rows has a readable row 0: after a page change `FetchRow` reads row 0 without
  looking at the row count. On tables of packed rows they always do, and a delete bit removes one row from
  both. The walk itself is exact for a map that has all pages of the table except for one page:
  `mapFindNext1` keeps its offset when it passes a missing map page, so the first page of the first
  mapped stretch is skipped. `SparseMap.OverlooksHappens` is a file where a table loses its first page.
  With an empty map the recovery scan runs once, so only the first page of the table is read.
- **Text** (`Utf`, `TextCodec`, `TextMeaning`, `MemoChunks`, `TextCompress`): compressed and plain UCS-2 decoded
  straight to UTF-8, eight bytes at a time, against decompression followed by UTF-16 decoding
  (section 2.2 of RFC 2781) and UTF-8 encoding (section 3 of RFC 3629); memo streams decoded chunk by
  chunk, with the exact condition on where a chunk may end; and the encoder of `iconv.c`. What stored bytes
  mean is also stated from the writer's side, for all texts, and so is the chain of rows of a memo.
- **LIKE** (`Like`): the loop with one remembered star against the recursive meaning. They agree for
  every pattern exactly when the subject holds no `%`.
- **Temp tables** (`RowPack`, `RowOffsets`, `TempTable`): packing rows, placing them on slotted
  pages, finding and cracking them again. Packed rows come back for all inputs exactly when fixed columns
  have the offsets at which packing puts them; `FillTempCol` leaves these offsets to its caller.
- **Numbers and dates** (`Money`, `Calendar`): decimal strings of 64-bit currency and 128-bit numeric
  fields, and serial days with their time of day. A moment written and read back is the same exactly in
  range and outside leap years; in leap years it comes back a day late.
- **Queries** (`WhereLexer`, `WhereParser`, `WhereGrammar`, `WhereRoundTrip`, `InList`, `Placeholders`): the
  tokenizer and the WHERE parser, which reads exactly the sentences of a grammar written down beside it, IN
  lists, and the two ways in which the drivers fill in placeholders.
- **File cache and index bitmap** (`FileCache`, `IndexBitmap`): the shared, single-flight file cache under
  any interleaving of loaders, and the packed entry bitmap of index pages. Replacing a cached file by a
  newer version uses up the cache for good, and a Jet4 bitmap can hold more entries than the array they
  are unpacked into; both are stated exactly.

Modules import one another only where one model uses another; `Bytes` and `Wrappers` hold what they share. Specification functions say what a result
means; the methods beside them keep the loops, buffers and objects of the source and are proved equal to
those functions.

Where the code and its comments differ, the code is modelled. A comment in `fastscan.go` (lines 437-438)
says that the ready signal can only fire once no outstanding work is left for good; the race above is the
exception. A comment in `worktable.go` says that `PackRow` writes what `CrackRow` expects; that needs the
offsets mentioned above.

## Model

| member | source | states |
|---|---|---|
| ScanInvariant.InitKeeps | internal/gomdb/fastscan.go:171-234 | a new scan satisfies the invariant that ties tasks, batches, chain, queue, tokens and output together |
| ScanShape.WorkShape | internal/gomdb/fastscan.go:502-542 | every step of a worker, premature signals included, keeps who is where: places, owners, order of the chain, token counts |
| ScanShape.EnqueueShape | internal/gomdb/fastscan.go:433-479 | so does every step of an enqueue goroutine: batches join the queue in the order of the chain |
| ScanShape.ConsumeShape | internal/gomdb/fastscan.go:665-711 | so does every step of the consumer (receive, hand out or skip a row, return batch and token), and it never reads past the table |
| ScanShape.ProduceShape | internal/gomdb/fastscan.go:314-428 | so does every step of the producer (slot, batch, cutting pages into tasks, sending, sealing, handing over, end marker) |
| ScanShape.ProduceCancelShape | internal/gomdb/fastscan.go:407-428 | so does a producer that gives up after a cancel |
| ScanShape.StepShape | internal/gomdb/fastscan.go:286-711 | every step of every goroutine keeps who is where |
| ScanLedger.WorkOutstanding | internal/gomdb/fastscan.go:502-508 | every step of a worker keeps count of the outstanding tasks, and whoever finishes the last one of a sealed batch goes on to signal it |
| ScanLedger.ProduceOutstanding | internal/gomdb/fastscan.go:381-443 | so does every step of the producer that does not recycle a batch with tasks outstanding |
| ScanLedger.StepOutstanding | internal/gomdb/fastscan.go:286-711 | so does every other step of every goroutine, premature signals included |
| ScanMeaning.WorkMeaning | internal/gomdb/fastscan.go:502-542 | every step of a worker that is no premature signal keeps what slots and signals mean |
| ScanMeaning.ConsumeMeaning | internal/gomdb/fastscan.go:665-711 | the consumer's output stays the rows it has passed, cut at LIMIT |
| ScanMeaning.DeliveredRight | internal/gomdb/fastscan.go:440-443 | every slot of a finished batch holds the row of the table it stands for |
| ScanMeaning.StepKeeps | internal/gomdb/fastscan.go:286-711 | every step that is no premature signal keeps the whole invariant, and recycles no batch with tasks outstanding |
| ScanProgress.NeverStuck | internal/gomdb/fastscan.go:314-465 | without a cancel, and with a consumer that keeps asking, some goroutine can always move before the end while all outstanding tasks are counted |
| ScanProgress.CloseNeverStuck | internal/gomdb/fastscan.go:286-290 | after a cancel, in every state, the goroutines that `close` waits for can move without the consumer until they are gone |
| ScanProgress.StepLowers | internal/gomdb/fastscan.go:314-711 | every step lowers one measure over all goroutines and queues |
| ScanProgress.PotentialNonNegative | internal/gomdb/fastscan.go:314-711 | that measure never goes below zero |
| ScanRuns.RunShape | internal/gomdb/fastscan.go:286-711 | who is where holds at every point of every run |
| ScanRuns.RunKeeps | internal/gomdb/fastscan.go:286-711 | the whole invariant holds at every point of a run up to the first premature signal |
| ScanRuns.RowsInOrder | internal/gomdb/fastscan.go:665-711 | in every run without a premature signal the rows handed out are a prefix of the valid rows in page-then-row order, cut at LIMIT: none twice, none skipped |
| ScanRuns.DeliveredComplete | internal/gomdb/fastscan.go:433-465 | in such a run a batch reaches the consumer only when it is sealed, all its tasks are done and every slot is the right row |
| ScanRuns.TokensConserved | internal/gomdb/fastscan.go:404-418 | in every run free tokens and batches held by producer, chain, queue and consumer always add up to 8, so returning a token or a batch never blocks |
| ScanRuns.RunsAreFinite | internal/gomdb/fastscan.go:314-711 | every run ends within a bound linear in rows, pages and workers |
| ScanRuns.TidyRunsEnd | internal/gomdb/fastscan.go:314-465 | a run that recycles no batch with tasks outstanding, is not cancelled and cannot go on has reached its end |
| ScanRuns.CompleteAtTheEnd | internal/gomdb/fastscan.go:314-379 | without a premature signal it has then handed out exactly the rows of the table, cut at LIMIT |
| ScanRuns.CloseReturns | internal/gomdb/fastscan.go:286-290 | in every run, after a cancel, when the other goroutines cannot move, they have all exited: both waits of `close` end |
| ScanRuns.ReadinessExact | internal/gomdb/fastscan.go:502-508 | a run has no premature signal if and only if no batch is ever marked ready before it is sealed and its tasks are done |
| ScanRuns.PrematureNeedsRecycling | internal/gomdb/fastscan.go:383-391 | a premature signal needs a batch that was reused between the two loads |
| ScanRuns.SingleUseIsCareful | internal/gomdb/fastscan.go:391-394 | when no batch is ever reused, no run has a premature signal |
| ScanRuns.AtomicIsCareful | internal/gomdb/fastscan.go:504-507 | when decrement and test are one step, no run has a premature signal |
| ScanRace.CarefulExact | internal/gomdb/fastscan.go:383-391 | no schedule has a premature signal if and only if the table has at most 256 row slots; for every larger table there is a run with one |
| ScanRace.CloseExact | internal/gomdb/fastscan.go:386-389 | no schedule closes a channel twice, between the reset of `readyClosed` and the new channel, if and only if the table has at most 256 row slots |
| ScanRace.DeliveryExact | internal/gomdb/fastscan.go:433-465 | every schedule delivers only finished batches if and only if the table has at most 256 row slots |
| ScanRace.InOrderExact | internal/gomdb/fastscan.go:502-508 | for given page sizes every table and every schedule hands out a prefix of the rows if and only if there are at most 256 row slots |
| ScanRace.FastTablesExposed | internal/gomdb/fastscan.go:34-54 | every table that passes the size test of the parallel path, with the rows its header counts, has a run with a premature signal |
| ScanRace.RaceLosesRow | internal/gomdb/fastscan.go:34-54 | a table of 2048 different rows takes the parallel path and has a run whose output is no prefix of its rows |
| ScanHang.RunCourse | internal/gomdb/fastscan.go:334-376 | in every run batches handed over, being sealed and still to come add up to the greedy cut of the page sizes |
| ScanHang.TwoAreTidy | internal/gomdb/fastscan.go:383-391 | with at most two batches no run recycles a batch with tasks outstanding, whatever is signalled too early |
| ScanHang.RunsOut | internal/gomdb/fastscan.go:445-462 | a scan whose third batch lost its signal goes on to a state in which nothing but a cancel can happen, without ending |
| ScanHang.HangExact | internal/gomdb/fastscan.go:383-391 | every uncancelled run that cannot go on has reached its end if and only if the producer cuts the table into at most two batches |
| ScanHang.FastTablesHang | internal/gomdb/fastscan.go:34-54 | every table that passes the size test of the parallel path, with the rows its header counts, has a run that hangs |
| PageWalk.MapFindNext0 | internal/gomdb/map.go:81-99 | the inline bitmap search returns the first set bit after the start, 0 or an error |
| PageWalk.MapFindNext1 | internal/gomdb/map.go:102-130 | the extended bitmap search, with its offset kept across missing map pages, returns the page the bit-by-bit search finds |
| PageWalk.MapFindNext | internal/gomdb/map.go:65-79 | the search is chosen by the map type; any other map is an error |
| PageWalk.PageNumberFits | internal/gomdb/map.go:39-43 | page numbers from a usage map survive conversion to 32 bits |
| PageWalk.Cursor.ReadNextDpg | internal/gomdb/map.go:12-61 | loads the next page of the table, by map while it is sound and by brute force once it is not, and leaves the cursor there |
| PageWalk.WalkAscends | internal/gomdb/map.go:12-61 | whatever the map holds, a scan ends, meets no page twice, and meets only data pages of its table |
| PageWalk.Scan0Exact | internal/gomdb/map.go:90-98 | on an inline map the search finds the first page the map has, whatever pages those are |
| PageWalk.Scan1Exact | internal/gomdb/map.go:112-129 | on an extended map the search from an aligned start finds the first page the map has |
| PageWalk.WalkSteady | internal/gomdb/map.go:12-61 | from an aligned position a map that has all of the table's pages, and perhaps others, yields exactly the table's remaining pages in order |
| PageWalk.WalkMeets | internal/gomdb/map.go:12-61 | with an inline map, however wrong, the walk meets every page of the table that the map has |
| PageWalk.WalkBrute | internal/gomdb/map.go:47-60 | with a map that cannot be used at all the fallback meets exactly the table's pages in order |
| PageWalk.WalkEmptyMap | internal/gomdb/map.go:22-36 | with a map of no pages the fallback runs once, so a scan ends after the table's first page, and before it if the header counts no rows |
| PageWalk.WalkExact | internal/gomdb/map.go:12-61 | from rewind such a map yields exactly the table's pages in order, if and only if the first mapped stretch does not hide its first page |
| SparseMap.OverlooksHappens | internal/gomdb/map.go:113-118 | there is a file with a map of exactly the table's pages and a non-empty table whose scan misses the table's first page |
| RowFormat.BuildCrackLayouts | internal/gomdb/crack.go:32-50 | the precomputed counts are the numbers of fixed columns before each column |
| RowFormat.CrackColumn | internal/gomdb/crack.go:261-306 | one field is written in place: null bit, position, size, bounds, and the value only where it is needed |
| RowFormat.CrackRow | internal/gomdb/crack.go:166-184 | the full crack gives every field its meaning, counting fixed columns on the way |
| RowFormat.CrackProjected | internal/gomdb/crack.go:135-147 | the projected crack gives every listed field the same meaning from the precomputed counts |
| RowFormat.SlotBits | internal/gomdb/file.go:345-347 | a slot holds the row offset in its low 13 bits and the delete flag in bit 0x40 of its high byte |
| RowFormat.FoundExact | internal/gomdb/file.go:492-512 | on the bytes of the page: which slots have a row, where it starts, and that it reaches to the row before it |
| RowFormat.MaskSizeExact | internal/gomdb/crack.go:85-88 | the size of the null mask is the quotient cut towards zero, also for negative column counts |
| RowFormat.HeaderExact | internal/gomdb/crack.go:74-121 | fixed columns are those counted less the variable ones, the offsets stand before the null mask in reverse order, and the null mask is read on to the end of the page |
| RowFormat.FieldPlaced | internal/gomdb/crack.go:282-306 | a field has the place its column and the offsets give it while that ends within the row, no bytes otherwise, and its value is the bytes at its place |
| SyncScan.ReadRow | internal/gomdb/data.go:102-146 | the synchronous way to read a row yields its outcome: skipped, failed, or its values |
| SyncScan.PrepareScratch | internal/gomdb/fastscan.go:481-501 | a worker's layouts, value mask and split column lists cover everything the test and the formatting look at |
| SyncScan.ProcessRow | internal/gomdb/fastscan.go:511-542 | a worker writes the same outcome with only the projected columns cracked, a failed crack counting as no row |
| SyncScan.SyncTable.Start | internal/gomdb/data.go:47-59 | the first call moves to the table's first page |
| SyncScan.SyncTable.Attempt | internal/gomdb/data.go:79-91 | one turn of the loop reads the next row of the page, or row 0 of the next page whatever its row count |
| SyncScan.SyncTable.FetchRow | internal/gomdb/data.go:44-99 | returns the first attempt that is not skipped and consumes exactly the attempts up to it |
| SyncScan.SyncTable.ScanAll | internal/gomdb/sql.go:1124-1139 | fetching until the end, an error or LIMIT gives the rows of the remaining attempts |
| DeletedRows.MarkedOutcome | internal/gomdb/data.go:107-121 | setting the delete bit in a row's slot turns exactly that row into a skip and leaves every other row of the page as it was; if deleted rows are wanted it changes nothing |
| DeletedRows.SyncSkips | internal/gomdb/data.go:61-99 | everything else the synchronous scan tries stays in its place |
| DeletedRows.FastSkips | internal/gomdb/fastscan.go:521-527 | so do the cells of the parallel scan |
| DeletedRows.MarkedRowGone | internal/gomdb/fastscan.go:521-542 | the rows of both scans are the old ones without that row |
| DeletedRows.SlotOutcome | internal/gomdb/data.go:107-126 | on the bytes of the page: which slots are skipped without a look at their rows, and which rows fail to crack |
| DeletedRows.WhereFilters | internal/gomdb/data.go:128-133 | a WHERE clause only ever drops rows, none if it accepts everything and all if it accepts nothing |
| ScanRefinement.AttemptsValues | internal/gomdb/data.go:79-91 | the synchronous scan reads the rows of the pages and one more for every later page without rows whose row 0 reads as a row |
| ScanRefinement.SyncExact | internal/gomdb/data.go:44-99 | the parallel scan's rows cut at LIMIT are the synchronous scan's for every LIMIT, if and only if no row fails to crack and there is no such extra row |
| ScanRefinement.FastEqualsSync | internal/gomdb/fastscan.go:665-711 | every complete, careful run of the pipeline over a table's pages hands out what the synchronous loop returns |
| StoredRows.StoredOutcome | internal/gomdb/data.go:102-146 | a packed row on a slotted page is read as the fields given for it, at the places of their bytes; these decide whether it comes out and as what |
| StoredRows.StoredMarkable | internal/gomdb/file.go:492-512 | such pages meet the conditions under which a delete bit concerns one row only |
| StoredRows.StoredScansAgree | internal/gomdb/fastscan.go:511-542 | on tables of such pages both scans return the same rows for every LIMIT, without an error |
| Utf.EncodeWellFormed | internal/gomdb/encoding.go:83-110 | the encoding of scalar values is well-formed UTF-8 |
| Utf.DecodeScalars | internal/gomdb/encoding.go:83-98 | decoding yields scalar values only, whatever surrogates the input holds |
| Utf.TextJoin | internal/gomdb/encoding.go:127-129 | two pieces decode on their own unless the cut splits a surrogate pair |
| TextCodec.DecompressUnicode | internal/gomdb/encoding.go:51-81 | the decompression loop computes the toggle decoding |
| TextCodec.WordTest | internal/gomdb/encoding.go:23-33 | the word test fails exactly when one of the eight bytes is zero or not ASCII |
| TextCodec.WordTest16 | internal/gomdb/encoding.go:167-175 | the mask test passes exactly when all four units are ASCII |
| TextCodec.AsciiRunLen | internal/gomdb/encoding.go:184-202 | finds the longest run of non-zero ASCII bytes |
| TextCodec.AsciiUTF16RunLen | internal/gomdb/encoding.go:162-180 | finds the longest run of ASCII units |
| TextCodec.UnicodeFastPath | internal/gomdb/encoding.go:15-41 | succeeds exactly on prefixed all-ASCII text, and then the body is its own UTF-8 text |
| TextCodec.UnitBytes | internal/gomdb/encoding.go:99-107 | the shifts of the unit encoder give the bytes of UTF-8 |
| TextCodec.AppendUTF16Unit | internal/gomdb/encoding.go:83-110 | what is written plus the meaning of the pending surrogate and the rest never changes |
| TextCodec.AppendUTF16LEState | internal/gomdb/encoding.go:129-158 | plain UTF-16LE decodes to its meaning, after a pending surrogate, which is always flushed |
| TextCodec.AppendC1Run | internal/gomdb/encoding.go:247-260 | the two-byte table decodes a run of bytes above ASCII |
| TextCodec.AppendCompressedRun | internal/gomdb/encoding.go:236-262 | a whole run in compressed mode decodes to its meaning and ends in the right mode |
| TextCodec.AppendCompressedUnicodeState | internal/gomdb/encoding.go:216-276 | compressed text decodes to the UTF-16 meaning of its decompression, and the mode left behind is the decoder's |
| TextCodec.AppendLatin1UTF8 | internal/gomdb/encoding.go:278-304 | Jet3 text decodes to the meaning of its widened bytes |
| TextCodec.AppendUnicodeUTF8 | internal/gomdb/encoding.go:306-317 | for every byte string and format direct decoding gives the slow meaning |
| TextCodec.MeaningFits | internal/gomdb/encoding.go:338-346 | the output is well-formed UTF-8 and never exceeds the computed capacity |
| TextMeaning.DecodeUnits | internal/gomdb/encoding.go:83-109 | decoding undoes the encoder of section 2.1 of RFC 2781 for every string of characters, and gives U+FFFD for every surrogate without a partner |
| TextMeaning.EveryString | internal/gomdb/encoding.go:83-109 | every string of units is a row of characters and such surrogates |
| TextMeaning.ReadBack | internal/gomdb/encoding.go:83-109 | the UTF-8 written, read by the place value of its bytes, is the characters |
| TextMeaning.StoredUtf16 | internal/gomdb/encoding.go:306-320 | plain text stored low byte first is read as the characters its writer put into UTF-16, an odd last byte dropped |
| TextMeaning.StoredCompressed | internal/gomdb/encoding.go:51-81 | so is compressed text, wherever its writer switched between one byte a unit and two |
| TextMeaning.EveryBody | internal/gomdb/encoding.go:51-81 | every byte string is written by some such writer |
| TextMeaning.StoredLatin1 | internal/gomdb/encoding.go:278-293 | every byte of Jet3 text is the character of its number |
| MemoChunks.DecompressAppend | internal/gomdb/encoding.go:51-81 | decompression can be resumed at any byte from the mode and the unfinished pair |
| MemoChunks.AppendUnicodeChunk | internal/gomdb/encoding.go:322-336 | one chunk is decoded according to the prefix of the first chunk and the mode so far |
| MemoChunks.MemoStreamed | internal/gomdb/data.go:373-394 | the streaming reader follows the row references and decodes chunk by chunk |
| MemoChunks.MemoJoined | internal/gomdb/data.go:574-590 | the joining reader collects the payloads and decodes them at once |
| MemoChunks.WrittenChain | internal/gomdb/data.go:374-391 | payloads laid out at any places, each row beginning with the row number and the three page bytes of the next, are met exactly and in order |
| MemoChunks.ChainUnique | internal/gomdb/data.go:374-391 | from one start no other payloads are met |
| MemoChunks.ReadWritten | internal/gomdb/data.go:570-589 | both readers return the text of payloads laid out that way, the same text if the cuts between them are good |
| MemoChunks.CutHarmless | internal/gomdb/encoding.go:322-336 | cutting after a prefix is harmless for every continuation if and only if the boundary is good: two bytes, compressed mode (or whole units) and no pending surrogate |
| MemoChunks.StreamingExact | internal/gomdb/data.go:373-394 | streaming is right after every chunk and for every continuation if and only if every boundary is good |
| MemoChunks.ReadersAgree | internal/gomdb/data.go:355-397 | with good boundaries both readers give the same text |
| TextCompress.DecompressBounded | internal/cmdb/mdbtools/src/libmdb/iconv.c:31-52 | the C decoder yields the same bytes, up to the room it is given |
| TextCompress.PackLoop | internal/cmdb/mdbtools/src/libmdb/iconv.c:230-257 | the loop reaches the end of its buffer exactly when the text cannot be compressed or does not get shorter |
| TextCompress.Compress | internal/cmdb/mdbtools/src/libmdb/iconv.c:226-263 | the buffer is replaced if and only if the packed form is shorter, and is untouched otherwise |
| TextCompress.PackThenDecompress | internal/cmdb/mdbtools/src/libmdb/iconv.c:233-257 | decompressing the packed form gives the original units back |
| TextCompress.CompressedReadsBack | internal/gomdb/encoding.go:51-81 | whatever the encoder shortens, the toggle decoder and the direct decoder give back |
| Like.LikeCmpBytes | internal/gomdb/like.go:28-57 | the loop ends; it accepts only subjects that match, and all of them when the subject holds no `%` |
| Like.SearchSound | internal/gomdb/like.go:33-51 | whatever the loop still accepts has a match from the current state or the remembered star |
| Like.SearchComplete | internal/gomdb/like.go:33-51 | one remembered star is enough when the subject holds no `%` |
| Like.LikeExact | internal/gomdb/like.go:33-51 | the loop gives the meaning of every pattern if and only if the subject holds no `%` |
| Like.MatchMeans | internal/gomdb/like.go:28-31 | a subject has the meaning of a pattern if and only if it can be cut into one piece for every pattern byte: any bytes for `%`, one for `_`, the byte itself otherwise |
| RowPack.PackRow | internal/gomdb/worktable.go:120-250 | the buffer holds header, fixed data, variable data, reversed offsets, count and null mask of the given fields |
| RowPack.MaskBit | internal/gomdb/worktable.go:211-242 | a bit of the null mask is set exactly for a field that is given and not null |
| RowPack.CrackPacked | internal/gomdb/crack.go:72-187 | cracking a packed row anywhere on a page gives back every field with its bytes and null flag |
| RowPack.BackMeans | internal/gomdb/worktable.go:120-250 | in terms of what was given: bytes come back as bytes, null as null, and what is missing of a fixed column as zeros |
| RowPack.FindFirst | internal/gomdb/worktable.go:142-147 | of several fields given for a column the first is taken |
| RowPack.CrackOlder | internal/gomdb/crack.go:281-301 | a row packed before columns were added gives back the columns it has and null for all later ones |
| RowOffsets.OffsetsExact | internal/gomdb/worktable.go:26-51 | packed rows come back for all full-size inputs if and only if every fixed column has the offset at which packing puts it |
| TempTable.RowFound | internal/gomdb/file.go:492-512 | every row on a slotted page is found in its slot, undeleted, with its length |
| TempTable.RowPlaced | internal/gomdb/worktable.go:102-113 | writing count, offset and data of a row keeps all earlier rows, and no slot reaches the offset table |
| TempTable.Table.AddColumn | internal/gomdb/worktable.go:26-38 | a new column gets its number, null bit and variable index |
| TempTable.Table.AddRow | internal/gomdb/worktable.go:63-114 | the table's rows become the old ones followed by the new one, on a new page when the last is full |
| TempTable.WriteRow | internal/gomdb/worktable.go:102-110 | the three writes, wherever the row lies |
| TempTable.FirstRowExact | internal/gomdb/worktable.go:86-110 | a row alone on a page comes back if and only if it has at most 4080 bytes, or the bytes it puts over row count and offset equal them |
| TempTable.OneByteTooLong | internal/gomdb/worktable.go:102-110 | a row of 4081 bytes comes back if and only if its first byte is zero |
| TempTable.PutRow | internal/gomdb/worktable.go:102-110 | the page holds one more row, in place |
| TempTable.Reader.Advance | internal/gomdb/data.go:61-78 | finds the page of the next row, or the end of the table |
| TempTable.Reader.FetchRow | internal/gomdb/data.go:61-99 | cracks the next row in insertion order |
| TempTable.StoreAndRead | internal/gomdb/worktable.go:253-280 | rows packed and added come back in order with the same bytes and null flags, across page breaks |
| Money.DoCarry | internal/gomdb/money.go:105-116 | digits end up below ten, the value is kept modulo the array's range, and no byte overflows |
| Money.MultiplyByte | internal/gomdb/money.go:88-102 | adds num times the multiplier modulo the array's range, and no byte overflows |
| Money.ToDecimal | internal/gomdb/money.go:35-46 | the growing power of 256 turns bytes into exactly the same number in decimal digits |
| Money.Negate | internal/gomdb/money.go:23-32 | inverting and incrementing gives the two's complement |
| Money.ArrayToString | internal/gomdb/money.go:119-145 | for a scale within the array the string is the canonical numeral of the digits; from its length on all places are written, after a point if the scale is the length and without one beyond |
| Money.MoneyToString | internal/gomdb/money.go:11-49 | the string denotes exactly the signed 64-bit value over 10000, -2^63 included |
| Money.NumericToString | internal/gomdb/money.go:54-84 | the string denotes exactly the word-swapped 128-bit magnitude with its sign, for fewer than 40 decimals; for 40 all places follow a bare point, and for more there is no point |
| Money.WordsExact | internal/gomdb/money.go:54-74 | the magnitude is the four stored words, each low byte first, the first word worth most; a currency field is the two words in two's complement |
| Money.NumValReads | internal/gomdb/money.go:119-145 | reading a numeral on by one digit gives ten times the number and the digit |
| Calendar.DateToTime | internal/gomdb/data.go:497-552 | out-of-range serials give no moment, all others the moment nearest to the second; the date is that of the whole part, or the next when the fraction rounds up to a whole day |
| Calendar.ReadsOne | internal/gomdb/data.go:497-552 | that leaves one answer to every serial |
| Calendar.TickSeconds | internal/gomdb/data.go:505-507 | the next second of clock and calendar is one second later |
| Calendar.CivilDate | internal/gomdb/data.go:509-550 | a serial gives the valid Gregorian date with its day number |
| Calendar.DayNumberUnique | internal/gomdb/data.go:509-550 | no other valid date has that day number |
| Calendar.SerialsAreDays | internal/gomdb/data.go:495-510 | serial 0 is 30 December 1899 and each next serial is the next day of the calendar |
| Calendar.TmDaysExact | internal/gomdb/data.go:666-676 | the day formula is one too large exactly in leap years |
| Calendar.RoundTripExact | internal/gomdb/data.go:666-685 | a moment written and read back is the same if and only if its serial is from 0 to 1000000 and its year is no leap year; in range, in a leap year it is a day late; out of range it is lost |
| Calendar.WriteAndRead | internal/gomdb/data.go:497-552 | the same of the two functions, one called on the result of the other |
| Calendar.OutOfRange | internal/gomdb/data.go:498-500 | every moment before 1899 or after 4637 is lost |
| Calendar.LeapDayLate | internal/gomdb/data.go:666-676 | the leap day of any year in range comes back as the first of March |
| Placeholders.CountPlaceholders | driver/gomdb/gomdb.go:352-389 | counts the `?` outside quotes and brackets |
| Placeholders.InterpolateSlices | driver/gomdb/gomdb.go:289-350 | the slice-copying form computes the interpolation, errors included, and succeeds if and only if the argument count is the placeholder count and every argument can be rendered |
| Placeholders.InterpolateBytes | driver/cmdb/cmdb.go:245-305 | the byte-by-byte form computes the same interpolation and succeeds under the same condition |
| Placeholders.InPlace | driver/gomdb/gomdb.go:331-350 | in a successful interpolation every literal stands where its placeholder was, every other byte of the query is kept in order, and nothing else is there |
| Placeholders.PlacesExact | driver/gomdb/gomdb.go:352-389 | in a query written as text, literals, quoted names and brackets the placeholders are the question marks in the text, none of those inside the others |
| Placeholders.ErrorsExact | driver/gomdb/gomdb.go:331-350 | which error is reported: an argument that cannot be rendered first, then one missing, then one too many |
| WhereLexer.Lexer.Next | internal/gomdb/sql.go:224-346 | the tokenizer returns the token at the position and moves past it |
| WhereLexer.SpelledRead | internal/gomdb/sql.go:231-346 | every kind of token (word, bracketed and quoted name, literal with doubled quotes, number, operator, mark, or one left open at the end) is read whole when what follows does not make it longer |
| WhereLexer.WrittenRead | internal/gomdb/sql.go:224-346 | tokens written with any white space between them, none where they cannot run together, are read back, and reading goes on with what follows |
| WhereParser.Parser.Peek | internal/gomdb/sql.go:364-370 | looking ahead changes nothing about the tokens to come |
| WhereParser.Parser.Next | internal/gomdb/sql.go:372-378 | takes exactly one token |
| WhereParser.Parser.ParseOrM | internal/gomdb/sql.go:539-565 | parses a disjunction from the tokens to come and leaves the rest |
| WhereParser.Parser.ParseAndM | internal/gomdb/sql.go:567-593 | parses a conjunction |
| WhereParser.Parser.ParseNotM | internal/gomdb/sql.go:595-609 | parses negations |
| WhereParser.Parser.ParseComparisonM | internal/gomdb/sql.go:635-657 | parses a parenthesis or a comparison |
| WhereParser.Parser.ParseLeafM | internal/gomdb/sql.go:659-765 | parses what follows a column name |
| WhereParser.Parser.ParseValueM | internal/gomdb/sql.go:767-821 | parses the literal after an operator |
| WhereParser.Parser.ParseInList | internal/gomdb/sql.go:827-884 | parses an IN list |
| WhereParser.ParseOr | internal/gomdb/sql.go:539-565 | every successful parse consumes tokens |
| WhereGrammar.FoldWord | internal/gomdb/table.go:297-315 | folding compares a word with a keyword letter by letter in either case |
| WhereGrammar.ValueExact | internal/gomdb/sql.go:767-821 | which tokens after an operator are which literals |
| WhereGrammar.WordValue | internal/gomdb/sql.go:793-808 | after any operator a word spelled TRUE in any case is the integer 1, FALSE 0, NULL asks for null, and any other word is its text |
| WhereGrammar.TailReads | internal/gomdb/sql.go:659-821 | what the grammar allows after a column (comparison, IN list, IS NULL, function call, date) is parsed as what it says |
| WhereGrammar.TailFound | internal/gomdb/sql.go:659-821 | nothing else is accepted there |
| WhereGrammar.ConditionExact | internal/gomdb/sql.go:526-657 | the parser accepts exactly the conditions of the grammar, each with the tree it stands for, and stops right after it |
| WhereRoundTrip.WrittenForm | internal/gomdb/sql.go:224-657 | however a condition of the grammar is written as text, it parses to its tree and stops at the following clause |
| WhereRoundTrip.WhereRoundTrip | internal/gomdb/sql.go:526-609 | every tree, printed with the parentheses its precedence needs and with literals or words for its values, parses to the same tree and stops at the following clause |
| WhereRoundTrip.ColumnExact | internal/gomdb/sql.go:595-609 | a comparison comes back if and only if its column name is not spelled like NOT |
| InList.FilterInts | internal/gomdb/sargs.go:404-417 | converting in place keeps exactly the integers the literals stand for |
| InList.Dedup | internal/gomdb/sargs.go:420-428 | keeps every element once, in place, in strictly ascending order |
| InList.Test | internal/gomdb/sargs.go:291-306 | binary search in a prepared list and a plain pass in a short one both decide membership |
| InList.IntIn | internal/gomdb/sargs.go:380-430 | for any list length an integer IN is membership in the literals as written |
| InList.TextIn | internal/gomdb/sargs.go:358-373 | for any list length a text IN is membership in the literals as written |
| FileCache.Store.EvictCachedFilesLocked | internal/gomdb/filecache.go:84-100 | evicts least recently used files until the counter is within the limit or nothing is left |
| FileCache.EvictionResult | internal/gomdb/filecache.go:84-100 | eviction keeps the counter's excess and never drops a file newer than one it keeps |
| FileCache.StepKeeps | internal/gomdb/filecache.go:32-82 | every critical section, wait and read of every loader keeps the invariant |
| FileCache.SingleFlight | internal/gomdb/filecache.go:47-63 | in every interleaving at most one loader at a time reads a path |
| FileCache.Bounded | internal/gomdb/filecache.go:70-82 | the cached files always fit what the sizes of overwritten entries leave of the limit, those sizes never exceed it, and whoever gets data gets the version it asked for |
| FileCache.WhoGetsWhat | internal/gomdb/filecache.go:38-82 | in every run a finished loader has no data if and only if its own read failed, or it waited and found no entry of its version; otherwise it has data of that version that a read of the run delivered |
| FileCache.CachedWasRead | internal/gomdb/filecache.go:78-80 | whatever is cached was read by a loader of the run |
| FileCache.HitNewest | internal/gomdb/filecache.go:38-43 | a hit returns the cached data at once, makes its entry the newest and changes nothing else |
| FileCache.CounterExact | internal/gomdb/filecache.go:78-80 | the counter is never below the true sum, and equal to it if and only if no stale entry has been overwritten |
| FileCache.CachedExactly | internal/gomdb/filecache.go:78-80 | the latest load stays cached if and only if it fits the limit less the sizes of all entries overwritten so far |
| FileCache.NothingStays | internal/gomdb/filecache.go:78-80 | once the overwritten sizes reach the limit the cache is empty in every later state of the run, with the counter at the limit |
| FileCache.CacheUsedUp | internal/gomdb/filecache.go:78-80 | three versions of one file of 5 bytes and a limit of 10 get there: the counter is 10 and the sum it should be is 0 |
| FileCache.CanComplete | internal/gomdb/filecache.go:65-82 | a finished read can always be entered |
| FileCache.EveryoneFinishes | internal/gomdb/filecache.go:47-82 | every run ends within three steps a loader, and every waiter is woken |
| IndexBitmap.PackBitmap | internal/cmdb/mdbtools/src/libmdb/index.c:563-598 | the page carries exactly the bits of the entry starts, zeros up to 0xf8, and is otherwise unchanged |
| IndexBitmap.UnpackBitmap | internal/cmdb/mdbtools/src/libmdb/index.c:602-638 | every write stays in the array of 2000 starts if and only if at most 1998 bits after the first are set, and then the array begins with the starts of the set bits in order and a zero, the rest unchanged |
| IndexBitmap.Jet3Fits | internal/cmdb/include/mdbtools.h:214 | a Jet3 bitmap always fits the array |
| IndexBitmap.Jet4Overruns | internal/cmdb/include/mdbtools.h:214 | a Jet4 bitmap with every bit set does not |
| IndexBitmap.RoundTripExact | internal/cmdb/mdbtools/src/libmdb/index.c:563-638 | unpacking a packed bitmap gives the starts back if and only if the mask bytes that packing does not touch were zero |
| IndexBitmap.PackAndUnpack | internal/cmdb/mdbtools/src/libmdb/index.c:563-638 | the same of the two loops, run on one page one after the other |
| IndexBitmap.Jet3RoundTrip | internal/cmdb/mdbtools/src/libmdb/index.c:563-638 | on Jet3 pages it always does |

## Left out

- ScanRuns.RowsInOrder: is stated for runs without a premature signal, because `ScanRace.InOrderExact` shows it false for others; `ScanRuns.ReadinessExact`, `SingleUseIsCareful`, `AtomicIsCareful` and `ScanRace.CarefulExact` say which runs and tables those are.
- ScanRuns.DeliveredComplete: is stated for the same runs; `ScanRace.DeliveryExact` says for which tables that is all of them.
- ScanRuns.CompleteAtTheEnd: is stated for the same runs; `ScanHang.HangExact` says for which tables every run reaches its end, and for tables of more than 256 row slots the rows can then still be wrong.
- ScanRace.CloseExact: closing a channel twice ends the Go program; the model goes on, so its other results also cover what the program does not live to do.
- PageWalk.WalkExact: does not say which further pages the brute-force fallback finds when a map lacks some pages of the table; for such maps `WalkMeets`, `WalkBrute`, `WalkEmptyMap` and `WalkAscends` are stated.
- SyncScan.SyncTable.FetchRow: repeated calls after the end of a scan, index scans, and a trailing page shorter than a page are not modelled.
- DeletedRows.MarkedOutcome: requires that the condition and the formatting, which are parameters, do not look at the changed byte, and that rows lie beyond the offset table, as `StoredRows.StoredMarkable` shows of packed rows.
- RowFormat.CrackRow: reads outside the page, where the Go program panics, yield zero or no value; Jet3 variable offsets with their jump tables are not modelled. The null byte of a column is not cut to 8 bits (crack.go:37), which matters only from column 2048 on.
- TextCompress.Compress: the conversion of the text before the compression loop is outside the model; the buffer is taken as a whole number of two-byte units.
- MemoChunks.MemoStreamed: a cyclic chain of memo rows, on which both readers loop forever, has no chunk list and is excluded; locating a memo row on its page is taken as a lookup.
- RowOffsets.OffsetsExact: assumes that a row with one fixed value given fits a page, since otherwise no row of the table can be stored.
- TempTable.StoreAndRead: requires each packed row to have at most 4080 bytes; longer rows overwrite the row count or the offset table, as `TempTable.FirstRowExact` states, and rows longer than a page make the original fail.
- Money.NumericToString: the unused scale parameter is dropped.
- Calendar.DateToTime: takes the serial as a real number, so rounding of the floating-point arithmetic is not modelled; the local time zone is left out, and Go's zero time is a value of its own.
- Placeholders.InterpolateSlices: the literal renderer is a parameter, and error texts are reduced to their kinds.
- WhereParser.Parser.ParseLeafM: parsing the date of a `strptime` call is a parameter, and number texts are kept as text.
- WhereRoundTrip.WhereRoundTrip: prints no NULL in IN lists and none of the forms without a column; `WhereRoundTrip.WrittenForm` covers these.
- InList.Test: the float form, which differs from the integer form only in its element type, is not modelled because of NaN; sorting stands for the library sort.
- FileCache.Bounded: the limit is constant during a run, and sizes are mathematical integers.
- IndexBitmap.UnpackBitmap: stops at the first write past the array of starts, where the C code goes on; what that write destroys is not modelled.
- The pool of batches shared between scans: what a fresh batch holds is arbitrary in the model, and draining the pool in `close` is not a step.
- The compare-and-swap and the channel close in `markReady` are one step, and so are the three stores with which `acquireBatch` resets a batch.
- Errors of the page walk other than the end: `ReadNextDpg` never returns one, so the error marker of the pipeline is a parameter of the configuration.
- SIMD kernels, zero-copy strings, value formatting and the evaluation of WHERE conditions other than LIKE and IN: taken as parameters or left out.
- Case-insensitive LIKE: it calls the same matcher on lower-cased text, and lower-casing is not modelled.
- Catalog and property parsing, the plan and table caches, ORDER BY, encryption, file opening, `database/sql` plumbing and the generated C parser: I/O, thin wrappers or generated code.
- Columns are numbered by their position in the table, as both scans assume.

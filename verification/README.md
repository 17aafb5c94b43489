# 1brc contest: a verified model

The repository runs a contest: count chat messages per channel and month over a billion-row CSV
file as fast as possible. This project models its three hardest parts in Dafny and proves what
they are for.

**The parallel analyzers.** The specification is one sentence (`ReferenceFold`): fold the rows
into (channel, month) -> minimum, total, maximum, count and stamps. The optimized C analyzer
reaches that result through many layers, each modelled with the form it has in the source and
proved against the layer above it:

- bytes to rows: newline-aligned cutting (`Chunks`), row layout (`Csv`, `Rows`), the eight-digit
  dot product and tail classifier (`Decode`), fast month tables (`Months`), overlapping key loads
  (`Keys`);
- rows to accumulators: packed 16-bit extrema with a 32-bit side table (`Cells`, and `Lanes` for the
  vector instructions), the delayed writes (`Queues`, `Steady`, `Discovery`), the accumulators in
  memory (`Accumulators`), and one worker as a whole (`Worker`);
- channels to IDs: the open-addressing table (`Probing`, `Dictionary`), the direct-ID tables
  (`DirectIds`), the minimal perfect hash (`Mph`);
- workers to one result: the publication protocol on one shared word as a state machine with one
  step per row and per atomic operation (`Publication`), its runs (`Runs`) and what they decide
  (`Outcomes`), re-keying and merging as values (`Tables`, `Merging`) and in memory (`Merges`, `Joins`);
- accumulators to text: ties-to-even means (`Rounding`), integers two digits at a time
  (`Printing`), the output file written in place (`Records`), and the contest's parser and comparison
  that read it back (`Loader`, `Comparison`).

`Worker.AnalyzeWorker` joins the first three in memory: one worker from the bytes of its piece to
its accumulators, with what it publishes, adopts or keeps; `Joins` merges such workers in memory.
`Program.EveryCutAndRun` joins the first and the fourth for all workers: for every input that keeps
the published guarantees, every cut into workers' pieces, every interleaving, and publication by any
worker, by none, or ending in failure, the merged map is the fold of the file's rows;
`Output.EveryRunPrintsTheFold` carries this on to the records of the output file. The Go generator of
the expected results is modelled the same way (`GoMap`, `GoAnalyze`), down to its growing hash table
and its digit arithmetic; its result does not depend on the number of threads, and
`Output.GeneratorAgrees` compares its file with the analyzer's.

**The submission queue and the leaderboard.** `Queue` is a state machine with one step per database
transaction; `Server` is the object, whose methods keep it in a state that a run of the machine
reaches, and say what each transaction means. `Leaderboard` and `Frame` rank submissions on the
server and again in the browser, and `Replay` says exactly when both agree.
`Sorting` is what they need of a stable sort.

**The channel generator.** `Paths` apportions channels to depths within their capacities and spells
each as a distinct path.

Preconditions are the input guarantees published in
`apps/web/src/components/contest/contest-document.tsx:110-137`: ASCII rows that end in a line feed,
timestamps of 2027, lengths of at least 1, at most 10,000 channels of at most 104 bytes, and group
counts, totals and stamps below 2^32. What is said about the records of an output file also asks for
channels without an equals sign or a carriage return, which the file's format cannot hold.

What the code does differently from what one might expect of it:

- `retrySubmission` does not look for another active submission, so a user can have two;
  `Queue.OneActivePerUser` names exactly the retries that cause it and `Queue.RetryCanCrowd` shows
  one.
- The browser's replay compares milliseconds, the server microseconds;
  `Replay.ReplayEqualsBoardExactly` says for which ties the two lists still agree, and
  `Replay.TieDiffers` shows a run after which they do not.
- The Go generator keeps the least and greatest length in 16 bits; `GoAnalyze.CutIsExact` says that
  its statistics are right exactly for lengths below 65,536.
- The probe loops of the C dictionary end only because a slot is free; the methods therefore ask for
  a table that is not full or a known channel, which `Dictionary.RoomForContest` and
  `Merges.LimitsLeaveRoom` derive from the published limits.

Reading order: `ReferenceFold`, `Cells`, `Tables`, `Queues`, `Publication`, `Runs`, `Program`, then any
layer. `dafny verify dfyconfig.toml` checks everything; obligations are kept small, so that none
depends on the solver's seed.

## Model

| member | source | states |
|---|---|---|
| ReferenceFold.Analyze | baselines/c/main.c:175-219 | the baseline loop leaves a table whose entry for every group is the reference statistic of all rows, and no other entries |
| ReferenceFold.AtMeaning | baselines/ts/main.ts:76-134 | the reference statistic is the count, the sums and the attained minimum and maximum of exactly the group's own rows, and absent when there are none |
| ReferenceFold.AtConcat | optimized/c/main.c:1397-1409 | statistics of two runs of rows merge to the statistics of the rows together, which is what makes splitting the input sound |
| ReferenceFold.MergeLaws | optimized/c/main.c:499-543 | merging statistics is commutative and associative, so no order of merging matters |
| Cells.CellAddRefines | optimized/c/main.c:456-498 | adding a row of any 32-bit length to packed 16-bit extrema plus side entry keeps the representation and merges exactly that row, both below and above the 16-bit limit |
| Cells.MergeCellRefines | optimized/c/main.c:544-590 | merging two represented accumulators keeps the representation and merges their statistics, with the side entries and the two shortcuts for empty sides |
| Cells.FitsPart | apps/web/src/components/contest/contest-document.tsx:133-137 | group totals that fit 32 bits bound every partial sum as well |
| Lanes.AddLaneMeaning | optimized/c/main.c:465-466 | adding word pairs with carry is 32-bit addition of the numbers they spell |
| Lanes.TernaryComplement | optimized/c/main.c:467-475 | the three-input bit operation with these masks yields the complement of a word, derived bit by bit from its truth table |
| Lanes.CandidateWords | optimized/c/main.c:467-475 | the vector compared with holds the length in word 6, its complement in word 7, and the identity of the minimum elsewhere |
| Lanes.StatsAddIsVectorAdd | optimized/c/main.c:456-477 | the vector update of one row does to the packed struct what the scalar description says, field by field |
| Lanes.MergeStatsIsVectorMerge | optimized/c/main.c:520-525 | the vector merge of two non-empty structs, counters added and extrema taken by one minimum, is the scalar merge |
| Lanes.DummyIsSpoiled | optimized/c/main.c:823-831 | an all-zero increment would destroy a minimum, so idle delayed writes may only touch the dummy |
| Tables.AddAtShaped | optimized/c/main.c:456-498 | one row lands in its own accumulator and merges with what it held |
| Tables.RekeyKeepsGroups | optimized/c/main.c:716-738 | re-keying a worker's accumulators to shared IDs moves every group and invents none |
| Tables.MergeIdsGroups | optimized/c/main.c:544-590 | merging accumulators of equal position merges group by group when the IDs agree |
| Tables.MergeByKeyGroups | optimized/c/main.c:499-543 | merging channel by channel merges group by group in whatever order the hash table yields the channels |
| Tables.MergeChannelGroups | optimized/c/main.c:506-541 | merging one channel changes that channel's twelve groups and no other |
| Queues.ConsumeCounts | optimized/c/main.c:849-933 | writing the oldest delayed increment and delaying the next row keeps the sum of table and queue, plus exactly that row, long rows included |
| Queues.DrainKeeps | optimized/c/main.c:456-477 | writing a delayed increment moves it from the queue into the table and changes no group's sum |
| Queues.DrainAllKeeps | optimized/c/main.c:935-939 | after the closing writes the table alone holds everything |
| Publication.StepOk | optimized/c/main.c:740-764 | every atomic step of every worker, for every outcome of building the index, keeps the invariant: each worker's table and queue are the fold of the rows it has consumed, at most one worker builds, and every adopter has the publisher's channels |
| Publication.MoveOk | optimized/c/main.c:988-1118 | each kind of step preserves its worker's accounts and moves the shared word only along its protocol; that it does move it is stated by the rows of Outcomes |
| Publication.PublishedDictionary | optimized/c/main.c:400-414 | what is published is a dictionary of 10,000 distinct channels, all of the input |
| Publication.CanonicalizeOk | optimized/c/main.c:694-739 | adopting drains the queue, re-keys, and leaves the worker's account of its rows unchanged |
| Publication.ParseRowOk | optimized/c/main.c:988-1101 | a row of the discovery loop extends the worker's account by exactly that row |
| Publication.SteadyRowOk | optimized/c/main.c:832-934 | a row after publication extends the account by exactly that row, under shared IDs |
| Publication.CompleteDictionary | optimized/c/main.c:425-455 | distinct channels as many as the limit allows are all the channels there are |
| Runs.PublicationIsFinal | optimized/c/main.c:740-764 | once the word is taken nobody starts to claim it any more; once it is a published dictionary or FAILED it never changes in any continuation, nor do the dictionary's channels, which are all channels of the input |
| Runs.PublicationIsUsed | optimized/c/main.c:975-1119 | once a dictionary is published, any worker completes at most the row it is reading before it uses it, and whoever was still working ends under it |
| Runs.OneBuilder | optimized/c/main.c:744-757 | if two workers build at any two moments of a run they are the same worker |
| Runs.EveryAdopterAgrees | optimized/c/main.c:694-739 | no worker ever reaches the error "published dictionary miss", and every worker that has adopted has the publisher's channels under the publisher's IDs |
| Outcomes.NullMeansIncomplete | optimized/c/main.c:740-764 | in every run: while the word is null no worker has gone past a check, or ended, with a dictionary of all channels |
| Outcomes.AnnouncedExactly | optimized/c/main.c:740-764 | after the join the word has been taken if and only if some worker's piece names all 10,000 channels |
| Outcomes.AnnouncedAsBuilt | optimized/c/main.c:744-757 | after the join the word holds a worker's map, or FAILED, if and only if that worker's, or some worker's, build_mph had this outcome |
| Runs.WaitFree | optimized/c/main.c:740-764 | no worker waits for another: after 10n+2 turns of its own it has finished its n rows, however long others stall, even while building |
| Runs.ParallelEqualsSequential | optimized/c/main.c:1372-1410 | in every interleaving, with publication by any worker at any row, never, or ending in FAILED, the map the main thread merges after the join is the sequential fold of all rows |
| Merging.MergeByIdsIsComplete | optimized/c/main.c:1397-1403 | merging every other worker into the publisher by ID yields the fold of all pieces |
| Merging.MergeByKeyIsComplete | optimized/c/main.c:1405-1409 | without publication, merging by key into the first worker yields the same |
| Program.EveryCutAndRun | optimized/c/main.c:1344-1410 | from the bytes of the file: for every cut into pieces and every interleaving, the merged map is the fold of the rows in the file |
| Months.MonthOfMeaning | baselines/c/main.c:53-61 | the baseline's scan finds the one month whose bounds contain the timestamp, and fails exactly outside 2027 |
| Months.MonthIsCalendar | baselines/c/main.c:53-61 | a timestamp gets the month of the Gregorian calendar that has its day, counted from 1 January 1970 with leap years, and one exactly in 2027 |
| Months.FillMonthByPeriod | optimized/c/main.c:1294-1301 | the table built in one pass holds for every 3200-second period the month of its start |
| Months.PeriodLookup | optimized/c/main.c:991-992 | the lookup by 32 units of 100 seconds gives the baseline's month for every timestamp of 2027 |
| Months.FillMonthByDay | internal/expected/generate.go:103-114 | the day table holds for each of 365 days the month of its start |
| Months.DayLookup | internal/expected/generate.go:298-301 | the lookup by day gives the baseline's month for every timestamp of 2027 |
| Months.MultiplyShiftDay | optimized/cpp/main.cpp:775-781 | (delta * 155345) >> 27 equals delta / 864 for every delta below 315360 |
| Months.MultiplyShiftLookup | optimized/cpp/main.cpp:775-781 | the multiply-shift day gives the baseline's month for every timestamp of 2027 |
| Decode.Timestamp8Value | optimized/c/main.c:765-778 | the biased 32-bit dot product of the first eight digits is the timestamp divided by 100 |
| Decode.ChannelLength | optimized/c/main.c:779-807 | scanning 16 bytes at a time returns the position of the first comma |
| Decode.ClassifierIsExact | optimized/c/main.c:1021-1070 | each byte test on the aligned eight bytes holds exactly for its numbers of digits, whatever valid row or zero page follows |
| Decode.DecodeTail | optimized/c/main.c:1021-1081 | length, stamps and next row are those of the scalar digits for every tail, and the fast path is taken exactly for the five fast shapes |
| Decode.ScalarNumber | optimized/c/main.c:1074-1081 | the scalar loop reads the number up to its delimiter and stops behind it |
| Keys.HashIsLocal | optimized/c/main.c:219-242 | the hash depends only on the key's own bytes, although its loads reach beyond them |
| Keys.KeyEqualMeaning | optimized/c/main.c:187-218 | the overlapping word comparisons decide bytewise equality, in both directions |
| Csv.CutAtLineFeed | optimized/c/main.c:1360-1364 | a cut behind any line feed separates whole lines |
| Rows.LineIsRow | optimized/c/main.c:988-1081 | a line of the file, followed by another or by the zero page, is laid out as the decoders assume |
| Rows.LinesAreLaid | optimized/c/main.c:988-1081 | all lines of a stretch are laid out that way, each starting where the previous ends |
| Rows.ReadRow | optimized/c/main.c:991-1081 | reading a row returns its month, channel, hash, length and stamps and the start of the next row |
| Rows.CutLines | optimized/c/main.c:945-955 | a place behind a line feed splits the remaining rows without losing or sharing one |
| Chunks.Split | optimized/c/main.c:1344-1371 | the workers' pieces cover the body in order; there are as many as processors, but at most one for every 4,096 bytes and one more; each piece but the first begins just behind the line that holds its even share's first byte |
| Chunks.ShareMeaning | optimized/c/main.c:1358-1360 | the even share of i of n workers is the whole part of i/n of the bytes |
| Chunks.SplitChunks | internal/expected/generate.go:303-334 | the Go pieces are non-empty, cover the body exactly and in order, and end exactly at the even cuts and at the end; an empty body has none |
| Chunks.PiecesAreRows | internal/expected/generate.go:188-240 | every row of the file lies in exactly one piece of any such partition, in order |
| DirectIds.CellMeaning | optimized/c/main.c:369-374 | a cell is 0, an ID or the sentinel exactly as no, one or several channels index it |
| DirectIds.InsertKeepsTable | optimized/c/main.c:369-374 | claiming a cell for a new channel keeps that meaning for every cell |
| DirectIds.KnownChannel | optimized/c/main.c:430-452 | for a known channel a cell is its own ID or the sentinel, never empty and never another ID |
| Probing.InsertOk | optimized/c/main.c:353-399 | filling the empty slot a probe reached keeps every ID reachable from its home without crossing an empty slot |
| Probing.AbsentAtEmpty | optimized/c/main.c:384-399 | a probe that ends at an empty slot proves the ID absent |
| Probing.SomeSlotEmpty | optimized/c/main.c:384-399 | fewer IDs than slots leave a free slot, so probes end |
| Dictionary.FlatMap.constructor | optimized/c/main.c:265-298 | an empty dictionary whose hash table and three direct-ID tables index nothing |
| Dictionary.FlatMap.Insert | optimized/c/main.c:353-381 | a new channel gets the next ID in the hash table and all three direct-ID tables, or nothing changes; it fails exactly for lack of accumulators or arena |
| Dictionary.FlatMap.Probe | optimized/c/main.c:385-398 | the probe stops at the channel's entry if and only if it is known, else at the empty entry where it belongs |
| Dictionary.FlatMap.Find | optimized/c/main.c:384-399 | returns the channel's ID, inserting it exactly when it was unknown |
| Dictionary.FlatMap.FindReadonly | optimized/c/main.c:400-414 | finds exactly the known channels, under their own IDs |
| Dictionary.FlatMap.FindSlot3 | optimized/c/main.c:425-455 | the three-table lookup, the probe and the insertion together return the channel's own ID, whichever answers |
| Dictionary.FlatMap.CollectHashes | optimized/c/main.c:612-618 | from the hash table: the hash of every ID and the size of every bucket |
| Dictionary.FlatMap.BuildMph | optimized/c/main.c:599-693 | builds the index if and only if bucket after bucket, largest first, one of the 4,096 odd multipliers tried fits; then the index is complete, otherwise dictionary and direct-ID tables are untouched |
| Dictionary.FlatMap.FindPublished | optimized/c/main.c:415-424 | the published lookup returns each of the known channels its own ID |
| Dictionary.Overlay | optimized/c/main.c:685-689 | seeds and IDs read back from the memory of the first direct-ID table |
| Dictionary.RoomForContest | apps/web/src/components/contest/contest-document.tsx:127-132 | within the published limits neither capacity error can occur |
| Dictionary.InsertKeepsEntries | optimized/c/main.c:364-368 | a new entry keeps the table an exact index: every channel once, every entry describing its own bytes in the arena |
| Mph.GroupByBucket | optimized/c/main.c:619-628 | counting sort: every ID once, grouped by bucket |
| Mph.TrySeed | optimized/c/main.c:641-655 | an attempt succeeds exactly when no two different hashes share a slot, among themselves or with slots already taken |
| Mph.FindSeed | optimized/c/main.c:636-658 | finds a multiplier exactly when one of those tried fits, and then the first of them that does |
| Mph.FirstFitMeaning | optimized/c/main.c:636-658 | the reference search takes the least odd number below 8,192 that fits, and gives up exactly when none of them does |
| Mph.SpreadIsIndexable | optimized/c/main.c:599-693 | channels whose different hashes differ in their top fourteen bits can always be indexed |
| Mph.SearchIsFirstFit | optimized/c/main.c:631-677 | the loop's search for a bucket is the first fitting multiplier of the reference search, on the hashes placed so far |
| Mph.FitsIffBucketFits | optimized/c/main.c:641-655 | a multiplier fits the tables in memory exactly when it separates the bucket from itself and from every bucket placed before |
| Mph.PlaceBucket | optimized/c/main.c:631-677 | a bucket is placed exactly when some multiplier tried fits, at its first fitting one, extending the table by its IDs; otherwise the tables are as they were |
| Mph.BuildTables | optimized/c/main.c:619-684 | succeeds exactly when the reference search gets through all buckets, with its multipliers; then distinct hashes never share a slot and equal hashes leave the sentinel |
| Mph.CheckAll | optimized/c/main.c:678-684 | the final check never fails |
| Mph.LookupMeaning | optimized/c/main.c:415-424 | a slot holds the channel's own ID exactly when its hash is unique, and the sentinel exactly when another channel has the same hash |
| Accumulators.Aggregates.constructor | optimized/c/main.c:299-333 | empty accumulators for a closed set of channels |
| Accumulators.Aggregates.Zeroed | optimized/c/main.c:265-298 | zeroed accumulators for every channel that may be discovered |
| Accumulators.Aggregates.AddWide | optimized/c/main.c:478-498 | a long message is counted at once in its own accumulator, with the side table allocated on first use, and nothing else changes |
| Accumulators.Aggregates.WriteBack | optimized/c/main.c:456-477 | writing through a pending pointer adds exactly the queued increment to its accumulator; through the dummy it changes no accumulator |
| Steady.Delay | optimized/c/main.c:907-933 | a row is delayed, or counted at once exactly when its length needs 32 bits |
| Steady.SteadyRow | optimized/c/main.c:840-933 | one row of the published loop performs the step of the five-deep queue |
| Steady.DrainFive | optimized/c/main.c:935-939 | the five closing writes empty the queue into the table |
| Steady.Segment | optimized/c/main.c:820-940 | a segment read from memory leaves the accumulators as the pipeline of all its rows, drained |
| Steady.ConsumedCounts | optimized/c/main.c:820-940 | after any number of rows, accumulators and five delayed increments together are the previous contents and the fold of these rows |
| Steady.QueueIsLastFive | optimized/c/main.c:907-933 | after every row exactly the last five rows wait to be written, in order, less those too long to wait |
| Steady.SegmentAdds | optimized/c/main.c:820-940 | after the drain the accumulators alone hold the previous contents and the fold of the segment's rows |
| Steady.SegmentEnd | optimized/c/main.c:945-955 | a segment ends just behind the first line feed from 256 MiB on, or at the end of the rows, and makes progress |
| Steady.SteadyRows | optimized/c/main.c:941-968 | however the rows are cut into segments, each is counted once |
| Discovery.InitMonths | optimized/c/main.c:375-379 | a new channel's twelve zeroed accumulators become empty ones and no other changes |
| Discovery.Discover | optimized/c/main.c:425-455 | looking a channel up in memory is the table's operation of interning it, and the ID returned is its own |
| Discovery.DiscoverRow | optimized/c/main.c:1000-1101 | one row of the discovery loop in memory is the protocol's step: intern, write the delayed increment, delay the row |
| Worker.NextRow | optimized/c/main.c:988-1101 | reading a line from memory and counting it extends the worker's account by exactly that row, as long as the published limits hold |
| Worker.DiscoverRows | optimized/c/main.c:988-1111 | discovery stops behind the given row number, or at the end when there are fewer rows, with dictionary, accumulators and delayed write accounting for exactly the rows read and the channels in order of first mention |
| Worker.Adopt | optimized/c/main.c:1102-1110 | adopting another worker's dictionary after any row and counting the remaining rows leaves the fold of all rows under the published IDs, in accumulators of its own |
| Worker.PublishOwn | optimized/c/main.c:744-757 | publishes exactly when the own dictionary is complete and its index can be built; then the index serves every channel of the input and stays so while the remaining rows are counted with it; otherwise dictionary and accumulators are as before |
| Worker.Unaided | optimized/c/main.c:988-1119 | a worker that sees no other dictionary publishes exactly at a check with a complete indexable dictionary of its own, and otherwise keeps its map; all its rows are counted either way |
| Worker.Beside | optimized/c/main.c:1102-1119 | beside a published dictionary a worker adopts exactly when a check or its last look sees it, and otherwise keeps its map; all its rows are counted either way |
| Worker.AnalyzeWorker | optimized/c/main.c:969-1119 | from the bytes of a worker's piece: it ends as adopter, publisher or alone exactly as the publication seen, its row number and the index decide; the dictionary it ends with is the published one, its own indexed one that serves all others, or its own open one; and its own new accumulators hold exactly the fold of its rows |
| Worker.EndsAs | optimized/c/main.c:740-764 | beside a published dictionary a worker adopts exactly when it looks; otherwise it publishes exactly when its rows up to the check name all 10,000 channels and build_mph can index them |
| Worker.FirstSeenNames | optimized/c/main.c:353-399 | a worker's dictionary is exactly the channels of its rows, each once |
| Merges.MergeMonth | optimized/c/main.c:507-539 | one accumulator of one worker merged in memory into one of another, side entries included, and no other changes |
| Merges.MergeByIds | optimized/c/main.c:544-590 | the loop over channels and months is the merge by position |
| Merges.MergeEntry | optimized/c/main.c:506-541 | a channel of the source is found or inserted in the target and its twelve months merged |
| Merges.MergeMaps | optimized/c/main.c:499-543 | the loop over the source's slots is the merge by key in slot order, source unchanged |
| Merges.SlotOrderVisits | optimized/c/main.c:505-508 | the slots yield every channel exactly once |
| Merges.MergedGroups | optimized/c/main.c:499-543 | hence every group of the target becomes the merge of both maps' groups |
| Merges.LimitsLeaveRoom | apps/web/src/components/contest/contest-document.tsx:127-132 | while merging within the published limits there is always room for the next channel |
| Merges.Canonicalize | optimized/c/main.c:716-738 | the loop over the worker's slots leaves exactly its re-keyed table, side entries included |
| Merges.KeepOwn | optimized/c/main.c:694-715 | the publisher's own accumulators survive being moved to a smaller allocation |
| Joins.JoinAllByIds | optimized/c/main.c:1397-1403 | in memory: merging all other workers' results under the published dictionary into the publisher's leaves the fold of all their rows |
| Joins.JoinByKey | optimized/c/main.c:499-543 | in memory: merging one worker's open map into another's leaves the fold of both workers' rows |
| Joins.JoinAllByKey | optimized/c/main.c:1405-1409 | in memory: without publication, merging every other map into the first leaves the fold of all rows |
| Joins.KeptWaits | optimized/c/main.c:1405-1409 | a worker that kept its own map brings exactly the rows it has counted to the merge |
| Joins.MergedByKey | optimized/c/main.c:499-543 | whatever the order of the source's slots, the merged table holds the rows of both |
| Printing.NumeralMeaning | optimized/c/main.c:1156-1179 | the numeral spells its number in decimal, without leading zeros |
| Printing.WidthIsExact | optimized/c/main.c:1160-1163 | the estimate bits * 1233 / 4096 with one comparison is the exact number of digits of every 32-bit value |
| Printing.AppendUint | optimized/c/main.c:1156-1179 | writes the numeral at its place, two digits at a time, and leaves every other byte |
| Rounding.RoundsToNearest | baselines/ts/main.ts:170-182 | the reference rounding is the nearest integer, of two equally near ones the even, as roundTiesToEven of section 4.3.1 of IEEE 754-2019 asks |
| Rounding.NearestIsUnique | baselines/ts/main.ts:170-182 | there is only one such integer |
| Rounding.ShiftIsReference | optimized/c/main.c:1194-1201 | for every binary64 with a fractional part the biased shift equals the big-integer reference |
| Rounding.DivideIsQuotient | optimized/c/main.c:1182-1182 | the quotient of 32-bit operands is correctly rounded, normal, and in the range the shifts decode |
| Rounding.NoOverflow | optimized/c/main.c:1190-1200 | no intermediate exceeds 64 bits |
| Rounding.BitsDecode | optimized/c/main.c:1183-1194 | masks and shifts recover significand and exponent from the bit pattern |
| Rounding.ScaledCents | optimized/c/main.c:1183-1201 | decoding the bit pattern and one biased shift give the reference's hundredths |
| Rounding.AppendAverage | optimized/c/main.c:1180-1207 | writes exactly the reference's text of the mean and no other byte |
| Rounding.CentsAreMean | baselines/ts/main.ts:152-187 | what is printed is the correctly rounded double quotient, to the nearest hundredth, ties to even |
| Rounding.MeanIsUnique | baselines/ts/main.ts:152-187 | only one number of hundredths is that |
| Rounding.PrintedMeanBetween | optimized/c/main.c:1258-1262 | a printed mean lies between the printed minimum and maximum of its group |
| Records.WriteResult | optimized/c/main.c:1208-1273 | walking the map and writing every line in place into the 4 MiB buffer, flushed whenever a line might not fit, yields one line per non-empty group in the walk's order and never overflows the buffer; each line is the channel, a comma, 2027, a dash and the month in two digits, an equals sign, and least length, mean, greatest length, count and stamps as plain numerals between slashes, the mean being the double quotient to the nearest hundredth |
| Records.PutLine | optimized/c/main.c:1233-1267 | a line written in place, by the integer and mean writers, is exactly the group's line behind what the buffer held, within the slack of 96 bytes |
| Records.Emit | optimized/c/main.c:1222-1267 | what was written out and the buffer together grow by exactly the line, whether or not the buffer was flushed first |
| Records.RecordSays | optimized/c/main.c:1233-1267 | a printed line spells its channel, month and statistics |
| Records.KeySaysOnce | optimized/c/main.c:1240-1249 | a group has one key |
| Records.ValueSaysOnce | optimized/c/main.c:1250-1267 | a group has one value |
| Loader.LoadRecords | apps/runner/src/compare.ts:41-66 | the text loads if and only if each of its lines is empty, or has its first equals sign neither first nor last, a value of the pattern and a key no earlier line has; then as exactly these pairs; else the error is that of the first line that fails, by the source's order of tests |
| Loader.MatchesExactly | apps/runner/src/compare.ts:60-62 | the value test accepts exactly five runs of digits with slashes between them, the second with a point and two decimals |
| Loader.SplitMeaning | apps/runner/src/compare.ts:43-49 | the lines are the text cut at its line feeds, the last one with or without one |
| Records.ValueMatches | apps/runner/src/compare.ts:59-61 | what is printed for a group matches the pattern the parser demands |
| Records.KeyInjective | optimized/c/main.c:1233-1249 | whatever says the month of a channel determines channel and month |
| Records.OutputLoadsBack | apps/runner/src/compare.ts:41-66 | printed records parse back to exactly themselves |
| Records.FileLoadsBack | apps/runner/src/compare.ts:41-66 | the file parses back to exactly one record for each non-empty group, with that group's values |
| Comparison.CompareRecords | apps/runner/src/compare.ts:23-39 | passes exactly equal maps; an error names the first offending key of the output, and the first missing key only when everything in the output is right |
| Comparison.SameRowsSameRecords | apps/runner/src/compare.ts:11-21 | two maps of the same rows print files that load as equal records, in whatever order channels were discovered and printed, so they always pass each other's comparison |
| Comparison.MapIsWritable | apps/web/src/components/contest/contest-document.tsx:110-137 | a map that holds contest rows can always be written: channels are clean and short, counts are at most totals, and all numbers have 32 bits |
| Comparison.PrintsTheFold | apps/runner/src/compare.ts:41-66 | whatever the order of channels, a map of contest rows prints a file that loads as exactly one record for every group that has rows, whose key spells channel and month and whose value spells the group's statistics, and no other |
| Comparison.FoldRecordsAreUnique | apps/runner/src/compare.ts:23-39 | only one set of records says that, because numerals, keys and rounded means are unique |
| Output.EveryRunPrintsTheFold | optimized/c/main.c:1344-1410 | end to end: for every cut of the file, every interleaving of the workers and every order of printing, the output file loads as exactly the records of the fold of the file's rows |
| Output.WriteExpected | internal/expected/generate.go:472-516 | the generator's file is one line per non-empty group, in any order of the channels, each saying what its group holds |
| Output.GeneratorAgrees | internal/expected/generate.go:472-516 | for messages below 65,536 characters the generator's file and the analyzer's load as the same records, in whatever order either prints |
| GoMap.InsertRehashed | internal/expected/generate.go:449-458 | an entry finds a place in the larger table that keeps it an index |
| GoMap.FlatMap.Rehash | internal/expected/generate.go:437-447 | a larger table with the same channels under the same IDs, every one reachable |
| GoMap.Probe | internal/expected/generate.go:376-399 | stops at the key's entry exactly when it is known, else at the free entry of its chain |
| GoMap.FlatMap.FindOrInsert | internal/expected/generate.go:376-399 | returns the key's entry, adding it with twelve empty groups exactly when it was unknown |
| GoMap.FlatMap.MakeRoom | internal/expected/generate.go:349-351 | after the load check one more entry keeps the load below 7/10 |
| GoMap.AddStatsRefines | internal/expected/generate.go:354-373 | the update with a row of any length is one reference merge with the length cut to 16 bits in the extrema, which is the row itself exactly when the length fits |
| GoMap.MergeGoStatsRefines | internal/expected/generate.go:414-433 | merging two groups is the reference merge |
| GoMap.FlatMap.Add | internal/expected/generate.go:348-374 | adds one row of any length to its group, keeps every other group, and no key is ever stored twice |
| GoMap.FlatMap.MergeFrom | internal/expected/generate.go:401-435 | every group becomes the reference merge of both maps' groups |
| GoAnalyze.First8Value | internal/expected/generate.go:254-257 | the packed-digit arithmetic yields the number of the first eight digits |
| GoAnalyze.Month | internal/expected/generate.go:254-259 | packed digits and day table together give the baseline's month |
| GoAnalyze.ReadGoRow | internal/expected/generate.go:254-281 | reading a row returns its month, channel bytes, length, stamps and the next row |
| GoAnalyze.AnalyzeChunk | internal/expected/generate.go:242-296 | the map of a piece holds exact sums and the extrema of the lengths cut to 16 bits, for rows of any length |
| GoAnalyze.AnalyzeMemory | internal/expected/generate.go:188-240 | the merged map does not depend on the number of threads, and it is the reference fold of all rows if and only if every length is below 65,536 |
| GoAnalyze.CutConcat | internal/expected/generate.go:401-435 | statistics with cut lengths merge over pieces like the reference's |
| GoAnalyze.CutIsExact | internal/expected/generate.go:354-373 | the generator's statistics are the reference's for every group if and only if every length is below 65,536 |
| GoAnalyze.LongMessageIsEmpty | internal/expected/generate.go:354-373 | a message of 65,536 characters has minimum and maximum zero |
| Queue.StepKeeps | apps/server/internal/server/worker.go:217-246 | every transaction keeps the invariant, among it: each user's representative is the greatest eligible submission by start and ID |
| Queue.RunKeeps | apps/server/internal/server/repository.go:172-235 | the invariant holds after every run from the empty database |
| Queue.RepresentativeIsGreatest | apps/server/internal/server/worker.go:217-246 | in every run, whatever order results are stored in and after any retries, the representative is that maximum, or none when there is none |
| Queue.RepresentativeIsUnique | apps/server/internal/server/worker.go:217-246 | the maximum is unique |
| Queue.PromoteRepresents | apps/server/internal/server/worker.go:236-243 | after storing a result the pointer is again the greatest eligible submission |
| Queue.AtMostOneRunning | apps/server/internal/server/worker.go:186-208 | at most one row runs, and it is the job in hand |
| Queue.CompletedForever | apps/server/internal/server/repository.go:538-548 | a stored result survives every continuation and its row never becomes active again, retries included |
| Queue.DisqualifiedForever | apps/server/internal/server/repository.go:549-566 | a disqualification reason is never cleared |
| Queue.SubmittedForever | apps/server/internal/server/repository.go:213-228 | over runs: once queued, a submission is never lost and keeps its user, start and language |
| Queue.OneActiveStep | apps/server/internal/server/repository.go:538-548 | a step leaves one active row per user exactly unless it retries a failed row of a user who has another active one |
| Queue.OneActivePerUser | apps/server/internal/server/repository.go:172-204 | over whole runs: a user never has two active rows if and only if no retry was of that kind |
| Queue.RetryCanCrowd | apps/server/internal/server/repository.go:538-548 | a run in which a retry gives a user two active rows |
| Queue.DiscardUndoesReserve | apps/server/internal/server/repository.go:229-235 | discarding a fresh reservation restores the rows, the job and the publication |
| Queue.UploadUntil | apps/server/internal/server/repository.go:213-235 | over runs: whatever other transactions run, an uploading row stays as it is exactly until its own queue or discard step or a recovery |
| Queue.ReservedUploadQueues | apps/server/internal/server/upload.go:39-70 | a reserved upload is queued at last exactly when nothing has ended it meanwhile, and then as the row that was reserved |
| Queue.QueueMeaning | apps/server/internal/server/repository.go:213-228 | queueing takes exactly an uploading row, keeps the order of the queue by start, and leaves its user no upload |
| Queue.PublishMeaning | apps/server/internal/server/repository.go:601-627 | publishing is refused while published, then before the end, then while anyone has an active row, changing nothing; else it takes effect now |
| Queue.ReserveMeaning | apps/server/internal/server/repository.go:172-204 | a reservation is refused in the source's order, changing nothing, or adds one uploading row without a result |
| Queue.ClaimMeaning | apps/server/internal/server/worker.go:186-208 | claiming takes the earliest queued row and changes its status only |
| Queue.DiscardMeaning | apps/server/internal/server/repository.go:229-235 | discarding loses no result and frees the user |
| Queue.FailMeaning | apps/server/internal/server/worker.go:209-216 | a failed job can be retried and nothing runs |
| Queue.StoreResultMeaning | apps/server/internal/server/worker.go:217-246 | storing a result touches the job's row only and leaves nothing running |
| Queue.StorePointerMeaning | apps/server/internal/server/worker.go:236-243 | only the stored row's user can get a new pointer, the row itself |
| Queue.RecoverMeaning | apps/server/internal/server/worker.go:44-90 | recovery leaves nothing running or uploading and nothing else changed |
| Queue.RetryMeaning | apps/server/internal/server/repository.go:538-548 | a retry returns exactly a failed row to its place by start; one active row per user survives exactly when the user had none |
| Queue.DisqualifyMeaning | apps/server/internal/server/repository.go:549-566 | a disqualified row keeps its result and leaves the queue |
| Server.Server.ReserveSubmission | apps/server/internal/server/repository.go:172-204 | refused before the start, then while the user has a row that is being uploaded, queued or running, then for a known ID, changing nothing; else the user has one new uploading row with this start and without a result, and nothing else differs |
| Server.Server.QueueUpload | apps/server/internal/server/repository.go:213-228 | exactly an uploading row enters the queue, under its user and start and with its language; the row that was next stays next unless the new one started earlier; its user has no upload left; no other row, pointer or job changes, and a refusal changes nothing |
| Server.Server.DiscardUpload | apps/server/internal/server/repository.go:229-235 | afterwards the row is not being uploaded; nothing but that row is gone, no result is lost, and a user with no other active row may reserve again |
| Server.Server.AcceptSubmission | apps/server/internal/server/upload.go:39-70 | with no other transaction in between, an upload ends queued exactly when the contest has started, the user has no active row and the upload is parsed, stored and sent; any failure leaves the rows as they were |
| Server.Server.FinishUpload | apps/server/internal/server/upload.go:39-70 | whatever has happened since the reservation, the upload is queued exactly when its row is still uploading and it is parsed, stored and sent; otherwise the row is not being uploaded any more |
| Server.Server.ClaimNext | apps/server/internal/server/worker.go:186-208 | the earliest queued row becomes the job and the one row that runs, still the same user's submission in the same language and without a result, and nothing else changes; nothing is claimed exactly when nothing is queued |
| Server.Server.StoreResult | apps/server/internal/server/worker.go:217-246 | the job's row has the result and nothing runs any more; every user's pointer is the greatest eligible submission, and only the row's own user can have got a new one, the row itself; no other row changes |
| Server.Server.MarkInfrastructureFailure | apps/server/internal/server/worker.go:209-216 | the job's row has failed without a result and can be retried, nothing runs any more, and no other row or pointer changes |
| Server.Server.RecoverInterrupted | apps/server/internal/server/worker.go:44-90 | nothing runs and nothing is being uploaded; what was running has failed and can be retried, and every other row, pointer and the publication are as before |
| Server.Server.RetrySubmission | apps/server/internal/server/repository.go:538-548 | exactly a failed row goes back to the queue, at the place its start gives it; the user then has one active row if and only if there was none; a refusal changes nothing |
| Server.Server.DisqualifySubmission | apps/server/internal/server/repository.go:549-566 | refused exactly for unknown rows and for rows being uploaded or running, changing nothing; else the row has its reason, keeps its result and can no longer be claimed, and no other row changes |
| Server.Server.PublishPrivate | apps/server/internal/server/repository.go:601-627 | refused while published, then before the end, then while a row is being uploaded, queued or running; else it is published now and every row has its final status; nothing else changes |
| Server.Server.UnpublishPrivate | apps/server/internal/server/repository.go:628-638 | nothing is published afterwards, whatever was before, and publishing depends on the clock and the queue alone again |
| Leaderboard.CompareDecimalIsNumeric | apps/server/internal/server/repository.go:356-372 | the string comparison is numeric order on digit strings with any leading zeros |
| Leaderboard.Ranks | apps/server/internal/server/repository.go:374-409 | for either board the map gives exactly the rows with that board's accepted verdict and score and without disqualification their rank: one more than the number of such rows with a smaller score, or the same score and an earlier start |
| Leaderboard.ArrangedIsRanked | apps/server/internal/server/repository.go:374-409 | a row's place in the arrangement is one more than the number of rows ahead of it |
| Leaderboard.SortedByRank | apps/server/internal/server/repository.go:447-447 | sorting the entries by rank gives exactly ranks 1..n |
| Leaderboard.BuildLeaderboard | apps/server/internal/server/repository.go:374-449 | one entry for every row: ranked ones in order with ranks 1..n, where the rank is one more than the number of rows ahead by the board's own score and the start, the others apart and without rank; each entry shows its row and the board's own verdict and score, and once the private results are published its source and the difference of its two ranks, before that neither |
| Leaderboard.OtherEntriesMeaning | apps/server/internal/server/repository.go:440-444 | the entries without a rank are exactly those of the rows that cannot be ranked, in the query's order |
| Leaderboard.ExtrasPublish | apps/server/internal/server/repository.go:432-439 | the changes of rank taken from the two maps are the differences of the positions in the two arrangements |
| Sorting.SortsAgree | apps/server/internal/server/repository.go:393-405 | two stable sorts of the same elements agree exactly when they order every pair alike, ties by place |
| Sorting.PlaceIsCount | apps/server/internal/server/repository.go:391-404 | a stable sort puts an element behind exactly those that precede it |
| Frame.BuildReplayFrame | apps/web/src/models/leaderboard.ts:10-53 | the frame of the first submissions has one entry for each user's last accepted one of them that is not disqualified, passes the filter and is accepted with a private score, with ranks 1..n by score, millisecond and the user's first appearance |
| Frame.ShownIsFramed | apps/web/src/models/leaderboard.ts:15-30 | the list before it is sorted has exactly each user's last accepted submission that passes the filters |
| Frame.LatestMeaning | apps/web/src/models/leaderboard.ts:15-20 | the map keeps each user's last accepted submission |
| Replay.LatestIsRepresentative | apps/web/src/models/leaderboard.ts:15-20 | that submission is the representative the server maintains |
| Frame.KeysByAppearance | apps/web/src/models/leaderboard.ts:15-20 | the map keeps users in the order of their first accepted submissions in the replay |
| Frame.ShownByAppearance | apps/web/src/models/leaderboard.ts:15-30 | and so does the list before it is sorted |
| Replay.SameSubmissions | apps/server/internal/server/repository.go:459-499 | board and replay rank the same submissions under every language filter |
| Replay.BoardShowsTables | apps/server/internal/server/repository.go:326-355 | either board over the rows of its query shows every user's greatest eligible submission, in the language asked for, as the tables have it, and nothing else |
| Replay.ReplayEqualsBoard | apps/web/src/models/leaderboard.ts:10-53 | before publication and with distinct (score, millisecond) pairs the replay over all submissions is the private board's ranked list, entry by entry |
| Replay.ReplayEqualsBoardExactly | apps/web/src/models/leaderboard.ts:31-41 | in general both lists are equal if and only if the users of tied submissions first appear in the replay in the order of the board's query, and nothing is published or nothing ranked |
| Replay.TieDiffers | apps/web/src/models/leaderboard.ts:31-41 | a run from the empty database, with the rows of both queries, after which a tie within one millisecond makes the two lists differ |
| Replay.DisqualifiedIsUnranked | apps/server/internal/server/repository.go:549-566 | a disqualified submission is ranked neither on the board nor in the replay after any further steps |
| Paths.DepthCapacity | internal/traqdata/generator.go:355-361 | the product of the word counts, by the source's loop |
| Paths.ShareFits | internal/traqdata/generator.go:326-337 | a share of at least one never exceeds what remains, although smaller shares are rounded up to one before it |
| Paths.FirstPass | internal/traqdata/generator.go:323-337 | each depth gets the whole part of 2, 12, 34, 32 or 20 percent, at least one while some are left and at most its capacity, and every channel is accounted for |
| Paths.GrowOnce | internal/traqdata/generator.go:338-351 | a growing pass gives one more to every depth with room, deepest first, until none are left, and adds nothing only when every depth is full |
| Paths.DepthTargets | internal/traqdata/generator.go:322-353 | ends, succeeds exactly when the count is at most the summed capacities, and then the targets sum to it and are the first shares grown by whole rounds and one last round from the deepest depth on |
| Paths.ChannelPathForIndex | internal/traqdata/generator.go:363-383 | the path has, with slashes between them, the word of each level at the index's mixed-radix digit, the first level being the least significant |
| Paths.PathInjective | internal/traqdata/generator.go:363-383 | different depths or indices within capacity give different paths, for slash-free distinct words |
| Paths.EveryPath | internal/traqdata/generator.go:355-383 | every choice of words of a depth has an index below its capacity |
| Paths.BuildChannelPaths | internal/traqdata/generator.go:308-320 | returns exactly the count of pairwise distinct paths, depth by depth as many as its share, of the indices from zero on; or fails exactly when there are too few |

## Left out

- mmap, huge pages, madvise, prefetching, CPU affinity, PGO, thread creation and allocation failure: performance and the operating system; what remains of them is that bytes past the file's end can be read.
- CRC32 and mix64: any function of the sampled bytes; correctness does not depend on their quality.
- Worker.AnalyzeWorker: one worker in memory; what its checks of the shared word find (another's dictionary or none, after which row, at the end) are parameters that the runs of `Runs` justify, because several workers run together only in the state machine over values.
- ReferenceFold.Analyze: starts from parsed rows; the baselines' reading and splitting of lines, their month labels and the integer types of the C baseline are not part of it.
- Memory ordering: each atomic operation on the shared word is one step of a sequentially consistent run.
- Unaligned 16- and 32-bit loads and stores, the digit-pair table and the 32-byte key copies into output slack: modelled by the bytes they move.
- `optimized/c/explain.c`, `optimized/rust`, `optimized/go`, `optimized/csharp`, `optimized/ruby` and the other baselines: the same fold and merge again, or variants of the maps modelled here.
- `optimized/cpp/main.cpp` beyond its day computation: its publication is one compare-and-exchange with no index to build, a part of the protocol modelled here, and its published lookup reads the same kind of direct-ID tables before the exact probe.
- `optimized/typescript/main.ts`: its row splitting searches past the bytes just read; not part of this model.
- Go counters are unbounded naturals and the goroutines' pieces are analysed and merged one after another; each goroutine writes only its own map.
- GoAnalyze.AnalyzeMemory: asks for at most 65,536 channels of at least one byte each, because the generator's entries keep 16-bit IDs and a length of zero marks a free entry.
- Output.WriteExpected: the generator sorts the channels before printing, which the comparison does not see, so any order is allowed; strconv's decimal of a float64 stands for the nearest two-digit decimal, ties to even.
- Records.WriteResult: walks a table's channels in any order instead of the slots of the hash table, and keys and labels are copied byte by byte.
- Dictionary.FlatMap.Probe: asks for a free slot or a known channel, because the loop of the source would not end in a full table without the channel.
- Comparison.SameRowsSameRecords: equal records do not imply equal totals, because a mean is printed in hundredths.
- Queue.DisqualifiedForever: the reason itself may be replaced by a later disqualification, and its truncation to 8192 UTF-16 units is not modelled.
- Loader.LoadRecords: lines end at LF alone; a carriage return as a line break and the decoding of UTF-8 are left out, because no analyzer prints either.
- SQL isolation, locking hints, commit ambiguity and several replicas: one transaction is one step of one replica; recovery is one step although it issues several statements.
- Submission IDs are naturals in the database's order; timestamps are microseconds as naturals; benchmark attempts, error texts, access keys, audit, sources and dataset manifests are left out.
- Server.Server.AcceptSubmission: runs with nothing between its own transactions; what others may do in between is the subject of `Queue.UploadUntil` and `Server.Server.FinishUpload`.
- Leaderboard.BuildLeaderboard: what it says of ranks asks for scores that are digit strings, as their columns and the runner's schema demand; for other strings it states only the arrangement that compareDecimal gives.
- Replay.ReplayEqualsBoardExactly: rows with equal starts come in the order the database happens to return, which is part of its condition.
- HTTP, authentication, multipart parsing, SSH, Docker, object storage, server-sent events, the web interface, configuration and progress bars.
- Random sampling in the generator (days, hours, lengths, stamps): floating point and library randomness without a sharp property.
- Reading a malformed CSV file: the analyzers assume the published guarantees, and so does the model.
- Compile-time switches (`FAST_BITS`, `MPH_BUCKET_BITS`, `MPH_ACTIVE_SLOTS`, `PROFILE`) have their default values, under which every slot is active.

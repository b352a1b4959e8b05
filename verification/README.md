# ChronoDB storage core: a verified model

ChronoDB stores time series in immutable blocks. A flush writes a block, level
compaction merges blocks of one level into a block of the next, and readers cut
series out of shared columns by an offset/count index. This project models that
core and proves what the rest of the system relies on: codecs that give back what
they were given, queries that return exactly a series' own samples, compactions that
neither lose nor invent a sample under any interleaving, and two server-side state
machines and the text ingest path on top.

`dafny verify dfyconfig.toml` checks everything.

## How the files follow the program

| file | what it models |
|---|---|
| `Machine.dfy`, `Model.dfy`, `Orders.dfy` | machine integers and their byte forms; labels, samples and index entries; walks of hash maps |
| `Varint.dfy`, `DeltaCodec.dfy` | `storage/src/compression/delta.rs` |
| `TimestampColumn.dfy`, `LabelColumn.dfy` | `storage/src/columnstore/column.rs` |
| `TimestampStream.dfy`, `ValueStream.dfy`, `BlockFormat.dfy` | `storage/src/columnstore/block_format.rs` |
| `Records.dfy`, `BlockIndex.dfy`, `BlockLayout.dfy`, `MixedBlock.dfy`, `MixedPoints.dfy`, `LabelQuery.dfy` | `storage/src/columnstore/writer.rs` and `reader.rs` |
| `Merge.dfy`, `Compaction.dfy`, `CompactionIds.dfy`, `CompactionBounds.dfy`, `CompactionPass.dfy`, `CompactionLabels.dfy` | `storage/src/compaction/mod.rs`, with the block manager of `storage/src/flush/mod.rs` |
| `BatchExport.dfy` | `storage/src/batch_export/mod.rs` |
| `Alerting.dfy`, `AlertLabels.dfy` | `server/src/rules/alerting.rs` |
| `Text.dfy`, `LabelOrder.dfy`, `Grouping.dfy`, `TextLine.dfy`, `TextGrammar.dfy`, `TextWrite.dfy` | the text path of `server/src/remote_server.rs` and the printer of `server/src/monitoring/mod.rs` |

Code that updates fields or buffers is a class or a method with a loop, proved equal
to a function on values; the properties are lemmas about that function. Protocols
are state machines, and their theorems range over all runs.

Conventions:

- i64 arithmetic takes a `Build`: `Checked` panics on overflow, `Wrapping` wraps as
  the release profile does. Theorems that mention a build hold for both.
- Hash-map iteration orders, clock readings and fresh ids are parameters. JSON, UTF-8
  and number printing are pairs of functions of which only "parsing inverts printing"
  is assumed, and only where a theorem says so. Values are 64-bit patterns.

## Where the code does not do what its names promise

- **Timestamp stream.** Second differences -128 and -127 are written as the bytes the
  reader takes for escapes, and lists of fewer than two timestamps are too short for
  the reader. `TimestampStream.RoundTripIff` shows that these are the only failures.
  No better reader would help: `TimestampStream.StreamsCollide` and
  `BlockFormat.BlocksCollide` give different timestamps with the same bytes.
- **Timestamp column.** `build_timestamp_column` writes varints, `decode_timestamp_column`
  reads 8-byte words. `TimestampColumn.ColumnRoundTripIffEmpty` shows that no non-empty
  column ever comes back; `TimestampColumn.ColumnInverse` names the decoder that works.
- **Mixed writers.** A writer holding raw and downsample series overwrites the time
  column. `MixedBlock.MixedIntactIff` gives the exact condition for the raw series of
  one written block to survive, `MixedBlock.AlwaysIntactIff` the condition on the series
  themselves for them to survive every iteration order, and `MixedBlock.MixedFails` the
  smallest failure. A downsample series is lost only to a raw series of the same id;
  `MixedPoints.PointsAlwaysIntactIff` gives the condition on the series themselves for it
  to survive every iteration order, and `MixedPoints.PointsFail` the smallest loss.
- **Queries by labels.** `labels_match` looks for the queried labels among a series'
  labels, but the bloom filter is asked first for the query's own label string, and only
  full label strings are put in. `LabelQuery.ByLabelsCompleteIff` shows that a query
  finds its series iff the filter knows that string, `LabelQuery.FilterPassesIff` that
  with an exact filter these are the full label sets, and `LabelQuery.PartialLabelsMissed`
  that a query for some of a series' labels misses it.
- **Range of mixed blocks.** A bound of 0 left by the raw half counts as unset.
  `BlockLayout.MixedRangeIff` shows when the recorded range then misses raw timestamps.
- **Compression marks.** Built blocks mark header and columns as zstd, but store the
  streams as encoded (`BlockFormat.BuiltColumnsStored`).
- **Compaction with failing reads.** Blocks and series that cannot be read are skipped,
  yet the old blocks are removed. `Compaction.SwapPreservesIff` states exactly when a
  key survives and `Compaction.UnreadableSeriesLost` exhibits a lost one.
- **Block ids.** Flushes and compactions read their ids off the same millisecond clock.
  `CompactionIds.WriteSwapPreservesIff` and `CompactionIds.FlushPreservesIff` say for
  every id exactly when a key survives, `CompactionIds.IdHarmlessIff` that with readable
  blocks any unregistered id is safe, and three runs lose a key to a repeated one
  (`CompactionIds.FlushesCollide`, `CompactionIds.CompactionOverwritesFlush`,
  `CompactionIds.CompactionDeletesItself`). The theorems about runs ask that an id be
  neither registered nor that of the block being written.
- **Label values in the text format.** The parser looks for commas and closing braces
  inside quotes too, and the text is cut into lines first. `TextWrite.MetricRecoveredIff`
  shows that the comma, the closing brace and the line feed are exactly the characters
  in a label value that keep an exported metric from being ingested, whatever is exported
  beside it; `TextLine.LineRecoveredIff` is the part of it about `parse_text_line`, which
  never meets a line feed.
- **Ignored text.** What stands in a line behind the first closing brace, up to the white
  space behind the last one, is ignored. `TextGrammar.LineReadIff` gives the whole
  language of the parser, in both directions.
- **Removed alerts.** A removal is notified with the alert in its last state, Pending or
  Firing, so that a notifier prints it like a new or a firing alert.
  `Alerting.RunLives` shows that a notifier can still tell: a second notice in the same
  state is the removal.

## Model

| member | source | states |
|---|---|---|
| `Varint.ZigZagRoundTrip` | storage/src/compression/delta.rs:229-235 | `zigzag_decode` inverts `zigzag_encode` on every i64, with the shifts and xor written out |
| `Varint.DigitsShape` | storage/src/compression/delta.rs:215-227 | continuation bits mark exactly the bytes before the last, and no longer form ends in a zero byte |
| `Varint.DigitsLength` | storage/src/compression/delta.rs:215-227 | a varint uses the fewest base-128 digits that hold its value |
| `Varint.EncodeLength` | storage/src/compression/delta.rs:215-227 | every i64 takes 1 to 10 bytes |
| `Varint.EncodeVarint` | storage/src/compression/delta.rs:215-227 | the encoding loop yields the varint of the zigzagged value |
| `Varint.DecodeVarint` | storage/src/compression/delta.rs:303-330 | the decoding loop, on arbitrary bytes, gives the digit value modulo 2^64 or the right error, and never shifts by 64 or more |
| `Varint.DecodeEncode` | storage/src/compression/delta.rs:215-235 | for every i64 and every suffix, decoding gives the value and its encoded length |
| `Varint.DecodeTotal` | storage/src/compression/delta.rs:303-330 | arbitrary bytes are accepted exactly when one of the first ten has no continuation bit, and then 1 to 10 bytes are consumed, up to that byte |
| `DeltaCodec.EncodeRunSpec` | storage/src/compression/delta.rs:12-33 | a batch is accepted exactly when all first (and second) differences fit i64, and then gives the varints of those differences |
| `DeltaCodec.DecodeRunSpec` | storage/src/compression/delta.rs:182-206 | a decoder in the encoder's state returns the values and ends in the encoder's state, with no intermediate overflow |
| `DeltaCodec.RoundTrip` | storage/src/compression/delta.rs:89-124 | on every list, a fresh encoder accepts iff the differences fit, and then a fresh decoder returns the list |
| `DeltaCodec.BatchesAgree` | storage/src/compression/delta.rs:118-124 | splitting a list into batches changes neither acceptance nor bytes, and one decoder fed the pieces returns the batches |
| `DeltaCodec.DecodeTruncated` | storage/src/compression/delta.rs:51-67 | of a stream cut anywhere the decoder returns the whole values iff the cut falls between two values, and otherwise reports an error and returns none |
| `DeltaCodec.Differences` | storage/src/compression/delta.rs:126-149 | one pass of the optimised encoder gives the consecutive differences, reduced to i64 or with a panic where one does not fit |
| `DeltaCodec.TwoPassResidues` | storage/src/compression/delta.rs:126-149 | on every list: the two passes give the streaming encoder's residues whenever it accepts, a checked build panics exactly when it refuses, and a wrapping build gives the exact second differences reduced to i64 |
| `DeltaCodec.Encoder.EncodeValue` | storage/src/compression/delta.rs:89-116 | one call: the bytes and the new last value and last delta |
| `DeltaCodec.Encoder.EncodeBatch` | storage/src/compression/delta.rs:118-124 | a batch is the run of its values from the encoder's state, stopping at the first that does not fit |
| `DeltaCodec.Decoder.DecodeBytes` | storage/src/compression/delta.rs:51-67 | the decoding loop is the run of the bytes from the decoder's state, with its errors and panics |
| `TimestampColumn.DecodeTimestampColumn` | storage/src/columnstore/column.rs:287-301 | the word loop on arbitrary bytes, including the panic on a short last chunk |
| `TimestampColumn.WordsAreDifferences` | storage/src/columnstore/column.rs:287-301 | data that decodes to a list must consist of that list's second differences, 8 bytes each |
| `TimestampColumn.WordsDecode` | storage/src/columnstore/column.rs:287-301 | the format it does read: second differences written in 8 bytes each decode to the timestamps, for every list whose differences fit |
| `TimestampColumn.WordsTotal` | storage/src/columnstore/column.rs:287-301 | arbitrary bytes: a remainder below 8 panics in every build; without one a wrapping build reads one timestamp per word, and a checked build panics or reads the same |
| `TimestampColumn.ColumnRoundTripIffEmpty` | storage/src/columnstore/column.rs:209-223 | decoding a built timestamp column gives the timestamps iff there are none |
| `TimestampColumn.ColumnInverse` | storage/src/columnstore/column.rs:209-223 | the delta-of-delta decoder does invert the column builder |
| `TimestampStream.ReadTokens` | storage/src/columnstore/block_format.rs:387-416 | without a colliding second difference the token stream reads back |
| `TimestampStream.LengthForced` | storage/src/columnstore/block_format.rs:387-416 | any bytes that read as a list are at least as long as its tokens, and longer if a second difference collides |
| `TimestampStream.RoundTripIff` | storage/src/columnstore/block_format.rs:262-300 | the round trip holds iff there are at least 2 timestamps and no second difference is -128 or -127 |
| `TimestampStream.RoundTripFails` | storage/src/columnstore/block_format.rs:288-289 | the timestamps 0, 128, 128 are encoded but not read back |
| `TimestampStream.StreamsCollide` | storage/src/columnstore/block_format.rs:286-297 | for every choice of four bytes, two lists of eight timestamps with the same bounds and different contents have the same bytes |
| `TimestampStream.EncodeTimestamps` | storage/src/columnstore/block_format.rs:262-300 | the encoding loop writes the heads and the tokens of all second differences, or panics on overflow |
| `TimestampStream.DecodeTimestamps` | storage/src/columnstore/block_format.rs:387-416 | the decoding loop on arbitrary bytes, with its errors and panics |
| `ValueStream.EncodeValues` | storage/src/columnstore/block_format.rs:302-337 | the loop writes the first pattern and one xor step for each further value |
| `ValueStream.DecodeEncode` | storage/src/columnstore/block_format.rs:302-337 | the value stream has an inverse |
| `ValueStream.EncodeInjective` | storage/src/columnstore/block_format.rs:302-337 | different value lists never give the same bytes |
| `BlockFormat.HeaderRoundTrip` | storage/src/columnstore/block_format.rs:41-81 | every header decodes to itself, whatever follows |
| `BlockFormat.ReservedZero` | storage/src/columnstore/block_format.rs:41-57 | the reserved byte and the padding of a header are zero |
| `BlockFormat.ColumnHeadRead` | storage/src/columnstore/block_format.rs:140-149 | every field of a column's head reads back: id, type, compression, original size and data size |
| `BlockFormat.FindsFirst` | storage/src/columnstore/block_format.rs:364-385 | the column scan finds the data of the first timestamp column of any column list |
| `BlockFormat.FindsNone` | storage/src/columnstore/block_format.rs:364-385 | without a timestamp column the scan reports that there is none, whatever other columns there are |
| `BlockFormat.ScanTimestamps` | storage/src/columnstore/block_format.rs:364-385 | the scanning loop on arbitrary blocks, with its errors and panics |
| `BlockFormat.SampleCountTrue` | storage/src/columnstore/block_format.rs:198-228 | the accumulated 32-bit sample count is the true one modulo 2^32; with series below 2^32 samples a checked build panics exactly when the total reaches 2^32 |
| `BlockFormat.BlockBuilder.AddSeries` | storage/src/columnstore/block_format.rs:190-196 | a series is appended and nothing else changes |
| `BlockFormat.BlockBuilder.BuildColumns` | storage/src/columnstore/block_format.rs:230-260 | the timestamp and value columns of all series in order are appended, or the encoder's panic is passed on |
| `BlockFormat.BlockBuilder.Finish` | storage/src/columnstore/block_format.rs:198-228 | the built bytes are the header with counts and range, then the columns |
| `BlockFormat.AppendColumns` | storage/src/columnstore/block_format.rs:198-228 | the buffer loop appends the encoded columns in order |
| `BlockFormat.BuiltBlockReads` | storage/src/columnstore/block_format.rs:355-385 | a built block has the true counts and the exact hull of its timestamps in the header, 0 and 0 without any, is marked as zstd, and gives back all timestamps iff there are at least 2 and none collides |
| `BlockFormat.BuiltColumnsStored` | storage/src/columnstore/block_format.rs:230-260 | behind the header a built block is exactly two columns: the timestamp stream under id 0 and the value stream under id 1, each marked as zstd, stored as encoded, with eight bytes per sample as original size |
| `BlockFormat.BuiltBlockInjective` | storage/src/columnstore/block_format.rs:230-260 | two built blocks with the same bytes hold the same values and the same timestamp stream |
| `BlockFormat.BlocksCollide` | storage/src/columnstore/block_format.rs:198-228 | two series with different timestamps have the same built block, so no reader could give both back |
| `Records.ReadTruncated` | storage/src/columnstore/reader.rs:66-128 | reading any truncation of length-prefixed records gives exactly the longest prefix of whole records, up to the stored count |
| `Records.WholeExists` | storage/src/columnstore/reader.rs:66-128 | every truncation point has such a longest whole prefix |
| `Records.ReadLoop` | storage/src/columnstore/reader.rs:66-128 | the bounds-checked loop on arbitrary bytes reads the records it should and fails iff one does not parse |
| `BlockIndex.BuildIndex` | storage/src/columnstore/writer.rs:281-300 | the loop writes the count and one record per entry |
| `BlockIndex.ReadIndex` | storage/src/columnstore/reader.rs:66-128 | on arbitrary bytes: no entries below 4 bytes, else the entries of the whole records or a JSON error |
| `BlockIndex.ReadTruncatedIndex` | storage/src/columnstore/reader.rs:66-128 | on any truncation the reader returns exactly the entries wholly contained |
| `BlockIndex.ReadInvertsBuild` | storage/src/columnstore/writer.rs:281-300 | `read_index` inverts `build_index` below 2^32 entries, and above returns the prefix the wrapped count allows |
| `LabelColumn.DecodeLabelColumn` | storage/src/columnstore/column.rs:321-350 | the decoding loop on arbitrary bytes, failing iff a label is not UTF-8 |
| `LabelColumn.DecodeTruncated` | storage/src/columnstore/column.rs:321-350 | any truncation decodes to exactly the labels wholly contained |
| `LabelColumn.DecodeInvertsBuild` | storage/src/columnstore/column.rs:251-271 | the label column round-trips |
| `BlockLayout.Locate` | storage/src/columnstore/writer.rs:107-143 | offsets and counts cut the shared columns exactly at the series' seams, and each entry has its series' labels, for any order of the series |
| `BlockLayout.BlockWriter.AddSeries` | storage/src/columnstore/writer.rs:62-78 | samples are appended to the series; the labels of its first call stay |
| `BlockLayout.BlockWriter.AddPoints` | storage/src/columnstore/writer.rs:80-92 | likewise for downsample points |
| `BlockLayout.BlockWriter.Write` | storage/src/columnstore/writer.rs:94-279 | index, columns, totals and range of the written block for any map order, the overwritten time column included |
| `BlockLayout.LayRaw` | storage/src/columnstore/writer.rs:107-143 | the raw loop: index entries with running offsets, concatenated timestamps and values |
| `BlockLayout.LayPoints` | storage/src/columnstore/writer.rs:145-230 | the downsample loop likewise |
| `BlockLayout.QueryBlock` | storage/src/columnstore/reader.rs:130-156 | the query loop over the series' rows, with the missing-series and missing-column errors |
| `BlockLayout.QueryExact` | storage/src/columnstore/reader.rs:130-156 | for any raw series and any order, a query returns exactly that series' samples in the range, in insertion order |
| `BlockLayout.InRangePicks` | storage/src/columnstore/reader.rs:146-153 | the samples in a range are all those whose timestamp lies in it, ends included, each once and in insertion order |
| `BlockLayout.QueryThroughCodec` | storage/src/columnstore/reader.rs:130-156 | the same with the index read back from its bytes and the time column passed through the delta-of-delta codec |
| `BlockLayout.ReadPointsExact` | storage/src/columnstore/reader.rs:178-223 | the same for downsample points |
| `BlockLayout.PointsPick` | storage/src/columnstore/reader.rs:204-220 | the points in a range likewise |
| `BlockLayout.ShortColumnsPadded` | storage/src/columnstore/reader.rs:204-220 | on any block, rows that an aggregate column lacks are read as zeros |
| `BlockLayout.WrittenIndex` | storage/src/columnstore/writer.rs:107-230 | the index of a written block lists the raw series, then the downsample series, each with its id, labels and size, as many as the block's series total |
| `BlockLayout.WrittenRange` | storage/src/columnstore/writer.rs:179-188 | the recorded range of every written block, mixed or not, covers its time column |
| `BlockLayout.SingleKindHull` | storage/src/columnstore/writer.rs:179-188 | a block of one kind records exactly the least and greatest of its timestamps |
| `BlockLayout.MixedRangeIff` | storage/src/columnstore/writer.rs:179-188 | a block of both kinds records bounds taken from its timestamps, and they cover all of them iff no raw bound of 0 lies outside the downsample times |
| `BlockLayout.PruningExact` | storage/src/columnstore/reader.rs:317-324 | for any written blocks, querying only those in range gives the same samples in the same order as querying all |
| `BlockLayout.PointPruningExact` | storage/src/columnstore/reader.rs:317-324 | the same for downsample points |
| `BlockLayout.PruningPicks` | storage/src/columnstore/reader.rs:317-324 | exactly the blocks whose recorded range meets the range asked for are kept, in order |
| `BlockLayout.LeftOutEmpty` | storage/src/columnstore/reader.rs:317-324 | a written block that is left out has neither a sample nor a point in the range |
| `MixedBlock.MixedIntactIff` | storage/src/columnstore/writer.rs:107-230 | in a mixed block all raw series read back iff their timestamps are a prefix of the downsample timestamps |
| `MixedBlock.MixedPointsRead` | storage/src/columnstore/reader.rs:178-223 | a mixed block gives a downsample series its own points, or the rows of a raw series with the same id |
| `MixedBlock.MixedPointsIntactIff` | storage/src/columnstore/reader.rs:178-223 | a downsample series of a mixed block reads back iff no raw series has its id or the raw series' rows are its points |
| `MixedBlock.AlwaysIntactIff` | storage/src/columnstore/writer.rs:107-230 | the raw series survive every order of both maps iff their timestamps read the same in any order and every order of the downsample series begins with them |
| `MixedPoints.PointsIntactBehind` | storage/src/columnstore/reader.rs:178-223 | a downsample series under the id of a raw series reads back iff its points fill that series' rows, counted from the rows of the raw series before it |
| `MixedPoints.PointsAlwaysIntactIff` | storage/src/columnstore/writer.rs:145-192 | a downsample series survives every order of both maps iff no raw series has its id or, behind any set of the other raw series and in any order of the downsample series, the rows of that raw series are its points |
| `MixedPoints.OneIdIff` | storage/src/columnstore/writer.rs:145-192 | with one raw and one downsample series under one id, the points read back under every order iff there are no more of them than raw samples |
| `MixedPoints.PointsFail` | storage/src/columnstore/writer.rs:145-192 | two points and one raw sample under one id: the points are lost under every order |
| `LabelQuery.QueryByLabels` | storage/src/columnstore/reader.rs:158-176 | the filter test, then the loop over the index, with the errors of the inner query |
| `LabelQuery.ByLabelsExact` | storage/src/columnstore/reader.rs:158-176 | on a raw block: the matching series with samples in range, in index order, or nothing if the filter does not know the query's label string |
| `LabelQuery.HitsExact` | storage/src/columnstore/reader.rs:158-176 | where the filter knows the query's label string: every hit holds every queried label, name and value, with its own samples in range, and every series that does and has a sample in range is hit exactly once |
| `LabelQuery.FullLabelsFound` | storage/src/columnstore/writer.rs:71-77 | a query for the full label set of a series finds it, in whatever order the labels are given |
| `LabelQuery.ByLabelsCompleteIff` | storage/src/columnstore/reader.rs:45-48 | with a filter without false negatives all matching series are found iff the filter knows the query's own label string, as it does for a full label set with samples, or none matches |
| `LabelQuery.SameStringIff` | storage/src/model/mod.rs:78-84 | labels without `=` in a name or a comma in a value have the same label string iff they are the same after sorting |
| `LabelQuery.FilterPassesIff` | storage/src/columnstore/reader.rs:45-48 | a filter without false positives lets such a query through iff it is the full label set of a series with samples |
| `LabelQuery.StringsCollide` | storage/src/model/mod.rs:78-84 | with a comma in a value, two different label sets have one label string |
| `LabelQuery.PartialLabelsMissed` | storage/src/columnstore/writer.rs:71-77 | a series with labels a=1 and b=2 matches a query for a=1 and is not found |
| `MixedBlock.MixedFails` | storage/src/columnstore/writer.rs:145-192 | one raw sample and one point at another time: the sample is lost under every order |
| `Merge.MergedSpec` | storage/src/compaction/mod.rs:197-206 | sort and dedup give strictly increasing timestamps and the left-biased union of the input |
| `Merge.StrictUnique` | storage/src/compaction/mod.rs:197-206 | no other list has those two properties |
| `Merge.FirstWinsAt` | storage/src/compaction/mod.rs:197-206 | the union has exactly the input's timestamps, each with its first sample |
| `Merge.FirstWinsAppend` | storage/src/compaction/mod.rs:281-293 | appending a block's samples is a union in which the earlier block wins |
| `Compaction.UnionFirst` | storage/src/compaction/mod.rs:177-206 | the sample kept for a timestamp is that of the first block in list order that was read and has it |
| `Compaction.WrittenBlock` | storage/src/compaction/mod.rs:189-210 | each series of the written block is strictly increasing and is the left-biased union of the blocks read |
| `Compaction.VisibleIsFlushed` | storage/src/compaction/mod.rs:167-305 | in every reachable state of every interleaving with flushes, the visible keys are exactly the flushed ones |
| `Compaction.NothingInvented` | storage/src/compaction/mod.rs:253-305 | even when reads fail, no key appears that was not flushed |
| `Compaction.SamplesAreFlushed` | storage/src/compaction/mod.rs:167-251 | every stored sample was flushed, unaltered, for that series |
| `Compaction.QuietStep` | storage/src/compaction/mod.rs:167-211 | loading, writing and aborting are invisible to readers |
| `Compaction.SwapPreservesIff` | storage/src/compaction/mod.rs:211-236 | a swap preserves a key iff, if skipped, it was read from another block of the compaction or is held outside it |
| `Compaction.OthersUntouched` | storage/src/compaction/mod.rs:211-236 | a block outside the compaction, such as one flushed meanwhile, keeps registration, level and contents |
| `Compaction.AbortLeavesManager` | storage/src/compaction/mod.rs:167-211 | over any stretch of a run without a swap, aborted compactions included, every block keeps registration, level and contents and every new one was flushed |
| `Compaction.AbortRetries` | storage/src/compaction/mod.rs:167-211 | after an abort the manager is as it was and idle, and the same compaction can begin again |
| `Compaction.UnreadableSeriesLost` | storage/src/compaction/mod.rs:294-299 | a run in which an unreadable series is lost |
| `CompactionLabels.RunNamed` | storage/src/compaction/mod.rs:281-293 | in every reachable state of a compaction exactly the series read so far are gathered, and then written, each under the labels of the first block in the list that had it |
| `CompactionLabels.SwappedLabels` | storage/src/compaction/mod.rs:211-236 | after a swap the registered new block is labelled so by the blocks it replaces |
| `CompactionLabels.LabelsAreFlushed` | storage/src/compaction/mod.rs:167-305 | wherever a series is stored, its labels are those that some flush gave it |
| `CompactionLabels.VisibleUnderLabels` | storage/src/compaction/mod.rs:167-305 | in every reachable state the flushed keys of a series that is always flushed under one label set are found under that label set |
| `CompactionLabels.CompactedLabels` | storage/src/compaction/mod.rs:189-206 | the same for one undisturbed compaction, whatever could be read |
| `CompactionLabels.AttemptOutcome` | storage/src/compaction/mod.rs:167-251 | a compaction fails iff some block is unknown, a block with a directory cannot be opened, or something was read and the write fails; then no registration and no other directory has changed; missing directories are passed over |
| `CompactionLabels.UnknownRefused` | storage/src/compaction/mod.rs:262-270 | an id that is not registered is refused with nothing changed |
| `CompactionIds.FlushLeaves` | storage/src/flush/mod.rs:314-316 | after a flush under any id, the visible keys are its own and those of blocks under other ids |
| `CompactionIds.FlushPreservesIff` | storage/src/flush/mod.rs:176-182 | a flush loses a key iff its id was in use for the only block holding it |
| `CompactionIds.WriteLeaves` | storage/src/compaction/mod.rs:189-209 | writing under any id: a registered block of that id is replaced before any swap |
| `CompactionIds.SwapLeaves` | storage/src/compaction/mod.rs:211-236 | a swap in any state keeps the blocks under other ids, and the written one unless its id is being removed |
| `CompactionIds.WriteSwapLeaves` | storage/src/compaction/mod.rs:189-236 | what is visible after a compaction under any id |
| `CompactionIds.WriteSwapPreservesIff` | storage/src/compaction/mod.rs:325-331 | for every id, a compaction preserves a key iff, if at stake under that id, a block outside it and under another id holds it |
| `CompactionIds.IdHarmlessIff` | storage/src/compaction/mod.rs:325-331 | with readable blocks an unregistered id is harmless to every key, a registered one iff all keys at stake are held apart |
| `CompactionIds.LegalIsTaken` | storage/src/compaction/mod.rs:167-251 | the runs with fresh ids are among the runs under any ids |
| `CompactionIds.FlushesCollide` | storage/src/flush/mod.rs:176-182 | a run of two flushes under one id that loses a key |
| `CompactionIds.CompactionOverwritesFlush` | storage/src/compaction/mod.rs:325-331 | a run in which a compaction under the id of a flushed block outside it loses that block's key |
| `CompactionIds.CompactionDeletesItself` | storage/src/compaction/mod.rs:325-331 | a run in which a compaction under the id of its own block deletes what it has written |
| `CompactionBounds.LiveBlocksBound` | storage/src/compaction/mod.rs:122-149 | over any run of flushes and passes, live blocks plus compactions never exceed flushes and levels stay at most max_level + 1 |
| `CompactionBounds.EveryFlushAccounted` | storage/src/compaction/mod.rs:189-236 | every flush so far is in exactly one live block |
| `CompactionBounds.LevelWeight` | storage/src/compaction/mod.rs:122-149 | a block of level l stands for at least 2^l flushes |
| `CompactionBounds.LevelIsLogarithmic` | storage/src/compaction/mod.rs:122-149 | so no level exceeds the binary logarithm of the number of flushes |
| `CompactionBounds.RewritesAreLevel` | storage/src/compaction/mod.rs:189-236 | in every run a surviving sample has been rewritten exactly as often as its block's level, manual compactions included |
| `CompactionBounds.RewritesBound` | storage/src/compaction/mod.rs:122-149 | hence at most max_level + 1 times |
| `CompactionPass.BeginIsProtocol` | storage/src/compaction/mod.rs:167-181 | compacting the registered blocks of a level starts a run of the protocol |
| `CompactionPass.LoadedNext` | storage/src/compaction/mod.rs:179-181 | each load of the loop is a protocol step |
| `CompactionPass.CompactedIsProtocol` | storage/src/compaction/mod.rs:167-251 | an undisturbed compaction, whatever could be read, ends the protocol run in the compacted store |
| `CompactionPass.EmptyIsProtocol` | storage/src/compaction/mod.rs:183-186 | if nothing could be read nothing changes |
| `CompactionPass.FailedIsProtocol` | storage/src/compaction/mod.rs:209-209 | a compaction whose write fails ends the protocol run with an unreadable directory and nothing else changed |
| `CompactionPass.FairExists` | storage/src/compaction/mod.rs:151-165 | there are block orders, clocks and undamaged files of the kind the pass theorems assume |
| `CompactionPass.PassSettles` | storage/src/compaction/mod.rs:122-149 | after a pass over undamaged blocks every level up to max_level is below its threshold or holds no sample |
| `CompactionPass.PassBelowThresholds` | storage/src/compaction/mod.rs:122-149 | with a sample in every block, every level up to max_level is below its threshold, or empty |
| `CompactionPass.PassBelowFields` | storage/src/compaction/mod.rs:129-134 | that is, level 0 holds fewer blocks than `l0_threshold`, level 1 than `l1_threshold`, level 2 than `l2_threshold`, or none, and each higher level at most one |
| `CompactionPass.TurnLeaves` | storage/src/compaction/mod.rs:129-136 | a level with fewer blocks than its field says is left alone, damaged or not |
| `CompactionPass.TurnEmpties` | storage/src/compaction/mod.rs:129-145 | a level with at least as many, and a sample among them, is emptied into one new block of the next level; all other levels keep their blocks |
| `CompactionPass.PassStopsAtError` | storage/src/compaction/mod.rs:144-144 | a level that fails ends the pass with every registered block as it was |
| `CompactionPass.PassIdempotent` | storage/src/compaction/mod.rs:122-149 | a second pass changes nothing, for every configuration, order and clock and every store of undamaged blocks |
| `CompactionPass.PassKeeps` | storage/src/compaction/mod.rs:122-149 | a pass over undamaged blocks neither loses nor adds a key |
| `CompactionPass.PassInventsNothing` | storage/src/compaction/mod.rs:122-149 | whatever cannot be read, a pass adds no key |
| `CompactionPass.CompactionManager.AddBlock` | storage/src/flush/mod.rs:314-316 | a record of any level is inserted; no directory is touched |
| `CompactionPass.CompactionManager.FlushBlock` | storage/src/flush/mod.rs:113-174 | the block's directory is written and registered at level 0 |
| `CompactionPass.CompactionManager.RemoveBlock` | storage/src/flush/mod.rs:340-348 | the directory goes with the registration; an unknown id changes nothing |
| `CompactionPass.CompactionManager.LoadBlocks` | storage/src/compaction/mod.rs:177-181 | the loop accumulates the readable series in list order, passes over missing directories, and fails exactly on an unknown block or one that cannot be opened |
| `CompactionPass.CompactionManager.RemoveBlocks` | storage/src/compaction/mod.rs:218-223 | the loop removes exactly the listed blocks that are registered |
| `CompactionPass.CompactionManager.CompactBlocks` | storage/src/compaction/mod.rs:167-251 | every outcome: old blocks replaced by the merge one level up, nothing read and nothing changed, a failed load with nothing changed, or a failed write that leaves an unreadable directory |
| `CompactionPass.CompactionManager.CheckAndCompact` | storage/src/compaction/mod.rs:122-149 | the level loop is a pass that stops at the first error; with undamaged blocks it succeeds and leaves every level settled |
| `BatchExport.RunValid` | storage/src/batch_export/mod.rs:99-221 | in every reachable state `completed_at` is set iff Completed, `error` iff Failed, progress matches the status, and every unfinished task is awaiting send, queued or with the worker |
| `BatchExport.OneRunning` | storage/src/batch_export/mod.rs:185-196 | at most one task is running |
| `BatchExport.TerminalStays` | storage/src/batch_export/mod.rs:148-165 | no step changes a task that has ended: a cancel is never overwritten, a result never cancelled |
| `BatchExport.TerminalForever` | storage/src/batch_export/mod.rs:201-219 | so it stays the same through every continuation of a run |
| `BatchExport.CancelCancels` | storage/src/batch_export/mod.rs:148-165 | a cancel of a task that has not ended sets it to Cancelled and changes nothing else of it, no other task, not the channel and not the worker; any other cancel changes nothing |
| `BatchExport.CancelIsFinal` | storage/src/batch_export/mod.rs:201-206 | through every continuation such a task stays cancelled and gets no result |
| `BatchExport.ExecutedUncancelled` | storage/src/batch_export/mod.rs:172-194 | a task is executed only if it was not cancelled when the worker looked at it, nor when it looked again to begin it |
| `BatchExport.SendOrder` | storage/src/batch_export/mod.rs:167-221 | tasks handled, in hand and queued are, in this order, the tasks sent |
| `BatchExport.ResultsInSendOrder` | storage/src/batch_export/mod.rs:167-221 | tasks get their results in the order they were sent |
| `BatchExport.ResultsAreOutcomes` | storage/src/batch_export/mod.rs:196-219 | every recorded result, its time or its error, is the outcome of one execution of that very task |
| `BatchExport.WorkBound` | storage/src/batch_export/mod.rs:167-221 | at most five sends and worker steps happen per created task |
| `BatchExport.QuiescentMeansDone` | storage/src/batch_export/mod.rs:167-221 | when no send or worker step is possible every task has ended |
| `BatchExport.BatchExportManager.CreateTask` | storage/src/batch_export/mod.rs:99-118 | a pending task is inserted and awaits its send |
| `BatchExport.BatchExportManager.SendTask` | storage/src/batch_export/mod.rs:120-122 | the task moves to the end of the queue |
| `BatchExport.BatchExportManager.CancelTask` | storage/src/batch_export/mod.rs:148-165 | succeeds iff the task exists and has not ended, and then it is cancelled; either error leaves everything as it was |
| `BatchExport.BatchExportManager.ReceiveTask` | storage/src/batch_export/mod.rs:171-171 | the head of the queue goes to the worker |
| `BatchExport.BatchExportManager.CheckTask` | storage/src/batch_export/mod.rs:172-180 | a cancelled task is skipped |
| `BatchExport.BatchExportManager.BeginTask` | storage/src/batch_export/mod.rs:182-194 | a task cancelled meanwhile is skipped, any other is set running |
| `BatchExport.BatchExportManager.FinishTask` | storage/src/batch_export/mod.rs:199-219 | the outcome is recorded unless the task was cancelled |
| `Alerting.AlertManager.CreateAlert` | server/src/rules/alerting.rs:141-198 | the first alert with the same name and label map is updated and notified on a state change, or a pending one is added |
| `Alerting.AlertManager.CleanExpiredAlerts` | server/src/rules/alerting.rs:201-224 | deleting by index from the back is an order-preserving filter, and each removed alert is notified as it stood, last first |
| `Alerting.ExpiredIndices` | server/src/rules/alerting.rs:203-211 | the collected indices are exactly those of expired alerts, ascending |
| `Alerting.KeptHas` | server/src/rules/alerting.rs:201-224 | exactly the alerts evaluated within the hour are kept |
| `AlertLabels.LabelMapBound` | server/src/rules/alerting.rs:143-143 | the label map has exactly the names of the list, each with the value of its last label |
| `AlertLabels.CallEffect` | server/src/rules/alerting.rs:146-177 | what a call does to the first alert of its name and labels in any list: an inactive one is raised, a pending one fires once active for 300 s, and only a change of state is notified |
| `AlertLabels.SharedAlertIff` | server/src/rules/alerting.rs:143-198 | after any run, two calls are about the same alert iff their names and last label bindings agree; otherwise the second leaves the alert of the first alone |
| `AlertLabels.FollowedIff` | server/src/rules/alerting.rs:143-148 | the calls followed for a key are those with its name and, as last bindings, its labels |
| `Alerting.RunSound` | server/src/rules/alerting.rs:141-224 | over any run with a monotone clock, (name, labels) keys stay unique and an alert is firing iff its last evaluation came 300 s or more after its activation |
| `Alerting.RunLives` | server/src/rules/alerting.rs:141-224 | for every key the notified states read as lives, each pending, then firing at most once, then repeated once on removal, and end in the key's present state |
| `Alerting.RunRefines` | server/src/rules/alerting.rs:141-224 | over any such run the list holds for each key exactly the alert that following this key alone gives: state, activation, last evaluation, value and annotations |
| `Alerting.ActiveMeansHeld` | server/src/rules/alerting.rs:232-236 | the active alerts are exactly the live ones held for 300 s |
| `LabelOrder.SortDetermined` | server/src/remote_server.rs:298-302 | the sorted labels are the only list ascending by name that keeps the order of labels of one name |
| `LabelOrder.SortForgetsOrder` | server/src/remote_server.rs:298-302 | the order in which distinct labels arrive does not show after sorting |
| `TextLine.ParseTextLine` | server/src/remote_server.rs:176-307 | a line is read as its parts, labels, value and time say, and refused iff one of them is |
| `TextLine.ParseSeries` | server/src/remote_server.rs:213-273 | the loop over the label pieces: blank ones skipped, the first malformed one refuses the line |
| `TextLine.LineDivides` | server/src/remote_server.rs:176-211 | a printed line is divided into exactly its series and its value |
| `TextLine.CutRead` | server/src/remote_server.rs:233-268 | a label value with a comma or closing brace makes the line refused or that label come out with another value |
| `TextLine.LineRecoveredIff` | server/src/remote_server.rs:176-307 | a printed metric with proper names, given to the line parser in one piece, is recovered, labels sorted, iff no label value holds a comma or a closing brace |
| `TextLine.TimedLineRecovered` | server/src/remote_server.rs:206-211 | with a timestamp after the value, the sample gets that time instead of the clock's |
| `TextLine.LabelOrderHidden` | server/src/monitoring/mod.rs:113-123 | the printed label order does not change what is read |
| `TextGrammar.PieceReadIff` | server/src/remote_server.rs:235-268 | a piece between commas is read as a label iff it is that name, an equals sign and that value in double or single quotes, with any white space around them; blank pieces are passed over and all others refuse the line |
| `TextGrammar.SeriesReadIff` | server/src/remote_server.rs:213-273 | the series part is read as these labels iff it is a bare name, or a name and, in braces, comma-separated pieces that read as the labels in order |
| `TextGrammar.LineSplitIff` | server/src/remote_server.rs:176-211 | a trimmed line is divided into series, value and time iff it consists of them with white space between, the series ending at the last closing brace |
| `TextGrammar.LineReadIff` | server/src/remote_server.rs:176-307 | on every text: the parser accepts a line with a result iff the grammar gives the line that meaning, labels sorted |
| `Text.LinesCrlf` | server/src/remote_server.rs:143-146 | a carriage return before the line feed belongs to the line end |
| `TextWrite.WantedIff` | server/src/remote_server.rs:143-146 | a line counts as a series iff it holds something but white space and does not begin with `#` |
| `TextWrite.ProcessTextWrite` | server/src/remote_server.rs:137-161 | the counts reported and the batches built from the kept lines |
| `TextWrite.BatchesConserve` | server/src/remote_server.rs:148-160 | each batch holds exactly its series' samples in line order, and all batches together as many as are reported |
| `Grouping.GroupedSpec` | server/src/remote_server.rs:151-160 | grouping gives each key exactly its items, in order |
| `Grouping.GroupedTotal` | server/src/remote_server.rs:151-160 | grouping neither loses nor repeats an item |
| `TextWrite.ExportPrometheus` | server/src/monitoring/mod.rs:96-131 | the exported text, group by group, for any iteration orders |
| `TextWrite.ExportGroup` | server/src/monitoring/mod.rs:106-127 | a group: help and type lines, one line per metric, a blank line |
| `TextWrite.PrintedPermutes` | server/src/monitoring/mod.rs:99-127 | every metric is printed exactly once |
| `TextWrite.OccursMeansClean` | server/src/remote_server.rs:137-161 | whatever the text, a series read from it has no comma, closing brace or line feed in a label value |
| `TextWrite.MetricRecoveredIff` | server/src/monitoring/mod.rs:96-131 | an exported metric with proper names, whatever is exported beside it, is read back iff none of its label values holds a comma, a closing brace or a line feed |
| `TextWrite.ExportRecoveredIff` | server/src/monitoring/mod.rs:96-131 | so all metrics of an export are read back iff no label value holds one of the three |
| `TextWrite.ExportIngested` | server/src/monitoring/mod.rs:96-131 | ingesting an exported text keeps one line per metric and recovers each metric's name, sorted labels and value |

## Left out

- Simple8b packing in `delta.rs`: its bit widths lose values, and nothing else reads it.
- zstd, snappy, serde_json and UTF-8: foreign code. Bytes are those between compression and decompression; JSON and UTF-8 enter as inverse pairs.
- f64 arithmetic, `PredictionEncoder`, and the printing and parsing of numbers: values are 64-bit patterns, and printing is a function that parses back for the values concerned (a NaN pattern need not).
- The bloom filter's bits: it is a function without false negatives. `query_downsample_by_labels`: the label query again, over downsample points.
- Files, mmap, directory walking, restart and recovery: a restart reads level 0 for every block, because `meta.json` records it so (writer.rs:263), and so starts the level count anew.
- The u8 width of a compaction level: it overflows only after 255 manual compactions of one block.
- `flush_memstore` beyond its block: it never calls `add_block`, and the only registration of a flushed block in the source is the directory walk at restart; a flush that registers its block, in one step with writing it, is this model's reading of the block manager's interface. Also the memstore, and the removal of the whole blocks directory when there is nothing to flush (flush/mod.rs:145-146).
- Readers that take a block's path and open its files after releasing the lock: a reader here looks at one state of the manager.
- Failing removal of a block directory during a swap, which the code logs and passes over.
- The `run` command loop of the compaction manager beyond the compactions it starts, and its statistics.
- A task whose `create_task` future is dropped between insert and send stays pending for ever; sends here are delayed, not dropped.
- `execute_task`, request fields and `list_tasks`: the outcome of an export is a parameter.
- `add_alert`, which pushes arbitrary alerts, notifier failures, alert conditions and rule files.
- HTTP handlers, protobuf writes, remote read, `is_likely_text`, and the memstore behind `process_text_write`: its batches are the result.
- BlockFormat.ScanTimestamps: skipping a column whose size field would carry the offset past 2^64 ends the scan as "not found" here, where a checked build panics and a wrapping one goes on at the wrapped offset; no built block has such a size.
- BlockLayout.QueryExact: columns are held decoded, that is, the column codecs are taken as lossless; the program's own `decode_timestamp_column` is not (`TimestampColumn.ColumnRoundTripIffEmpty`), and `BlockLayout.QueryThroughCodec` uses the decoder that is.
- BlockLayout.ReadPointsExact: columns are held decoded, as for BlockLayout.QueryExact; asks that a point's count survives its conversion to f64 and back, as it does below 2^53.
- Compaction.VisibleIsFlushed: asks for readable blocks and fresh ids, since it is false otherwise (`Compaction.SwapPreservesIff`, `CompactionIds.WriteSwapPreservesIff`), and holds block contents decoded: `load_block_data` reads through `query`, hence through `decode_timestamp_column`, which is lossy.
- BlockLayout.PruningExact: columns are held decoded, as for BlockLayout.QueryExact. The program's decoder can give times outside the recorded range.
- BlockLayout.PointPruningExact: columns are held decoded, as for BlockLayout.QueryExact.
- MixedBlock.MixedIntactIff: columns are held decoded, as for BlockLayout.QueryExact. Its condition names the iteration orders; `MixedBlock.AlwaysIntactIff` does not.
- MixedBlock.MixedPointsRead: columns are held decoded, as for BlockLayout.QueryExact.
- MixedBlock.MixedPointsIntactIff: columns are held decoded, as for BlockLayout.QueryExact. Its condition for an id in both maps names the iteration orders; `MixedPoints.PointsAlwaysIntactIff` does not.
- MixedBlock.AlwaysIntactIff: columns are held decoded, as for BlockLayout.QueryExact.
- MixedPoints.PointsAlwaysIntactIff: columns are held decoded, as for BlockLayout.QueryExact.
- LabelQuery.ByLabelsExact: columns are held decoded, as for BlockLayout.QueryExact.
- CompactionPass.CompactionManager.CheckAndCompact: a pass runs without flushes in between; `Compaction.VisibleIsFlushed` covers flushes between any two steps.
- BlockLayout.QueryThroughCodec: uses the delta-of-delta decoder where the program's query calls `decode_timestamp_column`.
- TextLine.LineRecoveredIff: takes the line as one string; `TextWrite.MetricRecoveredIff` adds the cutting into lines.
- BlockFormat.BlockBuilder.Finish: asks that `build_columns` has not run before; `build` consumes the builder, so it never has.

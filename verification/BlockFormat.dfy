/** The single-file block of storage/src/columnstore/block_format.rs: a 64-byte
    header followed by tagged, length-prefixed columns. */
module BlockFormat {
  import opened Machine
  import opened Model
  import TimestampStream
  import ValueStream

  datatype Series = Series(id: u64, samples: seq<Sample>)

  datatype BlockType = Data | Index | Metadata | Downsample
  datatype Compression = NoCompression | Zstd | Snappy | Lz4
  datatype ColumnType = Timestamp | Value | LabelSet | SeriesId

  function BlockTypeCode(t: BlockType): byte {
    match t case Data => 0 case Index => 1 case Metadata => 2 case Downsample => 3
  }

  function BlockTypeFrom(b: byte): BlockType {
    if b == 1 then Index else if b == 2 then Metadata else if b == 3 then Downsample else Data
  }

  function CompressionCode(c: Compression): byte {
    match c case NoCompression => 0 case Zstd => 1 case Snappy => 2 case Lz4 => 3
  }

  function CompressionFrom(b: byte): Compression {
    if b == 0 then NoCompression else if b == 2 then Snappy else if b == 3 then Lz4 else Zstd
  }

  function ColumnTypeCode(t: ColumnType): byte {
    match t case Timestamp => 0 case Value => 1 case LabelSet => 2 case SeriesId => 3
  }

  function ColumnTypeFrom(b: byte): ColumnType {
    if b == 0 then Timestamp else if b == 2 then LabelSet else if b == 3 then SeriesId else Value
  }

  // ----- the header --------------------------------------------------------

  datatype Header = Header(
    version: byte, blockType: BlockType, compression: Compression,
    seriesCount: u32, sampleCount: u32, minTimestamp: i64, maxTimestamp: i64,
    metadataOffset: u64, metadataSize: u64, checksum: u32)

  const HEADER_SIZE: nat := 64
  const VERSION: byte := 1

  function NewHeader(t: BlockType): Header {
    Header(VERSION, t, Zstd, 0, 0, 0, 0, 0, 0, 0)
  }

  function Counts(h: Header): (s: seq<byte>)
    ensures |s| == 24
  {
    PutBE(h.seriesCount, 4) + PutBE(h.sampleCount, 4)
    + TimestampStream.PutSigned(h.minTimestamp, 8) + TimestampStream.PutSigned(h.maxTimestamp, 8)
  }

  function Trailer(h: Header): (s: seq<byte>)
    ensures |s| == 36
  {
    PutBE(h.metadataOffset, 8) + PutBE(h.metadataSize, 8) + PutBE(h.checksum, 4) + seq(16, _ => 0)
  }

  function EncodeHeader(h: Header): (s: seq<byte>)
    ensures |s| == HEADER_SIZE
  {
    [h.version, BlockTypeCode(h.blockType), CompressionCode(h.compression), 0] + Counts(h) + Trailer(h)
  }

  function DecodeHeader(data: seq<byte>): (r: Result<Header>) {
    if |data| < HEADER_SIZE then Err("Block header too short")
    else
      var c, t := data[4..28], data[28..64];
      Fields(c, t);
      Ok(Header(data[0], BlockTypeFrom(data[1]), CompressionFrom(data[2]),
                GetBE(c[..4]), GetBE(c[4..8]),
                TimestampStream.GetSigned64(c[8..16]), TimestampStream.GetSigned64(c[16..24]),
                GetBE(t[..8]), GetBE(t[8..16]), GetBE(t[16..20])))
  }

  lemma Fields(c: seq<byte>, t: seq<byte>)
    requires |c| == 24 && |t| == 36
    ensures GetBE(c[..4]) < TWO32 && GetBE(c[4..8]) < TWO32
    ensures GetBE(t[..8]) < TWO64 && GetBE(t[8..16]) < TWO64 && GetBE(t[16..20]) < TWO32
  {
    Pow256Values();
    GetBEBound(c[..4]);
    GetBEBound(c[4..8]);
    GetBEBound(t[..8]);
    GetBEBound(t[8..16]);
    GetBEBound(t[16..20]);
  }

  lemma CountsRead(h: Header)
    ensures var c := Counts(h);
            && GetBE(c[..4]) == h.seriesCount && GetBE(c[4..8]) == h.sampleCount
            && TimestampStream.GetSigned64(c[8..16]) == h.minTimestamp
            && TimestampStream.GetSigned64(c[16..24]) == h.maxTimestamp
  {
    var c := Counts(h);
    assert c[..4] == PutBE(h.seriesCount, 4);
    assert c[4..8] == PutBE(h.sampleCount, 4);
    assert c[8..16] == TimestampStream.PutSigned(h.minTimestamp, 8);
    assert c[16..24] == TimestampStream.PutSigned(h.maxTimestamp, 8);
    Pow256Values();
    GetPutBEExact(h.seriesCount, 4);
    GetPutBEExact(h.sampleCount, 4);
    TimestampStream.Signed64RoundTrip(h.minTimestamp);
    TimestampStream.Signed64RoundTrip(h.maxTimestamp);
  }

  lemma TrailerRead(h: Header)
    ensures var t := Trailer(h);
            && GetBE(t[..8]) == h.metadataOffset && GetBE(t[8..16]) == h.metadataSize
            && GetBE(t[16..20]) == h.checksum
  {
    var t := Trailer(h);
    assert t[..8] == PutBE(h.metadataOffset, 8);
    assert t[8..16] == PutBE(h.metadataSize, 8);
    assert t[16..20] == PutBE(h.checksum, 4);
    Pow256Values();
    GetPutBEExact(h.metadataOffset, 8);
    GetPutBEExact(h.metadataSize, 8);
    GetPutBEExact(h.checksum, 4);
  }

  /** Every header reads back, whatever follows it. */
  lemma HeaderRoundTrip(h: Header, rest: seq<byte>)
    ensures DecodeHeader(EncodeHeader(h) + rest) == Ok(h)
  {
    var data := EncodeHeader(h) + rest;
    assert data[4..28] == Counts(h);
    assert data[28..64] == Trailer(h);
    CountsRead(h);
    TrailerRead(h);
  }

  /** The bytes that no field uses are zero. */
  lemma ReservedZero(h: Header, i: nat)
    requires i == 3 || 48 <= i < HEADER_SIZE
    ensures EncodeHeader(h)[i] == 0
  {
  }

  // ----- columns -----------------------------------------------------------

  datatype Column = Column(id: u32, columnType: ColumnType, data: seq<byte>, compression: Compression,
      uncompressedSize: nat)

  const COLUMN_HEAD: nat := 22

  function ColumnHead(c: Column): (s: seq<byte>)
    ensures |s| == COLUMN_HEAD
  {
    PutBE(c.id, 4) + [ColumnTypeCode(c.columnType), CompressionCode(c.compression)]
    + PutBE(c.uncompressedSize, 8) + PutBE(|c.data|, 8)
  }

  function EncodeColumn(c: Column): (s: seq<byte>) {
    ColumnHead(c) + c.data
  }

  function EncodeColumns(cs: seq<Column>): (s: seq<byte>) {
    if cs == [] then [] else EncodeColumn(cs[0]) + EncodeColumns(cs[1..])
  }

  function SizeField(head: seq<byte>): (n: nat)
    requires |head| == COLUMN_HEAD
    ensures n < TWO64
  {
    GetBEBound(head[14..22]);
    Pow256Values();
    GetBE(head[14..22])
  }

  /** What a column's head says, field by field. */
  predicate HeadSays(head: seq<byte>, c: Column) {
    && |head| == COLUMN_HEAD && GetBE(head[..4]) == c.id && ColumnTypeFrom(head[4]) == c.columnType
    && CompressionFrom(head[5]) == c.compression && GetBE(head[6..14]) == c.uncompressedSize
    && SizeField(head) == |c.data|
  }

  /** The scan of `read_timestamps` over the columns from some offset on. Reading
      past the end panics; skipping past the end does not. */
  function FindTimestamps(columns: seq<byte>): (r: Outcome<seq<byte>>)
    decreases |columns|
  {
    if columns == [] then Failed("Timestamp column not found")
    else if |columns| < COLUMN_HEAD then Panicked
    else
      var head := columns[..COLUMN_HEAD];
      var size := SizeField(head);
      if ColumnTypeFrom(head[4]) == Timestamp then
        if COLUMN_HEAD + size > |columns| then Panicked
        else Done(columns[COLUMN_HEAD..COLUMN_HEAD + size])
      else if COLUMN_HEAD + size >= |columns| then Failed("Timestamp column not found")
      else FindTimestamps(columns[COLUMN_HEAD + size..])
  }

  /** `read_timestamps` on a whole block. */
  function ReadTimestamps(build: Build, block: seq<byte>): (r: Outcome<seq<i64>>) {
    if |block| < HEADER_SIZE then Failed("Timestamp column not found")
    else
      match FindTimestamps(block[HEADER_SIZE..])
      case Failed(e) => Failed(e)
      case Panicked => Panicked
      case Done(data) => TimestampStream.Decode(build, data)
  }

  method ScanTimestamps(build: Build, block: seq<byte>) returns (r: Outcome<seq<i64>>)
    ensures r == ReadTimestamps(build, block)
  {
    if |block| < HEADER_SIZE {
      return Failed("Timestamp column not found");
    }
    var rest := block[HEADER_SIZE..];
    while rest != []
      invariant FindTimestamps(rest) == FindTimestamps(block[HEADER_SIZE..])
      decreases |rest|
    {
      if |rest| < COLUMN_HEAD {
        return Panicked;
      }
      var size := SizeField(rest[..COLUMN_HEAD]);
      if ColumnTypeFrom(rest[4]) == Timestamp {
        if COLUMN_HEAD + size > |rest| {
          return Panicked;
        }
        r := TimestampStream.DecodeTimestamps(build, rest[COLUMN_HEAD..COLUMN_HEAD + size]);
        return;
      }
      if COLUMN_HEAD + size >= |rest| {
        return Failed("Timestamp column not found");
      }
      rest := rest[COLUMN_HEAD + size..];
    }
    r := Failed("Timestamp column not found");
  }

  /** Every field of a column's head reads back. */
  lemma ColumnHeadRead(c: Column)
    requires |c.data| < TWO64 && c.uncompressedSize < TWO64
    ensures HeadSays(ColumnHead(c), c)
  {
    var head := ColumnHead(c);
    assert head[..4] == PutBE(c.id, 4) && head[6..14] == PutBE(c.uncompressedSize, 8);
    Pow256Values();
    GetPutBEExact(c.id, 4);
    GetPutBEExact(c.uncompressedSize, 8);
    HeadScanned(c);
  }

  /** The two fields that the scan looks at. */
  lemma HeadScanned(c: Column)
    requires |c.data| < TWO64
    ensures SizeField(ColumnHead(c)) == |c.data|
    ensures ColumnTypeFrom(ColumnHead(c)[4]) == c.columnType
  {
    assert ColumnHead(c)[14..22] == PutBE(|c.data|, 8);
    Pow256Values();
    GetPutBEExact(|c.data|, 8);
  }

  /** The scan finds the first timestamp column of any column list. */
  lemma {:induction false} FindsFirst(cs: seq<Column>, k: nat)
    requires k < |cs| && cs[k].columnType == Timestamp
    requires forall i :: 0 <= i < k ==> cs[i].columnType != Timestamp
    requires forall i :: 0 <= i < |cs| ==> |cs[i].data| < TWO64
    ensures FindTimestamps(EncodeColumns(cs)) == Done(cs[k].data)
    decreases k
  {
    var all, tail := EncodeColumns(cs), EncodeColumns(cs[1..]);
    var c := cs[0];
    HeadScanned(c);
    assert all[..COLUMN_HEAD] == ColumnHead(c);
    assert all[COLUMN_HEAD..COLUMN_HEAD + |c.data|] == c.data;
    assert all[COLUMN_HEAD + |c.data|..] == tail;
    if k > 0 {
      FindsFirst(cs[1..], k - 1);
    }
  }

  /** Without a timestamp column, or any column, the scan says so. */
  lemma {:induction false} FindsNone(cs: seq<Column>)
    requires forall i :: 0 <= i < |cs| ==> cs[i].columnType != Timestamp && |cs[i].data| < TWO64
    ensures FindTimestamps(EncodeColumns(cs)) == Failed("Timestamp column not found")
  {
    if cs != [] {
      var all, c := EncodeColumns(cs), cs[0];
      HeadScanned(c);
      assert all[..COLUMN_HEAD] == ColumnHead(c);
      assert all[COLUMN_HEAD + |c.data|..] == EncodeColumns(cs[1..]);
      FindsNone(cs[1..]);
    }
  }

  // ----- building ----------------------------------------------------------

  /** The samples of all series, one series after another. */
  function AllSamples(series: seq<Series>): (s: seq<Sample>) {
    if series == [] then [] else series[0].samples + AllSamples(series[1..])
  }

  /** `map(len as u32).sum()`: each length is cut to 32 bits, and the sum wraps or
      panics at 32 bits. */
  function SampleCount(build: Build, series: seq<Series>): (r: Option<u32>) {
    if series == [] then Some(0)
    else
      var rest := SampleCount(build, series[1..]);
      if rest.None? then None
      else
        var sum := |series[0].samples| % TWO32 + rest.value;
        if sum < TWO32 then Some(sum) else if build.Checked? then None else Some(sum % TWO32)
  }

  /** No series is so long that its own length is cut. */
  predicate AllShort(series: seq<Series>) {
    forall i :: 0 <= i < |series| ==> |series[i].samples| < TWO32
  }

  lemma {:induction false} SampleCountTrue(build: Build, series: seq<Series>)
    ensures SampleCount(build, series).Some? ==>
            SampleCount(build, series).value == |AllSamples(series)| % TWO32
    ensures build.Wrapping? || |AllSamples(series)| < TWO32 ==> SampleCount(build, series).Some?
    ensures build.Checked? && |AllSamples(series)| >= TWO32 && AllShort(series) ==> SampleCount(build, series).None?
  {
    if series != [] {
      SampleCountTrue(build, series[1..]);
      assert AllShort(series) ==> AllShort(series[1..]);
      var n, m := |series[0].samples|, |AllSamples(series[1..])|;
      ModSum(n, m);
    }
  }

  lemma ModSum(n: nat, m: nat)
    ensures (n % TWO32 + m % TWO32) % TWO32 == (n + m) % TWO32
    ensures n + m < TWO32 ==> n % TWO32 + m % TWO32 == n + m
    ensures n % TWO32 + m % TWO32 < TWO32 ==> (n + m) % TWO32 == n % TWO32 + m % TWO32
  {
  }

  function FilledHeader(h: Header, series: seq<Series>, count: u32): Header {
    var ts := Timestamps(AllSamples(series));
    h.(seriesCount := |series| % TWO32, sampleCount := count,
       minTimestamp := if series == [] then h.minTimestamp else if ts == [] then 0 else Least(ts),
       maxTimestamp := if series == [] then h.maxTimestamp else if ts == [] then 0 else Greatest(ts))
  }

  function BuiltColumns(ts: seq<i64>, encoded: seq<byte>, values: seq<u64>): seq<Column> {
    [Column(0, Timestamp, encoded, Zstd, |ts| * 8),
     Column(1, Value, ValueStream.Encode(values), Zstd, |values| * 8)]
  }

  /** `BlockBuilder::build`. */
  function Assemble(build: Build, blockType: BlockType, series: seq<Series>): (r: Outcome<seq<byte>>) {
    var ts, values := Timestamps(AllSamples(series)), Values(AllSamples(series));
    match TimestampStream.Encode(build, ts)
    case Failed(e) => Failed(e)
    case Panicked => Panicked
    case Done(encoded) =>
      var count := SampleCount(build, series);
      if count.None? then Panicked
      else Done(EncodeHeader(FilledHeader(NewHeader(blockType), series, count.value))
                + EncodeColumns(BuiltColumns(ts, encoded, values)))
  }

  class BlockBuilder {
    const build: Build
    var header: Header
    var columns: seq<Column>
    var series: seq<Series>

    /** Nothing has been built yet: `build` takes the builder by value. */
    ghost predicate Unbuilt()
      reads this
    {
      columns == [] && header == NewHeader(header.blockType)
    }

    constructor (build: Build, blockType: BlockType)
      ensures Unbuilt()
      ensures this.build == build && header == NewHeader(blockType) && columns == [] && series == []
    {
      this.build := build;
      header := NewHeader(blockType);
      columns := [];
      series := [];
    }

    method AddSeries(id: u64, samples: seq<Sample>)
      modifies this
      ensures series == old(series) + [Series(id, samples)] && (old(Unbuilt()) ==> Unbuilt())
      ensures header == old(header) && columns == old(columns)
    {
      series := series + [Series(id, samples)];
    }

    method BuildColumns() returns (r: Outcome<()>)
      modifies this
      ensures header == old(header) && series == old(series)
      ensures var ts := Timestamps(AllSamples(series));
              var encoded := TimestampStream.Encode(build, ts);
              match encoded
              case Failed(e) => r == Failed(e)
              case Panicked => r == Panicked
              case Done(bytes) =>
                && r == Done(())
                && columns == old(columns) + BuiltColumns(ts, bytes, Values(AllSamples(series)))
    {
      var samples := AllSamples(series);
      var encoded := TimestampStream.EncodeTimestamps(build, Timestamps(samples));
      match encoded {
        case Failed(e) => return Failed(e);
        case Panicked => return Panicked;
        case Done(bytes) =>
          columns := columns + [Column(0, Timestamp, bytes, Zstd, |samples| * 8)];
          var values := ValueStream.EncodeValues(Values(samples));
          columns := columns + [Column(1, Value, values, Zstd, |samples| * 8)];
          r := Done(());
      }
    }

    method Finish() returns (r: Outcome<seq<byte>>)
      requires Unbuilt()
      modifies this
      ensures r == Assemble(build, old(header.blockType), old(series))
    {
      var built := BuildColumns();
      match built {
        case Failed(e) => return Failed(e);
        case Panicked => return Panicked;
        case Done(_) =>
          ghost var ts := Timestamps(AllSamples(series));
          assert columns == BuiltColumns(ts, TimestampStream.Encode(build, ts).value, Values(AllSamples(series)));
      }
      var count := SampleCount(build, series);
      if count.None? {
        return Panicked;
      }
      header := FilledHeader(header, series, count.value);
      var buf := AppendColumns(EncodeHeader(header), columns);
      r := Done(buf);
    }
  }

  method AppendColumns(head: seq<byte>, columns: seq<Column>) returns (buf: seq<byte>)
    ensures buf == head + EncodeColumns(columns)
  {
    buf := head;
    for i := 0 to |columns|
      invariant buf + EncodeColumns(columns[i..]) == head + EncodeColumns(columns)
    {
      assert columns[i..][1..] == columns[i + 1..];
      assert buf + EncodeColumns(columns[i..]) == (buf + EncodeColumn(columns[i])) + EncodeColumns(columns[i + 1..]);
      buf := buf + EncodeColumn(columns[i]);
    }
    assert buf + [] == buf;
  }

  // ----- a built block, read back ------------------------------------------

  /** Sizes that a 64-bit length field can hold; every Rust buffer is smaller. */
  predicate Addressable(build: Build, series: seq<Series>) {
    var ts := Timestamps(AllSamples(series));
    && (TimestampStream.Encode(build, ts).Done? ==> |TimestampStream.Encode(build, ts).value| < TWO64)
    && |ValueStream.Encode(Values(AllSamples(series)))| < TWO64
  }

  /** A built block gives back its header with the true counts and the exact hull
      of its timestamps, and gives back all timestamps exactly when the stream can:
      at least two of them and no colliding second difference. */
  lemma BuiltBlockReads(build: Build, blockType: BlockType, series: seq<Series>)
    requires Assemble(build, blockType, series).Done? && Addressable(build, series)
    ensures var block := Assemble(build, blockType, series).value;
            var ts := Timestamps(AllSamples(series));
            var h := DecodeHeader(block);
            && h.Ok? && h.value.blockType == blockType && h.value.version == VERSION && h.value.compression == Zstd
            && h.value.metadataOffset == h.value.metadataSize == h.value.checksum == 0
            && h.value.seriesCount == |series| % TWO32
            && h.value.sampleCount == |ts| % TWO32
            && (forall t :: t in ts ==> h.value.minTimestamp <= t <= h.value.maxTimestamp)
            && (ts != [] ==> h.value.minTimestamp in ts && h.value.maxTimestamp in ts)
            && (ts == [] ==> h.value.minTimestamp == h.value.maxTimestamp == 0)
            && TimestampStream.Encode(build, ts).Done?
            && (ReadTimestamps(build, block) == Done(ts)
                <==> |ts| >= 2 && TimestampStream.CollisionFree(build, ts))
  {
    var ts := Timestamps(AllSamples(series));
    var encoded := TimestampStream.Encode(build, ts).value;
    var columns := BuiltColumns(ts, encoded, Values(AllSamples(series)));
    var header := FilledHeader(NewHeader(blockType), series, SampleCount(build, series).value);
    var block := Assemble(build, blockType, series).value;
    HeaderRoundTrip(header, EncodeColumns(columns));
    SampleCountTrue(build, series);
    assert block[HEADER_SIZE..] == EncodeColumns(columns);
    FindsFirst(columns, 0);
    TimestampStream.RoundTripIff(build, ts);
  }

  /** The second of two columns is the end of their bytes. */
  lemma TwoColumns(first: Column, second: Column)
    ensures EncodeColumns([first, second]) == EncodeColumn(first) + ColumnHead(second) + second.data
  {
    var tail := [second];
    assert [first, second][1..] == tail && tail[1..] == [];
    assert EncodeColumns(tail) == EncodeColumn(second) + EncodeColumns(tail[1..]);
  }

  /** Behind its header a built block consists of two columns and nothing else: the
      timestamp stream under id 0, then the value stream under id 1, both marked as zstd
      although they are stored as encoded, with eight bytes per sample as original size. */
  lemma BuiltColumnsStored(build: Build, blockType: BlockType, series: seq<Series>)
    requires Assemble(build, blockType, series).Done? && Addressable(build, series)
    requires |AllSamples(series)| * 8 < TWO64
    ensures var samples := AllSamples(series);
            var stream := TimestampStream.Encode(build, Timestamps(samples)).value;
            var values, n := ValueStream.Encode(Values(samples)), |samples| * 8;
            var block, second := Assemble(build, blockType, series).value, HEADER_SIZE + COLUMN_HEAD + |stream|;
            && |block| == second + COLUMN_HEAD + |values|
            && HeadSays(block[HEADER_SIZE..HEADER_SIZE + COLUMN_HEAD], Column(0, Timestamp, stream, Zstd, n))
            && block[HEADER_SIZE + COLUMN_HEAD..second] == stream
            && HeadSays(block[second..second + COLUMN_HEAD], Column(1, Value, values, Zstd, n))
            && block[second + COLUMN_HEAD..] == values
  {
    var samples := AllSamples(series);
    var stream, values := TimestampStream.Encode(build, Timestamps(samples)).value, ValueStream.Encode(Values(samples));
    var n := |samples| * 8;
    var first, second := Column(0, Timestamp, stream, Zstd, n), Column(1, Value, values, Zstd, n);
    var block := Assemble(build, blockType, series).value;
    TwoColumns(first, second);
    ColumnHeadRead(first);
    ColumnHeadRead(second);
    FourParts(EncodeHeader(FilledHeader(NewHeader(blockType), series, SampleCount(build, series).value)),
              first, second, block);
  }

  lemma FourParts(header: seq<byte>, first: Column, second: Column, block: seq<byte>)
    requires |header| == HEADER_SIZE
    requires block == header + (EncodeColumn(first) + ColumnHead(second) + second.data)
    ensures var at := HEADER_SIZE + COLUMN_HEAD + |first.data|;
            && |block| == at + COLUMN_HEAD + |second.data|
            && block[HEADER_SIZE..HEADER_SIZE + COLUMN_HEAD] == ColumnHead(first)
            && block[HEADER_SIZE + COLUMN_HEAD..at] == first.data
            && block[at..at + COLUMN_HEAD] == ColumnHead(second) && block[at + COLUMN_HEAD..] == second.data
  {
  }

  /** The bytes of two columns, a timestamp column first, determine the data of both. */
  lemma ColumnsDetermined(a: Column, b: Column, c: Column, d: Column)
    requires EncodeColumns([a, b]) == EncodeColumns([c, d]) && a.columnType == c.columnType == Timestamp
    requires |a.data| < TWO64 && |b.data| < TWO64 && |c.data| < TWO64 && |d.data| < TWO64
    ensures a.data == c.data && b.data == d.data
  {
    FindsFirst([a, b], 0);
    FindsFirst([c, d], 0);
    TwoColumns(a, b);
    TwoColumns(c, d);
    SameEnd(EncodeColumn(a) + ColumnHead(b), b.data, EncodeColumn(c) + ColumnHead(d), d.data);
  }

  /** Blocks with the same bytes hold the same values, and the same timestamp stream. */
  lemma BuiltBlockInjective(build: Build, kindA: BlockType, a: seq<Series>, kindB: BlockType, b: seq<Series>)
    requires Assemble(build, kindA, a).Done? && Addressable(build, a)
    requires Assemble(build, kindB, b) == Assemble(build, kindA, a) && Addressable(build, b)
    ensures Values(AllSamples(a)) == Values(AllSamples(b))
    ensures TimestampStream.Encode(build, Timestamps(AllSamples(a)))
        == TimestampStream.Encode(build, Timestamps(AllSamples(b)))
  {
    var (ta, va) := BlockColumns(build, kindA, a);
    var (tb, vb) := BlockColumns(build, kindB, b);
    ColumnsDetermined(ta, va, tb, vb);
    ValueStream.EncodeInjective(Values(AllSamples(a)), Values(AllSamples(b)));
  }

  /** The two columns of a built block. */
  ghost function BlockColumns(build: Build, blockType: BlockType, series: seq<Series>): (c: (Column, Column))
    requires Assemble(build, blockType, series).Done?
    ensures Assemble(build, blockType, series).value[HEADER_SIZE..] == EncodeColumns([c.0, c.1])
    ensures c.0.columnType == Timestamp && c.1.data == ValueStream.Encode(Values(AllSamples(series)))
    ensures TimestampStream.Encode(build, Timestamps(AllSamples(series))) == Done(c.0.data)
  {
    var ts := Timestamps(AllSamples(series));
    var columns := BuiltColumns(ts, TimestampStream.Encode(build, ts).value, Values(AllSamples(series)));
    (columns[0], columns[1])
  }

  lemma SameEnd(a: seq<byte>, x: seq<byte>, b: seq<byte>, y: seq<byte>)
    requires a + x == b + y && |a| == |b|
    ensures x == y
  {
    assert x == (a + x)[|a|..] && y == (b + y)[|b|..];
  }

  /** Timestamps given in one series, all with the value 0. */
  function OneSeries(ts: seq<i64>): (series: seq<Series>)
    ensures |series| == 1 && |series[0].samples| == |ts|
    ensures forall i :: 0 <= i < |ts| ==> series[0].samples[i] == Sample(ts[i], 0)
  {
    [Series(7, seq(|ts|, i requires 0 <= i < |ts| => Sample(ts[i], 0)))]
  }

  lemma OneSeriesHolds(ts: seq<i64>)
    ensures Timestamps(AllSamples(OneSeries(ts))) == ts && |Values(AllSamples(OneSeries(ts)))| == |ts|
    ensures forall i :: 0 <= i < |ts| ==> Values(AllSamples(OneSeries(ts)))[i] == 0
  {
    var series := OneSeries(ts);
    assert series[1..] == [] && series[0].samples + [] == series[0].samples;
    assert AllSamples(series) == series[0].samples;
  }

  /** Different timestamps, same block: no reader could repair the format. */
  lemma BlocksCollide(build: Build, blockType: BlockType) returns (a: seq<Series>, b: seq<Series>)
    ensures Timestamps(AllSamples(a)) != Timestamps(AllSamples(b))
    ensures Assemble(build, blockType, a).Done? && Assemble(build, blockType, a) == Assemble(build, blockType, b)
  {
    var s, t := TimestampStream.StreamsCollide(build, 0x10_0000, 1, 2, 3, 4);
    SameHull(s, t);
    a, b := OneSeries(s), OneSeries(t);
    OneSeriesHolds(s);
    OneSeriesHolds(t);
    SameBlock(build, blockType, a, b, s, t);
  }

  /** What a block shows of its series. */
  lemma SameBlock(build: Build, blockType: BlockType, a: seq<Series>, b: seq<Series>, s: seq<i64>, t: seq<i64>)
    requires |a| == |b| == 1 && |s| == |t| && 0 < |s| < TWO32
    requires s == Timestamps(AllSamples(a)) && t == Timestamps(AllSamples(b))
    requires Values(AllSamples(a)) == Values(AllSamples(b))
    requires TimestampStream.Encode(build, s).Done?
    requires TimestampStream.Encode(build, s) == TimestampStream.Encode(build, t)
    requires Least(s) == Least(t) && Greatest(s) == Greatest(t)
    ensures Assemble(build, blockType, a).Done? && Assemble(build, blockType, a) == Assemble(build, blockType, b)
  {
    SampleCountTrue(build, a);
    SampleCountTrue(build, b);
    var h := NewHeader(blockType);
    assert FilledHeader(h, a, SampleCount(build, a).value) == FilledHeader(h, b, SampleCount(build, b).value);
  }

  lemma SameHull(s: seq<i64>, t: seq<i64>)
    requires |s| >= 2 && |t| >= 2 && s[0] == t[0] && s[1] == t[1]
    requires forall i :: 0 <= i < |s| ==> s[0] <= s[i] <= s[1]
    requires forall i :: 0 <= i < |t| ==> t[0] <= t[i] <= t[1]
    ensures Least(s) == Least(t) && Greatest(s) == Greatest(t)
  {
    assert s[0] in s && s[1] in s && t[0] in t && t[1] in t;
  }
}

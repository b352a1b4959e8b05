/** How a block writer lays series out in shared columns and how a reader cuts them
    out again: storage/src/columnstore/writer.rs and reader.rs. A block holds its
    columns decoded, that is, with lossless column codecs. */
module BlockLayout {
  import opened Machine
  import opened DeltaCodec
  import opened Model
  import BlockIndex

  /** Six aggregates as 64-bit patterns; `count` is an integer in the source. */
  datatype Point = Point(timestamp: i64, low: u64, high: u64, avg: u64, sum: u64, count: u64, last: u64)

  datatype SeriesData = SeriesData(labels: Labels, timestamps: seq<i64>, values: seq<u64>)
  datatype PointData = PointData(labels: Labels, points: seq<Point>)

  datatype PointColumns = PointColumns(low: seq<u64>, high: seq<u64>, avg: seq<u64>, sum: seq<u64>, count: seq<u64>,
      last: seq<u64>)

  /** Column files exist only where there is at least one row. */
  datatype Block = Block(
    index: seq<Entry>, time: Option<seq<i64>>, values: Option<seq<u64>>, aggregates: Option<PointColumns>,
    minTimestamp: i64, maxTimestamp: i64, totalSeries: nat, totalSamples: nat)

  /** The u64 <-> f64 casts of `count`, on bit patterns. */
  datatype Cast = Cast(toFloat: u64 -> u64, toInt: u64 -> u64)

  // ----- slots and concatenations ------------------------------------------

  predicate Covers<V>(order: seq<u64>, parts: map<u64, V>) {
    forall i :: 0 <= i < |order| ==> order[i] in parts
  }

  /** An iteration order of a hash map: every key exactly once. */
  ghost predicate Enumerates<V>(order: seq<u64>, data: map<u64, V>) {
    && Covers(order, data)
    && (forall id :: id in data ==> id in order)
    && (forall i, j :: 0 <= i < j < |order| ==> order[i] != order[j])
  }

  /** The parts one after another, in the given order. */
  function Cat<T>(order: seq<u64>, parts: map<u64, seq<T>>): (s: seq<T>)
    requires Covers(order, parts)
  {
    if order == [] then [] else parts[order[0]] + Cat(order[1..], parts)
  }

  datatype Extent = Extent(labels: Labels, count: nat)

  /** Index entries for parts of the given sizes, from a row offset on. */
  function Slots(order: seq<u64>, extents: map<u64, Extent>, offset: nat): (s: seq<Entry>)
    requires Covers(order, extents)
    decreases |order|
  {
    if order == [] then []
    else
      var e := extents[order[0]];
      [Entry(order[0], e.labels, offset, e.count)] + Slots(order[1..], extents, offset + e.count)
  }

  function Find(index: seq<Entry>, id: u64): (r: Option<Entry>) {
    if index == [] then None else if index[0].seriesId == id then Some(index[0]) else Find(index[1..], id)
  }

  lemma {:induction false} FindInFirst(a: seq<Entry>, b: seq<Entry>, id: u64)
    ensures Find(a, id).Some? ==> Find(a + b, id) == Find(a, id)
    ensures Find(a, id).None? ==> Find(a + b, id) == Find(b, id)
  {
    if a == [] {
      assert a + b == b;
    } else {
      assert (a + b)[1..] == a[1..] + b;
      FindInFirst(a[1..], b, id);
    }
  }

  lemma {:induction false} FindUnknown(order: seq<u64>, extents: map<u64, Extent>, offset: nat, id: u64)
    requires Covers(order, extents) && id !in order
    ensures Find(Slots(order, extents, offset), id) == None
    decreases |order|
  {
    if order != [] {
      FindUnknown(order[1..], extents, offset + extents[order[0]].count, id);
    }
  }

  ghost predicate Sized<T>(extents: map<u64, Extent>, parts: map<u64, seq<T>>) {
    extents.Keys == parts.Keys && forall id :: id in parts ==> extents[id].count == |parts[id]|
  }

  /** The rows of a slot are exactly the given part. */
  predicate Holds<T(==)>(column: seq<T>, slot: Entry, part: seq<T>) {
    && slot.count == |part| && slot.offset + slot.count <= |column|
    && column[slot.offset..slot.offset + slot.count] == part
  }

  /** Offsets and counts cut a concatenation exactly at its seams. */
  lemma {:induction false} Locate<T>(before: seq<T>, order: seq<u64>, extents: map<u64, Extent>, parts: map<u64,
                                     seq<T>>, id: u64)
    requires Covers(order, parts) && Covers(order, extents) && Sized(extents, parts) && id in order
    ensures var slot := Find(Slots(order, extents, |before|), id);
            && slot.Some? && slot.value.labels == extents[id].labels
            && Holds(before + Cat(order, parts), slot.value, parts[id])
    decreases |order|
  {
    var head, tail := parts[order[0]], Cat(order[1..], parts);
    assert before + (head + tail) == (before + head) + tail;
    if order[0] == id {
      assert ((before + head) + tail)[|before|..|before| + |head|] == head;
    } else {
      Locate(before + head, order[1..], extents, parts, id);
      FindTail(order, extents, |before|, id);
    }
  }

  lemma LocateFromStart<T>(order: seq<u64>, extents: map<u64, Extent>, parts: map<u64, seq<T>>, id: u64)
    requires Covers(order, parts) && Covers(order, extents) && Sized(extents, parts) && id in order
    ensures var slot := Find(Slots(order, extents, 0), id);
            && slot.Some? && slot.value.labels == extents[id].labels
            && Holds(Cat(order, parts), slot.value, parts[id])
  {
    Locate([], order, extents, parts, id);
    assert [] + Cat(order, parts) == Cat(order, parts);
  }

  lemma FindTail(order: seq<u64>, extents: map<u64, Extent>, offset: nat, id: u64)
    requires order != [] && Covers(order, extents) && order[0] != id
    ensures Find(Slots(order, extents, offset), id)
        == Find(Slots(order[1..], extents, offset + extents[order[0]].count), id)
  {
    var rest := Slots(order[1..], extents, offset + extents[order[0]].count);
    assert Slots(order, extents, offset)[1..] == rest;
  }

  // ----- `write` -----------------------------------------------------------

  function TimeParts(data: map<u64, SeriesData>): (parts: map<u64, seq<i64>>)
    ensures parts.Keys == data.Keys
  {
    map id | id in data :: data[id].timestamps
  }

  function ValueParts(data: map<u64, SeriesData>): (parts: map<u64, seq<u64>>)
    ensures parts.Keys == data.Keys
  {
    map id | id in data :: data[id].values
  }

  function RawExtents(data: map<u64, SeriesData>): (extents: map<u64, Extent>)
    ensures extents.Keys == data.Keys
  {
    map id | id in data :: Extent(data[id].labels, |data[id].timestamps|)
  }

  function PointParts(data: map<u64, PointData>): (parts: map<u64, seq<Point>>)
    ensures parts.Keys == data.Keys
  {
    map id | id in data :: data[id].points
  }

  function PointExtents(data: map<u64, PointData>): (extents: map<u64, Extent>)
    ensures extents.Keys == data.Keys
  {
    map id | id in data :: Extent(data[id].labels, |data[id].points|)
  }

  predicate Paired(data: map<u64, SeriesData>) {
    forall id :: id in data ==> |data[id].timestamps| == |data[id].values|
  }

  function PointTimes(points: seq<Point>): (ts: seq<i64>)
    ensures |ts| == |points|
    ensures forall i :: 0 <= i < |points| ==> ts[i] == points[i].timestamp
  {
    seq(|points|, i requires 0 <= i < |points| => points[i].timestamp)
  }

  function Column(points: seq<Point>, f: Point -> u64): (c: seq<u64>)
    ensures |c| == |points|
    ensures forall i :: 0 <= i < |points| ==> c[i] == f(points[i])
  {
    seq(|points|, i requires 0 <= i < |points| => f(points[i]))
  }

  function ToColumns(cast: Cast, points: seq<Point>): (c: PointColumns) {
    PointColumns(Column(points, (p: Point) => p.low), Column(points, (p: Point) => p.high),
                 Column(points, (p: Point) => p.avg), Column(points, (p: Point) => p.sum),
                 Column(points, (p: Point) => cast.toFloat(p.count)), Column(points, (p: Point) => p.last))
  }

  /** The block that `write` leaves for the given walks of its two maps. The second
      half replaces the time column of the first and starts its offsets at 0. */
  function Written(cast: Cast, raw: map<u64, SeriesData>, rawOrder: seq<u64>,
                   ds: map<u64, PointData>, dsOrder: seq<u64>): (b: Block)
    requires Covers(rawOrder, raw) && Covers(dsOrder, ds)
  {
    var ts, vs := Cat(rawOrder, TimeParts(raw)), Cat(rawOrder, ValueParts(raw));
    var points := Cat(dsOrder, PointParts(ds));
    Assembled(cast, Slots(rawOrder, RawExtents(raw), 0) + Slots(dsOrder, PointExtents(ds), 0), ts, vs, points,
              BlockLow(ts, PointTimes(points)), BlockHigh(ts, PointTimes(points)), |rawOrder| + |dsOrder|)
  }

  function Assembled(cast: Cast, index: seq<Entry>, ts: seq<i64>, vs: seq<u64>, points: seq<Point>,
                     low: i64, high: i64, series: nat): (b: Block) {
    Block(index, TimeColumn(ts, points), if vs != [] then Some(vs) else None,
          if points != [] then Some(ToColumns(cast, points)) else None, low, high, series, |ts| + |points|)
  }

  function TimeColumn(ts: seq<i64>, points: seq<Point>): Option<seq<i64>> {
    if points != [] then Some(PointTimes(points)) else if ts != [] then Some(ts) else None
  }

  /** A raw bound of 0 counts as unset when the second half updates it. */
  function BlockLow(ts: seq<i64>, times: seq<i64>): i64 {
    if times != [] && (Least(ts) == 0 || Least(times) < Least(ts)) then Least(times) else Least(ts)
  }

  function BlockHigh(ts: seq<i64>, times: seq<i64>): i64 {
    if times != [] && (Greatest(ts) == 0 || Greatest(times) > Greatest(ts)) then Greatest(times) else Greatest(ts)
  }

  /** The writer object. Adding to a known series keeps the labels of the first call. */
  class BlockWriter {
    const cast: Cast
    var seriesData: map<u64, SeriesData>
    var pointData: map<u64, PointData>

    ghost predicate Valid()
      reads this
    {
      Paired(seriesData)
    }

    constructor (cast: Cast)
      ensures Valid() && this.cast == cast && seriesData == map[] && pointData == map[]
    {
      this.cast := cast;
      seriesData := map[];
      pointData := map[];
    }

    method AddSeries(id: u64, labels: Labels, samples: seq<Sample>)
      requires Valid()
      modifies this
      ensures Valid() && pointData == old(pointData)
      ensures var before := if id in old(seriesData) then old(seriesData)[id] else SeriesData(labels, [], []);
              seriesData == old(seriesData)[id := SeriesData(before.labels, before.timestamps
                  + Timestamps(samples), before.values + Values(samples))]
    {
      var data := if id in seriesData then seriesData[id] else SeriesData(labels, [], []);
      var timestamps, values := data.timestamps, data.values;
      for i := 0 to |samples|
        invariant timestamps == data.timestamps + Timestamps(samples[..i])
        invariant values == data.values + Values(samples[..i])
      {
        assert samples[..i + 1] == samples[..i] + [samples[i]];
        timestamps := timestamps + [samples[i].timestamp];
        values := values + [samples[i].value];
      }
      assert samples[..|samples|] == samples;
      seriesData := seriesData[id := SeriesData(data.labels, timestamps, values)];
    }

    method AddPoints(id: u64, labels: Labels, points: seq<Point>)
      requires Valid()
      modifies this
      ensures Valid() && seriesData == old(seriesData)
      ensures var before := if id in old(pointData) then old(pointData)[id] else PointData(labels, []);
              pointData == old(pointData)[id := PointData(before.labels, before.points + points)]
    {
      var data := if id in pointData then pointData[id] else PointData(labels, []);
      pointData := pointData[id := PointData(data.labels, data.points + points)];
    }

    method Write(rawOrder: seq<u64>, dsOrder: seq<u64>) returns (block: Block)
      requires Valid() && Enumerates(rawOrder, seriesData) && Enumerates(dsOrder, pointData)
      ensures block == Written(cast, seriesData, rawOrder, pointData, dsOrder)
    {
      var rawIndex, ts, vs := LayRaw(seriesData, rawOrder);
      var dsIndex, points := LayPoints(pointData, dsOrder);
      var low, high := Bounds(ts, PointTimes(points));
      block := Assembled(cast, rawIndex + dsIndex, ts, vs, points, low, high, |rawOrder| + |dsOrder|);
    }
  }

  method Bounds(ts: seq<i64>, times: seq<i64>) returns (low: i64, high: i64)
    ensures low == BlockLow(ts, times) && high == BlockHigh(ts, times)
  {
    low, high := Least(ts), Greatest(ts);
    if times != [] {
      var currentLow, currentHigh := Least(times), Greatest(times);
      if low == 0 || currentLow < low {
        low := currentLow;
      }
      if high == 0 || currentHigh > high {
        high := currentHigh;
      }
    }
  }

  method LayRaw(data: map<u64, SeriesData>, order: seq<u64>) returns (index: seq<Entry>, ts: seq<i64>, vs: seq<u64>)
    requires Covers(order, data)
    ensures index == Slots(order, RawExtents(data), 0)
    ensures ts == Cat(order, TimeParts(data)) && vs == Cat(order, ValueParts(data))
  {
    index, ts, vs := [], [], [];
    var offset: nat := 0;
    ghost var extents, times, values := RawExtents(data), TimeParts(data), ValueParts(data);
    for i := 0 to |order|
      invariant index + Slots(order[i..], extents, offset) == Slots(order, extents, 0)
      invariant ts + Cat(order[i..], times) == Cat(order, times)
      invariant vs + Cat(order[i..], values) == Cat(order, values)
    {
      var series := data[order[i]];
      assert order[i..][1..] == order[i + 1..];
      CatStep(ts, order[i..], times);
      CatStep(vs, order[i..], values);
      SlotsStep(index, order[i..], extents, offset);
      index := index + [Entry(order[i], series.labels, offset, |series.timestamps|)];
      ts, vs := ts + series.timestamps, vs + series.values;
      offset := offset + |series.timestamps|;
    }
  }

  method LayPoints(data: map<u64, PointData>, order: seq<u64>) returns (index: seq<Entry>, points: seq<Point>)
    requires Covers(order, data)
    ensures index == Slots(order, PointExtents(data), 0) && points == Cat(order, PointParts(data))
  {
    index, points := [], [];
    var offset: nat := 0;
    ghost var extents, parts := PointExtents(data), PointParts(data);
    for i := 0 to |order|
      invariant index + Slots(order[i..], extents, offset) == Slots(order, extents, 0)
      invariant points + Cat(order[i..], parts) == Cat(order, parts)
    {
      var series := data[order[i]];
      assert order[i..][1..] == order[i + 1..];
      CatStep(points, order[i..], parts);
      SlotsStep(index, order[i..], extents, offset);
      index := index + [Entry(order[i], series.labels, offset, |series.points|)];
      points := points + series.points;
      offset := offset + |series.points|;
    }
  }

  lemma CatStep<T>(done: seq<T>, order: seq<u64>, parts: map<u64, seq<T>>)
    requires order != [] && Covers(order, parts)
    ensures done + Cat(order, parts) == (done + parts[order[0]]) + Cat(order[1..], parts)
  {
  }

  lemma SlotsStep(done: seq<Entry>, order: seq<u64>, extents: map<u64, Extent>, offset: nat)
    requires order != [] && Covers(order, extents)
    ensures var e := extents[order[0]];
            done + Slots(order, extents, offset)
            == (done + [Entry(order[0], e.labels, offset, e.count)]) + Slots(order[1..], extents, offset + e.count)
  {
  }

  // ----- `query` -----------------------------------------------------------

  /** Paired rows whose timestamp lies in the range, up to the shorter column. */
  function Select(ts: seq<i64>, vs: seq<u64>, start: i64, end: i64): (s: seq<Sample>) {
    if ts == [] || vs == [] then []
    else (if start <= ts[0] <= end then [Sample(ts[0], vs[0])] else []) + Select(ts[1..], vs[1..], start, end)
  }

  function Rows<T>(column: seq<T>, slot: Entry): (s: seq<T>) {
    var from := Min(slot.offset, |column|);
    column[from..Min(slot.offset + slot.count, |column|)]
  }

  function Query(block: Block, id: u64, start: i64, end: i64): (r: Result<seq<Sample>>) {
    var slot := Find(block.index, id);
    if slot.None? then Err("series not found")
    else if block.time.None? || block.values.None? then Err("column file missing")
    else
      var ts, vs := block.time.value, block.values.value;
      Ok(SelectRows(ts, vs, slot.value.offset, Min(Min(slot.value.offset + slot.value.count, |ts|), |vs|), start, end))
  }

  /** The rows from one number to another whose timestamp lies in the range. */
  function SelectRows(ts: seq<i64>, vs: seq<u64>, from: nat, stop: nat, start: i64, end: i64): (s: seq<Sample>)
    requires stop <= |ts| && stop <= |vs|
    decreases stop - from
  {
    if from >= stop then []
    else (if start <= ts[from] <= end then [Sample(ts[from], vs[from])] else [])
         + SelectRows(ts, vs, from + 1, stop, start, end)
  }

  method QueryBlock(block: Block, id: u64, start: i64, end: i64) returns (r: Result<seq<Sample>>)
    ensures r == Query(block, id, start, end)
  {
    var slot := Find(block.index, id);
    if slot.None? {
      return Err("series not found");
    }
    if block.time.None? || block.values.None? {
      return Err("column file missing");
    }
    var ts, vs := block.time.value, block.values.value;
    var from := slot.value.offset;
    var stop := Min(Min(from + slot.value.count, |ts|), |vs|);
    var samples: seq<Sample> := [];
    var i := from;
    ghost var all := SelectRows(ts, vs, from, stop, start, end);
    while i < stop
      invariant samples + SelectRows(ts, vs, i, stop, start, end) == all
    {
      SelectStep(samples, ts, vs, i, stop, start, end);
      if start <= ts[i] <= end {
        samples := samples + [Sample(ts[i], vs[i])];
      }
      i := i + 1;
    }
    assert samples + [] == samples;
    r := Ok(samples);
  }

  lemma SelectStep(done: seq<Sample>, ts: seq<i64>, vs: seq<u64>, i: nat, stop: nat, start: i64, end: i64)
    requires i < stop <= |ts| && stop <= |vs|
    ensures done + SelectRows(ts, vs, i, stop, start, end)
         == (if start <= ts[i] <= end then done + [Sample(ts[i], vs[i])] else done)
             + SelectRows(ts, vs, i + 1, stop, start, end)
  {
  }

  lemma {:induction false} SelectRowsIs(ts: seq<i64>, vs: seq<u64>, i: nat, endT: nat, endV: nat, start: i64, end: i64)
    requires i <= endT <= |ts| && i <= endV <= |vs|
    ensures SelectRows(ts, vs, i, Min(endT, endV), start, end) == Select(ts[i..endT], vs[i..endV], start, end)
    decreases endT - i
  {
    if i < Min(endT, endV) {
      SelectRowsIs(ts, vs, i + 1, endT, endV, start, end);
      assert ts[i..endT][1..] == ts[i + 1..endT] && vs[i..endV][1..] == vs[i + 1..endV];
    }
  }

  lemma QueryRows(block: Block, id: u64, start: i64, end: i64)
    requires Find(block.index, id).Some? && block.time.Some? && block.values.Some?
    ensures var slot := Find(block.index, id).value;
            Query(block, id, start, end)
            == Ok(Select(Rows(block.time.value, slot), Rows(block.values.value, slot), start, end))
  {
    var slot := Find(block.index, id).value;
    var ts, vs, last := block.time.value, block.values.value, slot.offset + slot.count;
    var endT, endV := Min(last, |ts|), Min(last, |vs|);
    assert Min(endT, endV) == Min(Min(last, |ts|), |vs|);
    if slot.offset <= |ts| && slot.offset <= |vs| {
      SelectRowsIs(ts, vs, slot.offset, endT, endV, start, end);
    }
  }

  /** The samples of one series with timestamp in the range, in insertion order. */
  function InRange(data: SeriesData, start: i64, end: i64): (s: seq<Sample>) {
    Select(data.timestamps, data.values, start, end)
  }

  /** The rows are, in order, all those from `lo` on that are wanted, and pick the result. */
  ghost predicate Picks<T>(rows: seq<nat>, lo: nat, wanted: seq<bool>, all: seq<T>, r: seq<T>)
    requires |wanted| == |all|
  {
    && |rows| == |r|
    && (forall k :: 0 <= k < |rows| ==> lo <= rows[k] < |all| && wanted[rows[k]] && r[k] == all[rows[k]])
    && (forall j, k :: 0 <= j < k < |rows| ==> rows[j] < rows[k])
    && (forall i :: lo <= i < |all| && wanted[i] ==> i in rows)
  }

  lemma PicksOne<T>(rows: seq<nat>, lo: nat, wanted: seq<bool>, all: seq<T>, r: seq<T>) returns (more: seq<nat>)
    requires |wanted| == |all| && lo < |all| && Picks(rows, lo + 1, wanted, all, r)
    ensures Picks(more, lo, wanted, all, (if wanted[lo] then [all[lo]] else []) + r)
  {
    if wanted[lo] {
      more := [lo] + rows;
      InCons(lo, rows);
    } else {
      more := rows;
      AppendNil(r);
    }
  }

  lemma InCons(x: nat, rows: seq<nat>)
    ensures forall i :: i in [x] + rows <==> i == x || i in rows
  {
  }

  /** The times that lie in a range, ends included. */
  function Within(times: seq<i64>, start: i64, end: i64): (wanted: seq<bool>)
    ensures |wanted| == |times| && forall i :: 0 <= i < |times| ==> (wanted[i] <==> start <= times[i] <= end)
  {
    seq(|times|, i requires 0 <= i < |times| => start <= times[i] <= end)
  }

  /** The samples of a series, row by row. */
  function Samples(data: SeriesData): (s: seq<Sample>)
    requires |data.timestamps| == |data.values|
    ensures |s| == |data.timestamps|
    ensures forall i :: 0 <= i < |s| ==> s[i] == Sample(data.timestamps[i], data.values[i])
  {
    seq(|data.timestamps|, i requires 0 <= i < |data.timestamps| => Sample(data.timestamps[i], data.values[i]))
  }

  lemma {:induction false} SelectPicks(data: SeriesData, start: i64, end: i64, lo: nat) returns (rows: seq<nat>)
    requires lo <= |data.timestamps| == |data.values|
    ensures Picks(rows, lo, Within(data.timestamps, start, end), Samples(data),
                  Select(data.timestamps[lo..], data.values[lo..], start, end))
    decreases |data.timestamps| - lo
  {
    rows := [];
    if lo < |data.timestamps| {
      rows := SelectPicks(data, start, end, lo + 1);
      var ts, vs := data.timestamps, data.values;
      assert ts[lo..][1..] == ts[lo + 1..] && vs[lo..][1..] == vs[lo + 1..];
      rows := PicksOne(rows, lo, Within(ts, start, end), Samples(data), Select(ts[lo + 1..], vs[lo + 1..], start, end));
    }
  }

  /** What `InRange` picks: every sample with timestamp in the range, ends included, once
      and in insertion order, and no other. */
  lemma InRangePicks(data: SeriesData, start: i64, end: i64) returns (rows: seq<nat>)
    requires |data.timestamps| == |data.values|
    ensures Picks(rows, 0, Within(data.timestamps, start, end), Samples(data), InRange(data, start, end))
  {
    rows := SelectPicks(data, start, end, 0);
    assert data.timestamps[0..] == data.timestamps && data.values[0..] == data.values;
  }

  lemma RowsHeld<T>(column: seq<T>, slot: Entry, part: seq<T>)
    requires Holds(column, slot, part)
    ensures Rows(column, slot) == part
  {
  }

  /** A column that starts with another holds the same rows. */
  lemma HeldByLonger<T>(column: seq<T>, longer: seq<T>, slot: Entry, part: seq<T>)
    requires Holds(column, slot, part) && column <= longer
    ensures Holds(longer, slot, part)
  {
  }

  /** Against any time column, a raw series is cut out of its own slot and paired
      with its own values. */
  lemma QueryAgainst(block: Block, raw: map<u64, SeriesData>, order: seq<u64>, id: u64, start: i64, end: i64)
    requires Paired(raw) && Enumerates(order, raw) && id in raw
    requires Find(block.index, id) == Find(Slots(order, RawExtents(raw), 0), id)
    requires block.time.Some? && block.values == Some(Cat(order, ValueParts(raw)))
    ensures Find(block.index, id).Some?
    ensures Query(block, id, start, end)
         == Ok(Select(Rows(block.time.value, Find(block.index, id).value), raw[id].values, start, end))
  {
    LocateFromStart(order, RawExtents(raw), ValueParts(raw), id);
    RowsHeld(block.values.value, Find(block.index, id).value, raw[id].values);
    QueryRows(block, id, start, end);
  }

  lemma RowsAgainst(time: seq<i64>, raw: map<u64, SeriesData>, order: seq<u64>, id: u64)
    requires Paired(raw) && Enumerates(order, raw) && id in raw
    requires Cat(order, TimeParts(raw)) <= time
    ensures Find(Slots(order, RawExtents(raw), 0), id).Some?
    ensures Rows(time, Find(Slots(order, RawExtents(raw), 0), id).value) == raw[id].timestamps
  {
    var ts := Cat(order, TimeParts(raw));
    LocateFromStart(order, RawExtents(raw), TimeParts(raw), id);
    var slot := Find(Slots(order, RawExtents(raw), 0), id).value;
    HeldByLonger(ts, time, slot, raw[id].timestamps);
    RowsHeld(time, slot, raw[id].timestamps);
  }

  /** For any set of series and any walk of the map, a query on a raw block returns
      exactly that series' own samples in the range, in insertion order. Only a block
      without any sample has no column file; an unknown series is reported. */
  lemma QueryExact(cast: Cast, raw: map<u64, SeriesData>, order: seq<u64>, block: Block, id: u64, start: i64, end: i64)
    requires Paired(raw) && Enumerates(order, raw)
    requires block == Written(cast, raw, order, map[], [])
    ensures id !in raw ==> Query(block, id, start, end) == Err("series not found")
    ensures id in raw && block.totalSamples == 0 ==> Query(block, id, start, end) == Err("column file missing")
    ensures id in raw && block.totalSamples > 0 ==> Query(block, id, start, end) == Ok(InRange(raw[id], start, end))
  {
    RawOnly(cast, raw, order, block);
    if id !in raw {
      FindUnknown(order, RawExtents(raw), 0, id);
    } else {
      LocateFromStart(order, RawExtents(raw), TimeParts(raw), id);
      SameLength(order, raw);
      if block.totalSamples > 0 {
        QueryAgainst(block, raw, order, id, start, end);
        RowsAgainst(block.time.value, raw, order, id);
      }
    }
  }

  lemma RawOnly(cast: Cast, raw: map<u64, SeriesData>, order: seq<u64>, block: Block)
    requires Covers(order, raw) && block == Written(cast, raw, order, map[], [])
    ensures var ts, vs := Cat(order, TimeParts(raw)), Cat(order, ValueParts(raw));
            && block.index == Slots(order, RawExtents(raw), 0)
            && block.time == (if ts == [] then None else Some(ts))
            && block.values == (if vs == [] then None else Some(vs))
            && block.totalSamples == |ts|
  {
    var index := Slots(order, RawExtents(raw), 0);
    assert index + [] == index;
  }

  lemma {:induction false} SameLength(order: seq<u64>, raw: map<u64, SeriesData>)
    requires Paired(raw) && Covers(order, raw)
    ensures |Cat(order, TimeParts(raw))| == |Cat(order, ValueParts(raw))|
  {
    if order != [] {
      SameLength(order[1..], raw);
    }
  }

  /** The same through the bytes of the index, and through the bytes of the time column
      with the codec that does invert the column builder. */
  lemma QueryThroughCodec(build: Build, json: BlockIndex.Json, cast: Cast, raw: map<u64, SeriesData>, order: seq<u64>,
                          block: Block, column: seq<byte>, id: u64, start: i64, end: i64)
    requires Paired(raw) && Enumerates(order, raw) && id in raw
    requires block == Written(cast, raw, order, map[], [])
    requires block.time.Some? && EncodeRun(Second, FRESH, block.time.value).1 == Ok(column)
    requires BlockIndex.Faithful(json) && BlockIndex.Printable(json, block.index) && |block.index| < TWO32
    ensures var index := BlockIndex.ReadAll(json, BlockIndex.Build(json, block.index));
            var decoded := DecodeRun(build, Second, FRESH, column).1;
            && index.Ok? && decoded.Done?
            && Query(block.(index := index.value, time := Some(decoded.value)), id, start, end)
               == Ok(InRange(raw[id], start, end))
  {
    BlockIndex.ReadInvertsBuild(json, block.index);
    RoundTrip(build, Second, block.time.value);
    assert block.(index := block.index, time := Some(block.time.value)) == block;
    RawOnly(cast, raw, order, block);
    QueryExact(cast, raw, order, block, id, start, end);
  }

  // ----- `read_downsample_points` ------------------------------------------

  function At(column: seq<u64>, i: nat): u64 {
    if i < |column| then column[i] else 0
  }

  function PointAt(cast: Cast, ts: seq<i64>, c: PointColumns, i: nat): Point
    requires i < |ts|
  {
    Point(ts[i], At(c.low, i), At(c.high, i), At(c.avg, i), At(c.sum, i), cast.toInt(At(c.count, i)), At(c.last, i))
  }

  function SelectPoints(cast: Cast, ts: seq<i64>, c: PointColumns, from: nat, stop: nat, start: i64,
                        end: i64): (s: seq<Point>)
    requires stop <= |ts|
    decreases stop - from
  {
    if from >= stop then []
    else (if start <= ts[from] <= end then [PointAt(cast, ts, c, from)] else [])
         + SelectPoints(cast, ts, c, from + 1, stop, start, end)
  }

  function ReadPoints(cast: Cast, block: Block, id: u64, start: i64, end: i64): (r: Result<seq<Point>>) {
    var slot := Find(block.index, id);
    if slot.None? then Err("series not found")
    else if block.time.None? || block.aggregates.None? then Err("column file missing")
    else
      var ts := block.time.value;
      Ok(SelectPoints(cast, ts, block.aggregates.value, slot.value.offset,
                      Min(slot.value.offset + slot.value.count, |ts|), start, end))
  }

  /** A column continued with zeros. */
  function Padded(column: seq<u64>, n: nat): (r: seq<u64>)
    ensures |column| <= |r| && n <= |r| && forall i :: 0 <= i < |r| ==> r[i] == if i < |column| then column[i] else 0
  {
    column + seq(n, _ => 0)
  }

  /** On any block, a row that an aggregate column lacks is read as if the column went on
      with zeros. */
  lemma {:induction false} ShortColumnsPadded(cast: Cast, ts: seq<i64>, c: PointColumns, from: nat, stop: nat,
                                              start: i64, end: i64, n: nat)
    requires stop <= |ts| <= n
    ensures SelectPoints(cast, ts, c, from, stop, start, end)
         == SelectPoints(cast, ts, PointColumns(Padded(c.low, n), Padded(c.high, n), Padded(c.avg, n),
                                                Padded(c.sum, n), Padded(c.count, n), Padded(c.last, n)),
                         from, stop, start, end)
    decreases stop - from
  {
    if from < stop {
      ShortColumnsPadded(cast, ts, c, from + 1, stop, start, end, n);
    }
  }

  function PointsInRange(points: seq<Point>, start: i64, end: i64): (s: seq<Point>) {
    if points == [] then []
    else (if start <= points[0].timestamp <= end then [points[0]] else []) + PointsInRange(points[1..], start, end)
  }

  lemma {:induction false} PointsPickFrom(points: seq<Point>, start: i64, end: i64, lo: nat) returns (rows: seq<nat>)
    requires lo <= |points|
    ensures Picks(rows, lo, Within(PointTimes(points), start, end), points, PointsInRange(points[lo..], start, end))
    decreases |points| - lo
  {
    rows := [];
    if lo < |points| {
      rows := PointsPickFrom(points, start, end, lo + 1);
      assert points[lo..][1..] == points[lo + 1..];
      rows := PicksOne(rows, lo, Within(PointTimes(points), start, end), points,
                       PointsInRange(points[lo + 1..], start, end));
    }
  }

  /** The same of downsample points. */
  lemma PointsPick(points: seq<Point>, start: i64, end: i64) returns (rows: seq<nat>)
    ensures Picks(rows, 0, Within(PointTimes(points), start, end), points, PointsInRange(points, start, end))
  {
    rows := PointsPickFrom(points, start, end, 0);
    assert points[0..] == points;
  }

  /** Counts survive the cast to f64 and back (all counts up to 2^53 do). */
  predicate CountsSurvive(cast: Cast, points: seq<Point>) {
    forall i :: 0 <= i < |points| ==> cast.toInt(cast.toFloat(points[i].count)) == points[i].count
  }

  lemma {:induction false} SelectPointsIs(cast: Cast, points: seq<Point>, from: nat, stop: nat, start: i64, end: i64)
    requires from <= stop <= |points| && CountsSurvive(cast, points)
    ensures SelectPoints(cast, PointTimes(points), ToColumns(cast, points), from, stop, start, end)
         == PointsInRange(points[from..stop], start, end)
    decreases stop - from
  {
    if from < stop {
      SelectPointsIs(cast, points, from + 1, stop, start, end);
      assert points[from..stop][1..] == points[from + 1..stop];
      assert PointAt(cast, PointTimes(points), ToColumns(cast, points), from) == points[from];
    }
  }

  /** The same exactness for downsample blocks. */
  lemma ReadPointsExact(cast: Cast, ds: map<u64, PointData>, order: seq<u64>, block: Block, id: u64, start: i64,
                        end: i64)
    requires Enumerates(order, ds) && CountsSurvive(cast, Cat(order, PointParts(ds)))
    requires block == Written(cast, map[], [], ds, order)
    ensures id !in ds ==> ReadPoints(cast, block, id, start, end) == Err("series not found")
    ensures id in ds && block.totalSamples == 0 ==>
        ReadPoints(cast, block, id, start, end) == Err("column file missing")
    ensures id in ds && block.totalSamples > 0 ==>
            ReadPoints(cast, block, id, start, end) == Ok(PointsInRange(ds[id].points, start, end))
  {
    var points := Cat(order, PointParts(ds));
    PointsOnly(cast, ds, order, block);
    if id !in ds {
      FindUnknown(order, PointExtents(ds), 0, id);
    } else {
      LocateFromStart(order, PointExtents(ds), PointParts(ds), id);
      if points != [] {
        ReadPointsHeld(cast, block, points, ds[id].points, id, start, end);
      }
    }
  }

  lemma ReadPointsHeld(cast: Cast, block: Block, points: seq<Point>, own: seq<Point>, id: u64, start: i64, end: i64)
    requires CountsSurvive(cast, points)
    requires block.time == Some(PointTimes(points)) && block.aggregates == Some(ToColumns(cast, points))
    requires Find(block.index, id).Some? && Holds(points, Find(block.index, id).value, own)
    ensures ReadPoints(cast, block, id, start, end) == Ok(PointsInRange(own, start, end))
  {
    var slot := Find(block.index, id).value;
    SelectPointsIs(cast, points, slot.offset, slot.offset + slot.count, start, end);
  }

  lemma PointsOnly(cast: Cast, ds: map<u64, PointData>, order: seq<u64>, block: Block)
    requires Covers(order, ds) && block == Written(cast, map[], [], ds, order)
    ensures var points := Cat(order, PointParts(ds));
            && block.index == Slots(order, PointExtents(ds), 0)
            && block.time == (if points == [] then None else Some(PointTimes(points)))
            && block.aggregates == (if points == [] then None else Some(ToColumns(cast, points)))
            && block.totalSamples == |points|
  {
    var index := Slots(order, PointExtents(ds), 0);
    assert [] + index == index;
  }

  // ----- pruning by time range ---------------------------------------------

  /** The filter of `find_blocks_in_range`. */
  predicate MayContain(block: Block, start: i64, end: i64) {
    block.minTimestamp <= end && block.maxTimestamp >= start
  }

  /** The recorded range covers every timestamp of the time column. */
  predicate RangeSound(block: Block) {
    block.time.Some? ==> forall t :: t in block.time.value ==> block.minTimestamp <= t <= block.maxTimestamp
  }

  /** It does so in every written block. */
  lemma WrittenRange(cast: Cast, raw: map<u64, SeriesData>, rawOrder: seq<u64>, ds: map<u64, PointData>,
                     dsOrder: seq<u64>)
    requires Covers(rawOrder, raw) && Covers(dsOrder, ds)
    ensures RangeSound(Written(cast, raw, rawOrder, ds, dsOrder))
  {
  }

  /** In a block of one kind it is the exact hull of the timestamps. */
  lemma SingleKindHull(cast: Cast, raw: map<u64, SeriesData>, rawOrder: seq<u64>, ds: map<u64, PointData>,
                       dsOrder: seq<u64>)
    requires Covers(rawOrder, raw) && Covers(dsOrder, ds) && (rawOrder == [] || dsOrder == [])
    ensures var block := Written(cast, raw, rawOrder, ds, dsOrder);
            && RangeSound(block)
            && (block.time.Some? ==> block.minTimestamp in block.time.value && block.maxTimestamp in block.time.value)
  {
  }

  /** A block of both kinds records the hull of all its timestamps, raw and downsample, but
      for a raw bound of 0, which counts as unset: such a bound is covered only if the
      downsample times reach it. */
  lemma MixedRangeIff(cast: Cast, raw: map<u64, SeriesData>, rawOrder: seq<u64>, ds: map<u64, PointData>,
                      dsOrder: seq<u64>, ts: seq<i64>, times: seq<i64>, block: Block)
    requires Covers(rawOrder, raw) && Covers(dsOrder, ds) && ts == Cat(rawOrder, TimeParts(raw))
    requires times == PointTimes(Cat(dsOrder, PointParts(ds))) && ts != [] && times != []
    requires block == Written(cast, raw, rawOrder, ds, dsOrder)
    ensures block.minTimestamp in ts + times && block.maxTimestamp in ts + times
    ensures (forall t :: t in ts + times ==> block.minTimestamp <= t)
       <==> (0 in ts && (forall t :: t in ts ==> 0 <= t) ==> exists t :: t in times && t <= 0)
    ensures (forall t :: t in ts + times ==> t <= block.maxTimestamp)
       <==> (0 in ts && (forall t :: t in ts ==> t <= 0) ==> exists t :: t in times && t >= 0)
  {
    LowCovers(ts, times);
    HighCovers(ts, times);
  }

  lemma LowCovers(ts: seq<i64>, times: seq<i64>)
    requires ts != [] && times != []
    ensures BlockLow(ts, times) in ts + times
    ensures (forall t :: t in ts + times ==> BlockLow(ts, times) <= t)
       <==> (0 in ts && (forall t :: t in ts ==> 0 <= t) ==> exists t :: t in times && t <= 0)
  {
    var low := BlockLow(ts, times);
    assert Least(ts) in ts + times && Least(times) in ts + times;
    assert Least(ts) == 0 <==> 0 in ts && forall t :: t in ts ==> 0 <= t;
    assert Least(times) <= 0 <==> exists t :: t in times && t <= 0;
    assert (forall t :: t in ts + times ==> low <= t) <==> low <= Least(ts) && low <= Least(times);
  }

  lemma HighCovers(ts: seq<i64>, times: seq<i64>)
    requires ts != [] && times != []
    ensures BlockHigh(ts, times) in ts + times
    ensures (forall t :: t in ts + times ==> t <= BlockHigh(ts, times))
       <==> (0 in ts && (forall t :: t in ts ==> t <= 0) ==> exists t :: t in times && t >= 0)
  {
    var high := BlockHigh(ts, times);
    assert Greatest(ts) in ts + times && Greatest(times) in ts + times;
    assert Greatest(ts) == 0 <==> 0 in ts && forall t :: t in ts ==> t <= 0;
    assert Greatest(times) >= 0 <==> exists t :: t in times && t >= 0;
    assert (forall t :: t in ts + times ==> t <= high) <==> Greatest(ts) <= high && Greatest(times) <= high;
  }

  /** The index of a written block, row by row: first the raw series in their order, then
      the downsample series in theirs, each with its id, its labels and its size. */
  lemma WrittenIndex(cast: Cast, raw: map<u64, SeriesData>, rawOrder: seq<u64>, ds: map<u64, PointData>,
                     dsOrder: seq<u64>, block: Block, i: nat)
    requires Covers(rawOrder, raw) && Covers(dsOrder, ds) && block == Written(cast, raw, rawOrder, ds, dsOrder)
    ensures |block.index| == block.totalSeries == |rawOrder| + |dsOrder|
    ensures i < |rawOrder| ==>
              var e, data := block.index[i], raw[rawOrder[i]];
              e.seriesId == rawOrder[i] && e.labels == data.labels && e.count == |data.timestamps|
    ensures i < |dsOrder| ==>
              var e, data := block.index[|rawOrder| + i], ds[dsOrder[i]];
              e.seriesId == dsOrder[i] && e.labels == data.labels && e.count == |data.points|
  {
    SlotsAre(rawOrder, RawExtents(raw), 0, i);
    SlotsAre(dsOrder, PointExtents(ds), 0, i);
  }

  lemma {:induction false} SlotsAre(order: seq<u64>, extents: map<u64, Extent>, offset: nat, i: nat)
    requires Covers(order, extents)
    ensures |Slots(order, extents, offset)| == |order|
    ensures i < |order| ==>
              var e := Slots(order, extents, offset)[i];
              e.seriesId == order[i] && e.labels == extents[order[i]].labels && e.count == extents[order[i]].count
    decreases |order|
  {
    if order != [] {
      SlotsAre(order[1..], extents, offset + extents[order[0]].count, if i == 0 then 0 else i - 1);
    }
  }

  /** A block as some writer leaves it, whatever kinds of series it holds. */
  ghost predicate IsWritten(block: Block) {
    exists cast: Cast, raw: map<u64, SeriesData>, rawOrder: seq<u64>, ds: map<u64, PointData>, dsOrder: seq<u64> ::
      Covers(rawOrder, raw) && Covers(dsOrder, ds) && block == Written(cast, raw, rawOrder, ds, dsOrder)
  }

  lemma WrittenSound(block: Block)
    requires IsWritten(block)
    ensures RangeSound(block)
  {
    var cast: Cast, raw: map<u64, SeriesData>, rawOrder: seq<u64>, ds: map<u64, PointData>, dsOrder: seq<u64> :|
      Covers(rawOrder, raw) && Covers(dsOrder, ds) && block == Written(cast, raw, rawOrder, ds, dsOrder);
    WrittenRange(cast, raw, rawOrder, ds, dsOrder);
  }

  lemma {:induction false} SelectOutside(ts: seq<i64>, vs: seq<u64>, start: i64, end: i64)
    requires forall i :: 0 <= i < |ts| ==> !(start <= ts[i] <= end)
    ensures Select(ts, vs, start, end) == []
  {
    if ts != [] && vs != [] {
      SelectOutside(ts[1..], vs[1..], start, end);
    }
  }

  /** The samples of one series over a list of blocks; a block that cannot answer
      contributes nothing. */
  function QueryAll(blocks: seq<Block>, id: u64, start: i64, end: i64): (s: seq<Sample>) {
    if blocks == [] then []
    else Answer(blocks[0], id, start, end) + QueryAll(blocks[1..], id, start, end)
  }

  function Answer(block: Block, id: u64, start: i64, end: i64): (s: seq<Sample>) {
    var r := Query(block, id, start, end);
    if r.Ok? then r.value else []
  }

  lemma {:induction false} QueryAllHas(blocks: seq<Block>, id: u64, start: i64, end: i64, x: Sample)
    ensures x in QueryAll(blocks, id, start, end) <==>
            exists i :: 0 <= i < |blocks| && Query(blocks[i], id, start, end).Ok?
                     && x in Query(blocks[i], id, start, end).value
  {
    if blocks != [] {
      QueryAllHas(blocks[1..], id, start, end, x);
      assert forall i :: 0 <= i < |blocks| - 1 ==> blocks[1..][i] == blocks[i + 1];
      if i :| 0 <= i < |blocks| && Query(blocks[i], id, start, end).Ok? && x in Query(blocks[i], id, start, end).value {
        assert i > 0 ==> blocks[1..][i - 1] == blocks[i];
      }
    }
  }

  function InTimeRange(blocks: seq<Block>, start: i64, end: i64): (kept: seq<Block>) {
    if blocks == [] then []
    else if MayContain(blocks[0], start, end) then [blocks[0]] + InTimeRange(blocks[1..], start, end)
    else InTimeRange(blocks[1..], start, end)
  }

  /** The blocks whose recorded range meets the range asked for. */
  function Meeting(blocks: seq<Block>, start: i64, end: i64): (wanted: seq<bool>)
    ensures |wanted| == |blocks|
    ensures forall i :: 0 <= i < |blocks| ==>
              (wanted[i] <==> blocks[i].minTimestamp <= end && start <= blocks[i].maxTimestamp)
  {
    seq(|blocks|, i requires 0 <= i < |blocks| => blocks[i].minTimestamp <= end && start <= blocks[i].maxTimestamp)
  }

  lemma {:induction false} PruningPicksFrom(blocks: seq<Block>, start: i64, end: i64, lo: nat) returns (kept: seq<nat>)
    requires lo <= |blocks|
    ensures Picks(kept, lo, Meeting(blocks, start, end), blocks, InTimeRange(blocks[lo..], start, end))
    decreases |blocks| - lo
  {
    kept := [];
    if lo < |blocks| {
      kept := PruningPicksFrom(blocks, start, end, lo + 1);
      var rest := InTimeRange(blocks[lo + 1..], start, end);
      assert blocks[lo..][1..] == blocks[lo + 1..];
      AppendNil(rest);
      kept := PicksOne(kept, lo, Meeting(blocks, start, end), blocks, rest);
    }
  }

  /** Pruning leaves exactly the blocks whose recorded range meets the range, in order. */
  lemma PruningPicks(blocks: seq<Block>, start: i64, end: i64) returns (kept: seq<nat>)
    ensures Picks(kept, 0, Meeting(blocks, start, end), blocks, InTimeRange(blocks, start, end))
  {
    kept := PruningPicksFrom(blocks, start, end, 0);
    assert blocks[0..] == blocks;
  }

  /** A written block whose recorded range does not meet the range has no row to give,
      neither sample nor point. */
  lemma LeftOutEmpty(cast: Cast, block: Block, id: u64, start: i64, end: i64)
    requires IsWritten(block) && (end < block.minTimestamp || block.maxTimestamp < start)
    ensures Query(block, id, start, end).Ok? ==> Query(block, id, start, end).value == []
    ensures ReadPoints(cast, block, id, start, end).Ok? ==> ReadPoints(cast, block, id, start, end).value == []
  {
    WrittenSound(block);
    SkippedAnswer(block, id, start, end);
    SkippedPoints(cast, block, id, start, end);
  }

  lemma SkippedAnswer(block: Block, id: u64, start: i64, end: i64)
    requires RangeSound(block) && !MayContain(block, start, end)
    ensures Answer(block, id, start, end) == []
  {
    var r := Query(block, id, start, end);
    if r.Ok? {
      var slot := Find(block.index, id).value;
      QueryRows(block, id, start, end);
      assert forall i :: 0 <= i < |Rows(block.time.value, slot)| ==>
          Rows(block.time.value, slot)[i] in block.time.value;
      SelectOutside(Rows(block.time.value, slot), Rows(block.values.value, slot), start, end);
    }
  }

  /** Skipping the blocks outside the range loses no sample and keeps the order, for any
      written blocks. */
  lemma {:induction false} PruningExact(blocks: seq<Block>, id: u64, start: i64, end: i64)
    requires forall i :: 0 <= i < |blocks| ==> IsWritten(blocks[i])
    ensures QueryAll(InTimeRange(blocks, start, end), id, start, end) == QueryAll(blocks, id, start, end)
  {
    if blocks != [] {
      PruningExact(blocks[1..], id, start, end);
      var b, rest := blocks[0], InTimeRange(blocks[1..], start, end);
      if MayContain(b, start, end) {
        assert ([b] + rest)[1..] == rest;
      } else {
        WrittenSound(b);
        SkippedAnswer(b, id, start, end);
      }
    }
  }

  /** The downsample points of one series over a list of blocks. */
  function PointsAll(cast: Cast, blocks: seq<Block>, id: u64, start: i64, end: i64): (s: seq<Point>) {
    if blocks == [] then []
    else PointsAnswer(cast, blocks[0], id, start, end) + PointsAll(cast, blocks[1..], id, start, end)
  }

  function PointsAnswer(cast: Cast, block: Block, id: u64, start: i64, end: i64): (s: seq<Point>) {
    var r := ReadPoints(cast, block, id, start, end);
    if r.Ok? then r.value else []
  }

  lemma {:induction false} PointsAllHas(cast: Cast, blocks: seq<Block>, id: u64, start: i64, end: i64, p: Point)
    ensures p in PointsAll(cast, blocks, id, start, end) <==>
            exists i :: 0 <= i < |blocks| && ReadPoints(cast, blocks[i], id, start, end).Ok?
                     && p in ReadPoints(cast, blocks[i], id, start, end).value
  {
    if blocks != [] {
      PointsAllHas(cast, blocks[1..], id, start, end, p);
      assert forall i :: 0 <= i < |blocks| - 1 ==> blocks[1..][i] == blocks[i + 1];
      if i :| 0 <= i < |blocks| && ReadPoints(cast, blocks[i], id, start, end).Ok?
              && p in ReadPoints(cast, blocks[i], id, start, end).value {
        assert i > 0 ==> blocks[1..][i - 1] == blocks[i];
      }
    }
  }

  lemma {:induction false} SelectPointsOutside(cast: Cast, ts: seq<i64>, c: PointColumns, from: nat, stop: nat,
                                               start: i64, end: i64)
    requires stop <= |ts| && forall i :: 0 <= i < |ts| ==> !(start <= ts[i] <= end)
    ensures SelectPoints(cast, ts, c, from, stop, start, end) == []
    decreases stop - from
  {
    if from < stop {
      SelectPointsOutside(cast, ts, c, from + 1, stop, start, end);
    }
  }

  lemma SkippedPoints(cast: Cast, block: Block, id: u64, start: i64, end: i64)
    requires RangeSound(block) && !MayContain(block, start, end)
    ensures PointsAnswer(cast, block, id, start, end) == []
  {
    if ReadPoints(cast, block, id, start, end).Ok? {
      var slot, ts := Find(block.index, id).value, block.time.value;
      assert forall i :: 0 <= i < |ts| ==> ts[i] in ts;
      SelectPointsOutside(cast, ts, block.aggregates.value, slot.offset, Min(slot.offset + slot.count, |ts|),
                          start, end);
    }
  }

  /** The same for downsample points. */
  lemma {:induction false} PointPruningExact(cast: Cast, blocks: seq<Block>, id: u64, start: i64, end: i64)
    requires forall i :: 0 <= i < |blocks| ==> IsWritten(blocks[i])
    ensures PointsAll(cast, InTimeRange(blocks, start, end), id, start, end) == PointsAll(cast, blocks, id, start, end)
  {
    if blocks != [] {
      PointPruningExact(cast, blocks[1..], id, start, end);
      var b, rest := blocks[0], InTimeRange(blocks[1..], start, end);
      if MayContain(b, start, end) {
        assert ([b] + rest)[1..] == rest;
      } else {
        WrittenSound(b);
        SkippedPoints(cast, b, id, start, end);
      }
    }
  }
}

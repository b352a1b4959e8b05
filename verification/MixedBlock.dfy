/** Writers that hold both raw and downsample series
    (storage/src/columnstore/writer.rs): the second half of `write` replaces the time
    column of the first and starts its offsets at 0. */
module MixedBlock {
  import opened Machine
  import opened Model
  import opened BlockLayout
  import opened Orders

  // ----- the raw series of one written block -------------------------------

  const FIRST: i64 := -TWO63
  const LAST: i64 := TWO63 - 1

  /** Full-range queries give every raw series back. */
  ghost predicate RawIntact(block: Block, raw: map<u64, SeriesData>) {
    forall id :: id in raw ==> Query(block, id, FIRST, LAST) == Ok(InRange(raw[id], FIRST, LAST))
  }

  lemma {:induction false} SelectAll(ts: seq<i64>, vs: seq<u64>)
    ensures |Select(ts, vs, FIRST, LAST)| == Min(|ts|, |vs|)
    ensures forall i :: 0 <= i < Min(|ts|, |vs|) ==> Select(ts, vs, FIRST, LAST)[i] == Sample(ts[i], vs[i])
  {
    if ts != [] && vs != [] {
      SelectAll(ts[1..], vs[1..]);
    }
  }

  /** The parts of a mixed block that a raw query looks at. */
  lemma MixedParts(cast: Cast, raw: map<u64, SeriesData>, rawOrder: seq<u64>, ds: map<u64, PointData>,
                   dsOrder: seq<u64>, block: Block, id: u64)
    requires Paired(raw) && Enumerates(rawOrder, raw) && Covers(dsOrder, ds) && id in raw
    requires block == Written(cast, raw, rawOrder, ds, dsOrder)
    requires Cat(dsOrder, PointParts(ds)) != [] && Cat(rawOrder, TimeParts(raw)) != []
    ensures Find(block.index, id) == Find(Slots(rawOrder, RawExtents(raw), 0), id)
    ensures block.time == Some(PointTimes(Cat(dsOrder, PointParts(ds))))
    ensures block.values == Some(Cat(rawOrder, ValueParts(raw)))
  {
    LocateFromStart(rawOrder, RawExtents(raw), ValueParts(raw), id);
    FindInFirst(Slots(rawOrder, RawExtents(raw), 0), Slots(dsOrder, PointExtents(ds), 0), id);
    SameLength(rawOrder, raw);
  }

  /** Every row of the raw columns lies in the slot of some series. */
  lemma {:induction false} RowOwner(order: seq<u64>, raw: map<u64, SeriesData>, offset: nat, row: nat)
    returns (id: u64, entry: Entry)
    requires Covers(order, raw) && row < |Cat(order, TimeParts(raw))|
    requires forall i, j :: 0 <= i < j < |order| ==> order[i] != order[j]
    ensures id in order && id in raw && Find(Slots(order, RawExtents(raw), offset), id) == Some(entry)
    ensures entry.offset <= offset + row < entry.offset + entry.count && entry.count == |raw[id].timestamps|
    ensures Cat(order, TimeParts(raw))[row] == raw[id].timestamps[offset + row - entry.offset]
    decreases |order|
  {
    var n := |raw[order[0]].timestamps|;
    if row < n {
      id, entry := order[0], Entry(order[0], raw[order[0]].labels, offset, n);
    } else {
      id, entry := RowOwner(order[1..], raw, offset + n, row - n);
    }
  }

  /** A writer holding both kinds gives its raw series back exactly when the raw
      timestamps happen to be a prefix of the downsample timestamps that replaced
      them. */
  lemma MixedIntactIff(cast: Cast, raw: map<u64, SeriesData>, rawOrder: seq<u64>, ds: map<u64, PointData>,
                       dsOrder: seq<u64>, block: Block)
    requires Paired(raw) && Enumerates(rawOrder, raw) && Enumerates(dsOrder, ds)
    requires block == Written(cast, raw, rawOrder, ds, dsOrder)
    requires Cat(dsOrder, PointParts(ds)) != [] && Cat(rawOrder, TimeParts(raw)) != []
    ensures RawIntact(block, raw)
       <==> Cat(rawOrder, TimeParts(raw)) <= PointTimes(Cat(dsOrder, PointParts(ds)))
  {
    forall id | id in raw
      ensures Find(block.index, id) == Find(Slots(rawOrder, RawExtents(raw), 0), id)
    {
      MixedParts(cast, raw, rawOrder, ds, dsOrder, block, id);
    }
    var owner, entry := RowOwner(rawOrder, raw, 0, 0);
    MixedParts(cast, raw, rawOrder, ds, dsOrder, block, owner);
    IntactIffPrefix(raw, rawOrder, block);
  }

  lemma IntactIffPrefix(raw: map<u64, SeriesData>, order: seq<u64>, block: Block)
    requires Paired(raw) && Enumerates(order, raw) && SameEntries(block, raw, order)
    requires block.time.Some? && block.values == Some(Cat(order, ValueParts(raw)))
    ensures RawIntact(block, raw) <==> Cat(order, TimeParts(raw)) <= block.time.value
  {
    if Cat(order, TimeParts(raw)) <= block.time.value {
      forall id | id in raw
        ensures Query(block, id, FIRST, LAST) == Ok(InRange(raw[id], FIRST, LAST))
      {
        QueryAgainst(block, raw, order, id, FIRST, LAST);
        RowsAgainst(block.time.value, raw, order, id);
      }
    }
    if RawIntact(block, raw) {
      IntactMeansPrefix(raw, order, block, Cat(order, TimeParts(raw)));
    }
  }

  lemma IntactMeansPrefix(raw: map<u64, SeriesData>, order: seq<u64>, block: Block, ts: seq<i64>)
    requires Paired(raw) && Enumerates(order, raw) && RawIntact(block, raw) && ts == Cat(order, TimeParts(raw))
    requires SameEntries(block, raw, order)
    requires block.time.Some? && block.values == Some(Cat(order, ValueParts(raw)))
    ensures ts <= block.time.value
  {
    forall row | 0 <= row < |ts|
      ensures SameRow(ts, block.time.value, row)
    {
      RowOwned(raw, order, block, ts, row);
      OwnedKept(raw, block, ts, row);
    }
    LongEnough(ts, block.time.value);
  }

  /** The row is one of the entry's, and has the timestamp of the series there. */
  predicate Holding(ts: seq<i64>, row: nat, own: seq<i64>, entry: Entry) {
    && row < |ts| && entry.count == |own| && entry.offset <= row < entry.offset + entry.count
    && ts[row] == own[row - entry.offset]
  }

  lemma TopRowOwner(order: seq<u64>, raw: map<u64, SeriesData>, ts: seq<i64>, row: nat) returns (id: u64, entry: Entry)
    requires Enumerates(order, raw) && ts == Cat(order, TimeParts(raw)) && row < |ts|
    ensures id in raw && Find(Slots(order, RawExtents(raw), 0), id) == Some(entry)
    ensures Holding(ts, row, raw[id].timestamps, entry)
  {
    id, entry := RowOwner(order, raw, 0, row);
  }

  /** A row of some series, which a query pairs with its own values. */
  ghost predicate Owned(raw: map<u64, SeriesData>, block: Block, ts: seq<i64>, row: nat, id: u64, entry: Entry)
    requires block.time.Some?
  {
    && id in raw && Holding(ts, row, raw[id].timestamps, entry)
    && Query(block, id, FIRST, LAST) == Ok(Select(Rows(block.time.value, entry), raw[id].values, FIRST, LAST))
  }

  lemma RowOwned(raw: map<u64, SeriesData>, order: seq<u64>, block: Block, ts: seq<i64>, row: nat)
    requires Paired(raw) && Enumerates(order, raw) && ts == Cat(order, TimeParts(raw)) && row < |ts|
    requires SameEntries(block, raw, order)
    requires block.time.Some? && block.values == Some(Cat(order, ValueParts(raw)))
    ensures exists id, entry :: Owned(raw, block, ts, row, id, entry)
  {
    var id, entry := TopRowOwner(order, raw, ts, row);
    OwnerAnswer(raw, order, block, id, entry);
    assert Owned(raw, block, ts, row, id, entry);
  }

  lemma OwnerAnswer(raw: map<u64, SeriesData>, order: seq<u64>, block: Block, id: u64, entry: Entry)
    requires Paired(raw) && Enumerates(order, raw) && SameEntries(block, raw, order) && id in raw
    requires Find(Slots(order, RawExtents(raw), 0), id) == Some(entry)
    requires block.time.Some? && block.values == Some(Cat(order, ValueParts(raw)))
    ensures Query(block, id, FIRST, LAST) == Ok(Select(Rows(block.time.value, entry), raw[id].values, FIRST, LAST))
  {
    SameEntry(block, raw, order, id);
    QueryAgainst(block, raw, order, id, FIRST, LAST);
  }

  /** If the series comes back, its row stands where it stood. */
  lemma OwnedKept(raw: map<u64, SeriesData>, block: Block, ts: seq<i64>, row: nat)
    requires Paired(raw) && RawIntact(block, raw) && block.time.Some?
    requires exists id, entry :: Owned(raw, block, ts, row, id, entry)
    ensures SameRow(ts, block.time.value, row)
  {
    var id, entry :| Owned(raw, block, ts, row, id, entry);
    assert Query(block, id, FIRST, LAST) == Ok(InRange(raw[id], FIRST, LAST));
    OwnRows(block.time.value, raw[id], entry, row);
  }

  lemma SameEntry(block: Block, raw: map<u64, SeriesData>, order: seq<u64>, id: u64)
    requires Covers(order, raw) && SameEntries(block, raw, order) && id in raw
    ensures Find(block.index, id) == Find(Slots(order, RawExtents(raw), 0), id)
  {
  }

  /** The index finds the raw series where a raw block would have them. */
  ghost predicate SameEntries(block: Block, raw: map<u64, SeriesData>, order: seq<u64>)
    requires Covers(order, raw)
  {
    forall id :: id in raw ==> Find(block.index, id) == Find(Slots(order, RawExtents(raw), 0), id)
  }

  predicate SameRow(ts: seq<i64>, time: seq<i64>, row: nat) {
    row < |ts| && row < |time| && time[row] == ts[row]
  }

  lemma LongEnough(ts: seq<i64>, time: seq<i64>)
    requires forall row :: 0 <= row < |ts| ==> SameRow(ts, time, row)
    ensures ts <= time
  {
    if ts != [] {
      assert SameRow(ts, time, |ts| - 1);
      forall row | 0 <= row < |ts|
        ensures ts[row] == time[row]
      {
        assert SameRow(ts, time, row);
      }
      assert ts == time[..|ts|];
    }
  }

  /** If a slot of a time column pairs with a series' values to give its samples,
      the slot holds the series' timestamps. */
  lemma OwnRows(time: seq<i64>, own: SeriesData, slot: Entry, row: nat)
    requires |own.timestamps| == |own.values| == slot.count
    requires slot.offset <= row < slot.offset + slot.count
    requires Select(Rows(time, slot), own.values, FIRST, LAST) == InRange(own, FIRST, LAST)
    ensures row < |time| && time[row] == own.timestamps[row - slot.offset]
  {
    var rows, k := Rows(time, slot), row - slot.offset;
    SelectAll(rows, own.values);
    SelectAll(own.timestamps, own.values);
    assert Select(rows, own.values, FIRST, LAST)[k].timestamp == rows[k];
  }

  // ----- its downsample points ---------------------------------------------

  lemma {:induction false} AllPoints(points: seq<Point>)
    ensures PointsInRange(points, FIRST, LAST) == points
  {
    if points != [] {
      AllPoints(points[1..]);
      assert points == [points[0]] + points[1..];
    }
  }

  /** The rows that a mixed block gives for a downsample series: its own, unless a raw
      series has the same id, for then the raw entry is found first. */
  function PointRows(raw: map<u64, SeriesData>, rawOrder: seq<u64>, points: seq<Point>, own: seq<Point>,
                     id: u64): seq<Point>
    requires Covers(rawOrder, raw)
  {
    var entry := Find(Slots(rawOrder, RawExtents(raw), 0), id);
    if entry.Some? then Rows(points, entry.value) else own
  }

  lemma MixedPointsRead(cast: Cast, raw: map<u64, SeriesData>, rawOrder: seq<u64>, ds: map<u64, PointData>,
                        dsOrder: seq<u64>,
                        block: Block, id: u64, start: i64, end: i64)
    requires Enumerates(rawOrder, raw) && Enumerates(dsOrder, ds) && id in ds
    requires block == Written(cast, raw, rawOrder, ds, dsOrder)
    requires Cat(dsOrder, PointParts(ds)) != [] && CountsSurvive(cast, Cat(dsOrder, PointParts(ds)))
    ensures ReadPoints(cast, block, id, start, end)
         == Ok(PointsInRange(PointRows(raw, rawOrder, Cat(dsOrder, PointParts(ds)), ds[id].points, id), start, end))
  {
    var points := Cat(dsOrder, PointParts(ds));
    var rawIndex, dsIndex := Slots(rawOrder, RawExtents(raw), 0), Slots(dsOrder, PointExtents(ds), 0);
    assert block.index == rawIndex + dsIndex;
    assert block.time == Some(PointTimes(points)) && block.aggregates == Some(ToColumns(cast, points));
    FindInFirst(rawIndex, dsIndex, id);
    LocateFromStart(dsOrder, PointExtents(ds), PointParts(ds), id);
    EitherEntry(cast, block, rawIndex, dsIndex, points, ds[id].points, id, start, end);
  }

  /** Reading points through whichever half of the index has the id first. */
  lemma EitherEntry(cast: Cast, block: Block, rawIndex: seq<Entry>, dsIndex: seq<Entry>, points: seq<Point>,
                    own: seq<Point>,
                    id: u64, start: i64, end: i64)
    requires CountsSurvive(cast, points)
    requires block.time == Some(PointTimes(points)) && block.aggregates == Some(ToColumns(cast, points))
    requires Find(block.index, id) == if Find(rawIndex, id).Some? then Find(rawIndex, id) else Find(dsIndex, id)
    requires Find(dsIndex, id).Some? && Holds(points, Find(dsIndex, id).value, own)
    ensures ReadPoints(cast, block, id, start, end)
         == Ok(PointsInRange(if Find(rawIndex, id).Some? then Rows(points, Find(rawIndex, id).value) else own,
                             start, end))
  {
    if Find(rawIndex, id).Some? {
      assert Find(block.index, id) == Find(rawIndex, id);
      RowsOfPoints(cast, points, Find(rawIndex, id).value, start, end);
    } else {
      ReadPointsHeld(cast, block, points, own, id, start, end);
    }
  }

  lemma RowsOfPoints(cast: Cast, points: seq<Point>, entry: Entry, start: i64, end: i64)
    requires CountsSurvive(cast, points)
    ensures SelectPoints(cast, PointTimes(points), ToColumns(cast, points), entry.offset,
                         Min(entry.offset + entry.count, |points|), start, end)
         == PointsInRange(Rows(points, entry), start, end)
  {
    if entry.offset <= |points| {
      SelectPointsIs(cast, points, entry.offset, Min(entry.offset + entry.count, |points|), start, end);
    }
  }

  /** A downsample series of a mixed block comes back iff no raw series has its id, or
      the rows of that raw series happen to be its points. */
  lemma MixedPointsIntactIff(cast: Cast, raw: map<u64, SeriesData>, rawOrder: seq<u64>, ds: map<u64, PointData>,
                             dsOrder: seq<u64>,
                             block: Block, id: u64)
    requires Enumerates(rawOrder, raw) && Enumerates(dsOrder, ds) && id in ds
    requires block == Written(cast, raw, rawOrder, ds, dsOrder)
    requires Cat(dsOrder, PointParts(ds)) != [] && CountsSurvive(cast, Cat(dsOrder, PointParts(ds)))
    ensures id in raw ==> Find(Slots(rawOrder, RawExtents(raw), 0), id).Some?
    ensures ReadPoints(cast, block, id, FIRST, LAST) == Ok(ds[id].points)
       <==> (id in raw ==>
               Rows(Cat(dsOrder, PointParts(ds)), Find(Slots(rawOrder, RawExtents(raw), 0), id).value) == ds[id].points)
  {
    MixedPointsRead(cast, raw, rawOrder, ds, dsOrder, block, id, FIRST, LAST);
    AllPoints(PointRows(raw, rawOrder, Cat(dsOrder, PointParts(ds)), ds[id].points, id));
    if id in raw {
      LocateFromStart(rawOrder, RawExtents(raw), TimeParts(raw), id);
    } else {
      FindUnknown(rawOrder, RawExtents(raw), 0, id);
    }
  }

  // ----- whatever the walks ------------------------------------------------

  /** Two sequences that read the same in either order. */
  predicate Commute<T(==)>(a: seq<T>, b: seq<T>) {
    a + b == b + a
  }

  predicate AllCommute(parts: map<u64, seq<i64>>) {
    forall a, b :: a in parts && b in parts ==> Commute(parts[a], parts[b])
  }

  /** The list is found in the column from this row on. */
  predicate StandsAt<T(==)>(xs: seq<T>, row: nat, column: seq<T>) {
    xs == [] || (row <= |column| && xs <= column[row..])
  }

  /** In whatever order the parts come, the list is found from this row on. */
  predicate AlwaysAt<T(==)>(xs: seq<T>, row: nat, parts: map<u64, seq<T>>, ids: set<u64>)
    requires ids <= parts.Keys
    decreases |ids|
  {
    xs == [] ||
    (ids != {} && forall id :: id in ids ==>
       if |parts[id]| <= row then AlwaysAt(xs, row - |parts[id]|, parts, ids - {id})
       else
         var rest := parts[id][row..];
         if |xs| <= |rest| then xs <= rest else rest <= xs && AlwaysAt(xs[|rest|..], 0, parts, ids - {id}))
  }

  /** Finding a list across the seam of a first part and the others. */
  lemma StandsAcross<T>(xs: seq<T>, row: nat, a: seq<T>, b: seq<T>)
    requires xs != []
    ensures StandsAt(xs, row, a + b) <==>
            if |a| <= row then StandsAt(xs, row - |a|, b)
            else
              var rest := a[row..];
              if |xs| <= |rest| then xs <= rest else rest <= xs && StandsAt(xs[|rest|..], 0, b)
  {
    var all := a + b;
    if |a| <= row {
      assert row <= |all| ==> all[row..] == b[row - |a|..];
    } else {
      var rest := a[row..];
      assert all[row..] == rest + b;
      if |xs| <= |rest| {
        assert xs <= rest + b <==> xs <= rest;
      } else {
        assert b[0..] == b;
        AcrossSeam(xs, rest, b);
      }
    }
  }

  lemma AcrossSeam<T>(xs: seq<T>, a: seq<T>, b: seq<T>)
    requires |xs| > |a|
    ensures xs <= a + b <==> a <= xs && xs[|a|..] <= b
  {
    assert (a + b)[|a|..] == b && (a + b)[..|a|] == a;
    if xs <= a + b {
      assert xs == (a + b)[..|xs|];
      assert xs[|a|..] == b[..|xs| - |a|];
    }
    if a <= xs && xs[|a|..] <= b {
      assert xs == a + xs[|a|..];
    }
  }

  lemma WalksCover<T>(order: seq<u64>, parts: map<u64, seq<T>>, ids: set<u64>)
    requires Walks(order, ids) && ids <= parts.Keys
    ensures Covers(order, parts)
  {
    assert forall i :: 0 <= i < |order| ==> order[i] in order;
  }

  lemma {:induction false} AlwaysMeansEach<T>(xs: seq<T>, row: nat, parts: map<u64, seq<T>>, ids: set<u64>,
                                              order: seq<u64>)
    requires ids <= parts.Keys && AlwaysAt(xs, row, parts, ids) && Walks(order, ids)
    ensures Covers(order, parts) && StandsAt(xs, row, Cat(order, parts))
    decreases |ids|
  {
    WalksCover(order, parts, ids);
    if xs != [] {
      AlwaysSome(xs, row, parts, ids, order);
      var id, tail := order[0], order[1..];
      WalksTail(order, ids);
      AlwaysTurn(xs, row, parts, ids, id);
      var a := parts[id];
      if |a| <= row {
        AlwaysMeansEach(xs, row - |a|, parts, ids - {id}, tail);
      } else if |xs| > |a[row..]| {
        AlwaysMeansEach(xs[|a[row..]|..], 0, parts, ids - {id}, tail);
      }
      StandsAcross(xs, row, a, Cat(tail, parts));
    }
  }

  lemma AlwaysSome<T>(xs: seq<T>, row: nat, parts: map<u64, seq<T>>, ids: set<u64>, order: seq<u64>)
    requires ids <= parts.Keys && AlwaysAt(xs, row, parts, ids) && Walks(order, ids) && xs != []
    ensures order != []
  {
    var some :| some in ids;
    assert some in order;
  }

  /** With one of the parts first. */
  lemma AlwaysTurn<T>(xs: seq<T>, row: nat, parts: map<u64, seq<T>>, ids: set<u64>, id: u64)
    requires ids <= parts.Keys && AlwaysAt(xs, row, parts, ids) && xs != [] && id in ids
    ensures if |parts[id]| <= row then AlwaysAt(xs, row - |parts[id]|, parts, ids - {id})
            else
              var rest := parts[id][row..];
              if |xs| <= |rest| then xs <= rest else rest <= xs && AlwaysAt(xs[|rest|..], 0, parts, ids - {id})
  {
  }

  ghost predicate EachAt<T>(xs: seq<T>, row: nat, parts: map<u64, seq<T>>, ids: set<u64>) {
    forall order :: Walks(order, ids) ==> Covers(order, parts) && StandsAt(xs, row, Cat(order, parts))
  }

  lemma {:induction false} AlwaysAtIff<T>(xs: seq<T>, row: nat, parts: map<u64, seq<T>>, ids: set<u64>)
    requires ids <= parts.Keys
    ensures AlwaysAt(xs, row, parts, ids) <==> EachAt(xs, row, parts, ids)
    decreases |ids|
  {
    if AlwaysAt(xs, row, parts, ids) {
      forall order | Walks(order, ids)
        ensures Covers(order, parts) && StandsAt(xs, row, Cat(order, parts))
      {
        AlwaysMeansEach(xs, row, parts, ids, order);
      }
    }
    if EachAt(xs, row, parts, ids) && xs != [] {
      NotOfNothing(xs, row, parts, ids);
      forall id | id in ids
        ensures if |parts[id]| <= row then AlwaysAt(xs, row - |parts[id]|, parts, ids - {id})
                else
                  var rest := parts[id][row..];
                  if |xs| <= |rest| then xs <= rest else rest <= xs && AlwaysAt(xs[|rest|..], 0, parts, ids - {id})
      {
        FirstThen(xs, row, parts, ids, id);
        var a := parts[id];
        if |a| <= row {
          AlwaysAtIff(xs, row - |a|, parts, ids - {id});
        } else if |xs| > |a[row..]| {
          AlwaysAtIff(xs[|a[row..]|..], 0, parts, ids - {id});
        }
      }
    }
  }

  lemma NotOfNothing<T>(xs: seq<T>, row: nat, parts: map<u64, seq<T>>, ids: set<u64>)
    requires ids <= parts.Keys && EachAt(xs, row, parts, ids) && xs != []
    ensures ids != {}
  {
    var order := Walk(ids);
    WalkCovers(ids);
    assert StandsAt(xs, row, Cat(order, parts));
    if ids == {} {
      WalksEmpty(order);
    }
  }

  /** Any part may come first, and the others then follow in any order. */
  lemma FirstThen<T>(xs: seq<T>, row: nat, parts: map<u64, seq<T>>, ids: set<u64>, id: u64)
    requires ids <= parts.Keys && id in ids && EachAt(xs, row, parts, ids) && xs != []
    ensures |parts[id]| <= row ==> EachAt(xs, row - |parts[id]|, parts, ids - {id})
    ensures |parts[id]| > row ==>
            var rest := parts[id][row..];
            if |xs| <= |rest| then xs <= rest else rest <= xs && EachAt(xs[|rest|..], 0, parts, ids - {id})
  {
    forall tail | Walks(tail, ids - {id})
      ensures Covers(tail, parts)
      ensures StandsAt(xs, row, parts[id] + Cat(tail, parts))
    {
      OneFirst(xs, row, parts, ids, id, tail);
    }
    WalkCovers(ids - {id});
    forall tail | Walks(tail, ids - {id})
      ensures |parts[id]| <= row ==> StandsAt(xs, row - |parts[id]|, Cat(tail, parts))
      ensures |parts[id]| > row ==>
              var rest := parts[id][row..];
              if |xs| <= |rest| then xs <= rest else rest <= xs && StandsAt(xs[|rest|..], 0, Cat(tail, parts))
    {
      StandsAcross(xs, row, parts[id], Cat(tail, parts));
    }
    assert Walks(Walk(ids - {id}), ids - {id});
  }

  lemma OneFirst<T>(xs: seq<T>, row: nat, parts: map<u64, seq<T>>, ids: set<u64>, id: u64, tail: seq<u64>)
    requires ids <= parts.Keys && id in ids && EachAt(xs, row, parts, ids) && Walks(tail, ids - {id})
    ensures Covers(tail, parts) && StandsAt(xs, row, parts[id] + Cat(tail, parts))
  {
    WalksCons(id, tail, ids);
    WalksCover(tail, parts, ids - {id});
    CatCons(id, tail, parts);
  }

  lemma CatCons<T>(x: u64, rest: seq<u64>, parts: map<u64, seq<T>>)
    requires x in parts && Covers(rest, parts)
    ensures Covers([x] + rest, parts) && Cat([x] + rest, parts) == parts[x] + Cat(rest, parts)
  {
    assert ([x] + rest)[1..] == rest;
  }

  // ----- parts that commute give one concatenation -------------------------

  lemma {:induction false} CatAppend(a: seq<u64>, b: seq<u64>, parts: map<u64, seq<i64>>)
    requires Covers(a, parts) && Covers(b, parts)
    ensures Covers(a + b, parts) && Cat(a + b, parts) == Cat(a, parts) + Cat(b, parts)
  {
    if a == [] {
      assert a + b == b;
    } else {
      assert (a + b)[1..] == a[1..] + b;
      CatAppend(a[1..], b, parts);
    }
  }

  lemma {:induction false} CommutesWithCat(x: u64, order: seq<u64>, parts: map<u64, seq<i64>>)
    requires x in parts && Covers(order, parts) && AllCommute(parts)
    ensures Commute(parts[x], Cat(order, parts))
  {
    if order != [] {
      var a, rest := parts[order[0]], Cat(order[1..], parts);
      CommutesWithCat(x, order[1..], parts);
      assert Commute(parts[x], a);
      ThroughBoth(parts[x], a, rest);
    }
  }

  lemma ThroughBoth(x: seq<i64>, a: seq<i64>, b: seq<i64>)
    requires Commute(x, a) && Commute(x, b)
    ensures Commute(x, a + b)
  {
    assert x + (a + b) == (x + a) + b == (a + x) + b == a + (x + b) == a + (b + x) == (a + b) + x;
  }

  lemma {:induction false} CommutingCats(a: seq<u64>, b: seq<u64>, parts: map<u64, seq<i64>>, ids: set<u64>)
    requires ids <= parts.Keys && AllCommute(parts) && Walks(a, ids) && Walks(b, ids)
    ensures Covers(a, parts) && Covers(b, parts) && Cat(a, parts) == Cat(b, parts)
    decreases |a|
  {
    WalksCover(a, parts, ids);
    WalksCover(b, parts, ids);
    if a == [] {
      assert ids == {};
      WalksEmpty(b);
    } else {
      var x := a[0];
      assert x in a;
      var p :| 0 <= p < |b| && b[p] == x;
      var b' := b[..p] + b[p + 1..];
      WalksTail(a, ids);
      WalksWithout(b, ids, p);
      CommutingCats(a[1..], b', parts, ids - {x});
      MovedToFront(b, p, parts);
    }
  }

  lemma MovedToFront(order: seq<u64>, p: nat, parts: map<u64, seq<i64>>)
    requires Covers(order, parts) && AllCommute(parts) && p < |order|
    ensures Covers(order[..p] + order[p + 1..], parts)
    ensures Cat(order, parts) == parts[order[p]] + Cat(order[..p] + order[p + 1..], parts)
  {
    var x, pre, post := order[p], order[..p], order[p + 1..];
    assert order == pre + ([x] + post);
    CatAppend(pre, [x] + post, parts);
    CatCons(x, post, parts);
    CatAppend(pre, post, parts);
    CommutesWithCat(x, pre, parts);
    Rotated(parts[x], Cat(pre, parts), Cat(post, parts));
  }

  lemma Rotated(a: seq<i64>, b: seq<i64>, c: seq<i64>)
    requires Commute(a, b)
    ensures b + (a + c) == a + (b + c)
  {
    assert b + (a + c) == (b + a) + c == (a + b) + c == a + (b + c);
  }

  // ----- the condition on the maps alone -----------------------------------

  function PointTimeParts(ds: map<u64, PointData>): (parts: map<u64, seq<i64>>)
    ensures parts.Keys == ds.Keys
  {
    map id | id in ds :: PointTimes(ds[id].points)
  }

  lemma {:induction false} PointTimesCat(order: seq<u64>, ds: map<u64, PointData>)
    requires Covers(order, ds)
    ensures PointTimes(Cat(order, PointParts(ds))) == Cat(order, PointTimeParts(ds))
  {
    if order != [] {
      PointTimesCat(order[1..], ds);
      var a, b := ds[order[0]].points, Cat(order[1..], PointParts(ds));
      assert PointTimes(a + b) == PointTimes(a) + PointTimes(b);
    }
  }

  lemma {:induction false} CatHas<T>(order: seq<u64>, parts: map<u64, seq<T>>, id: u64)
    requires Covers(order, parts) && id in order && parts[id] != []
    ensures Cat(order, parts) != []
  {
    if order[0] != id {
      CatHas(order[1..], parts, id);
    }
  }

  /** Every walk of the two maps leaves the raw series intact. */
  ghost predicate AlwaysIntact(cast: Cast, raw: map<u64, SeriesData>, ds: map<u64, PointData>) {
    forall rawOrder, dsOrder :: Enumerates(rawOrder, raw) && Enumerates(dsOrder, ds) ==>
      RawIntact(Written(cast, raw, rawOrder, ds, dsOrder), raw)
  }

  lemma IntactIffBegins(cast: Cast, raw: map<u64, SeriesData>, rawOrder: seq<u64>, ds: map<u64, PointData>,
                        dsOrder: seq<u64>, a: u64, b: u64)
    requires Paired(raw) && a in raw && raw[a].timestamps != [] && b in ds && ds[b].points != []
    requires Enumerates(rawOrder, raw) && Enumerates(dsOrder, ds)
    ensures RawIntact(Written(cast, raw, rawOrder, ds, dsOrder), raw)
       <==> Cat(rawOrder, TimeParts(raw)) <= Cat(dsOrder, PointTimeParts(ds))
  {
    CatHas(rawOrder, TimeParts(raw), a);
    CatHas(dsOrder, PointParts(ds), b);
    MixedIntactIff(cast, raw, rawOrder, ds, dsOrder, Written(cast, raw, rawOrder, ds, dsOrder));
    PointTimesCat(dsOrder, ds);
  }

  /** What a caller can check before writing: the raw series of a writer holding samples
      and points are safe from the hash maps iff their timestamps read the same in any
      order of the series and any order of the downsample series begins with them. */
  lemma AlwaysIntactIff(cast: Cast, raw: map<u64, SeriesData>, rawOrder: seq<u64>, ds: map<u64, PointData>, a: u64,
                        b: u64)
    requires Paired(raw) && a in raw && raw[a].timestamps != [] && b in ds && ds[b].points != []
    requires Enumerates(rawOrder, raw)
    ensures AlwaysIntact(cast, raw, ds)
       <==> AllCommute(TimeParts(raw)) && AlwaysAt(Cat(rawOrder, TimeParts(raw)), 0, PointTimeParts(ds), ds.Keys)
  {
    var times, points := TimeParts(raw), PointTimeParts(ds);
    var column := Cat(rawOrder, times);
    if AlwaysIntact(cast, raw, ds) {
      IntactCommutes(cast, raw, ds, a, b);
      forall dsOrder | Walks(dsOrder, ds.Keys)
        ensures Covers(dsOrder, points) && StandsAt(column, 0, Cat(dsOrder, points))
      {
        IntactBegins(cast, raw, rawOrder, ds, dsOrder, a, b);
      }
      AlwaysAtIff(column, 0, points, ds.Keys);
    }
    if AllCommute(times) && AlwaysAt(column, 0, points, ds.Keys) {
      forall r, d | Enumerates(r, raw) && Enumerates(d, ds)
        ensures RawIntact(Written(cast, raw, r, ds, d), raw)
      {
        BeginsIntact(cast, raw, rawOrder, r, ds, d, a, b);
      }
    }
  }

  lemma IntactBegins(cast: Cast, raw: map<u64, SeriesData>, rawOrder: seq<u64>, ds: map<u64, PointData>,
                     dsOrder: seq<u64>, a: u64, b: u64)
    requires Paired(raw) && a in raw && raw[a].timestamps != [] && b in ds && ds[b].points != []
    requires Enumerates(rawOrder, raw) && Walks(dsOrder, ds.Keys)
    requires AlwaysIntact(cast, raw, ds)
    ensures Covers(dsOrder, PointTimeParts(ds))
    ensures StandsAt(Cat(rawOrder, TimeParts(raw)), 0, Cat(dsOrder, PointTimeParts(ds)))
  {
    WalksCover(dsOrder, PointTimeParts(ds), ds.Keys);
    IntactIffBegins(cast, raw, rawOrder, ds, dsOrder, a, b);
    FromTheTop(Cat(rawOrder, TimeParts(raw)), Cat(dsOrder, PointTimeParts(ds)));
  }

  lemma BeginsIntact(cast: Cast, raw: map<u64, SeriesData>, rawOrder: seq<u64>, r: seq<u64>,
                     ds: map<u64, PointData>, d: seq<u64>, a: u64, b: u64)
    requires Paired(raw) && a in raw && raw[a].timestamps != [] && b in ds && ds[b].points != []
    requires Enumerates(rawOrder, raw) && Enumerates(r, raw) && Enumerates(d, ds)
    requires AllCommute(TimeParts(raw))
    requires AlwaysAt(Cat(rawOrder, TimeParts(raw)), 0, PointTimeParts(ds), ds.Keys)
    ensures RawIntact(Written(cast, raw, r, ds, d), raw)
  {
    var times, points := TimeParts(raw), PointTimeParts(ds);
    CommutingCats(r, rawOrder, times, raw.Keys);
    AlwaysMeansEach(Cat(rawOrder, times), 0, points, ds.Keys, d);
    FromTheTop(Cat(rawOrder, times), Cat(d, points));
    IntactIffBegins(cast, raw, r, ds, d, a, b);
  }

  lemma FromTheTop(xs: seq<i64>, column: seq<i64>)
    ensures StandsAt(xs, 0, column) <==> xs <= column
  {
    assert column[0..] == column;
  }

  lemma IntactCommutes(cast: Cast, raw: map<u64, SeriesData>, ds: map<u64, PointData>, a: u64, b: u64)
    requires Paired(raw) && a in raw && raw[a].timestamps != [] && b in ds && ds[b].points != []
    requires AlwaysIntact(cast, raw, ds)
    ensures AllCommute(TimeParts(raw))
  {
    var d := Walk(ds.Keys);
    WalkCovers(ds.Keys);
    WalksCover(d, PointTimeParts(ds), ds.Keys);
    assert Enumerates(d, ds);
    forall x, y | x in raw && y in raw
      ensures Commute(raw[x].timestamps, raw[y].timestamps)
    {
      if x != y {
        PairCommutes(cast, raw, ds, d, a, b, x, y);
      }
    }
  }

  lemma PairCommutes(cast: Cast, raw: map<u64, SeriesData>, ds: map<u64, PointData>, d: seq<u64>, a: u64, b: u64,
                     x: u64, y: u64)
    requires Paired(raw) && a in raw && raw[a].timestamps != [] && b in ds && ds[b].points != []
    requires AlwaysIntact(cast, raw, ds) && Enumerates(d, ds) && x in raw && y in raw && x != y
    ensures Commute(raw[x].timestamps, raw[y].timestamps)
  {
    var rest := Walk(raw.Keys - {x} - {y});
    WalkCovers(raw.Keys - {x} - {y});
    var r := PairFirst(raw, x, y, rest);
    var o, o' := [x, y] + rest, [y, x] + rest;
    IntactIffBegins(cast, raw, o, ds, d, a, b);
    IntactIffBegins(cast, raw, o', ds, d, a, b);
    SamePrefix(raw[x].timestamps, raw[y].timestamps, r, Cat(d, PointTimeParts(ds)));
  }

  lemma PairFirst(raw: map<u64, SeriesData>, x: u64, y: u64, rest: seq<u64>) returns (r: seq<i64>)
    requires x in raw && y in raw && x != y && Walks(rest, raw.Keys - {x} - {y})
    ensures Enumerates([x, y] + rest, raw) && Enumerates([y, x] + rest, raw)
    ensures Cat([x, y] + rest, TimeParts(raw)) == raw[x].timestamps + (raw[y].timestamps + r)
    ensures Cat([y, x] + rest, TimeParts(raw)) == raw[y].timestamps + (raw[x].timestamps + r)
  {
    assert raw.Keys - {y} - {x} == raw.Keys - {x} - {y};
    WalksCover(rest, TimeParts(raw), raw.Keys - {x} - {y});
    r := Cat(rest, TimeParts(raw));
    TwoFirst(raw, x, y, rest);
    TwoFirst(raw, y, x, rest);
  }

  lemma TwoFirst(raw: map<u64, SeriesData>, x: u64, y: u64, rest: seq<u64>)
    requires x in raw && y in raw && x != y && Walks(rest, raw.Keys - {x} - {y}) && Covers(rest, TimeParts(raw))
    ensures Enumerates([x, y] + rest, raw)
    ensures Cat([x, y] + rest, TimeParts(raw)) == raw[x].timestamps + (raw[y].timestamps + Cat(rest, TimeParts(raw)))
  {
    var tail, order := [y] + rest, [x, y] + rest;
    assert order == [x] + tail;
    assert Enumerates(order, raw) by {
      WalksCons(y, rest, raw.Keys - {x});
      WalksCons(x, tail, raw.Keys);
      WalksCover(order, TimeParts(raw), raw.Keys);
    }
    CatCons(y, rest, TimeParts(raw));
    CatCons(x, tail, TimeParts(raw));
  }

  lemma SamePrefix(a: seq<i64>, b: seq<i64>, r: seq<i64>, all: seq<i64>)
    requires a + (b + r) <= all && b + (a + r) <= all
    ensures Commute(a, b)
  {
    var n := |a| + |b|;
    assert a + b == (a + (b + r))[..n] == all[..n];
    assert b + a == (b + (a + r))[..n] == all[..n];
  }

  /** A writer that fails under every walk: one raw sample, and one point at another
      time. */
  lemma MixedFails(cast: Cast, t: i64, v: u64, p: Point, raw: map<u64, SeriesData>, rawOrder: seq<u64>,
                   ds: map<u64, PointData>, dsOrder: seq<u64>)
    requires raw == map[1 := SeriesData([], [t], [v])] && ds == map[2 := PointData([], [p])] && p.timestamp != t
    requires Enumerates(rawOrder, raw) && Enumerates(dsOrder, ds)
    ensures !RawIntact(Written(cast, raw, rawOrder, ds, dsOrder), raw)
  {
    OneOfEach(cast, raw, rawOrder, ds, dsOrder, 1, 2);
    assert raw[1].timestamps[0] == t && PointTimes(ds[2].points)[0] == p.timestamp;
  }

  /** With one series of each kind the walks do not matter. */
  lemma OneOfEach(cast: Cast, raw: map<u64, SeriesData>, rawOrder: seq<u64>, ds: map<u64, PointData>,
                  dsOrder: seq<u64>, a: u64, b: u64)
    requires Paired(raw) && raw.Keys == {a} && raw[a].timestamps != [] && ds.Keys == {b} && ds[b].points != []
    requires Enumerates(rawOrder, raw) && Enumerates(dsOrder, ds)
    ensures RawIntact(Written(cast, raw, rawOrder, ds, dsOrder), raw) <==> raw[a].timestamps <= PointTimes(ds[b].points)
  {
    IntactIffBegins(cast, raw, rawOrder, ds, dsOrder, a, b);
    OnlyPart(rawOrder, TimeParts(raw), a);
    OnlyPart(dsOrder, PointTimeParts(ds), b);
  }

  lemma OnlyPart<T>(order: seq<u64>, parts: map<u64, seq<T>>, id: u64)
    requires Enumerates(order, parts) && parts.Keys == {id}
    ensures Cat(order, parts) == parts[id]
  {
    assert id in parts && id in order;
    assert Walks(order, {id});
    WalksTail(order, {id});
    assert {id} - {order[0]} == {};
    WalksEmpty(order[1..]);
    assert parts[id] + [] == parts[id];
  }
}

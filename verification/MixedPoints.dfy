/** Downsample series in writers that also hold raw series: when they survive every
    iteration order of the writer's two maps (storage/src/columnstore/writer.rs). */
module MixedPoints {
  import opened Machine
  import opened Model
  import opened BlockLayout
  import opened MixedBlock
  import opened Orders

  // ----- rows and entries --------------------------------------------------


  /** The rows of some series together, along a list and as a set. */
  function RowsAlong(order: seq<u64>, extents: map<u64, Extent>): (n: nat)
    requires Covers(order, extents)
  {
    if order == [] then 0 else extents[order[0]].count + RowsAlong(order[1..], extents)
  }

  ghost function RowsOf(extents: map<u64, Extent>, ids: set<u64>): (n: nat)
    requires ids <= extents.Keys
  {
    if ids == {} then 0 else var id :| id in ids; extents[id].count + RowsOf(extents, ids - {id})
  }

  lemma {:induction false} RowsWithout(extents: map<u64, Extent>, ids: set<u64>, id: u64)
    requires ids <= extents.Keys && id in ids
    ensures RowsOf(extents, ids) == extents[id].count + RowsOf(extents, ids - {id})
    decreases |ids|
  {
    var x :| x in ids && RowsOf(extents, ids) == extents[x].count + RowsOf(extents, ids - {x});
    if x != id {
      RowsWithout(extents, ids - {x}, id);
      RowsWithout(extents, ids - {id}, x);
      assert ids - {x} - {id} == ids - {id} - {x};
    }
  }

  lemma {:induction false} RowsOfWalk(order: seq<u64>, extents: map<u64, Extent>, ids: set<u64>)
    requires Walks(order, ids) && ids <= extents.Keys
    ensures Covers(order, extents) && RowsAlong(order, extents) == RowsOf(extents, ids)
    decreases |order|
  {
    assert forall i :: 0 <= i < |order| ==> order[i] in order;
    if order == [] {
      assert ids == {};
    } else {
      WalksTail(order, ids);
      RowsOfWalk(order[1..], extents, ids - {order[0]});
      RowsWithout(extents, ids, order[0]);
    }
  }

  lemma {:induction false} CatRows<T>(order: seq<u64>, extents: map<u64, Extent>, parts: map<u64, seq<T>>)
    requires Covers(order, parts) && Covers(order, extents) && Sized(extents, parts)
    ensures |Cat(order, parts)| == RowsAlong(order, extents)
  {
    if order != [] {
      CatRows(order[1..], extents, parts);
    }
  }

  /** The entry of a series starts after the rows of the series before it. */
  lemma {:induction false} EntryAt(order: seq<u64>, p: nat, extents: map<u64, Extent>, offset: nat)
    requires Covers(order, extents) && p < |order| && order[p] !in order[..p]
    ensures Find(Slots(order, extents, offset), order[p])
         == Some(Entry(order[p], extents[order[p]].labels,
                       offset + RowsAlong(order[..p], extents), extents[order[p]].count))
    decreases p
  {
    if p > 0 {
      var rest := order[1..];
      assert order[0] == order[..p][0] && order[..p][1..] == rest[..p - 1];
      EntryAt(rest, p - 1, extents, offset + extents[order[0]].count);
      FindTail(order, extents, offset, order[p]);
    }
  }

  /** The rows from one number on, as far as there are any, are the given points. */
  lemma RowsAre<T>(column: seq<T>, entry: Entry, own: seq<T>)
    ensures Rows(column, entry) == own
       <==> && |own| == Min(entry.offset + entry.count, |column|) - Min(entry.offset, |column|)
            && StandsAt(own, entry.offset, column)
  {
    var rows := Rows(column, entry);
    if entry.offset <= |column| && |own| == |rows| {
      assert rows == column[entry.offset..][..|rows|];
    }
  }

  /** Whatever the order of the downsample series, the rows are the given points. */
  predicate AlwaysRows(own: seq<Point>, row: nat, count: nat, total: nat, parts: map<u64, seq<Point>>)
  {
    |own| == Min(row + count, total) - Min(row, total) && AlwaysAt(own, row, parts, parts.Keys)
  }

  predicate AllSurvive(cast: Cast, ds: map<u64, PointData>) {
    forall id :: id in ds ==> CountsSurvive(cast, ds[id].points)
  }

  lemma {:induction false} CatSurvives(cast: Cast, ds: map<u64, PointData>, order: seq<u64>)
    requires AllSurvive(cast, ds) && Covers(order, ds)
    ensures CountsSurvive(cast, Cat(order, PointParts(ds)))
  {
    if order != [] {
      CatSurvives(cast, ds, order[1..]);
      assert CountsSurvive(cast, ds[order[0]].points);
    }
  }

  // ----- one written block -------------------------------------------------

  /** With the entry of the raw series of the same id in hand. */
  lemma PointsIntactAt(cast: Cast, raw: map<u64, SeriesData>, rawOrder: seq<u64>,
                       ds: map<u64, PointData>, dsOrder: seq<u64>, id: u64, entry: Entry, column: seq<Point>)
    requires Enumerates(rawOrder, raw) && Enumerates(dsOrder, ds) && id in ds && id in raw
    requires column == Cat(dsOrder, PointParts(ds)) && column != [] && CountsSurvive(cast, column)
    requires Find(Slots(rawOrder, RawExtents(raw), 0), id) == Some(entry)
    ensures PointsBack(cast, raw, rawOrder, ds, dsOrder, id)
       <==> && |ds[id].points| == Min(entry.offset + entry.count, |column|) - Min(entry.offset, |column|)
            && StandsAt(ds[id].points, entry.offset, column)
  {
    MixedPointsIntactIff(cast, raw, rawOrder, ds, dsOrder, Written(cast, raw, rawOrder, ds, dsOrder), id);
    RowsAre(column, entry, ds[id].points);
  }

  /** A full-range read gives the downsample series back. */
  predicate PointsBack(cast: Cast, raw: map<u64, SeriesData>, rawOrder: seq<u64>,
                       ds: map<u64, PointData>, dsOrder: seq<u64>, id: u64)
    requires Covers(rawOrder, raw) && Covers(dsOrder, ds) && id in ds
  {
    ReadPoints(cast, Written(cast, raw, rawOrder, ds, dsOrder), id, FIRST, LAST) == Ok(ds[id].points)
  }

  /** All rows of the downsample series, in any order of them. */
  ghost function AllRows(ds: map<u64, PointData>): nat {
    RowsOf(PointExtents(ds), ds.Keys)
  }

  lemma ColumnRows(ds: map<u64, PointData>, dsOrder: seq<u64>)
    requires Enumerates(dsOrder, ds)
    ensures |Cat(dsOrder, PointParts(ds))| == AllRows(ds)
  {
    assert Walks(dsOrder, ds.Keys);
    RowsOfWalk(dsOrder, PointExtents(ds), ds.Keys);
    CatRows(dsOrder, PointExtents(ds), PointParts(ds));
  }

  /** The same with the raw series at position p of its walk, and the rows counted. */
  lemma PointsIntactBehind(cast: Cast, raw: map<u64, SeriesData>, rawOrder: seq<u64>, ds: map<u64, PointData>,
                           dsOrder: seq<u64>,
                           id: u64, b: u64, p: nat, row: nat)
    requires Enumerates(rawOrder, raw) && Enumerates(dsOrder, ds) && id in ds && id in raw
    requires b in ds && ds[b].points != [] && AllSurvive(cast, ds)
    requires p < |rawOrder| && rawOrder[p] == id && row == RowsAlong(rawOrder[..p], RawExtents(raw))
    ensures PointsBack(cast, raw, rawOrder, ds, dsOrder, id)
       <==> && |ds[id].points| == Min(row + |raw[id].timestamps|, AllRows(ds)) - Min(row, AllRows(ds))
            && StandsAt(ds[id].points, row, Cat(dsOrder, PointParts(ds)))
  {
    var entry := EntryBehind(raw, rawOrder, id, p);
    CatHas(dsOrder, PointParts(ds), b);
    CatSurvives(cast, ds, dsOrder);
    ColumnRows(ds, dsOrder);
    PointsIntactAt(cast, raw, rawOrder, ds, dsOrder, id, entry, Cat(dsOrder, PointParts(ds)));
  }

  lemma EntryBehind(raw: map<u64, SeriesData>, rawOrder: seq<u64>, id: u64, p: nat) returns (entry: Entry)
    requires Enumerates(rawOrder, raw) && id in raw && p < |rawOrder| && rawOrder[p] == id
    ensures Find(Slots(rawOrder, RawExtents(raw), 0), id) == Some(entry)
    ensures Covers(rawOrder[..p], RawExtents(raw)) && entry.offset == RowsAlong(rawOrder[..p], RawExtents(raw))
    ensures entry.count == |raw[id].timestamps|
  {
    entry := Entry(id, raw[id].labels, RowsAlong(rawOrder[..p], RawExtents(raw)), |raw[id].timestamps|);
    EntryAt(rawOrder, p, RawExtents(raw), 0);
  }

  // ----- every walk --------------------------------------------------------

  /** Every walk of the two maps leaves the downsample series intact. */
  ghost predicate PointsAlwaysIntact(cast: Cast, raw: map<u64, SeriesData>, ds: map<u64, PointData>, id: u64)
    requires id in ds
  {
    forall rawOrder, dsOrder :: Enumerates(rawOrder, raw) && Enumerates(dsOrder, ds) ==>
      PointsBack(cast, raw, rawOrder, ds, dsOrder, id)
  }

  /** Whichever raw series come before the one of the same id. */
  ghost predicate SafeBehindAny(raw: map<u64, SeriesData>, ds: map<u64, PointData>, id: u64)
    requires id in raw && id in ds
  {
    forall before :: before <= raw.Keys - {id} ==>
      AlwaysRows(ds[id].points, RowsOf(RawExtents(raw), before), |raw[id].timestamps|, AllRows(ds), PointParts(ds))
  }

  /** What a caller can check before writing: a downsample series is safe from the hash
      maps iff no raw series has its id or, behind any of the other raw series, the rows
      of that raw series are its points in every order of the downsample series. */
  lemma PointsAlwaysIntactIff(cast: Cast, raw: map<u64, SeriesData>, ds: map<u64, PointData>, id: u64, b: u64)
    requires id in ds && b in ds && ds[b].points != [] && AllSurvive(cast, ds)
    ensures PointsAlwaysIntact(cast, raw, ds, id) <==> (id in raw ==> SafeBehindAny(raw, ds, id))
  {
    if id !in raw {
      forall r, d | Enumerates(r, raw) && Enumerates(d, ds)
        ensures PointsBack(cast, raw, r, ds, d, id)
      {
        CatHas(d, PointParts(ds), b);
        CatSurvives(cast, ds, d);
        MixedPointsIntactIff(cast, raw, r, ds, d, Written(cast, raw, r, ds, d), id);
      }
    } else {
      if PointsAlwaysIntact(cast, raw, ds, id) {
        forall before | before <= raw.Keys - {id}
          ensures AlwaysRows(ds[id].points, RowsOf(RawExtents(raw), before), |raw[id].timestamps|,
                             AllRows(ds), PointParts(ds))
        {
          IntactBehind(cast, raw, ds, id, b, before);
        }
      }
      if SafeBehindAny(raw, ds, id) {
        forall r, d | Enumerates(r, raw) && Enumerates(d, ds)
          ensures PointsBack(cast, raw, r, ds, d, id)
        {
          BehindIntact(cast, raw, r, ds, d, id, b);
        }
      }
    }
  }

  lemma IntactBehind(cast: Cast, raw: map<u64, SeriesData>, ds: map<u64, PointData>, id: u64, b: u64, before: set<u64>)
    requires id in ds && id in raw && b in ds && ds[b].points != [] && AllSurvive(cast, ds)
    requires PointsAlwaysIntact(cast, raw, ds, id) && before <= raw.Keys - {id}
    ensures AlwaysRows(ds[id].points, RowsOf(RawExtents(raw), before), |raw[id].timestamps|, AllRows(ds),
        PointParts(ds))
  {
    var row := RowsOf(RawExtents(raw), before);
    var r, p := WalkBehind(raw, id, before);
    EachBehind(cast, raw, r, ds, id, b, p, row);
    AlwaysAtIff(ds[id].points, row, PointParts(ds), ds.Keys);
  }

  lemma EachBehind(cast: Cast, raw: map<u64, SeriesData>, r: seq<u64>, ds: map<u64, PointData>, id: u64, b: u64,
                   p: nat, row: nat)
    requires id in ds && id in raw && b in ds && ds[b].points != [] && AllSurvive(cast, ds)
    requires PointsAlwaysIntact(cast, raw, ds, id) && Enumerates(r, raw)
    requires p < |r| && r[p] == id && row == RowsAlong(r[..p], RawExtents(raw))
    ensures EachAt(ds[id].points, row, PointParts(ds), ds.Keys)
    ensures |ds[id].points| == Min(row + |raw[id].timestamps|, AllRows(ds)) - Min(row, AllRows(ds))
  {
    forall d | Walks(d, ds.Keys)
      ensures Enumerates(d, ds) && PointsBack(cast, raw, r, ds, d, id)
    {
      WalksCover(d, PointParts(ds), ds.Keys);
    }
    forall d | Walks(d, ds.Keys)
      ensures Covers(d, PointParts(ds)) && StandsAt(ds[id].points, row, Cat(d, PointParts(ds)))
    {
      PointsIntactBehind(cast, raw, r, ds, d, id, b, p, row);
    }
    WalkCovers(ds.Keys);
    PointsIntactBehind(cast, raw, r, ds, Walk(ds.Keys), id, b, p, row);
  }

  /** A walk that meets exactly the given series before one. */
  lemma WalkBehind(raw: map<u64, SeriesData>, id: u64, before: set<u64>) returns (order: seq<u64>, p: nat)
    requires id in raw && before <= raw.Keys - {id}
    ensures Enumerates(order, raw) && p < |order| && order[p] == id
    ensures Covers(order[..p], RawExtents(raw))
    ensures RowsAlong(order[..p], RawExtents(raw)) == RowsOf(RawExtents(raw), before)
  {
    var after := raw.Keys - {id} - before;
    var a, c := Walk(before), Walk(after);
    WalkCovers(before);
    WalkCovers(after);
    WalksJoin(a, id, c, before, after);
    order, p := a + [id] + c, |a|;
    assert before + {id} + after == raw.Keys;
    assert order[..p] == a;
    RowsOfWalk(a, RawExtents(raw), before);
    WalksEnumerate(order, raw);
  }

  lemma WalksEnumerate<V>(order: seq<u64>, data: map<u64, V>)
    requires Walks(order, data.Keys)
    ensures Enumerates(order, data)
  {
    assert forall i :: 0 <= i < |order| ==> order[i] in order;
  }

  lemma BehindIntact(cast: Cast, raw: map<u64, SeriesData>, r: seq<u64>, ds: map<u64, PointData>, d: seq<u64>,
                     id: u64, b: u64)
    requires id in ds && id in raw && b in ds && ds[b].points != [] && AllSurvive(cast, ds)
    requires SafeBehindAny(raw, ds, id) && Enumerates(r, raw) && Enumerates(d, ds)
    ensures PointsBack(cast, raw, r, ds, d, id)
  {
    var p :| 0 <= p < |r| && r[p] == id;
    assert Walks(r, raw.Keys) && Walks(d, ds.Keys);
    var before := WalksFront(r, raw.Keys, p);
    RowsOfWalk(r[..p], RawExtents(raw), before);
    var row := RowsOf(RawExtents(raw), before);
    assert AlwaysRows(ds[id].points, row, |raw[id].timestamps|, AllRows(ds), PointParts(ds));
    AlwaysMeansEach(ds[id].points, row, PointParts(ds), ds.Keys, d);
    PointsIntactBehind(cast, raw, r, ds, d, id, b, p, row);
  }

  /** With one raw and one downsample series under one id no walk matters: the points come
      back iff there are no more of them than raw samples. */
  lemma OneIdIff(cast: Cast, raw: map<u64, SeriesData>, rawOrder: seq<u64>, ds: map<u64, PointData>,
                 dsOrder: seq<u64>, id: u64)
    requires raw.Keys == {id} && ds.Keys == {id} && ds[id].points != [] && CountsSurvive(cast, ds[id].points)
    requires Enumerates(rawOrder, raw) && Enumerates(dsOrder, ds)
    ensures PointsBack(cast, raw, rawOrder, ds, dsOrder, id) <==> |ds[id].points| <= |raw[id].timestamps|
  {
    var own := ds[id].points;
    assert id in raw && id in rawOrder && rawOrder[0] in raw;
    assert rawOrder[..0] == [];
    PointsIntactBehind(cast, raw, rawOrder, ds, dsOrder, id, id, 0, 0);
    OnlyPart(dsOrder, PointParts(ds), id);
    ColumnRows(ds, dsOrder);
    assert own[0..] == own;
  }

  /** The smallest loss of a downsample series: two points behind one raw sample. */
  lemma PointsFail(cast: Cast, t: i64, v: u64, p: Point, q: Point, raw: map<u64, SeriesData>, rawOrder: seq<u64>,
                   ds: map<u64, PointData>, dsOrder: seq<u64>)
    requires raw == map[1 := SeriesData([], [t], [v])] && ds == map[1 := PointData([], [p, q])]
    requires CountsSurvive(cast, [p, q]) && Enumerates(rawOrder, raw) && Enumerates(dsOrder, ds)
    ensures !PointsBack(cast, raw, rawOrder, ds, dsOrder, 1)
  {
    OneIdIff(cast, raw, rawOrder, ds, dsOrder, 1);
  }
}

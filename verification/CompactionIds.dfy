/** Block ids are read off the millisecond clock by flushes
    (storage/src/flush/mod.rs) and compactions (storage/src/compaction/mod.rs) without
    coordination. What a repeated id does, for every id. */
module CompactionIds {
  import opened Machine
  import opened Model
  import opened Compaction

  /** A key held by a registered block outside the compaction and under another id. */
  ghost predicate HeldApart(w: World, ids: seq<BlockId>, other: BlockId, sid: u64, t: i64) {
    exists id :: id in w.levels && id in w.disk && id !in IdSet(ids) && id != other && HasKey(w.disk[id], sid, t)
  }

  /** The block registered under an id holds the key. */
  ghost predicate HeldBy(w: World, id: BlockId, sid: u64, t: i64) {
    id in w.levels && HasKey(OnDisk(w.disk, id), sid, t)
  }

  // ----- each step, under any id -------------------------------------------

  /** A flush under any id: its own keys, and those of the blocks under other ids. */
  lemma FlushLeaves(w: World, id: BlockId, contents: Contents, sid: u64, t: i64)
    ensures Visible(Next(w, Flush(id, contents)), sid, t)
       <==> HasKey(contents, sid, t) || HeldApart(w, [], id, sid, t)
  {
    var w' := Next(w, Flush(id, contents));
    if HasKey(contents, sid, t) {
      assert id in w'.levels && id in w'.disk && HasKey(w'.disk[id], sid, t);
    }
    if x :| x in w.levels && x in w.disk && x != id && HasKey(w.disk[x], sid, t) {
      assert x in w'.levels && x in w'.disk && HasKey(w'.disk[x], sid, t);
    }
    if x :| x in w'.levels && x in w'.disk && HasKey(w'.disk[x], sid, t) {
      assert x != id ==> x in w.levels && x in w.disk && x !in IdSet([]) && HasKey(w.disk[x], sid, t);
    }
  }

  /** A flush loses a key exactly when its id was in use for the only block holding it. */
  lemma FlushPreservesIff(w: World, id: BlockId, contents: Contents, sid: u64, t: i64)
    ensures (Visible(w, sid, t) ==> Visible(Next(w, Flush(id, contents)), sid, t))
       <==> (HeldBy(w, id, sid, t) ==> HasKey(contents, sid, t) || HeldApart(w, [], id, sid, t))
  {
    FlushLeaves(w, id, contents, sid, t);
    VisibleSplit(w, [], id, sid, t);
  }

  lemma VisibleSplit(w: World, ids: seq<BlockId>, other: BlockId, sid: u64, t: i64)
    ensures Visible(w, sid, t) <==>
            || HeldApart(w, ids, other, sid, t) || HeldBy(w, other, sid, t)
            || (exists k :: 0 <= k < |ids| && HeldBy(w, ids[k], sid, t))
  {
    if Visible(w, sid, t) {
      var id :| id in w.levels && id in w.disk && HasKey(w.disk[id], sid, t);
      assert HeldBy(w, id, sid, t);
      if id in IdSet(ids) {
        var k :| 0 <= k < |ids| && ids[k] == id;
        assert HeldBy(w, ids[k], sid, t);
      }
    }
    if HeldBy(w, other, sid, t) {
      BackedOnDisk(w, other, sid, t);
    }
    if k :| 0 <= k < |ids| && HeldBy(w, ids[k], sid, t) {
      BackedOnDisk(w, ids[k], sid, t);
    }
  }

  lemma BackedOnDisk(w: World, id: BlockId, sid: u64, t: i64)
    requires HeldBy(w, id, sid, t)
    ensures Visible(w, sid, t)
  {
    assert id in w.disk && HasKey(w.disk[id], sid, t);
  }

  /** The swap of any written block, in whatever state: the blocks under other ids stay,
      and the written one unless its id is among those removed. */
  lemma SwapLeaves(w: World, sid: u64, t: i64)
    requires w.job.Written?
    ensures Visible(Next(w, Swap), sid, t)
       <==> || HeldApart(w, w.job.ids, w.job.newId, sid, t)
            || (w.job.newId !in IdSet(w.job.ids) && HasKey(OnDisk(w.disk, w.job.newId), sid, t))
  {
    var w', j := Next(w, Swap), w.job;
    if x :| x in w.levels && x in w.disk && x !in IdSet(j.ids) && x != j.newId && HasKey(w.disk[x], sid, t) {
      assert x in w'.levels && x in w'.disk && HasKey(w'.disk[x], sid, t);
    }
    if j.newId !in IdSet(j.ids) && HasKey(OnDisk(w.disk, j.newId), sid, t) {
      assert j.newId in w'.levels && j.newId in w'.disk && HasKey(w'.disk[j.newId], sid, t);
    }
    if x :| x in w'.levels && x in w'.disk && HasKey(w'.disk[x], sid, t) {
      assert x != j.newId ==> x in w.levels && x in w.disk && x !in IdSet(j.ids) && HasKey(w.disk[x], sid, t);
    }
  }

  /** The write alone, under any id: a registered block of that id is replaced at once. */
  lemma WriteLeaves(w: World, newId: BlockId, sid: u64, t: i64)
    requires Shape(w) && Gathered(w, sid) && Enabled(w, Write(newId))
    ensures Visible(Next(w, Write(newId)), sid, t)
       <==> || HeldApart(w, [], newId, sid, t)
            || (newId in w.levels && t in UnionOf(w.disk, w.job.ids, w.job.got, sid))
  {
    var w' := Next(w, Write(newId));
    MergedMap(w.job.acc, sid);
    assert HeldBy(w', newId, sid, t) <==> newId in w.levels && t in UnionOf(w.disk, w.job.ids, w.job.got, sid);
    VisibleSplit(w', [], newId, sid, t);
    ApartSame(w, w', [], newId, sid, t);
  }

  /** Blocks under other ids do not see a write. */
  lemma ApartSame(w: World, w': World, ids: seq<BlockId>, newId: BlockId, sid: u64, t: i64)
    requires w'.levels == w.levels && forall id :: id != newId ==> OnDisk(w'.disk, id) == OnDisk(w.disk, id)
    ensures HeldApart(w', ids, newId, sid, t) <==> HeldApart(w, ids, newId, sid, t)
  {
    if x :| x in w.levels && x in w.disk && x !in IdSet(ids) && x != newId && HasKey(w.disk[x], sid, t) {
      assert OnDisk(w'.disk, x) == w.disk[x];
      assert x in w'.disk && HasKey(w'.disk[x], sid, t);
    }
    if x :| x in w'.levels && x in w'.disk && x !in IdSet(ids) && x != newId && HasKey(w'.disk[x], sid, t) {
      assert OnDisk(w.disk, x) == w'.disk[x];
      assert x in w.disk && HasKey(w.disk[x], sid, t);
    }
  }

  // ----- a whole compaction, under any id ----------------------------------

  /** Writing and swapping under any id leaves the keys of blocks outside the compaction
      and under other ids, and the keys read, unless the id is one being removed. */
  lemma WriteSwapLeaves(w: World, newId: BlockId, sid: u64, t: i64)
    requires Shape(w) && Gathered(w, sid) && Enabled(w, Write(newId))
    ensures Visible(Next(Next(w, Write(newId)), Swap), sid, t)
       <==> || HeldApart(w, w.job.ids, newId, sid, t)
            || (newId !in IdSet(w.job.ids) && t in UnionOf(w.disk, w.job.ids, w.job.got, sid))
  {
    var written := Next(w, Write(newId));
    MergedMap(w.job.acc, sid);
    SwapLeaves(written, sid, t);
    ApartSame(w, written, w.job.ids, newId, sid, t);
  }

  /** What a compaction under this id puts at stake. Under an id being removed: all keys
      of its blocks. Otherwise: the keys it skipped, and those of a block registered
      under the id, as far as they were not read. */
  ghost predicate AtStake(w: World, newId: BlockId, sid: u64, t: i64)
    requires !w.job.Idle? && |w.job.got| == |w.job.ids|
  {
    var read := t in UnionOf(w.disk, w.job.ids, w.job.got, sid);
    if newId in IdSet(w.job.ids) then read || Skipped(w, sid, t)
    else !read && (Skipped(w, sid, t) || HeldBy(w, newId, sid, t))
  }

  /** The exact condition for every id: a compaction preserves a key iff, if it is at
      stake, a block outside the compaction and under another id holds it too. */
  lemma WriteSwapPreservesIff(w: World, newId: BlockId, sid: u64, t: i64)
    requires Shape(w) && Gathered(w, sid) && Enabled(w, Write(newId))
    ensures (Visible(Next(Next(w, Write(newId)), Swap), sid, t) <==> Visible(w, sid, t))
       <==> (AtStake(w, newId, sid, t) ==> HeldApart(w, w.job.ids, newId, sid, t))
  {
    WriteSwapLeaves(w, newId, sid, t);
    VisibleParts(w, sid, t);
    ElsewhereSplit(w, newId, sid, t);
  }

  lemma ElsewhereSplit(w: World, newId: BlockId, sid: u64, t: i64)
    requires !w.job.Idle?
    ensures HeldElsewhere(w, w.job.ids, sid, t)
       <==> HeldApart(w, w.job.ids, newId, sid, t) || (newId !in IdSet(w.job.ids) && HeldBy(w, newId, sid, t))
  {
    var ids := w.job.ids;
    if x :| x in w.levels && x in w.disk && x !in IdSet(ids) && HasKey(w.disk[x], sid, t) {
      assert x == newId ==> HeldBy(w, newId, sid, t);
    }
    if newId !in IdSet(ids) && HeldBy(w, newId, sid, t) {
      assert newId in w.disk && HasKey(w.disk[newId], sid, t);
    }
  }

  /** With readable blocks an unregistered id is harmless to every key, a directory left
      behind by an aborted compaction included; a registered one is harmless iff every
      key at stake is held apart. */
  lemma IdHarmlessIff(w: World, newId: BlockId)
    requires Shape(w) && Complete(w) && Enabled(w, Write(newId)) && forall sid :: Gathered(w, sid)
    ensures (forall sid, t :: Visible(Next(Next(w, Write(newId)), Swap), sid, t) <==> Visible(w, sid, t))
       <==> (newId in w.levels ==>
               forall sid, t :: AtStake(w, newId, sid, t) ==> HeldApart(w, w.job.ids, newId, sid, t))
  {
    forall sid, t
      ensures (Visible(Next(Next(w, Write(newId)), Swap), sid, t) <==> Visible(w, sid, t))
         <==> (AtStake(w, newId, sid, t) ==> HeldApart(w, w.job.ids, newId, sid, t))
    {
      assert Gathered(w, sid);
      WriteSwapPreservesIff(w, newId, sid, t);
    }
    if newId !in w.levels {
      forall sid, t
        ensures !AtStake(w, newId, sid, t)
      {
        assert !Skipped(w, sid, t);
      }
    }
  }

  // ----- runs that lose keys -----------------------------------------------

  /** Steps taken one after another where the code can take them, under any ids. */
  function Taken(w: World, steps: seq<Step>): (r: Option<World>) {
    if steps == [] then Some(w)
    else
      var before, s := Taken(w, steps[..|steps| - 1]), steps[|steps| - 1];
      if before.Some? && Enabled(before.value, s) then Some(Next(before.value, s)) else None
  }

  lemma {:induction false} LegalIsTaken(trace: seq<Step>)
    requires Legal(trace)
    ensures Taken(START, trace) == Some(Run(trace))
  {
    if trace != [] {
      LegalIsTaken(trace[..|trace| - 1]);
    }
  }

  lemma TakenSnoc(w: World, steps: seq<Step>, w': World, s: Step)
    requires Taken(w, steps) == Some(w') && Enabled(w', s)
    ensures Taken(w, steps + [s]) == Some(Next(w', s))
  {
    InitOfSnoc(steps, s);
  }

  /** The steps lose a flushed key, although they can read every series, 7 and 8, that
      they load. */
  ghost predicate Loses(steps: seq<Step>, sid: u64, t: i64) {
    && Flushed(steps, sid, t) && Taken(START, steps).Some? && !Visible(Taken(START, steps).value, sid, t)
    && forall i :: 0 <= i < |steps| && steps[i].Load? ==> steps[i].readable == {7, 8}
  }

  /** Two flushes in one millisecond: the second replaces the first. */
  lemma FlushesCollide(x: Sample) returns (steps: seq<Step>)
    ensures Loses(steps, 7, x.timestamp)
  {
    var c: Contents, d: Contents := map[7 := Series([], [x])], map[8 := Series([], [x])];
    var s := [Flush(1, c)];
    TakenSnoc(START, [], START, Flush(1, c));
    assert [] + [Flush(1, c)] == s;
    var w := Next(START, Flush(1, c));
    TakenSnoc(START, s, w, Flush(1, d));
    steps := s + [Flush(1, d)];
    HasFirst(x);
    assert Next(w, Flush(1, d)).disk == map[1 := d];
    LosesAll(steps, c, Next(w, Flush(1, d)), x.timestamp);
  }

  /** A compaction in the millisecond of a flush replaces the flushed block, which it did
      not read. */
  lemma CompactionOverwritesFlush(x: Sample) returns (steps: seq<Step>)
    ensures Loses(steps, 7, x.timestamp)
  {
    var c: Contents, d: Contents := map[7 := Series([], [x])], map[8 := Series([], [x])];
    var flushes, w := TwoFlushes(c, d);
    var end;
    steps, end := OneBlockCompacted(flushes, w, 2, 1, {7, 8}, 8);
    OverwrittenBlock(c, d, end);
    HasFirst(x);
    LosesAll(steps, c, end, x.timestamp);
  }

  lemma OverwrittenBlock(c: Contents, d: Contents, end: World)
    requires 7 !in d
    requires end == World((map[1 := 0, 2 := 0] - {2})[1 := 1],
                          map[1 := c, 2 := d][1 := MergedContents(Extended(map[], d, {7, 8}))] - {2}, Idle)
    ensures forall id :: id in end.levels && id in end.disk ==> 7 !in end.disk[id]
  {
    assert end.disk.Keys == {1} && 7 !in Extended(map[], d, {7, 8});
  }

  lemma LosesAll(steps: seq<Step>, c: Contents, end: World, t: i64)
    requires steps != [] && steps[0] == Flush(1, c) && HasKey(c, 7, t) && Taken(START, steps) == Some(end)
    requires forall id :: id in end.levels && id in end.disk ==> 7 !in end.disk[id]
    requires forall i :: 0 <= i < |steps| && steps[i].Load? ==> steps[i].readable == {7, 8}
    ensures Loses(steps, 7, t)
  {
    assert steps[0].Flush? && HasKey(steps[0].contents, 7, t);
  }

  lemma TwoFlushes(c: Contents, d: Contents) returns (flushes: seq<Step>, w: World)
    ensures w == World(map[1 := 0, 2 := 0], map[1 := c, 2 := d], Idle)
    ensures |flushes| == 2 && flushes[0] == Flush(1, c) && flushes[1] == Flush(2, d) && Taken(START, flushes) == Some(w)
  {
    TakenSnoc(START, [], START, Flush(1, c));
    assert [] + [Flush(1, c)] == [Flush(1, c)];
    TakenSnoc(START, [Flush(1, c)], Next(START, Flush(1, c)), Flush(2, d));
    assert [Flush(1, c)] + [Flush(2, d)] == [Flush(1, c), Flush(2, d)];
    flushes, w := [Flush(1, c), Flush(2, d)], Next(Next(START, Flush(1, c)), Flush(2, d));
  }

  /** A compaction in the millisecond of the flush it compacts deletes its own block. */
  lemma CompactionDeletesItself(x: Sample) returns (steps: seq<Step>)
    ensures Loses(steps, 7, x.timestamp)
  {
    var c: Contents := map[7 := Series([], [x])];
    var w := World(map[1 := 0], map[1 := c], Idle);
    TakenSnoc(START, [], START, Flush(1, c));
    var flushes := [] + [Flush(1, c)];
    assert Taken(START, flushes) == Some(w);
    var end;
    steps, end := OneBlockCompacted(flushes, w, 1, 1, {7, 8}, 7);
    HasFirst(x);
    assert end.disk == map[];
    LosesAll(steps, c, end, x.timestamp);
  }

  /** Compacting one block of level 0 under any id. */
  lemma OneBlockCompacted(steps: seq<Step>, w: World, id: BlockId, newId: BlockId, readable: set<u64>,
                          sid: u64) returns (more: seq<Step>, end: World)
    requires Taken(START, steps) == Some(w) && w.job.Idle?
    requires id in w.levels && w.levels[id] == 0 && id in w.disk && sid in w.disk[id] && sid in readable
    ensures end == World((w.levels - {id})[newId := 1],
                         w.disk[newId := MergedContents(Extended(map[], w.disk[id], readable))] - {id}, Idle)
    ensures steps <= more && Taken(START, more) == Some(end)
    ensures forall i :: |steps| <= i < |more| && more[i].Load? ==> more[i].readable == readable
  {
    var acc := Extended(map[], w.disk[id], readable);
    var begun := w.(job := Loading(0, [id], [], map[]));
    TakenSnoc(START, steps, w, Begin(0, [id]));
    var a := steps + [Begin(0, [id])];
    var loaded := w.(job := Loading(0, [id], [readable], acc));
    TakenSnoc(START, a, begun, Load(readable));
    var b := a + [Load(readable)];
    assert sid in acc;
    var none: seq<set<u64>> := [];
    assert none + [readable] == [readable];
    assert Next(begun, Load(readable)) == loaded;
    TakenSnoc(START, b, loaded, Write(newId));
    var d := b + [Write(newId)];
    var written := World(w.levels, w.disk[newId := MergedContents(acc)], Written(0, [id], [readable], newId));
    TakenSnoc(START, d, written, Swap);
    assert IdSet([id]) == {id} by {
      assert [id][0] == id;
    }
    more, end := d + [Swap], Next(written, Swap);
  }
}

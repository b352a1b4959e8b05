/** The compaction manager run on its own: `compact_blocks` and the level cascade of
    `check_and_compact` in storage/src/compaction/mod.rs. */
module CompactionPass {
  import opened Machine
  import opened Merge
  import opened Compaction
  import opened CompactionBounds
  import opened Orders

  datatype Store = Store(levels: map<BlockId, nat>, disk: map<BlockId, Contents>)

  predicate Sound(st: Store) {
    st.levels.Keys <= st.disk.Keys
  }

  /** The series read from a list of blocks, gathered in list order. */
  function Gather(disk: map<BlockId, Contents>, ids: seq<BlockId>, got: seq<set<u64>>): (acc: Contents)
    requires |got| == |ids|
  {
    if ids == [] then map[]
    else
      var last := |ids| - 1;
      Extended(Gather(disk, ids[..last], got[..last]), OnDisk(disk, ids[last]), got[last])
  }

  /** `compact_blocks` on registered blocks of which these series could be read. If
      nothing was read nothing happens. */
  function Compacted(st: Store, level: nat, ids: seq<BlockId>, newId: BlockId, got: seq<set<u64>>): (r: Store)
    requires |got| == |ids|
  {
    var acc := Gather(st.disk, ids, got);
    if acc == map[] then st
    else Store((st.levels - IdSet(ids))[newId := level + 1], st.disk[newId := MergedContents(acc)] - IdSet(ids))
  }

  /** Every block with a directory can be opened and its index read; None is a failure. */
  predicate Opens(disk: map<BlockId, Contents>, ids: seq<BlockId>, got: seq<Option<set<u64>>>)
    requires |got| == |ids|
  {
    forall i :: 0 <= i < |ids| && ids[i] in disk ==> got[i].Some?
  }

  function Sets(got: seq<Option<set<u64>>>): (sets: seq<set<u64>>)
    ensures |sets| == |got|
    ensures forall i :: 0 <= i < |got| ==> sets[i] == if got[i].Some? then got[i].value else {}
  {
    seq(|got|, i requires 0 <= i < |got| => if got[i].Some? then got[i].value else {})
  }

  /** `compact_blocks` with all its error returns, and whether it returned Ok. A failed
      write leaves a directory that cannot be opened. */
  function Attempt(st: Store, level: nat, ids: seq<BlockId>, newId: BlockId, got: seq<Option<set<u64>>>, writes: bool)
    : (r: (Store, bool))
    requires |got| == |ids|
  {
    if !(IdSet(ids) <= st.levels.Keys) || !Opens(st.disk, ids, got) then (st, false)
    else if Gather(st.disk, ids, Sets(got)) == map[] then (st, true)
    else if !writes then (Store(st.levels, st.disk[newId := map[]]), false)
    else (Compacted(st, level, ids, newId, Sets(got)), true)
  }

  // ----- it is one run of the protocol -------------------------------------

  /** The protocol state after `k` loads. */
  function Loaded(st: Store, level: nat, ids: seq<BlockId>, got: seq<set<u64>>, k: nat): World
    requires k <= |ids| == |got|
  {
    World(st.levels, st.disk, Loading(level, ids, got[..k], Gather(st.disk, ids[..k], got[..k])))
  }

  lemma LoadedNext(st: Store, level: nat, ids: seq<BlockId>, got: seq<set<u64>>, k: nat)
    requires k < |ids| == |got|
    ensures var w, s := Loaded(st, level, ids, got, k), Load(got[k]);
            Enabled(w, s) && Next(w, s) == Loaded(st, level, ids, got, k + 1)
  {
    assert ids[..k + 1][..k] == ids[..k] && got[..k + 1][..k] == got[..k];
    assert got[..k] + [got[k]] == got[..k + 1];
  }

  lemma BeginIsProtocol(st: Store, level: nat, ids: seq<BlockId>, got: seq<set<u64>>)
    requires |got| == |ids| && Distinct(ids) && Registered(st.levels, level, ids)
    ensures var idle := World(st.levels, st.disk, Idle);
            Enabled(idle, Begin(level, ids)) && Next(idle, Begin(level, ids)) == Loaded(st, level, ids, got, 0)
  {
    assert ids[..0] == [] && got[..0] == [];
  }

  /** Beginning, loading every block (`LoadedNext`), then writing and swapping, takes
      the protocol from idle to the compacted store, whatever could be read ... */
  lemma CompactedIsProtocol(st: Store, level: nat, ids: seq<BlockId>, newId: BlockId, got: seq<set<u64>>,
                            loaded: World, done: Store)
    requires |got| == |ids| && Gather(st.disk, ids, got) != map[]
    requires loaded == Loaded(st, level, ids, got, |ids|) && done == Compacted(st, level, ids, newId, got)
    ensures Enabled(loaded, Write(newId))
    ensures Next(Next(loaded, Write(newId)), Swap) == World(done.levels, done.disk, Idle)
  {
    LoadedEnd(st, level, ids, got);
    WriteThenSwap(st, level, ids, got, Gather(st.disk, ids, got), loaded, newId);
  }

  lemma WriteThenSwap(st: Store, level: nat, ids: seq<BlockId>, got: seq<set<u64>>, acc: Contents, w: World,
                      newId: BlockId)
    requires w == World(st.levels, st.disk, Loading(level, ids, got, acc)) && |got| == |ids| && acc != map[]
    ensures Next(Next(w, Write(newId)), Swap)
         == World((st.levels - IdSet(ids))[newId := level + 1], st.disk[newId := MergedContents(acc)] - IdSet(ids),
                  Idle)
  {
    var disk := st.disk[newId := MergedContents(acc)];
    assert Next(w, Write(newId)) == World(st.levels, disk, Written(level, ids, got, newId));
    SwapNext(st.levels, disk, level, ids, got, newId);
  }

  lemma SwapNext(levels: map<BlockId, nat>, disk: map<BlockId, Contents>, level: nat, ids: seq<BlockId>,
                 got: seq<set<u64>>, newId: BlockId)
    ensures Next(World(levels, disk, Written(level, ids, got, newId)), Swap)
         == World((levels - IdSet(ids))[newId := level + 1], disk - IdSet(ids), Idle)
  {
  }

  /** ... or stops, if nothing could be read. */
  lemma EmptyIsProtocol(st: Store, level: nat, ids: seq<BlockId>, newId: BlockId, got: seq<set<u64>>)
    requires |got| == |ids| && Gather(st.disk, ids, got) == map[]
    ensures var loaded := Loaded(st, level, ids, got, |ids|);
            && Enabled(loaded, Nothing) && Next(loaded, Nothing) == World(st.levels, st.disk, Idle)
            && Compacted(st, level, ids, newId, got) == st
  {
    LoadedEnd(st, level, ids, got);
  }

  /** ... or fails to write the new block, and leaves a directory that cannot be opened. */
  lemma FailedIsProtocol(st: Store, level: nat, ids: seq<BlockId>, newId: BlockId, got: seq<Option<set<u64>>>,
                         loaded: World)
    requires |got| == |ids| && IdSet(ids) <= st.levels.Keys && Opens(st.disk, ids, got)
    requires Gather(st.disk, ids, Sets(got)) != map[] && loaded == Loaded(st, level, ids, Sets(got), |ids|)
    ensures var (left, ok) := Attempt(st, level, ids, newId, got, false);
            && !ok && Enabled(loaded, FailWrite(newId))
            && Next(loaded, FailWrite(newId)) == World(left.levels, left.disk, Idle)
  {
    LoadedEnd(st, level, ids, Sets(got));
  }

  lemma LoadedEnd(st: Store, level: nat, ids: seq<BlockId>, got: seq<set<u64>>)
    requires |got| == |ids|
    ensures Loaded(st, level, ids, got, |ids|)
         == World(st.levels, st.disk, Loading(level, ids, got, Gather(st.disk, ids, got)))
  {
    assert ids[..|ids|] == ids && got[..|got|] == got;
  }

  // ----- readable blocks ---------------------------------------------------

  /** What can be read of an undamaged block: every series, or none if the block holds
      no sample at all, for then it has no column files. */
  function Readable(c: Contents): (s: set<u64>) {
    if Sampled(c) == {} then {} else c.Keys
  }

  function Reads(disk: map<BlockId, Contents>, ids: seq<BlockId>): (got: seq<set<u64>>)
    ensures |got| == |ids|
    ensures forall i :: 0 <= i < |ids| ==> got[i] == Readable(OnDisk(disk, ids[i]))
  {
    seq(|ids|, i requires 0 <= i < |ids| => Readable(OnDisk(disk, ids[i])))
  }

  /** No sample of the blocks was missed. */
  predicate ReadAll(disk: map<BlockId, Contents>, ids: seq<BlockId>, got: seq<set<u64>>) {
    |got| == |ids| && forall i :: 0 <= i < |ids| ==> Sampled(OnDisk(disk, ids[i])) <= got[i]
  }

  // ----- one pass ----------------------------------------------------------

  function LevelSet(st: Store, level: nat): (s: set<BlockId>) {
    set id | id in st.levels && st.levels[id] == level
  }

  /** What the code takes from its surroundings: the walk of the block map, the id read
      off the clock, the series of a block that can be read, None if the block cannot be
      opened, and whether the new block can be written. */
  datatype Environment = Environment(
    order: (Store, nat) -> seq<BlockId>,
    clock: (Store, nat) -> BlockId,
    series: (Store, BlockId) -> Option<set<u64>>,
    writes: (Store, nat) -> bool)

  ghost predicate Fair(env: Environment) {
    forall st: Store, level: nat ::
      && Distinct(env.order(st, level)) && IdSet(env.order(st, level)) == LevelSet(st, level)
      && env.clock(st, level) !in st.levels
  }

  /** No file is damaged and none fails to be written. */
  ghost predicate Undamaged(env: Environment) {
    && (forall st: Store, id: BlockId :: env.series(st, id) == Some(Readable(OnDisk(st.disk, id))))
    && (forall st: Store, level: nat :: env.writes(st, level))
  }

  function Got(env: Environment, st: Store, ids: seq<BlockId>): (got: seq<Option<set<u64>>>)
    ensures |got| == |ids|
    ensures forall i :: 0 <= i < |ids| ==> got[i] == env.series(st, ids[i])
  {
    seq(|ids|, i requires 0 <= i < |ids| => env.series(st, ids[i]))
  }

  /** There are such surroundings: any walk of a finite map, and a clock ahead of all
      ids in use. */
  lemma FairExists()
    ensures exists env :: Fair(env) && Undamaged(env)
  {
    var env := Environment((st: Store, level: nat) => Walk(LevelSet(st, level)),
                           (st: Store, level: nat) => Unused(st.levels.Keys),
                           (st: Store, id: BlockId) => Some(Readable(OnDisk(st.disk, id))),
                           (st: Store, level: nat) => true);
    forall st: Store, level: nat
      ensures Distinct(env.order(st, level)) && IdSet(env.order(st, level)) == LevelSet(st, level)
      ensures env.clock(st, level) !in st.levels
    {
      WalkCovers(LevelSet(st, level));
      assert forall i :: 0 <= i < |env.order(st, level)| ==> env.order(st, level)[i] in env.order(st, level);
      UnusedIsFresh(st.levels.Keys);
    }
    assert Fair(env) && Undamaged(env);
  }

  ghost function Unused(s: set<BlockId>): (id: BlockId) {
    if s == {} then 0
    else
      var x :| x in s;
      var rest := Unused(s - {x});
      if x < rest then rest else x + 1
  }

  lemma {:induction false} UnusedIsFresh(s: set<BlockId>)
    ensures forall x :: x in s ==> x < Unused(s)
  {
    if s != {} {
      var x :| x in s && Unused(s) == (var rest := Unused(s - {x}); if x < rest then rest else x + 1);
      UnusedIsFresh(s - {x});
      assert forall y :: y in s ==> y == x || y in s - {x};
    }
  }

  /** One turn of the level loop of `check_and_compact`. */
  function TryLevel(cfg: Config, env: Environment, st: Store, level: nat): (r: (Store, bool)) {
    var ids := env.order(st, level);
    if |ids| < Threshold(cfg, level) then (st, true)
    else Attempt(st, level, ids, env.clock(st, level), Got(env, st, ids), env.writes(st, level))
  }

  function CompactLevel(cfg: Config, env: Environment, st: Store, level: nat): (r: Store) {
    TryLevel(cfg, env, st, level).0
  }

  /** The loop from a level on; an error ends it. */
  function Pass(cfg: Config, env: Environment, st: Store, level: nat): (r: Store)
    decreases cfg.maxLevel + 1 - level
  {
    if level > cfg.maxLevel then st
    else
      var (next, ok) := TryLevel(cfg, env, st, level);
      if ok then Pass(cfg, env, next, level + 1) else next
  }

  /** Over undamaged blocks every turn succeeds, with what can be read. */
  lemma UndamagedLevel(cfg: Config, env: Environment, st: Store, level: nat)
    requires Fair(env) && Undamaged(env)
    ensures var ids := env.order(st, level);
            TryLevel(cfg, env, st, level)
            == (if |ids| < Threshold(cfg, level) then st
                else Compacted(st, level, ids, env.clock(st, level), Reads(st.disk, ids)), true)
  {
    var ids := env.order(st, level);
    assert Sets(Got(env, st, ids)) == Reads(st.disk, ids);
  }

  /** Nothing to do at a level: too few blocks, or blocks without any sample. */
  ghost predicate Settled(cfg: Config, st: Store, level: nat) {
    |LevelSet(st, level)| < Threshold(cfg, level) || DataFree(st, level)
  }

  ghost predicate DataFree(st: Store, level: nat) {
    forall id :: id in LevelSet(st, level) ==> Sampled(OnDisk(st.disk, id)) == {}
  }

  /** Undamaged blocks give nothing exactly when none of them holds a sample, and
      otherwise give a sample. */
  lemma {:induction false} GatherEmpty(disk: map<BlockId, Contents>, ids: seq<BlockId>, got: seq<set<u64>>)
    requires got == Reads(disk, ids)
    ensures Gather(disk, ids, got) == map[] <==> forall i :: 0 <= i < |ids| ==> Sampled(OnDisk(disk, ids[i])) == {}
    ensures Gather(disk, ids, got) != map[] ==> Sampled(Gather(disk, ids, got)) != {}
    decreases |ids|
  {
    if ids != [] {
      var last := |ids| - 1;
      var acc, block := Gather(disk, ids[..last], got[..last]), OnDisk(disk, ids[last]);
      assert got[..last] == Reads(disk, ids[..last]);
      GatherEmpty(disk, ids[..last], got[..last]);
      ExtendedSampled(acc, block, Extended(acc, block, got[last]));
      assert forall i :: 0 <= i < last ==> ids[..last][i] == ids[i];
    }
  }

  lemma ExtendedSampled(acc: Contents, block: Contents, r: Contents)
    requires r == Extended(acc, block, Readable(block)) && (acc != map[] ==> Sampled(acc) != {})
    ensures r == map[] <==> acc == map[] && Sampled(block) == {}
    ensures r != map[] ==> Sampled(r) != {}
  {
    if Sampled(block) != {} {
      var sid :| sid in Sampled(block);
      assert sid in Sampled(r);
    } else if acc != map[] {
      var sid :| sid in Sampled(acc);
      assert sid in Sampled(r);
    } else {
      assert r.Keys == {};
    }
  }

  /** Levels other than the compacted one and the next keep their blocks. */
  lemma OtherLevels(st: Store, level: nat, ids: seq<BlockId>, newId: BlockId, got: seq<set<u64>>, other: nat)
    requires |got| == |ids| && Sound(st) && newId !in st.levels && IdSet(ids) == LevelSet(st, level)
    requires other != level && other != level + 1
    ensures var r := Compacted(st, level, ids, newId, got);
            && LevelSet(r, other) == LevelSet(st, other)
            && forall id :: id in LevelSet(st, other) ==> OnDisk(r.disk, id) == OnDisk(st.disk, id)
  {
  }

  lemma CompactLevelSound(cfg: Config, env: Environment, st: Store, level: nat)
    requires Sound(st) && Fair(env)
    ensures Sound(CompactLevel(cfg, env, st, level))
  {
    var ids, newId := env.order(st, level), env.clock(st, level);
    assert newId !in IdSet(ids);
  }

  /** Compacting a level settles it, by emptying it unless it held no data. */
  lemma CompactLevelSettles(cfg: Config, env: Environment, st: Store, level: nat)
    requires Sound(st) && Fair(env) && Undamaged(env)
    ensures Settled(cfg, CompactLevel(cfg, env, st, level), level)
  {
    var ids, newId := env.order(st, level), env.clock(st, level);
    IdSetSize(ids);
    UndamagedLevel(cfg, env, st, level);
    if |ids| >= Threshold(cfg, level) {
      var got := Reads(st.disk, ids);
      GatherEmpty(st.disk, ids, got);
      var r := Compacted(st, level, ids, newId, got);
      if Gather(st.disk, ids, got) != map[] {
        assert LevelSet(r, level) == {};
      } else {
        forall id | id in LevelSet(st, level)
          ensures Sampled(OnDisk(st.disk, id)) == {}
        {
          var i :| 0 <= i < |ids| && ids[i] == id;
        }
      }
    }
  }

  lemma SettledAbove(cfg: Config, env: Environment, st: Store, level: nat, lower: nat)
    requires Sound(st) && Fair(env) && lower < level && Settled(cfg, st, lower)
    ensures Settled(cfg, CompactLevel(cfg, env, st, level), lower)
  {
    var ids := env.order(st, level);
    OtherLevels(st, level, ids, env.clock(st, level), Sets(Got(env, st, ids)), lower);
  }

  /** Although each compaction feeds the next level, one pass settles every level. */
  lemma {:induction false} PassSettles(cfg: Config, env: Environment, st: Store, from: nat, level: nat)
    requires Sound(st) && Fair(env) && Undamaged(env) && level <= cfg.maxLevel
    requires level < from ==> Settled(cfg, st, level)
    ensures Settled(cfg, Pass(cfg, env, st, from), level) && Sound(Pass(cfg, env, st, from))
    decreases cfg.maxLevel + 1 - from
  {
    if from <= cfg.maxLevel {
      var next := CompactLevel(cfg, env, st, from);
      CompactLevelSound(cfg, env, st, from);
      PassNext(cfg, env, st, from, next);
      if level < from {
        SettledAbove(cfg, env, st, from, level);
      } else if level == from {
        CompactLevelSettles(cfg, env, st, from);
      }
      PassSettles(cfg, env, next, from + 1, level);
    }
  }

  lemma SettledStays(cfg: Config, env: Environment, st: Store, level: nat)
    requires Fair(env) && Undamaged(env) && Settled(cfg, st, level)
    ensures TryLevel(cfg, env, st, level) == (st, true)
  {
    var ids := env.order(st, level);
    IdSetSize(ids);
    UndamagedLevel(cfg, env, st, level);
    if |ids| >= Threshold(cfg, level) {
      forall i | 0 <= i < |ids|
        ensures Sampled(OnDisk(st.disk, ids[i])) == {}
      {
        assert ids[i] in IdSet(ids);
      }
      GatherEmpty(st.disk, ids, Reads(st.disk, ids));
    }
  }

  lemma {:induction false} PassStays(cfg: Config, env: Environment, st: Store, from: nat)
    requires Fair(env) && Undamaged(env) && forall level :: from <= level <= cfg.maxLevel ==> Settled(cfg, st, level)
    ensures Pass(cfg, env, st, from) == st
    decreases cfg.maxLevel + 1 - from
  {
    if from <= cfg.maxLevel {
      SettledStays(cfg, env, st, from);
      PassStays(cfg, env, st, from + 1);
    }
  }

  /** A second pass changes nothing, whatever order and clock it sees, for every
      configuration and every store of undamaged blocks. */
  lemma PassIdempotent(cfg: Config, env: Environment, again: Environment, st: Store)
    requires Sound(st) && Fair(env) && Undamaged(env) && Fair(again) && Undamaged(again)
    ensures Pass(cfg, again, Pass(cfg, env, st, 0), 0) == Pass(cfg, env, st, 0)
  {
    forall level | 0 <= level <= cfg.maxLevel
      ensures Settled(cfg, Pass(cfg, env, st, 0), level)
    {
      PassSettles(cfg, env, st, 0, level);
    }
    PassStays(cfg, again, Pass(cfg, env, st, 0), 0);
  }

  /** Every registered block holds some sample. */
  ghost predicate NoEmptyBlock(st: Store) {
    forall id :: id in st.levels ==> Sampled(OnDisk(st.disk, id)) != {}
  }

  lemma {:induction false} PassKeepsData(cfg: Config, env: Environment, st: Store, from: nat)
    requires Sound(st) && Fair(env) && Undamaged(env) && NoEmptyBlock(st)
    ensures NoEmptyBlock(Pass(cfg, env, st, from))
    decreases cfg.maxLevel + 1 - from
  {
    if from <= cfg.maxLevel {
      CompactLevelSound(cfg, env, st, from);
      CompactLevelKeepsData(cfg, env, st, from);
      PassNext(cfg, env, st, from, CompactLevel(cfg, env, st, from));
      PassKeepsData(cfg, env, CompactLevel(cfg, env, st, from), from + 1);
    }
  }

  lemma CompactLevelKeepsData(cfg: Config, env: Environment, st: Store, level: nat)
    requires Sound(st) && Fair(env) && Undamaged(env) && NoEmptyBlock(st)
    ensures NoEmptyBlock(CompactLevel(cfg, env, st, level))
  {
    var ids, newId := env.order(st, level), env.clock(st, level);
    var got := Reads(st.disk, ids);
    var acc := Gather(st.disk, ids, got);
    UndamagedLevel(cfg, env, st, level);
    assert newId !in IdSet(ids);
    GatherEmpty(st.disk, ids, got);
    if acc != map[] {
      MergedSampled(acc);
    }
  }

  lemma MergedSampled(acc: Contents)
    requires Sampled(acc) != {}
    ensures Sampled(MergedContents(acc)) != {}
  {
    var sid :| sid in Sampled(acc);
    var samples := acc[sid].samples;
    assert Sorted(samples) != [] && Merged(samples) != [];
    assert sid in Sampled(MergedContents(acc));
  }

  /** Without empty blocks, a pass leaves every level up to max_level below its threshold,
      or empty where the threshold is 0. */
  lemma PassBelowThresholds(cfg: Config, env: Environment, st: Store, level: nat)
    requires Sound(st) && Fair(env) && Undamaged(env) && NoEmptyBlock(st) && level <= cfg.maxLevel
    ensures var left := LevelSet(Pass(cfg, env, st, 0), level); |left| < Threshold(cfg, level) || left == {}
  {
    var r := Pass(cfg, env, st, 0);
    PassSettles(cfg, env, st, 0, level);
    PassKeepsData(cfg, env, st, 0);
    if DataFree(r, level) {
      assert LevelSet(r, level) == {};
    }
  }

  /** Fewer blocks than allowed, or none. */
  predicate Under(blocks: set<BlockId>, limit: nat) {
    |blocks| < limit || blocks == {}
  }

  /** The same in the fields of the configuration: the three thresholds bound levels 0 to
      2, and every level from 3 to max_level is left with at most one block. */
  lemma PassBelowFields(cfg: Config, env: Environment, st: Store)
    requires Sound(st) && Fair(env) && Undamaged(env) && NoEmptyBlock(st)
    ensures var r := Pass(cfg, env, st, 0);
            && Under(LevelSet(r, 0), cfg.l0)
            && (1 <= cfg.maxLevel ==> Under(LevelSet(r, 1), cfg.l1))
            && (2 <= cfg.maxLevel ==> Under(LevelSet(r, 2), cfg.l2))
            && (forall level :: 3 <= level <= cfg.maxLevel ==> |LevelSet(r, level)| <= 1)
  {
    forall level | 0 <= level <= cfg.maxLevel
      ensures Under(LevelSet(Pass(cfg, env, st, 0), level), Threshold(cfg, level))
    {
      PassBelowThresholds(cfg, env, st, level);
    }
  }

  /** A level that holds fewer blocks than its field says is left alone by its turn,
      damaged or not. */
  lemma TurnLeaves(cfg: Config, env: Environment, st: Store, level: nat, n: nat)
    requires Fair(env) && n == |LevelSet(st, level)|
    requires || (level == 0 && n < cfg.l0) || (level == 1 && n < cfg.l1) || (level == 2 && n < cfg.l2)
             || (level >= 3 && n < 2)
    ensures TryLevel(cfg, env, st, level) == (st, true)
  {
    IdSetSize(env.order(st, level));
  }

  /** One that holds at least as many, with a sample among them, is emptied into one new
      block of the next level; the blocks of all other levels stay. */
  lemma TurnEmpties(cfg: Config, env: Environment, st: Store, level: nat, n: nat)
    requires Sound(st) && Fair(env) && Undamaged(env) && n == |LevelSet(st, level)| && !DataFree(st, level)
    requires (level == 0 ==> n >= cfg.l0) && (level == 1 ==> n >= cfg.l1) && (level == 2 ==> n >= cfg.l2)
    requires level >= 3 ==> n >= 2
    ensures var (r, ok) := TryLevel(cfg, env, st, level);
            && ok && LevelSet(r, level) == {}
            && LevelSet(r, level + 1) == LevelSet(st, level + 1) + {env.clock(st, level)}
            && forall other :: other != level && other != level + 1 ==> LevelSet(r, other) == LevelSet(st, other)
  {
    var ids, newId := env.order(st, level), env.clock(st, level);
    var got := Reads(st.disk, ids);
    IdSetSize(ids);
    UndamagedLevel(cfg, env, st, level);
    SampledRead(st, level, ids, got);
    forall other | other != level && other != level + 1
      ensures LevelSet(Compacted(st, level, ids, newId, got), other) == LevelSet(st, other)
    {
      OtherLevels(st, level, ids, newId, got, other);
    }
    MovedUp(st, level, ids, newId, got);
  }

  lemma SampledRead(st: Store, level: nat, ids: seq<BlockId>, got: seq<set<u64>>)
    requires IdSet(ids) == LevelSet(st, level) && !DataFree(st, level) && got == Reads(st.disk, ids)
    ensures Gather(st.disk, ids, got) != map[]
  {
    GatherEmpty(st.disk, ids, got);
    var id :| id in LevelSet(st, level) && Sampled(OnDisk(st.disk, id)) != {};
    var i :| 0 <= i < |ids| && ids[i] == id;
  }

  lemma MovedUp(st: Store, level: nat, ids: seq<BlockId>, newId: BlockId, got: seq<set<u64>>)
    requires IdSet(ids) == LevelSet(st, level) && newId !in st.levels && |got| == |ids|
    requires Gather(st.disk, ids, got) != map[]
    ensures var r := Compacted(st, level, ids, newId, got);
            LevelSet(r, level) == {} && LevelSet(r, level + 1) == LevelSet(st, level + 1) + {newId}
  {
  }

  /** A level that fails ends the pass: every registered block stays as it is. */
  lemma PassStopsAtError(cfg: Config, env: Environment, st: Store, level: nat, id: BlockId)
    requires Fair(env) && level <= cfg.maxLevel && !TryLevel(cfg, env, st, level).1
    ensures Pass(cfg, env, st, level).levels == st.levels
    ensures id in st.levels ==> OnDisk(Pass(cfg, env, st, level).disk, id) == OnDisk(st.disk, id)
  {
    assert env.clock(st, level) !in st.levels;
  }

  // ----- a pass keeps every key --------------------------------------------

  ghost predicate Holds(st: Store, sid: u64, t: i64) {
    Visible(World(st.levels, st.disk, Idle), sid, t)
  }

  lemma {:induction false} LoadedGathered(st: Store, level: nat, ids: seq<BlockId>, got: seq<set<u64>>, k: nat,
                                          sid: u64)
    requires Sound(st) && Distinct(ids) && Registered(st.levels, level, ids) && k <= |ids| == |got|
    ensures var w := Loaded(st, level, ids, got, k); Shape(w) && Gathered(w, sid)
  {
    if k == 0 {
      assert ids[..0] == [];
    } else {
      LoadedGathered(st, level, ids, got, k - 1, sid);
      LoadedNext(st, level, ids, got, k - 1);
      GatheredKept(Loaded(st, level, ids, got, k - 1), Load(got[k - 1]), sid);
    }
  }

  lemma LoadedComplete(st: Store, level: nat, ids: seq<BlockId>, got: seq<set<u64>>)
    requires ReadAll(st.disk, ids, got) && Shape(Loaded(st, level, ids, got, |ids|))
    ensures Complete(Loaded(st, level, ids, got, |ids|))
  {
    assert got[..|ids|] == got;
  }

  /** A compaction that misses no sample keeps exactly the keys. */
  lemma CompactedKeeps(st: Store, level: nat, ids: seq<BlockId>, newId: BlockId, got: seq<set<u64>>, sid: u64, t: i64)
    requires Sound(st) && Distinct(ids) && Registered(st.levels, level, ids) && newId !in st.levels
    requires ReadAll(st.disk, ids, got)
    ensures Holds(Compacted(st, level, ids, newId, got), sid, t) <==> Holds(st, sid, t)
  {
    if Gather(st.disk, ids, got) != map[] {
      var loaded, done := Loaded(st, level, ids, got, |ids|), Compacted(st, level, ids, newId, got);
      LoadedGathered(st, level, ids, got, |ids|, sid);
      LoadedComplete(st, level, ids, got);
      CompactedIsProtocol(st, level, ids, newId, got, loaded, done);
      WriteAndSwapKeeps(loaded, newId, sid, t);
      SameVisible(World(st.levels, st.disk, Idle), loaded, sid, t);
    }
  }

  lemma SameVisible(a: World, b: World, sid: u64, t: i64)
    requires a.levels == b.levels && a.disk == b.disk
    ensures Visible(a, sid, t) <==> Visible(b, sid, t)
  {
  }

  lemma WriteAndSwapKeeps(w: World, newId: BlockId, sid: u64, t: i64)
    requires Shape(w) && Gathered(w, sid) && Complete(w) && Enabled(w, Write(newId)) && newId !in w.levels
    ensures Visible(Next(Next(w, Write(newId)), Swap), sid, t) <==> Visible(w, sid, t)
  {
    var written := Next(w, Write(newId));
    QuietStep(w, Write(newId), sid, t);
    GatheredKept(w, Write(newId), sid);
    CompleteKept(w, Write(newId));
    SwapPreservesIff(written, sid, t);
    assert !Skipped(written, sid, t);
  }

  /** A pass over undamaged blocks neither loses nor adds a (series, timestamp) key. */
  lemma {:induction false} PassKeeps(cfg: Config, env: Environment, st: Store, from: nat, sid: u64, t: i64)
    requires Sound(st) && Fair(env) && Undamaged(env)
    ensures Holds(Pass(cfg, env, st, from), sid, t) <==> Holds(st, sid, t)
    decreases cfg.maxLevel + 1 - from
  {
    if from <= cfg.maxLevel {
      var next := CompactLevel(cfg, env, st, from);
      CompactLevelKeeps(cfg, env, st, from, sid, t);
      CompactLevelSound(cfg, env, st, from);
      PassNext(cfg, env, st, from, next);
      PassKeeps(cfg, env, next, from + 1, sid, t);
    }
  }

  /** A pass over undamaged blocks goes on after every level. */
  lemma PassNext(cfg: Config, env: Environment, st: Store, from: nat, next: Store)
    requires Fair(env) && Undamaged(env) && from <= cfg.maxLevel && next == CompactLevel(cfg, env, st, from)
    ensures Pass(cfg, env, st, from) == Pass(cfg, env, next, from + 1)
  {
    UndamagedLevel(cfg, env, st, from);
  }

  lemma CompactLevelKeeps(cfg: Config, env: Environment, st: Store, level: nat, sid: u64, t: i64)
    requires Sound(st) && Fair(env) && Undamaged(env)
    ensures Holds(CompactLevel(cfg, env, st, level), sid, t) <==> Holds(st, sid, t)
  {
    var ids := env.order(st, level);
    assert forall i :: 0 <= i < |ids| ==> ids[i] in IdSet(ids);
    UndamagedLevel(cfg, env, st, level);
    CompactedKeeps(st, level, ids, env.clock(st, level), Reads(st.disk, ids), sid, t);
  }

  /** Whatever can or cannot be read, a pass adds no key. */
  lemma {:induction false} PassInventsNothing(cfg: Config, env: Environment, st: Store, from: nat, sid: u64, t: i64)
    requires Sound(st) && Fair(env)
    ensures Holds(Pass(cfg, env, st, from), sid, t) ==> Holds(st, sid, t)
    decreases cfg.maxLevel + 1 - from
  {
    if from <= cfg.maxLevel {
      CompactLevelInventsNothing(cfg, env, st, from, sid, t);
      CompactLevelSound(cfg, env, st, from);
      PassInventsNothing(cfg, env, CompactLevel(cfg, env, st, from), from + 1, sid, t);
    }
  }

  lemma CompactLevelInventsNothing(cfg: Config, env: Environment, st: Store, level: nat, sid: u64, t: i64)
    requires Sound(st) && Fair(env)
    ensures Holds(CompactLevel(cfg, env, st, level), sid, t) ==> Holds(st, sid, t)
  {
    var ids, newId := env.order(st, level), env.clock(st, level);
    assert forall i :: 0 <= i < |ids| ==> ids[i] in IdSet(ids);
    CompactedInventsNothing(st, level, ids, newId, Sets(Got(env, st, ids)), sid, t);
    SpoiltHolds(st, newId, sid, t);
  }

  /** A directory left under an unregistered id shows nothing. */
  lemma SpoiltHolds(st: Store, newId: BlockId, sid: u64, t: i64)
    requires Sound(st) && newId !in st.levels
    ensures Holds(Store(st.levels, st.disk[newId := map[]]), sid, t) <==> Holds(st, sid, t)
  {
    var disk := st.disk[newId := map[]];
    if id :| id in st.levels && id in st.disk && HasKey(st.disk[id], sid, t) {
      assert id in disk && HasKey(disk[id], sid, t);
    }
    if id :| id in st.levels && id in disk && HasKey(disk[id], sid, t) {
      assert id in st.disk && HasKey(st.disk[id], sid, t);
    }
  }

  lemma CompactedInventsNothing(st: Store, level: nat, ids: seq<BlockId>, newId: BlockId, got: seq<set<u64>>,
                                sid: u64, t: i64)
    requires Sound(st) && Distinct(ids) && Registered(st.levels, level, ids) && newId !in st.levels && |got| == |ids|
    ensures Holds(Compacted(st, level, ids, newId, got), sid, t) ==> Holds(st, sid, t)
  {
    if Gather(st.disk, ids, got) != map[] {
      var loaded, done := Loaded(st, level, ids, got, |ids|), Compacted(st, level, ids, newId, got);
      LoadedGathered(st, level, ids, got, |ids|, sid);
      CompactedIsProtocol(st, level, ids, newId, got, loaded, done);
      WriteAndSwapAdds(loaded, newId, sid, t);
      SameVisible(World(st.levels, st.disk, Idle), loaded, sid, t);
    }
  }

  lemma WriteAndSwapAdds(w: World, newId: BlockId, sid: u64, t: i64)
    requires Shape(w) && Gathered(w, sid) && Enabled(w, Write(newId)) && newId !in w.levels
    ensures Visible(Next(Next(w, Write(newId)), Swap), sid, t) ==> Visible(w, sid, t)
  {
    var written := Next(w, Write(newId));
    QuietStep(w, Write(newId), sid, t);
    GatheredKept(w, Write(newId), sid);
    SwapStep(written, sid, t);
    VisibleParts(written, sid, t);
  }

  // ----- the manager object ------------------------------------------------

  class CompactionManager {
    const cfg: Config
    const env: Environment
    var levels: map<BlockId, nat>
    var disk: map<BlockId, Contents>

    ghost function View(): Store
      reads this
    {
      Store(levels, disk)
    }

    constructor (cfg: Config, env: Environment)
      ensures this.cfg == cfg && this.env == env && View() == Store(map[], map[])
    {
      this.cfg := cfg;
      this.env := env;
      levels, disk := map[], map[];
    }

    /** `add_block`: registration alone. */
    method AddBlock(id: BlockId, level: nat)
      modifies this
      ensures View() == Store(old(levels)[id := level], old(disk))
    {
      levels := levels[id := level];
    }

    /** A flush: the block is written, then registered at level 0. */
    method FlushBlock(id: BlockId, contents: Contents)
      modifies this
      ensures View() == Store(old(levels)[id := 0], old(disk)[id := contents])
    {
      disk := disk[id := contents];
      AddBlock(id, 0);
    }

    /** The directory goes with the registration; an unknown id is passed over. */
    method RemoveBlock(id: BlockId)
      modifies this
      ensures View() == if id in old(levels) then Store(old(levels) - {id}, old(disk) - {id}) else old(View())
    {
      if id in levels {
        levels := levels - {id};
        disk := disk - {id};
      }
    }

    /** The loop over `load_block_data`: of the i-th block the series in `got[i]` can be
        read, or it cannot be opened. A missing directory is passed over. */
    method LoadBlocks(ids: seq<BlockId>, got: seq<Option<set<u64>>>) returns (r: Result<Contents>)
      requires |got| == |ids|
      ensures r.Ok? <==> IdSet(ids) <= levels.Keys && Opens(disk, ids, got)
      ensures r.Ok? ==> r.value == Gather(disk, ids, Sets(got))
    {
      var all: Contents := map[];
      for i := 0 to |ids|
        invariant all == Gather(disk, ids[..i], Sets(got)[..i])
        invariant forall k :: 0 <= k < i ==> ids[k] in levels && (ids[k] in disk ==> got[k].Some?)
      {
        if ids[i] !in levels {
          assert ids[i] in IdSet(ids);
          return Err("Block not found");
        }
        assert ids[..i + 1][..i] == ids[..i] && Sets(got)[..i + 1][..i] == Sets(got)[..i];
        if ids[i] in disk {
          if got[i].None? {
            return Err("Block cannot be read");
          }
          all := Extended(all, disk[ids[i]], got[i].value);
        } else {
          NothingThere(all, Sets(got)[i]);
        }
      }
      assert ids[..|ids|] == ids && Sets(got)[..|got|] == Sets(got);
      r := Ok(all);
    }

    method RemoveBlocks(ids: seq<BlockId>)
      modifies this
      ensures View() == Store(old(levels) - IdSet(ids), old(disk) - IdSet(ids) * old(levels).Keys)
    {
      ghost var known := levels.Keys;
      for i := 0 to |ids|
        invariant levels == old(levels) - IdSet(ids[..i]) && disk == old(disk) - IdSet(ids[..i]) * known
      {
        assert IdSet(ids[..i + 1]) == IdSet(ids[..i]) + {ids[i]} by {
          assert forall k :: 0 <= k < i ==> ids[..i + 1][k] == ids[..i][k];
        }
        RemoveBlock(ids[i]);
      }
      assert ids[..|ids|] == ids;
    }

    method CompactBlocks(level: nat, ids: seq<BlockId>, newId: BlockId, got: seq<Option<set<u64>>>, writes: bool)
      returns (r: Result<()>)
      requires |got| == |ids|
      modifies this
      ensures (View(), r.Ok?) == Attempt(old(View()), level, ids, newId, got, writes)
    {
      var all := LoadBlocks(ids, got);
      if all.Err? {
        return Err(all.error);
      }
      if all.value == map[] {
        return Ok(());
      }
      if !writes {
        disk := disk[newId := map[]];
        return Err("Block cannot be written");
      }
      disk := disk[newId := MergedContents(all.value)];
      assert IdSet(ids) * levels.Keys == IdSet(ids);
      RemoveBlocks(ids);
      AddBlock(newId, level + 1);
      r := Ok(());
    }

    method CompactOneLevel(level: nat) returns (r: Result<()>)
      modifies this
      ensures (View(), r.Ok?) == TryLevel(cfg, env, old(View()), level)
    {
      var st := Store(levels, disk);
      var ids := env.order(st, level);
      if |ids| < Threshold(cfg, level) {
        return Ok(());
      }
      r := CompactBlocks(level, ids, env.clock(st, level), Got(env, st, ids), env.writes(st, level));
    }

    method CheckAndCompact() returns (r: Result<()>)
      requires Sound(View()) && Fair(env)
      modifies this
      ensures View() == Pass(cfg, env, old(View()), 0)
      ensures Undamaged(env) ==> r.Ok? && forall level :: 0 <= level <= cfg.maxLevel ==> Settled(cfg, View(), level)
    {
      var level := 0;
      while level <= cfg.maxLevel
        invariant 0 <= level <= cfg.maxLevel + 1 && Sound(View())
        invariant Pass(cfg, env, View(), level) == Pass(cfg, env, old(View()), 0)
      {
        CompactLevelSound(cfg, env, View(), level);
        UndamagedSucceeds(cfg, env, View(), level);
        r := CompactOneLevel(level);
        if r.Err? {
          return;
        }
        level := level + 1;
      }
      r := Ok(());
      forall l | Undamaged(env) && 0 <= l <= cfg.maxLevel
        ensures Settled(cfg, View(), l)
      {
        PassSettles(cfg, env, old(View()), 0, l);
      }
    }
  }

  lemma UndamagedSucceeds(cfg: Config, env: Environment, st: Store, level: nat)
    requires Fair(env)
    ensures Undamaged(env) ==> TryLevel(cfg, env, st, level).1
  {
    if Undamaged(env) {
      UndamagedLevel(cfg, env, st, level);
    }
  }

  lemma NothingThere(acc: Contents, readable: set<u64>)
    ensures Extended(acc, map[], readable) == acc
  {
  }
}

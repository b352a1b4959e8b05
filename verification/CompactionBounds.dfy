/** How far compaction can go over a whole run: numbers of blocks, levels, and how
    often a sample is rewritten (storage/src/compaction/mod.rs). The runs are those
    of the interleaved protocol. */
module CompactionBounds {
  import opened Machine
  import opened Compaction

  /** `CompactionConfig`: thresholds for levels 0 to 2 and the last level a pass
      looks at. */
  datatype Config = Config(l0: nat, l1: nat, l2: nat, maxLevel: nat)

  function Threshold(cfg: Config, level: nat): nat {
    if level == 0 then cfg.l0 else if level == 1 then cfg.l1 else if level == 2 then cfg.l2 else 2
  }

  predicate AtLeastTwo(cfg: Config) {
    cfg.l0 >= 2 && cfg.l1 >= 2 && cfg.l2 >= 2
  }

  /** Every compaction of the run was begun by a pass. */
  ghost predicate PassesOnly(cfg: Config, trace: seq<Step>) {
    forall i :: 0 <= i < |trace| && trace[i].Begin? ==>
      trace[i].level <= cfg.maxLevel && |trace[i].ids| >= Threshold(cfg, trace[i].level)
  }

  function Flushes(trace: seq<Step>): (n: nat) {
    if trace == [] then 0
    else Flushes(trace[..|trace| - 1]) + (if trace[|trace| - 1].Flush? then 1 else 0)
  }

  function Swaps(trace: seq<Step>): (n: nat) {
    if trace == [] then 0
    else Swaps(trace[..|trace| - 1]) + (if trace[|trace| - 1].Swap? then 1 else 0)
  }

  /** The two numbers count steps. */
  lemma {:induction false} FlushesCounted(trace: seq<Step>)
    ensures Flushes(trace) == |set i | 0 <= i < |trace| && trace[i].Flush?|
  {
    if trace != [] {
      var before, last := trace[..|trace| - 1], |trace| - 1;
      var counted := set i | 0 <= i < |before| && before[i].Flush?;
      FlushesCounted(before);
      assert (set i | 0 <= i < |trace| && trace[i].Flush?) == counted + if trace[last].Flush? then {last} else {};
    }
  }

  lemma {:induction false} SwapsCounted(trace: seq<Step>)
    ensures Swaps(trace) == |set i | 0 <= i < |trace| && trace[i].Swap?|
  {
    if trace != [] {
      var before, last := trace[..|trace| - 1], |trace| - 1;
      var counted := set i | 0 <= i < |before| && before[i].Swap?;
      SwapsCounted(before);
      assert (set i | 0 <= i < |trace| && trace[i].Swap?) == counted + if trace[last].Swap? then {last} else {};
    }
  }

  lemma {:induction false} RunShaped(trace: seq<Step>)
    requires Legal(trace)
    ensures Shape(Run(trace))
  {
    RunShape(trace, 0);
  }

  /** The running compaction was begun by a pass, and no level is out of reach. */
  ghost predicate Bounded(cfg: Config, w: World) {
    && (!w.job.Idle? ==> w.job.level <= cfg.maxLevel && |w.job.ids| >= 2)
    && (forall id :: id in w.levels ==> w.levels[id] <= cfg.maxLevel + 1)
  }

  lemma {:induction false} RunBounded(cfg: Config, trace: seq<Step>)
    requires Legal(trace) && PassesOnly(cfg, trace) && AtLeastTwo(cfg)
    ensures Bounded(cfg, Run(trace))
  {
    if trace != [] {
      var before := trace[..|trace| - 1];
      assert forall i :: 0 <= i < |before| ==> before[i] == trace[i];
      RunBounded(cfg, before);
    }
  }

  lemma {:induction false} IdSetSize(ids: seq<BlockId>)
    requires Distinct(ids)
    ensures |IdSet(ids)| == |ids|
  {
    if ids != [] {
      var init, x := ids[..|ids| - 1], ids[|ids| - 1];
      IdSetSize(init);
      assert IdSet(ids) == IdSet(init) + {x} by {
        assert forall i :: 0 <= i < |init| ==> init[i] == ids[i];
      }
      assert x !in IdSet(init);
    }
  }

  lemma SwapCount(w: World)
    requires Shape(w) && w.job.Written?
    ensures |Next(w, Swap).levels| == |w.levels| - |w.job.ids| + 1
  {
    var j, gone := w.job, IdSet(w.job.ids);
    IdSetSize(j.ids);
    assert gone <= w.levels.Keys;
    assert (w.levels - gone).Keys == w.levels.Keys - gone;
    assert |w.levels.Keys - gone| == |w.levels.Keys| - |gone|;
    var w' := Next(w, Swap);
    assert w'.levels.Keys == (w.levels.Keys - gone) + {j.newId};
  }

  /** Live blocks and finished compactions together never exceed the flushes. */
  lemma {:induction false} LiveBlocksBound(cfg: Config, trace: seq<Step>)
    requires Legal(trace) && PassesOnly(cfg, trace) && AtLeastTwo(cfg)
    ensures |Run(trace).levels| + Swaps(trace) <= Flushes(trace)
    ensures forall id :: id in Run(trace).levels ==> Run(trace).levels[id] <= cfg.maxLevel + 1
  {
    RunBounded(cfg, trace);
    if trace != [] {
      var before, s := trace[..|trace| - 1], trace[|trace| - 1];
      assert forall i :: 0 <= i < |before| ==> before[i] == trace[i];
      LiveBlocksBound(cfg, before);
      RunShaped(before);
      RunBounded(cfg, before);
      var w := Run(before);
      if s.Swap? {
        SwapCount(w);
      } else if s.Flush? {
        assert Next(w, s).levels.Keys == w.levels.Keys + {s.id};
      }
    }
  }

  // ----- which flushes a block stands for ----------------------------------

  /** The numbers of the flushes that went into a block. */
  ghost function Sources(trace: seq<Step>, id: BlockId): (s: set<nat>)
    requires Legal(trace)
    decreases |trace|, 0
  {
    if trace == [] then {}
    else
      var before, s := trace[..|trace| - 1], trace[|trace| - 1];
      var w := Run(before);
      if s.Flush? && s.id == id then {Flushes(before)}
      else if s.Swap? && w.job.newId == id then SourcesOf(before, w.job.ids)
      else Sources(before, id)
  }

  ghost function SourcesOf(trace: seq<Step>, ids: seq<BlockId>): (s: set<nat>)
    requires Legal(trace)
    decreases |trace|, |ids| + 1
  {
    if ids == [] then {} else SourcesOf(trace, ids[..|ids| - 1]) + Sources(trace, ids[|ids| - 1])
  }

  lemma {:induction false} SourcesOfHas(trace: seq<Step>, ids: seq<BlockId>, n: nat)
    requires Legal(trace)
    ensures n in SourcesOf(trace, ids) <==> exists k :: 0 <= k < |ids| && n in Sources(trace, ids[k])
    decreases |ids|
  {
    if ids != [] {
      var init := ids[..|ids| - 1];
      SourcesOfHas(trace, init, n);
      if k :| 0 <= k < |init| && n in Sources(trace, init[k]) {
        assert n in Sources(trace, ids[k]);
      }
      if k :| 0 <= k < |ids| && n in Sources(trace, ids[k]) {
        assert k == |ids| - 1 || n in Sources(trace, init[k]);
      }
    }
  }

  /** A live block that stands for the n-th flush. */
  ghost predicate Owns(trace: seq<Step>, n: nat, id: BlockId)
    requires Legal(trace)
  {
    id in Run(trace).levels && n in Sources(trace, id)
  }

  /** Conservation: every flush so far went into exactly one live block. */
  ghost predicate Accounted(trace: seq<Step>, n: nat)
    requires Legal(trace)
  {
    && (n < Flushes(trace) <==> exists id :: Owns(trace, n, id))
    && (forall a, b :: Owns(trace, n, a) && Owns(trace, n, b) ==> a == b)
  }

  lemma {:induction false} EveryFlushAccounted(trace: seq<Step>, n: nat)
    requires Legal(trace)
    ensures Accounted(trace, n)
  {
    if trace != [] {
      var before, s := trace[..|trace| - 1], trace[|trace| - 1];
      EveryFlushAccounted(before, n);
      RunShaped(before);
      if s.Swap? {
        SwapAccounted(trace, n);
      } else if s.Flush? {
        FlushAccounted(trace, n);
      } else {
        QuietAccounted(trace, n);
      }
    }
  }

  lemma QuietAccounted(trace: seq<Step>, n: nat)
    requires trace != [] && Legal(trace) && Accounted(trace[..|trace| - 1], n)
    requires !trace[|trace| - 1].Swap? && !trace[|trace| - 1].Flush?
    ensures Accounted(trace, n)
  {
    var before := trace[..|trace| - 1];
    assert forall id :: Owns(trace, n, id) <==> Owns(before, n, id);
  }

  lemma FlushAccounted(trace: seq<Step>, n: nat)
    requires trace != [] && Legal(trace) && Accounted(trace[..|trace| - 1], n)
    requires trace[|trace| - 1].Flush? && Shape(Run(trace[..|trace| - 1]))
    ensures Accounted(trace, n)
  {
    var before, s := trace[..|trace| - 1], trace[|trace| - 1];
    assert Sources(trace, s.id) == {Flushes(before)};
    forall id
      ensures Owns(trace, n, id) <==> if id == s.id then n == Flushes(before) else Owns(before, n, id)
    {
    }
    if n == Flushes(before) {
      assert Owns(trace, n, s.id);
    } else if id :| Owns(before, n, id) {
      assert Owns(trace, n, id);
    }
  }

  lemma SwapAccounted(trace: seq<Step>, n: nat)
    requires trace != [] && Legal(trace) && Accounted(trace[..|trace| - 1], n)
    requires trace[|trace| - 1].Swap? && Shape(Run(trace[..|trace| - 1]))
    ensures Accounted(trace, n)
  {
    var before := trace[..|trace| - 1];
    var w, ids := Run(before), Run(before).job.ids;
    assert Flushes(trace) == Flushes(before);
    forall id
      ensures Owns(trace, n, id) <==>
              if id == w.job.newId then exists k :: 0 <= k < |ids| && Owns(before, n, ids[k])
              else id !in IdSet(ids) && Owns(before, n, id)
    {
      SwapOwner(trace, before, ids, w.job.newId, n, id);
    }
    if id :| Owns(before, n, id) {
      var now := if id in IdSet(ids) then w.job.newId else id;
      if id in IdSet(ids) {
        var k :| 0 <= k < |ids| && ids[k] == id;
        assert Owns(before, n, ids[k]);
      }
      assert Owns(trace, n, now);
    }
  }

  lemma SwapOwner(trace: seq<Step>, before: seq<Step>, ids: seq<BlockId>, newId: BlockId, n: nat, id: BlockId)
    requires trace != [] && Legal(trace) && trace[|trace| - 1].Swap? && before == trace[..|trace| - 1]
    requires Shape(Run(before)) && ids == Run(before).job.ids && newId == Run(before).job.newId
    ensures Owns(trace, n, id) <==>
              if id == newId then exists k :: 0 <= k < |ids| && Owns(before, n, ids[k])
              else id !in IdSet(ids) && Owns(before, n, id)
  {
    SwapSources(trace);
    SourcesOfHas(before, ids, n);
    assert forall k :: 0 <= k < |ids| ==> (Owns(before, n, ids[k]) <==> n in Sources(before, ids[k]));
  }

  /** A swap gives the new block the sources of the blocks it replaces. */
  lemma SwapSources(trace: seq<Step>)
    requires trace != [] && Legal(trace) && trace[|trace| - 1].Swap? && Shape(Run(trace[..|trace| - 1]))
    ensures var before := trace[..|trace| - 1];
            var w, w' := Run(before), Run(trace);
            && Sources(trace, w.job.newId) == SourcesOf(before, w.job.ids)
            && w.job.newId in w'.levels && w.job.newId !in w.levels && w'.levels[w.job.newId] == w.job.level + 1
            && (forall id :: id != w.job.newId ==> Sources(trace, id) == Sources(before, id))
            && (forall id :: id != w.job.newId ==> (id in w'.levels <==> id in w.levels && id !in IdSet(w.job.ids)))
  {
  }

  // ----- levels grow at most logarithmically -------------------------------

  /** A block of level l stands for at least 2^l flushes. */
  lemma {:induction false} LevelWeight(cfg: Config, trace: seq<Step>, id: BlockId)
    requires Legal(trace) && PassesOnly(cfg, trace) && AtLeastTwo(cfg)
    requires id in Run(trace).levels
    ensures |Sources(trace, id)| >= Pow2(Run(trace).levels[id])
    decreases |trace|
  {
    var before, s := trace[..|trace| - 1], trace[|trace| - 1];
    assert forall i :: 0 <= i < |before| ==> before[i] == trace[i];
    if s.Swap? && Run(before).job.newId == id {
      var ids, level := SwapParents(cfg, trace, before, id);
      LevelWeight(cfg, before, ids[0]);
      LevelWeight(cfg, before, ids[1]);
      JoinedWeight(before, ids, level);
    } else if s.Flush? && s.id == id {
      FlushedBlock(trace, before);
    } else {
      OtherBlock(trace, before, id);
      LevelWeight(cfg, before, id);
    }
  }

  /** The blocks that a swap has joined, and what the new one has of them. */
  lemma SwapParents(cfg: Config, trace: seq<Step>, before: seq<Step>, id: BlockId) returns (ids: seq<BlockId>,
                    level: nat)
    requires trace != [] && Legal(trace) && before == trace[..|trace| - 1] && trace[|trace| - 1].Swap?
    requires PassesOnly(cfg, before) && AtLeastTwo(cfg) && id == Run(before).job.newId
    ensures |ids| >= 2 && ids[0] != ids[1]
    ensures ids[0] in Run(before).levels && Run(before).levels[ids[0]] == level
    ensures ids[1] in Run(before).levels && Run(before).levels[ids[1]] == level
    ensures id in Run(trace).levels && Run(trace).levels[id] == level + 1
    ensures Sources(trace, id) == SourcesOf(before, ids)
  {
    RunBounded(cfg, before);
    RunShaped(before);
    SwapSources(trace);
    ids, level := Run(before).job.ids, Run(before).job.level;
    assert Registered(Run(before).levels, level, ids);
  }

  lemma JoinedWeight(trace: seq<Step>, ids: seq<BlockId>, level: nat)
    requires Legal(trace) && |ids| >= 2 && ids[0] != ids[1] && ids[0] in Run(trace).levels
    requires ids[1] in Run(trace).levels
    requires |Sources(trace, ids[0])| >= Pow2(level) && |Sources(trace, ids[1])| >= Pow2(level)
    ensures |SourcesOf(trace, ids)| >= Pow2(level + 1)
  {
    SourcesApart(trace, ids[0], ids[1]);
    TwoParts(trace, ids);
  }

  lemma FlushedBlock(trace: seq<Step>, before: seq<Step>)
    requires trace != [] && Legal(trace) && before == trace[..|trace| - 1] && trace[|trace| - 1].Flush?
    ensures var id := trace[|trace| - 1].id;
            && id in Run(trace).levels && Run(trace).levels[id] == 0
            && Sources(trace, id) == {Flushes(before)}
  {
  }

  /** A block that the last step neither flushed nor made is as before. */
  lemma OtherBlock(trace: seq<Step>, before: seq<Step>, id: BlockId)
    requires trace != [] && Legal(trace) && before == trace[..|trace| - 1] && id in Run(trace).levels
    requires var s := trace[|trace| - 1]; !(s.Flush? && s.id == id) && !(s.Swap? && Run(before).job.newId == id)
    ensures id in Run(before).levels && Run(trace).levels[id] == Run(before).levels[id]
    ensures Sources(trace, id) == Sources(before, id)
  {
  }

  lemma SourcesApart(trace: seq<Step>, a: BlockId, b: BlockId)
    requires Legal(trace) && a in Run(trace).levels && b in Run(trace).levels && a != b
    ensures Sources(trace, a) !! Sources(trace, b)
  {
    forall n | n in Sources(trace, a)
      ensures n !in Sources(trace, b)
    {
      EveryFlushAccounted(trace, n);
      assert Owns(trace, n, a) && (n in Sources(trace, b) ==> Owns(trace, n, b));
    }
  }

  lemma TwoParts(trace: seq<Step>, ids: seq<BlockId>)
    requires Legal(trace) && |ids| >= 2
    requires Sources(trace, ids[0]) !! Sources(trace, ids[1])
    ensures |SourcesOf(trace, ids)| >= |Sources(trace, ids[0])| + |Sources(trace, ids[1])|
  {
    var a, b, all := Sources(trace, ids[0]), Sources(trace, ids[1]), SourcesOf(trace, ids);
    forall n | n in a + b
      ensures n in all
    {
      SourcesOfHas(trace, ids, n);
    }
    assert |a + b| == |a| + |b|;
    SubsetSize(a + b, all);
  }

  lemma {:induction false} SubsetSize<T>(a: set<T>, b: set<T>)
    requires a <= b
    ensures |a| <= |b|
  {
    assert b == a + (b - a);
  }

  lemma {:induction false} RangeSize(s: set<nat>, n: nat)
    requires forall i :: i in s ==> i < n
    ensures |s| <= n
  {
    if n == 0 {
      assert s == {};
    } else {
      RangeSize(s - {n - 1}, n - 1);
      if n - 1 in s {
        assert s == (s - {n - 1}) + {n - 1};
      } else {
        assert s - {n - 1} == s;
      }
    }
  }

  /** Hence no level exceeds the binary logarithm of the number of flushes. */
  lemma LevelIsLogarithmic(cfg: Config, trace: seq<Step>, id: BlockId)
    requires Legal(trace) && PassesOnly(cfg, trace) && AtLeastTwo(cfg)
    requires id in Run(trace).levels
    ensures Pow2(Run(trace).levels[id]) <= Flushes(trace)
  {
    LevelWeight(cfg, trace, id);
    forall n | n in Sources(trace, id)
      ensures n < Flushes(trace)
    {
      EveryFlushAccounted(trace, n);
      assert Owns(trace, n, id);
    }
    RangeSize(Sources(trace, id), Flushes(trace));
  }

  // ----- how often a sample is rewritten -----------------------------------

  /** The first block of a compaction, in list order, from which a key was read. */
  ghost function Origin(disk: map<BlockId, Contents>, ids: seq<BlockId>, got: seq<set<u64>>, sid: u64,
                        t: i64): (id: BlockId)
    requires |got| <= |ids| && t in UnionOf(disk, ids, got, sid)
    ensures id in ids && HasKey(OnDisk(disk, id), sid, t)
    decreases |got|
  {
    var last := |got| - 1;
    if t in UnionOf(disk, ids, got[..last], sid) then Origin(disk, ids, got[..last], sid, t) else ids[last]
  }

  /** How many compactions have copied the sample that a block holds for a key. */
  ghost function Rewrites(trace: seq<Step>, id: BlockId, sid: u64, t: i64): (n: nat)
    requires Legal(trace)
    decreases |trace|
  {
    if trace == [] then 0
    else
      var before, s := trace[..|trace| - 1], trace[|trace| - 1];
      var w := Run(before);
      RunShaped(before);
      if s.Flush? && s.id == id then 0
      else if s.Swap? && w.job.newId == id && t in UnionOf(w.disk, w.job.ids, w.job.got, sid) then
        1 + Rewrites(before, Origin(w.disk, w.job.ids, w.job.got, sid, t), sid, t)
      else Rewrites(before, id, sid, t)
  }

  /** In every run, manual compactions included, the sample a live block holds for a
      key has been rewritten exactly as many times as the block's level. */
  lemma {:induction false} RewritesAreLevel(trace: seq<Step>, id: BlockId, sid: u64, t: i64)
    requires Legal(trace) && id in Run(trace).levels && id in Run(trace).disk
    requires HasKey(Run(trace).disk[id], sid, t)
    ensures Rewrites(trace, id, sid, t) == Run(trace).levels[id]
    decreases |trace|
  {
    var before, s := trace[..|trace| - 1], trace[|trace| - 1];
    var w := Run(before);
    RunShape(before, sid);
    if s.Flush? && s.id == id {
    } else if s.Swap? && w.job.newId == id {
      var from := Origin(w.disk, w.job.ids, w.job.got, sid, t);
      RewritesAreLevel(before, from, sid, t);
    } else {
      RewritesAreLevel(before, id, sid, t);
    }
  }

  /** So under passes alone a sample is rewritten at most max_level + 1 times. */
  lemma RewritesBound(cfg: Config, trace: seq<Step>, id: BlockId, sid: u64, t: i64)
    requires Legal(trace) && PassesOnly(cfg, trace) && AtLeastTwo(cfg)
    requires id in Run(trace).levels && id in Run(trace).disk && HasKey(Run(trace).disk[id], sid, t)
    ensures Rewrites(trace, id, sid, t) <= cfg.maxLevel + 1
  {
    RunBounded(cfg, trace);
    RewritesAreLevel(trace, id, sid, t);
  }
}

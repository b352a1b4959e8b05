/** One compaction as the block manager sees it (storage/src/compaction/mod.rs and
    storage/src/flush/mod.rs): load each block, write the merged block, swap under
    the write lock, interleaved with flushes and readers. */
module Compaction {
  import opened Machine
  import opened Model
  import opened Merge

  datatype Series = Series(labels: Labels, samples: seq<Sample>)
  type Contents = map<u64, Series>

  /** Block ids are names: only their freshness matters, not the 64 bits that hold
      them. */
  type BlockId = nat

  /** The samples of one series as a map from timestamp, first sample winning. */
  function SeriesMap(c: Contents, sid: u64): (m: map<i64, Sample>) {
    if sid in c then FirstWins(c[sid].samples) else map[]
  }

  predicate HasKey(c: Contents, sid: u64, t: i64) {
    t in SeriesMap(c, sid)
  }

  /** The series that have samples. */
  function Sampled(c: Contents): (s: set<u64>) {
    set sid | sid in c && c[sid].samples != []
  }

  /** `load_block_data`: readable series are appended; the labels seen first stay. */
  function Extended(acc: Contents, block: Contents, readable: set<u64>): (r: Contents) {
    map sid | sid in acc.Keys + block.Keys * readable ::
      if sid in block && sid in readable then
        if sid in acc then Series(acc[sid].labels, acc[sid].samples + block[sid].samples) else block[sid]
      else acc[sid]
  }

  function MergedContents(acc: Contents): (r: Contents) {
    map sid | sid in acc :: Series(acc[sid].labels, Merged(acc[sid].samples))
  }

  // ----- the protocol ------------------------------------------------------

  /** `got[k]` are the series of block `ids[k]` that could be read; a missing
      block directory counts as no series at all. */
  datatype Job =
    | Idle
    | Loading(level: nat, ids: seq<BlockId>, got: seq<set<u64>>, acc: Contents)
    | Written(level: nat, ids: seq<BlockId>, got: seq<set<u64>>, newId: BlockId)

  /** The registered blocks with their levels, the block directories, and the one
      compaction that may be under way. */
  datatype World = World(levels: map<BlockId, nat>, disk: map<BlockId, Contents>, job: Job)

  datatype Step =
    | Flush(id: BlockId, contents: Contents)
    | Begin(level: nat, ids: seq<BlockId>)
    | Load(readable: set<u64>)
    | Abort
    | Nothing
    | Write(newId: BlockId)
    | FailWrite(newId: BlockId)
    | Swap

  const START := World(map[], map[], Idle)

  predicate Distinct(ids: seq<BlockId>) {
    forall i, j :: 0 <= i < j < |ids| ==> ids[i] != ids[j]
  }

  predicate Registered(levels: map<BlockId, nat>, level: nat, ids: seq<BlockId>) {
    forall i :: 0 <= i < |ids| ==> ids[i] in levels && levels[ids[i]] == level
  }

  /** When the code can take a step. `FailWrite` is a write that stops halfway; its
      directory has no `meta.json` yet and cannot be opened. `Abort` is any other error
      return; it can also follow the write, when the lock is poisoned. */
  predicate Enabled(w: World, s: Step) {
    match s
    case Flush(_, _) => true
    case Begin(level, ids) => w.job.Idle? && Distinct(ids) && Registered(w.levels, level, ids)
    case Load(_) => w.job.Loading? && |w.job.got| < |w.job.ids|
    case Abort => !w.job.Idle?
    case Nothing => w.job.Loading? && |w.job.got| == |w.job.ids| && w.job.acc == map[]
    case Write(_) => w.job.Loading? && |w.job.got| == |w.job.ids| && w.job.acc != map[]
    case FailWrite(_) => w.job.Loading? && |w.job.got| == |w.job.ids| && w.job.acc != map[]
    case Swap => w.job.Written?
  }

  function OnDisk(disk: map<BlockId, Contents>, id: BlockId): Contents {
    if id in disk then disk[id] else map[]
  }

  function IdSet(ids: seq<BlockId>): (s: set<BlockId>) {
    set i | 0 <= i < |ids| :: ids[i]
  }

  /** Removing a block also deletes its directory, whose name is its id: a new block
      under an old id would be deleted with it. */
  function Next(w: World, s: Step): (w': World)
    requires Enabled(w, s)
  {
    match s
    case Flush(id, contents) => w.(levels := w.levels[id := 0], disk := w.disk[id := contents])
    case Begin(level, ids) => w.(job := Loading(level, ids, [], map[]))
    case Load(readable) =>
      var j := w.job;
      w.(job := Loading(j.level, j.ids, j.got + [readable],
                        Extended(j.acc, OnDisk(w.disk, j.ids[|j.got|]), readable)))
    case Abort => w.(job := Idle)
    case Nothing => w.(job := Idle)
    case Write(newId) =>
      var j := w.job;
      w.(disk := w.disk[newId := MergedContents(j.acc)], job := Written(j.level, j.ids, j.got, newId))
    case FailWrite(newId) => w.(disk := w.disk[newId := map[]], job := Idle)
    case Swap =>
      var j := w.job;
      World((w.levels - IdSet(j.ids))[j.newId := j.level + 1], w.disk - IdSet(j.ids), Idle)
  }

  /** Ids come from the millisecond clock. A fresh one names no registered block and not
      the block being written; a directory left by an aborted compaction may have it. */
  predicate FreshId(w: World, s: Step) {
    match s
    case Flush(id, _) => id !in w.levels && (w.job.Written? ==> id != w.job.newId)
    case Write(newId) => newId !in w.levels
    case FailWrite(newId) => newId !in w.levels
    case _ => true
  }

  /** Every series with samples of the loaded block could be read. */
  predicate ReadsAll(w: World, s: Step) {
    s.Load? && w.job.Loading? && |w.job.got| < |w.job.ids| ==>
      Sampled(OnDisk(w.disk, w.job.ids[|w.job.got|])) <= s.readable
  }

  /** What a reader holding the read lock can find. */
  ghost predicate Visible(w: World, sid: u64, t: i64) {
    exists id :: id in w.levels && id in w.disk && HasKey(w.disk[id], sid, t)
  }

  // ----- the left-biased union of the blocks read --------------------------

  function UnionOf(disk: map<BlockId, Contents>, ids: seq<BlockId>, got: seq<set<u64>>, sid: u64): (m: map<i64, Sample>)
    requires |got| <= |ids|
  {
    if got == [] then map[]
    else
      var k := |got| - 1;
      (if sid in got[k] then SeriesMap(OnDisk(disk, ids[k]), sid) else map[]) + UnionOf(disk, ids, got[..k], sid)
  }

  lemma {:induction false} UnionFrame(disk: map<BlockId, Contents>, disk': map<BlockId, Contents>, ids: seq<BlockId>,
                                      got: seq<set<u64>>, sid: u64)
    requires |got| <= |ids|
    requires forall i :: 0 <= i < |ids| ==> OnDisk(disk, ids[i]) == OnDisk(disk', ids[i])
    ensures UnionOf(disk, ids, got, sid) == UnionOf(disk', ids, got, sid)
    decreases |got|
  {
    if got != [] {
      UnionFrame(disk, disk', ids, got[..|got| - 1], sid);
    }
  }

  lemma {:induction false} UnionHas(disk: map<BlockId, Contents>, ids: seq<BlockId>, got: seq<set<u64>>, sid: u64,
                                    t: i64)
    requires |got| <= |ids|
    ensures t in UnionOf(disk, ids, got, sid) <==>
            exists k :: 0 <= k < |got| && sid in got[k] && HasKey(OnDisk(disk, ids[k]), sid, t)
    decreases |got|
  {
    if got != [] {
      var last := |got| - 1;
      UnionHas(disk, ids, got[..last], sid, t);
      if k :| 0 <= k < last && sid in got[..last][k] && HasKey(OnDisk(disk, ids[k]), sid, t) {
        assert sid in got[k];
      }
      if k :| 0 <= k < |got| && sid in got[k] && HasKey(OnDisk(disk, ids[k]), sid, t) {
        assert k == last || sid in got[..last][k];
      }
    }
  }

  /** Appending one block's samples is a union in which the earlier block wins. */
  lemma ExtendedMap(acc: Contents, block: Contents, readable: set<u64>, sid: u64)
    ensures SeriesMap(Extended(acc, block, readable), sid)
         == (if sid in readable then SeriesMap(block, sid) else map[]) + SeriesMap(acc, sid)
  {
    if sid in acc && sid in block && sid in readable {
      FirstWinsAppend(acc[sid].samples, block[sid].samples);
    }
  }

  lemma MergedMap(acc: Contents, sid: u64)
    ensures SeriesMap(MergedContents(acc), sid) == SeriesMap(acc, sid)
  {
    if sid in acc {
      MergedSpec(acc[sid].samples);
    }
  }

  // ----- what every step keeps ---------------------------------------------

  ghost predicate JobShape(w: World, level: nat, ids: seq<BlockId>, got: seq<set<u64>>) {
    Distinct(ids) && Registered(w.levels, level, ids) && |got| <= |ids|
  }

  ghost predicate Shape(w: World) {
    && w.levels.Keys <= w.disk.Keys
    && (w.job.Loading? ==> JobShape(w, w.job.level, w.job.ids, w.job.got))
    && (w.job.Written? ==>
          && JobShape(w, w.job.level, w.job.ids, w.job.got) && |w.job.got| == |w.job.ids|
          && w.job.newId in w.disk && w.job.newId !in w.levels)
  }

  /** What has been gathered for a series is the union of what was read of it, in
      block-list order; the written block holds the same. */
  ghost predicate Gathered(w: World, sid: u64)
    requires Shape(w)
  {
    && (w.job.Loading? ==> SeriesMap(w.job.acc, sid) == UnionOf(w.disk, w.job.ids, w.job.got, sid))
    && (w.job.Written? ==> SeriesMap(w.disk[w.job.newId], sid) == UnionOf(w.disk, w.job.ids, w.job.got, sid))
  }

  lemma ShapeKept(w: World, s: Step)
    requires Shape(w) && Enabled(w, s) && FreshId(w, s)
    ensures Shape(Next(w, s))
  {
  }

  lemma GatheredKept(w: World, s: Step, sid: u64)
    requires Shape(w) && Gathered(w, sid) && Enabled(w, s) && FreshId(w, s)
    ensures Shape(Next(w, s)) && Gathered(Next(w, s), sid)
  {
    ShapeKept(w, s);
    var w' := Next(w, s);
    match s {
      case Flush(id, contents) =>
        if !w.job.Idle? {
          UnionFrame(w.disk, w'.disk, w.job.ids, w.job.got, sid);
        }
      case Load(readable) =>
        var j := w.job;
        ExtendedMap(j.acc, OnDisk(w.disk, j.ids[|j.got|]), readable, sid);
        assert w'.job.got[..|j.got|] == j.got;
      case Write(newId) =>
        UnionFrame(w.disk, w'.disk, w.job.ids, w.job.got, sid);
        MergedMap(w.job.acc, sid);
      case Begin(_, _) =>
      case Abort =>
      case Nothing =>
      case FailWrite(_) =>
      case Swap =>
    }
  }

  /** A key held by a registered block outside the compaction. */
  ghost predicate HeldElsewhere(w: World, ids: seq<BlockId>, sid: u64, t: i64) {
    exists id :: id in w.levels && id in w.disk && id !in IdSet(ids) && HasKey(w.disk[id], sid, t)
  }

  /** No reader ever sees a step other than a flush or a swap. */
  lemma QuietStep(w: World, s: Step, sid: u64, t: i64)
    requires Shape(w) && Enabled(w, s) && FreshId(w, s) && !s.Flush? && !s.Swap?
    ensures Visible(Next(w, s), sid, t) <==> Visible(w, sid, t)
  {
    var w' := Next(w, s);
    if Visible(w, sid, t) {
      var id :| id in w.levels && id in w.disk && HasKey(w.disk[id], sid, t);
      assert id in w'.levels && id in w'.disk && HasKey(w'.disk[id], sid, t);
    }
    if Visible(w', sid, t) {
      var id :| id in w'.levels && id in w'.disk && HasKey(w'.disk[id], sid, t);
      assert id in w.levels && id in w.disk && HasKey(w.disk[id], sid, t);
    }
  }

  lemma FlushStep(w: World, s: Step, sid: u64, t: i64)
    requires Shape(w) && s.Flush? && FreshId(w, s)
    ensures Visible(Next(w, s), sid, t) <==> Visible(w, sid, t) || HasKey(s.contents, sid, t)
  {
    var w' := Next(w, s);
    if Visible(w, sid, t) {
      var id :| id in w.levels && id in w.disk && HasKey(w.disk[id], sid, t);
      assert id in w'.levels && id in w'.disk && HasKey(w'.disk[id], sid, t);
    }
    if HasKey(s.contents, sid, t) {
      assert s.id in w'.levels && s.id in w'.disk && HasKey(w'.disk[s.id], sid, t);
    }
    if Visible(w', sid, t) {
      var id :| id in w'.levels && id in w'.disk && HasKey(w'.disk[id], sid, t);
      assert id != s.id ==> id in w.levels && id in w.disk && HasKey(w.disk[id], sid, t);
    }
  }

  /** After a swap exactly these keys remain: those of the other blocks, and those
      that had been read. */
  lemma SwapStep(w: World, sid: u64, t: i64)
    requires Shape(w) && w.job.Written? && Gathered(w, sid)
    ensures Visible(Next(w, Swap), sid, t) <==>
            HeldElsewhere(w, w.job.ids, sid, t) || t in UnionOf(w.disk, w.job.ids, w.job.got, sid)
  {
    var w', j := Next(w, Swap), w.job;
    assert j.newId !in IdSet(j.ids);
    if HeldElsewhere(w, j.ids, sid, t) {
      var id :| id in w.levels && id in w.disk && id !in IdSet(j.ids) && HasKey(w.disk[id], sid, t);
      assert id in w'.levels && id in w'.disk && HasKey(w'.disk[id], sid, t);
    }
    if t in UnionOf(w.disk, j.ids, j.got, sid) {
      assert j.newId in w'.levels && j.newId in w'.disk && HasKey(w'.disk[j.newId], sid, t);
    }
    if Visible(w', sid, t) {
      var id :| id in w'.levels && id in w'.disk && HasKey(w'.disk[id], sid, t);
      if id != j.newId {
        assert id in w.levels && id in w.disk && id !in IdSet(j.ids) && HasKey(w.disk[id], sid, t);
      }
    }
  }

  /** A key of a block in the compaction that no read delivered. */
  ghost predicate Skipped(w: World, sid: u64, t: i64)
    requires !w.job.Idle? && |w.job.got| == |w.job.ids|
  {
    exists k :: 0 <= k < |w.job.ids| && sid !in w.job.got[k] && HasKey(OnDisk(w.disk, w.job.ids[k]), sid, t)
  }

  /** The exact condition under which a swap loses nothing, reads failing or not:
      every skipped key was read from another block of the compaction or is held by
      a block outside it. */
  lemma SwapPreservesIff(w: World, sid: u64, t: i64)
    requires Shape(w) && w.job.Written? && Gathered(w, sid)
    ensures (Visible(Next(w, Swap), sid, t) <==> Visible(w, sid, t)) <==>
            (Skipped(w, sid, t) ==>
               t in UnionOf(w.disk, w.job.ids, w.job.got, sid) || HeldElsewhere(w, w.job.ids, sid, t))
  {
    SwapStep(w, sid, t);
    VisibleParts(w, sid, t);
  }

  /** Once all blocks are loaded, a visible key is in a block outside the compaction, or
      in one inside it, read or skipped. */
  lemma VisibleParts(w: World, sid: u64, t: i64)
    requires Shape(w) && !w.job.Idle? && |w.job.got| == |w.job.ids|
    ensures Visible(w, sid, t) <==>
            HeldElsewhere(w, w.job.ids, sid, t) || t in UnionOf(w.disk, w.job.ids, w.job.got, sid) || Skipped(w, sid, t)
  {
    var j := w.job;
    UnionHas(w.disk, j.ids, j.got, sid, t);
    if Visible(w, sid, t) {
      var id :| id in w.levels && id in w.disk && HasKey(w.disk[id], sid, t);
      if id in IdSet(j.ids) {
        var k :| 0 <= k < |j.ids| && j.ids[k] == id;
        assert HasKey(OnDisk(w.disk, j.ids[k]), sid, t);
      }
    }
    if k :| 0 <= k < |j.ids| && HasKey(OnDisk(w.disk, j.ids[k]), sid, t) {
      assert j.ids[k] in w.levels && j.ids[k] in w.disk && HasKey(w.disk[j.ids[k]], sid, t);
    }
  }

  /** The sample a union keeps comes from the first block in list order that was
      read and has the timestamp. */
  lemma {:induction false} UnionFirst(disk: map<BlockId, Contents>, ids: seq<BlockId>, got: seq<set<u64>>, sid: u64,
                                      t: i64) returns (k: nat)
    requires |got| <= |ids| && t in UnionOf(disk, ids, got, sid)
    ensures k < |got| && sid in got[k] && HasKey(OnDisk(disk, ids[k]), sid, t)
    ensures UnionOf(disk, ids, got, sid)[t] == SeriesMap(OnDisk(disk, ids[k]), sid)[t]
    ensures forall j :: 0 <= j < k ==> !(sid in got[j] && HasKey(OnDisk(disk, ids[j]), sid, t))
    decreases |got|
  {
    var last := |got| - 1;
    if t in UnionOf(disk, ids, got[..last], sid) {
      k := UnionFirst(disk, ids, got[..last], sid, t);
    } else {
      k := last;
      UnionHas(disk, ids, got[..last], sid, t);
      forall j | 0 <= j < last
        ensures !(sid in got[j] && HasKey(OnDisk(disk, ids[j]), sid, t))
      {
        assert got[..last][j] == got[j];
      }
    }
  }

  /** The written block: each series strictly increasing in time and equal to the
      left-biased union of the blocks read, in list order. */
  lemma WrittenBlock(w: World, newId: BlockId, sid: u64)
    requires Shape(w) && Gathered(w, sid) && Enabled(w, Write(newId))
    ensures var c := Next(w, Write(newId)).disk[newId];
            && SeriesMap(c, sid) == UnionOf(w.disk, w.job.ids, w.job.got, sid)
            && (sid in c ==> StrictlyAscending(c[sid].samples))
  {
    MergedMap(w.job.acc, sid);
    if sid in w.job.acc {
      MergedSpec(w.job.acc[sid].samples);
    }
  }

  // ----- whole runs --------------------------------------------------------

  /** A run: each step taken where the code can take it, with fresh block ids. */
  ghost predicate Legal(trace: seq<Step>)
    decreases |trace|, 0
  {
    trace == [] ||
    var before := trace[..|trace| - 1];
    Legal(before) && Enabled(Run(before), trace[|trace| - 1]) && FreshId(Run(before), trace[|trace| - 1])
  }

  ghost function Run(trace: seq<Step>): (w: World)
    requires Legal(trace)
    decreases |trace|, 1
  {
    if trace == [] then START else Next(Run(trace[..|trace| - 1]), trace[|trace| - 1])
  }

  ghost predicate AllReadable(trace: seq<Step>)
    requires Legal(trace)
  {
    trace == [] ||
    (AllReadable(trace[..|trace| - 1]) && ReadsAll(Run(trace[..|trace| - 1]), trace[|trace| - 1]))
  }

  ghost predicate Flushed(trace: seq<Step>, sid: u64, t: i64) {
    exists i :: 0 <= i < |trace| && trace[i].Flush? && HasKey(trace[i].contents, sid, t)
  }

  lemma {:induction false} RunShape(trace: seq<Step>, sid: u64)
    requires Legal(trace)
    ensures Shape(Run(trace)) && Gathered(Run(trace), sid)
  {
    if trace != [] {
      RunShape(trace[..|trace| - 1], sid);
      GatheredKept(Run(trace[..|trace| - 1]), trace[|trace| - 1], sid);
    }
  }

  /** With every series readable nothing is skipped. */
  ghost predicate Complete(w: World)
    requires Shape(w)
  {
    !w.job.Idle? ==> forall k :: 0 <= k < |w.job.got| ==> Sampled(OnDisk(w.disk, w.job.ids[k])) <= w.job.got[k]
  }

  lemma CompleteKept(w: World, s: Step)
    requires Shape(w) && Complete(w) && Enabled(w, s) && FreshId(w, s) && ReadsAll(w, s)
    ensures Shape(Next(w, s)) && Complete(Next(w, s))
  {
    ShapeKept(w, s);
  }

  lemma {:induction false} RunComplete(trace: seq<Step>)
    requires Legal(trace) && AllReadable(trace)
    ensures Shape(Run(trace)) && Complete(Run(trace))
  {
    if trace != [] {
      RunComplete(trace[..|trace| - 1]);
      CompleteKept(Run(trace[..|trace| - 1]), trace[|trace| - 1]);
    }
  }

  lemma FlushedSnoc(trace: seq<Step>, sid: u64, t: i64)
    requires trace != []
    ensures var s := trace[|trace| - 1];
            Flushed(trace, sid, t) <==>
                Flushed(trace[..|trace| - 1], sid, t) || (s.Flush? && HasKey(s.contents, sid, t))
  {
    var before := trace[..|trace| - 1];
    if i :| 0 <= i < |before| && before[i].Flush? && HasKey(before[i].contents, sid, t) {
      assert trace[i] == before[i];
    }
    if i :| 0 <= i < |trace| && trace[i].Flush? && HasKey(trace[i].contents, sid, t) {
      assert i == |trace| - 1 || trace[i] == before[i];
    }
  }

  /** In every reachable state of every interleaving, a reader finds exactly the keys
      that have been flushed: no gap while a compaction runs, nothing dropped by its
      swap, nothing lost by an abort. */
  lemma {:induction false} VisibleIsFlushed(trace: seq<Step>, sid: u64, t: i64)
    requires Legal(trace) && AllReadable(trace)
    ensures Visible(Run(trace), sid, t) <==> Flushed(trace, sid, t)
  {
    if trace != [] {
      var before, s := trace[..|trace| - 1], trace[|trace| - 1];
      var w := Run(before);
      VisibleIsFlushed(before, sid, t);
      FlushedSnoc(trace, sid, t);
      RunShape(before, sid);
      RunComplete(before);
      if s.Flush? {
        FlushStep(w, s, sid, t);
      } else if s.Swap? {
        SwapPreservesIff(w, sid, t);
        assert !Skipped(w, sid, t);
      } else {
        QuietStep(w, s, sid, t);
      }
    }
  }

  /** Without the readability assumption nothing appears that was not flushed. */
  lemma {:induction false} NothingInvented(trace: seq<Step>, sid: u64, t: i64)
    requires Legal(trace)
    ensures Visible(Run(trace), sid, t) ==> Flushed(trace, sid, t)
  {
    if trace != [] {
      var before, s := trace[..|trace| - 1], trace[|trace| - 1];
      var w := Run(before);
      NothingInvented(before, sid, t);
      FlushedSnoc(trace, sid, t);
      RunShape(before, sid);
      if s.Flush? {
        FlushStep(w, s, sid, t);
      } else if s.Swap? {
        SwapStep(w, sid, t);
        VisibleParts(w, sid, t);
      } else {
        QuietStep(w, s, sid, t);
      }
    }
  }

  /** A copy of a sample, in some block directory or gathered in memory. */
  ghost predicate Stored(w: World, sid: u64, x: Sample) {
    || (exists id :: id in w.disk && sid in w.disk[id] && x in w.disk[id][sid].samples)
    || (w.job.Loading? && sid in w.job.acc && x in w.job.acc[sid].samples)
  }

  lemma StoredStep(w: World, s: Step, sid: u64, x: Sample)
    requires Enabled(w, s) && Stored(Next(w, s), sid, x)
    ensures Stored(w, sid, x) || (s.Flush? && sid in s.contents && x in s.contents[sid].samples)
  {
    var w' := Next(w, s);
    if id :| id in w'.disk && sid in w'.disk[id] && x in w'.disk[id][sid].samples {
      if s.Write? && id == s.newId {
        MergedSpec(w.job.acc[sid].samples);
      } else if !(s.Flush? && id == s.id) {
        assert id in w.disk && sid in w.disk[id] && x in w.disk[id][sid].samples;
      }
    }
  }

  /** Compaction copies samples, never alters them: every stored sample is one that
      was flushed for that series. */
  lemma {:induction false} SamplesAreFlushed(trace: seq<Step>, sid: u64, x: Sample)
    requires Legal(trace) && Stored(Run(trace), sid, x)
    ensures exists i :: 0 <= i < |trace| && trace[i].Flush?
                     && sid in trace[i].contents && x in trace[i].contents[sid].samples
  {
    if trace != [] {
      var before, s := trace[..|trace| - 1], trace[|trace| - 1];
      StoredStep(Run(before), s, sid, x);
      if Stored(Run(before), sid, x) {
        SamplesAreFlushed(before, sid, x);
        var i :| 0 <= i < |before| && before[i].Flush?
              && sid in before[i].contents && x in before[i].contents[sid].samples;
        assert trace[i] == before[i];
      }
    }
  }

  /** A block outside the running compaction, in particular one flushed meanwhile,
      keeps its registration, its level and its contents. */
  lemma OthersUntouched(w: World, s: Step, id: BlockId)
    requires Shape(w) && Enabled(w, s) && FreshId(w, s)
    requires id in w.levels && (!w.job.Idle? ==> id !in w.job.ids)
    ensures id in Next(w, s).levels && Next(w, s).levels[id] == w.levels[id]
    ensures id in Next(w, s).disk && Next(w, s).disk[id] == w.disk[id]
  {
  }

  /** Registered throughout with one level and one contents. */
  ghost predicate Same(w: World, w': World, id: BlockId) {
    && id in w.levels && id in w.disk && id in w'.levels && id in w'.disk
    && w'.levels[id] == w.levels[id] && w'.disk[id] == w.disk[id]
  }

  /** A step of the run, not before position n, flushed this block as it is now. */
  ghost predicate FlushedSince(trace: seq<Step>, n: nat, w: World, id: BlockId) {
    exists i :: n <= i < |trace| && trace[i].Flush? && trace[i].id == id
             && id in w.levels && id in w.disk && w.levels[id] == 0 && w.disk[id] == trace[i].contents
  }

  /** A compaction that never comes to its swap, aborted after whatever steps, leaves
      no mark on the manager: every block keeps registration, level and contents, and
      every new one is a flushed one. */
  lemma {:induction false} AbortLeavesManager(trace: seq<Step>, n: nat, id: BlockId)
    requires Legal(trace) && n <= |trace| && Legal(trace[..n])
    requires forall i :: n <= i < |trace| ==> !trace[i].Swap?
    ensures id in Run(trace[..n]).levels ==> Same(Run(trace[..n]), Run(trace), id)
    ensures id in Run(trace).levels && id !in Run(trace[..n]).levels ==> FlushedSince(trace, n, Run(trace), id)
    decreases |trace|
  {
    RunShape(trace[..n], 0);
    if n == |trace| {
      assert trace[..n] == trace;
    } else {
      var before, s := trace[..|trace| - 1], trace[|trace| - 1];
      assert before[..n] == trace[..n];
      RunShape(before, 0);
      AbortLeavesManager(before, n, id);
      NoSwapStep(Run(before), s, id);
      if s.Flush? && s.id == id {
        assert trace[|trace| - 1].Flush?;
      } else if FlushedSince(before, n, Run(before), id) {
        var i :| n <= i < |before| && before[i].Flush? && before[i].id == id
              && Run(before).disk[id] == before[i].contents;
        assert trace[i] == before[i];
      }
    }
  }

  lemma NoSwapStep(w: World, s: Step, id: BlockId)
    requires Shape(w) && Enabled(w, s) && FreshId(w, s) && !s.Swap?
    ensures id in w.levels ==> Same(w, Next(w, s), id)
    ensures id in Next(w, s).levels && id !in w.levels ==> s.Flush? && s.id == id
  {
  }

  lemma RunSnoc(trace: seq<Step>, s: Step)
    requires Legal(trace) && Enabled(Run(trace), s) && FreshId(Run(trace), s)
    ensures Legal(trace + [s]) && Run(trace + [s]) == Next(Run(trace), s)
  {
    InitOfSnoc(trace, s);
  }

  /** After an abort the manager is as it was and idle, and the compaction can begin again
      with the same blocks. */
  lemma AbortRetries(trace: seq<Step>, w: World)
    requires Legal(trace) && w == Run(trace) && !w.job.Idle?
    ensures Legal(trace + [Abort])
    ensures var after := Run(trace + [Abort]);
            && after.levels == w.levels && after.disk == w.disk && Enabled(after, Begin(w.job.level, w.job.ids))
  {
    RunShape(trace, 0);
    RunSnoc(trace, Abort);
  }

  /** Failing reads do lose keys: a block whose one series cannot be read is swapped
      away together with a readable one. */
  lemma UnreadableSeriesLost(x: Sample) returns (trace: seq<Step>)
    ensures Legal(trace) && Flushed(trace, 7, x.timestamp) && !Visible(Run(trace), 7, x.timestamp)
  {
    var c: Contents, d: Contents := map[7 := Series([], [x])], map[8 := Series([], [x])];
    var flush := Flush(1, c);
    trace := [];
    RunSnoc(trace, flush);
    trace := trace + [flush];
    RunSnoc(trace, Flush(2, d));
    trace := trace + [Flush(2, d)];
    var w := Run(trace);
    assert w == World(map[1 := 0, 2 := 0], map[1 := c, 2 := d], Idle);
    trace := LossyLoads(trace, w.levels, w.disk, c, d);
    trace := LossySwap(trace, c, d);
    HasFirst(x);
    assert trace[0] == flush;
  }

  lemma LossyLoads(trace: seq<Step>, levels: map<BlockId, nat>, disk: map<BlockId, Contents>, c: Contents, d: Contents)
    returns (more: seq<Step>)
    requires Legal(trace) && Run(trace) == World(levels, disk, Idle)
    requires 1 in levels && levels[1] == 0 && 2 in levels && levels[2] == 0
    requires 1 in disk && disk[1] == c && 2 in disk && disk[2] == d
    ensures trace <= more && Legal(more)
    ensures Run(more) == World(levels, disk, Loading(0, [1, 2], [{}, {8}], Extended(map[], d, {8})))
  {
    var a := trace + [Begin(0, [1, 2])];
    RunSnoc(trace, Begin(0, [1, 2]));
    assert Extended(map[], c, {}) == map[];
    var b := LoadedOne(a, levels, disk, [], map[], {}, [{}], map[]);
    more := LoadedOne(b, levels, disk, [{}], map[], {8}, [{}, {8}], Extended(map[], d, {8}));
  }

  lemma LoadedOne(trace: seq<Step>, levels: map<BlockId, nat>, disk: map<BlockId, Contents>, got: seq<set<u64>>,
                  acc: Contents, readable: set<u64>, got': seq<set<u64>>, acc': Contents) returns (more: seq<Step>)
    requires Legal(trace) && Run(trace) == World(levels, disk, Loading(0, [1, 2], got, acc)) && |got| < 2
    requires got' == got + [readable] && acc' == Extended(acc, OnDisk(disk, [1, 2][|got|]), readable)
    ensures trace <= more && Legal(more) && Run(more) == World(levels, disk, Loading(0, [1, 2], got', acc'))
  {
    more := trace + [Load(readable)];
    RunSnoc(trace, Load(readable));
  }

  lemma HasFirst(x: Sample)
    ensures HasKey(map[7 := Series([], [x])], 7, x.timestamp)
  {
    assert [x][..0] == [];
  }

  lemma LossySwap(trace: seq<Step>, c: Contents, d: Contents) returns (more: seq<Step>)
    requires Legal(trace) && 7 !in d && 8 in d
    requires Run(trace) == World(map[1 := 0, 2 := 0], map[1 := c, 2 := d],
                                 Loading(0, [1, 2], [{}, {8}], Extended(map[], d, {8})))
    ensures trace <= more && Legal(more) && forall t :: !Visible(Run(more), 7, t)
  {
    var acc := Extended(map[], d, {8});
    assert 8 in acc && 7 !in acc;
    var a := trace + [Write(3)];
    RunSnoc(trace, Write(3));
    more := a + [Swap];
    RunSnoc(a, Swap);
    OnlyMerged(c, d, MergedContents(acc), Run(more));
  }

  lemma OnlyMerged(c: Contents, d: Contents, merged: Contents, w: World)
    requires w.disk == map[1 := c, 2 := d][3 := merged] - IdSet([1, 2]) && 7 !in merged
    ensures forall t :: !Visible(w, 7, t)
  {
    assert [1, 2][0] in IdSet([1, 2]) && [1, 2][1] in IdSet([1, 2]);
    assert w.disk.Keys <= {3};
  }
}

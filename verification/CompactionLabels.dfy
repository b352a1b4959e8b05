/** Under which labels a compaction stores a series (storage/src/compaction/mod.rs): the
    first block read that has the series decides, over every run of the protocol. */
module CompactionLabels {
  import opened Machine
  import opened Model
  import opened Compaction
  import opened CompactionPass

  type Disk = map<BlockId, Contents>

  /** The k-th block was read and has the series. */
  predicate Supplies(disk: Disk, ids: seq<BlockId>, got: seq<set<u64>>, sid: u64, k: int) {
    0 <= k < |got| && k < |ids| && sid in got[k] && sid in OnDisk(disk, ids[k])
  }

  predicate SuppliesFirst(disk: Disk, ids: seq<BlockId>, got: seq<set<u64>>, sid: u64, k: int) {
    Supplies(disk, ids, got, sid, k) && forall j :: 0 <= j < k ==> !Supplies(disk, ids, got, sid, j)
  }

  /** The series is there iff some block supplied it, under the labels of the first one. */
  ghost predicate Labelled(disk: Disk, ids: seq<BlockId>, got: seq<set<u64>>, c: Contents, sid: u64) {
    && (sid in c ==> exists k :: SuppliesFirst(disk, ids, got, sid, k))
    && (forall k :: SuppliesFirst(disk, ids, got, sid, k) ==>
          sid in c && c[sid].labels == OnDisk(disk, ids[k])[sid].labels)
  }

  // ----- the steps ---------------------------------------------------------

  lemma LoadLabelled(disk: Disk, ids: seq<BlockId>, got: seq<set<u64>>, acc: Contents, readable: set<u64>,
                     more: seq<set<u64>>, sid: u64)
    requires |got| < |ids| && Labelled(disk, ids, got, acc, sid) && more == got + [readable]
    ensures Labelled(disk, ids, more, Extended(acc, OnDisk(disk, ids[|got|]), readable), sid)
  {
    var n := |got|;
    assert forall k :: 0 <= k < n ==> (Supplies(disk, ids, more, sid, k) <==> Supplies(disk, ids, got, sid, k));
    assert forall k :: 0 <= k < n ==>
        (SuppliesFirst(disk, ids, more, sid, k) <==> SuppliesFirst(disk, ids, got, sid, k));
    if sid !in acc {
      NoneBefore(disk, ids, got, acc, sid);
      assert Supplies(disk, ids, more, sid, n) ==> SuppliesFirst(disk, ids, more, sid, n);
    } else {
      var k :| SuppliesFirst(disk, ids, got, sid, k);
      assert Supplies(disk, ids, more, sid, k) && SuppliesFirst(disk, ids, more, sid, k);
    }
  }

  lemma NoneBefore(disk: Disk, ids: seq<BlockId>, got: seq<set<u64>>, c: Contents, sid: u64)
    requires Labelled(disk, ids, got, c, sid) && sid !in c
    ensures forall k :: !Supplies(disk, ids, got, sid, k)
  {
    if k :| Supplies(disk, ids, got, sid, k) {
      var first := LeastSupplier(disk, ids, got, sid, k);
      assert SuppliesFirst(disk, ids, got, sid, first);
    }
  }

  lemma {:induction false} LeastSupplier(disk: Disk, ids: seq<BlockId>, got: seq<set<u64>>, sid: u64, k: nat)
    returns (first: nat)
    requires Supplies(disk, ids, got, sid, k)
    ensures SuppliesFirst(disk, ids, got, sid, first)
  {
    if j :| 0 <= j < k && Supplies(disk, ids, got, sid, j) {
      first := LeastSupplier(disk, ids, got, sid, j);
    } else {
      first := k;
    }
  }

  lemma FrameLabelled(disk: Disk, disk': Disk, ids: seq<BlockId>, got: seq<set<u64>>, c: Contents, sid: u64)
    requires Labelled(disk, ids, got, c, sid)
    requires forall i :: 0 <= i < |ids| ==> OnDisk(disk, ids[i]) == OnDisk(disk', ids[i])
    ensures Labelled(disk', ids, got, c, sid)
  {
    assert forall k :: Supplies(disk', ids, got, sid, k) <==> Supplies(disk, ids, got, sid, k);
    assert forall k :: SuppliesFirst(disk', ids, got, sid, k) <==> SuppliesFirst(disk, ids, got, sid, k);
  }

  lemma MergedLabelled(disk: Disk, ids: seq<BlockId>, got: seq<set<u64>>, c: Contents, sid: u64)
    requires Labelled(disk, ids, got, c, sid)
    ensures Labelled(disk, ids, got, MergedContents(c), sid)
  {
  }

  /** What is gathered, and then the block written from it, is labelled in this way. */
  ghost predicate Named(w: World, sid: u64)
    requires Shape(w)
  {
    && (w.job.Loading? ==> Labelled(w.disk, w.job.ids, w.job.got, w.job.acc, sid))
    && (w.job.Written? ==> Labelled(w.disk, w.job.ids, w.job.got, w.disk[w.job.newId], sid))
  }

  lemma NamedKept(w: World, s: Step, sid: u64)
    requires Shape(w) && Named(w, sid) && Enabled(w, s) && FreshId(w, s)
    ensures Shape(Next(w, s)) && Named(Next(w, s), sid)
  {
    ShapeKept(w, s);
    var w', j := Next(w, s), w.job;
    match s {
      case Flush(_, _) =>
        if j.Loading? {
          FrameLabelled(w.disk, w'.disk, j.ids, j.got, j.acc, sid);
        } else if j.Written? {
          FrameLabelled(w.disk, w'.disk, j.ids, j.got, w.disk[j.newId], sid);
        }
      case Load(readable) =>
        LoadLabelled(w.disk, j.ids, j.got, j.acc, readable, w'.job.got, sid);
      case Write(newId) =>
        MergedLabelled(w.disk, j.ids, j.got, j.acc, sid);
        FrameLabelled(w.disk, w'.disk, j.ids, j.got, MergedContents(j.acc), sid);
      case Begin(_, _) =>
      case Abort =>
      case Nothing =>
      case FailWrite(_) =>
      case Swap =>
    }
  }

  // ----- whole runs --------------------------------------------------------

  /** In every reachable state: during a compaction, exactly the series read so far are
      gathered, and then written, each under the labels of the first block that had it. */
  lemma {:induction false} RunNamed(trace: seq<Step>, sid: u64)
    requires Legal(trace)
    ensures Shape(Run(trace)) && Named(Run(trace), sid)
  {
    if trace != [] {
      RunNamed(trace[..|trace| - 1], sid);
      NamedKept(Run(trace[..|trace| - 1]), trace[|trace| - 1], sid);
    }
  }

  /** After a swap the new block is registered and labelled by the blocks it replaces. */
  lemma SwappedLabels(trace: seq<Step>, w: World, sid: u64)
    requires Legal(trace) && w == Run(trace) && w.job.Written?
    ensures var w', newId := Next(w, Swap), w.job.newId;
            newId in w'.levels && newId in w'.disk && Labelled(w.disk, w.job.ids, w.job.got, w'.disk[newId], sid)
  {
    RunNamed(trace, sid);
    assert w.job.newId !in IdSet(w.job.ids);
  }

  /** These labels stand beside the series, in some block directory or gathered in memory. */
  ghost predicate Carries(w: World, sid: u64, labels: Labels) {
    || (exists id :: id in w.disk && sid in w.disk[id] && w.disk[id][sid].labels == labels)
    || (w.job.Loading? && sid in w.job.acc && w.job.acc[sid].labels == labels)
  }

  lemma CarriesStep(w: World, s: Step, sid: u64, labels: Labels)
    requires Enabled(w, s) && Carries(Next(w, s), sid, labels)
    ensures Carries(w, sid, labels) || (s.Flush? && sid in s.contents && s.contents[sid].labels == labels)
  {
    var w' := Next(w, s);
    if id :| id in w'.disk && sid in w'.disk[id] && w'.disk[id][sid].labels == labels {
      if !(s.Flush? && id == s.id) && !(s.Write? && id == s.newId) {
        assert id in w.disk && sid in w.disk[id] && w.disk[id][sid].labels == labels;
      }
    }
  }

  /** Labels are never made up: wherever a series is stored, some flush gave it these. */
  lemma {:induction false} LabelsAreFlushed(trace: seq<Step>, sid: u64, labels: Labels) returns (i: nat)
    requires Legal(trace) && Carries(Run(trace), sid, labels)
    ensures i < |trace| && trace[i].Flush? && sid in trace[i].contents && trace[i].contents[sid].labels == labels
  {
    var before, s := trace[..|trace| - 1], trace[|trace| - 1];
    CarriesStep(Run(before), s, sid, labels);
    if Carries(Run(before), sid, labels) {
      i := LabelsAreFlushed(before, sid, labels);
    } else {
      i := |trace| - 1;
    }
  }

  /** Every flush of the series gave it these labels. */
  ghost predicate FlushedUnder(trace: seq<Step>, sid: u64, labels: Labels) {
    forall i :: 0 <= i < |trace| && trace[i].Flush? && sid in trace[i].contents ==>
      trace[i].contents[sid].labels == labels
  }

  /** A reader holding the read lock finds the key, under these labels. */
  ghost predicate VisibleUnder(w: World, sid: u64, labels: Labels, t: i64) {
    exists id :: id in w.levels && id in w.disk && HasKey(w.disk[id], sid, t) && w.disk[id][sid].labels == labels
  }

  /** In every reachable state of every interleaving, the flushed keys of a series that is
      always flushed under one label set are found under that label set. */
  lemma VisibleUnderLabels(trace: seq<Step>, sid: u64, labels: Labels, t: i64)
    requires Legal(trace) && AllReadable(trace) && FlushedUnder(trace, sid, labels)
    ensures VisibleUnder(Run(trace), sid, labels, t) <==> Flushed(trace, sid, t)
  {
    var w := Run(trace);
    VisibleIsFlushed(trace, sid, t);
    if Visible(w, sid, t) {
      var id :| id in w.levels && id in w.disk && HasKey(w.disk[id], sid, t);
      assert Carries(w, sid, w.disk[id][sid].labels);
      var i := LabelsAreFlushed(trace, sid, w.disk[id][sid].labels);
    }
  }

  // ----- the manager run on its own ----------------------------------------

  lemma {:induction false} GatherLabelled(disk: Disk, ids: seq<BlockId>, got: seq<set<u64>>, sid: u64)
    requires |got| == |ids|
    ensures Labelled(disk, ids, got, Gather(disk, ids, got), sid)
    decreases |ids|
  {
    if ids != [] {
      var last := |ids| - 1;
      var before := got[..last];
      GatherLabelled(disk, ids[..last], before, sid);
      LongerList(disk, ids[..last], ids, before, Gather(disk, ids[..last], before), sid);
      Unsnoc(got);
      LoadLabelled(disk, ids, before, Gather(disk, ids[..last], before), got[last], got, sid);
    }
  }

  /** Blocks that have not been read yet do not count. */
  lemma LongerList(disk: Disk, ids: seq<BlockId>, more: seq<BlockId>, got: seq<set<u64>>, c: Contents, sid: u64)
    requires |got| <= |ids| && ids <= more && Labelled(disk, ids, got, c, sid)
    ensures Labelled(disk, more, got, c, sid)
  {
    assert forall k :: Supplies(disk, more, got, sid, k) <==> Supplies(disk, ids, got, sid, k);
    assert forall k :: SuppliesFirst(disk, more, got, sid, k) <==> SuppliesFirst(disk, ids, got, sid, k);
  }

  /** Some block supplies some series. */
  ghost predicate SomethingRead(disk: Disk, ids: seq<BlockId>, got: seq<set<u64>>) {
    exists sid, k :: Supplies(disk, ids, got, sid, k)
  }

  lemma ReadIffGathered(disk: Disk, ids: seq<BlockId>, got: seq<set<u64>>)
    requires |got| == |ids|
    ensures SomethingRead(disk, ids, got) <==> Gather(disk, ids, got) != map[]
  {
    var acc := Gather(disk, ids, got);
    if sid, k :| Supplies(disk, ids, got, sid, k) {
      GatherLabelled(disk, ids, got, sid);
      var first := LeastSupplier(disk, ids, got, sid, k);
      assert sid in acc;
    }
    if acc != map[] {
      var sid :| sid in acc;
      GatherLabelled(disk, ids, got, sid);
    }
  }

  /** How `compact_blocks` returns. It fails iff some id is not registered, a block with a
      directory cannot be opened, or something was read and the write fails; then no
      registration and no directory but that of the new block has changed. A missing
      directory is passed over. If nothing could be read it succeeds and changes nothing. */
  lemma AttemptOutcome(st: Store, level: nat, ids: seq<BlockId>, newId: BlockId, got: seq<Option<set<u64>>>,
                       writes: bool, r: Store, ok: bool)
    requires |got| == |ids| && (r, ok) == Attempt(st, level, ids, newId, got, writes)
    ensures ok <==>
            && (forall i :: 0 <= i < |ids| ==> ids[i] in st.levels && (ids[i] in st.disk ==> got[i].Some?))
            && (SomethingRead(st.disk, ids, Sets(got)) ==> writes)
    ensures !ok ==> r.levels == st.levels && r.disk - {newId} == st.disk - {newId}
    ensures ok && !SomethingRead(st.disk, ids, Sets(got)) ==> r == st
  {
    ReadIffGathered(st.disk, ids, Sets(got));
    assert forall i :: 0 <= i < |ids| ==> ids[i] in IdSet(ids);
  }

  /** An id that is not registered is refused, with nothing changed. */
  lemma UnknownRefused(st: Store, level: nat, ids: seq<BlockId>, newId: BlockId, got: seq<Option<set<u64>>>,
                       writes: bool, i: nat)
    requires |got| == |ids| && i < |ids| && ids[i] !in st.levels
    ensures Attempt(st, level, ids, newId, got, writes) == (st, false)
  {
    assert ids[i] in IdSet(ids);
  }

  /** `compact_blocks`, whatever could be read: the new block holds exactly the series
      read, each under the labels of the first block in the list that had it. */
  lemma CompactedLabels(st: Store, level: nat, ids: seq<BlockId>, newId: BlockId, got: seq<set<u64>>, r: Store,
                        sid: u64)
    requires |got| == |ids| && newId !in ids
    requires r == Compacted(st, level, ids, newId, got) && Gather(st.disk, ids, got) != map[]
    ensures newId in r.disk && Labelled(st.disk, ids, got, r.disk[newId], sid)
  {
    GatherLabelled(st.disk, ids, got, sid);
    MergedLabelled(st.disk, ids, got, Gather(st.disk, ids, got), sid);
    assert newId !in IdSet(ids);
  }
}

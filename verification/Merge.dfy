/** The per-series merge of a compaction (storage/src/compaction/mod.rs): a stable
    sort by timestamp followed by removal of adjacent duplicates. */
module Merge {
  import opened Machine
  import opened Model

  /** `sort_by_key`: stable, so an element goes after its equals. */
  function Sorted(s: seq<Sample>): (r: seq<Sample>) {
    if s == [] then [] else Insert(Sorted(s[..|s| - 1]), s[|s| - 1])
  }

  function Insert(s: seq<Sample>, x: Sample): (r: seq<Sample>)
    ensures |r| == |s| + 1
  {
    if s == [] || s[|s| - 1].timestamp <= x.timestamp then s + [x]
    else Insert(s[..|s| - 1], x) + [s[|s| - 1]]
  }

  /** `dedup_by`: an element equal in timestamp to the last one kept is dropped. */
  function Deduped(s: seq<Sample>): (r: seq<Sample>)
    ensures s != [] ==> r != [] && r[|r| - 1].timestamp == s[|s| - 1].timestamp
  {
    if s == [] then []
    else
      var kept, x := Deduped(s[..|s| - 1]), s[|s| - 1];
      if kept != [] && kept[|kept| - 1].timestamp == x.timestamp then kept else kept + [x]
  }

  function Merged(s: seq<Sample>): (r: seq<Sample>) {
    Deduped(Sorted(s))
  }

  // ----- the simple meaning ------------------------------------------------

  /** One sample per timestamp, the first in list order. */
  function FirstWins(s: seq<Sample>): (m: map<i64, Sample>) {
    if s == [] then map[]
    else Keep(FirstWins(s[..|s| - 1]), s[|s| - 1])
  }

  function Keep(m: map<i64, Sample>, x: Sample): map<i64, Sample> {
    if x.timestamp in m then m else m[x.timestamp := x]
  }

  predicate Ascending(s: seq<Sample>) {
    forall i, j :: 0 <= i < j < |s| ==> s[i].timestamp <= s[j].timestamp
  }

  predicate StrictlyAscending(s: seq<Sample>) {
    forall i, j :: 0 <= i < j < |s| ==> s[i].timestamp < s[j].timestamp
  }

  /** What `FirstWins` records, pointwise. */
  lemma {:induction false} FirstWinsAt(s: seq<Sample>, t: i64)
    ensures t in FirstWins(s) <==> exists i :: 0 <= i < |s| && s[i].timestamp == t
    ensures t in FirstWins(s) ==>
            exists i :: 0 <= i < |s| && s[i] == FirstWins(s)[t] && s[i].timestamp == t
                     && forall j :: 0 <= j < i ==> s[j].timestamp != t
  {
    if s != [] {
      var init, x := s[..|s| - 1], s[|s| - 1];
      FirstWinsAt(init, t);
      if t in FirstWins(init) {
        var i :| 0 <= i < |init| && init[i] == FirstWins(init)[t] && init[i].timestamp == t
              && forall j :: 0 <= j < i ==> init[j].timestamp != t;
        assert s[i] == init[i];
      } else if x.timestamp == t {
        assert s[|s| - 1] == FirstWins(s)[t];
        assert forall j :: 0 <= j < |s| - 1 ==> s[j] == init[j];
      }
    }
  }

  /** Concatenating lists is the left-biased union of their maps. */
  lemma {:induction false} FirstWinsAppend(a: seq<Sample>, b: seq<Sample>)
    ensures FirstWins(a + b) == FirstWins(b) + FirstWins(a)
  {
    if b == [] {
      assert a + b == a;
    } else {
      assert (a + b)[..|a + b| - 1] == a + b[..|b| - 1];
      FirstWinsAppend(a, b[..|b| - 1]);
    }
  }

  // ----- the merge computes it ---------------------------------------------

  lemma {:induction false} InsertAscending(s: seq<Sample>, x: Sample)
    requires Ascending(s)
    ensures Ascending(Insert(s, x))
    ensures forall y :: y in Insert(s, x) <==> y in s || y == x
  {
    if s != [] && s[|s| - 1].timestamp > x.timestamp {
      var init, last := s[..|s| - 1], s[|s| - 1];
      InsertAscending(init, x);
      assert forall y :: y in init ==> y.timestamp <= last.timestamp;
      assert s == init + [last];
      AscendingSnoc(Insert(init, x), last);
    }
  }

  lemma AscendingSnoc(s: seq<Sample>, x: Sample)
    requires Ascending(s) && forall y :: y in s ==> y.timestamp <= x.timestamp
    ensures Ascending(s + [x])
  {
    assert forall i :: 0 <= i < |s| ==> s[i] in s;
  }

  lemma {:induction false} SortedAscending(s: seq<Sample>)
    ensures Ascending(Sorted(s))
    ensures forall y :: y in Sorted(s) <==> y in s
  {
    if s != [] {
      var init, x := s[..|s| - 1], s[|s| - 1];
      SortedAscending(init);
      InsertAscending(Sorted(init), x);
      assert s == init + [x];
    }
  }

  /** Inserting after one's equals never displaces the first of a timestamp. */
  lemma {:induction false} InsertFirstWins(s: seq<Sample>, x: Sample)
    ensures FirstWins(Insert(s, x)) == Keep(FirstWins(s), x)
  {
    if s == [] || s[|s| - 1].timestamp <= x.timestamp {
      assert (s + [x])[..|s|] == s;
    } else {
      var init, last := s[..|s| - 1], s[|s| - 1];
      InsertFirstWins(init, x);
      var r := Insert(init, x) + [last];
      assert r[..|r| - 1] == Insert(init, x);
    }
  }

  lemma {:induction false} SortedFirstWins(s: seq<Sample>)
    ensures FirstWins(Sorted(s)) == FirstWins(s)
  {
    if s != [] {
      SortedFirstWins(s[..|s| - 1]);
      InsertFirstWins(Sorted(s[..|s| - 1]), s[|s| - 1]);
    }
  }

  lemma {:induction false} DedupedSpec(s: seq<Sample>)
    requires Ascending(s)
    ensures StrictlyAscending(Deduped(s))
    ensures FirstWins(Deduped(s)) == FirstWins(s)
  {
    if s != [] {
      var init, x := s[..|s| - 1], s[|s| - 1];
      assert Ascending(init);
      DedupedSpec(init);
      assert s == init + [x];
      DedupedStep(init, Deduped(init), x);
    }
  }

  lemma {:induction false} DedupedHas(s: seq<Sample>, y: Sample)
    requires y in Deduped(s)
    ensures y in s
  {
    if s != [] {
      var init, x := s[..|s| - 1], s[|s| - 1];
      if y in Deduped(init) {
        DedupedHas(init, y);
      }
      assert s == init + [x];
    }
  }

  lemma DedupedStep(init: seq<Sample>, kept: seq<Sample>, x: Sample)
    requires Ascending(init + [x]) && StrictlyAscending(kept) && FirstWins(kept) == FirstWins(init)
    requires init != [] ==> kept != [] && kept[|kept| - 1].timestamp == init[|init| - 1].timestamp
    requires init == [] ==> kept == []
    ensures var r := if kept != [] && kept[|kept| - 1].timestamp == x.timestamp then kept else kept + [x];
            StrictlyAscending(r) && FirstWins(r) == Keep(FirstWins(init), x)
  {
    if kept != [] && kept[|kept| - 1].timestamp == x.timestamp {
      FirstWinsAt(kept, x.timestamp);
    } else {
      LaterThanAll(init, kept, x);
      assert (kept + [x])[..|kept|] == kept;
    }
  }

  /** A sample later than the last one kept is later than all of them. */
  lemma LaterThanAll(init: seq<Sample>, kept: seq<Sample>, x: Sample)
    requires Ascending(init + [x]) && StrictlyAscending(kept)
    requires init != [] ==> kept != [] && kept[|kept| - 1].timestamp == init[|init| - 1].timestamp
    requires init == [] ==> kept == []
    requires kept == [] || kept[|kept| - 1].timestamp != x.timestamp
    ensures StrictlyAscending(kept + [x])
  {
    if kept != [] {
      assert (init + [x])[|init| - 1] == init[|init| - 1];
      assert (init + [x])[|init|] == x;
      assert kept[|kept| - 1].timestamp < x.timestamp;
    }
  }

  /** The merged list has strictly increasing timestamps and is the left-biased
      union of its input: the same timestamps, each with its first sample. */
  lemma MergedSpec(s: seq<Sample>)
    ensures StrictlyAscending(Merged(s))
    ensures FirstWins(Merged(s)) == FirstWins(s)
    ensures forall y :: y in Merged(s) ==> y in s
  {
    SortedAscending(s);
    SortedFirstWins(s);
    DedupedSpec(Sorted(s));
    forall y | y in Merged(s)
      ensures y in s
    {
      DedupedHas(Sorted(s), y);
    }
  }

  /** Those two properties leave no other list: any two strictly increasing lists
      with the same map are equal. */
  lemma {:induction false} StrictUnique(a: seq<Sample>, b: seq<Sample>)
    requires StrictlyAscending(a) && StrictlyAscending(b)
    requires FirstWins(a) == FirstWins(b)
    ensures a == b
    decreases |a|
  {
    if a == [] || b == [] {
      EmptyUnique(a, b);
    } else {
      var a', b' := a[..|a| - 1], b[..|b| - 1];
      LastAgrees(a, b, a', b');
      StrictUnique(a', b');
      assert a == a' + [a[|a| - 1]] && b == b' + [b[|b| - 1]];
    }
  }

  /** Lists with the same map have the same last sample, and prefixes with the same map. */
  lemma LastAgrees(a: seq<Sample>, b: seq<Sample>, a': seq<Sample>, b': seq<Sample>)
    requires StrictlyAscending(a) && StrictlyAscending(b) && a != [] && b != [] && FirstWins(a) == FirstWins(b)
    requires a' == a[..|a| - 1] && b' == b[..|b| - 1]
    ensures a[|a| - 1] == b[|b| - 1] && FirstWins(a') == FirstWins(b')
    ensures StrictlyAscending(a') && StrictlyAscending(b')
  {
    var x, y := a[|a| - 1], b[|b| - 1];
    LastIsGreatest(a);
    LastIsGreatest(b);
    SameGreatest(FirstWins(a), x, y);
  }

  lemma SameGreatest(m: map<i64, Sample>, x: Sample, y: Sample)
    requires x.timestamp in m && m[x.timestamp] == x && forall t :: t in m ==> t <= x.timestamp
    requires y.timestamp in m && m[y.timestamp] == y && forall t :: t in m ==> t <= y.timestamp
    ensures x == y
  {
  }

  lemma EmptyUnique(a: seq<Sample>, b: seq<Sample>)
    requires (a == [] || b == []) && FirstWins(a) == FirstWins(b)
    ensures a == b
  {
    if a != [] {
      FirstWinsAt(a, a[0].timestamp);
    } else if b != [] {
      FirstWinsAt(b, b[0].timestamp);
    }
  }

  lemma LastIsGreatest(a: seq<Sample>)
    requires StrictlyAscending(a) && a != []
    ensures var x := a[|a| - 1];
            && x.timestamp in FirstWins(a) && FirstWins(a)[x.timestamp] == x
            && (forall t :: t in FirstWins(a) ==> t <= x.timestamp)
            && FirstWins(a[..|a| - 1]) == FirstWins(a) - {x.timestamp}
  {
    var init, x := a[..|a| - 1], a[|a| - 1];
    forall t | t in FirstWins(init)
      ensures t < x.timestamp
    {
      FirstWinsAt(init, t);
      var i :| 0 <= i < |init| && init[i].timestamp == t;
      assert a[i] == init[i];
    }
    assert FirstWins(a) == FirstWins(init)[x.timestamp := x];
  }
}

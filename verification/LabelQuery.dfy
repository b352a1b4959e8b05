/** Queries by labels (`query_by_labels` in storage/src/columnstore/reader.rs): the block's
    bloom filter is asked for the query's own label string before any series is looked at.
    The filter is a function of which only the absence of false negatives is used. */
module LabelQuery {
  import opened Machine
  import opened Model
  import opened LabelOrder
  import opened BlockLayout

  type Filter = string -> bool

  datatype Hit = Hit(id: u64, samples: seq<Sample>)

  /** `labels_to_string`. */
  function LabelsString(labels: Labels): string {
    "{" + Pairs(SortByName(labels)) + "}"
  }

  function Pairs(labels: Labels): string {
    if labels == [] then ""
    else labels[0].name + "=" + labels[0].value + (if |labels| == 1 then "" else ", " + Pairs(labels[1..]))
  }

  /** `labels_match`: every queried label is among the series' labels. */
  predicate LabelsMatch(series: Labels, query: Labels) {
    forall i :: 0 <= i < |query| ==> query[i] in series
  }

  function Join(hit: seq<Hit>, rest: Result<seq<Hit>>): Result<seq<Hit>> {
    if rest.Ok? then Ok(hit + rest.value) else rest
  }

  /** The loop over the index. */
  function Scan(block: Block, entries: seq<Entry>, query: Labels, start: i64, end: i64): (r: Result<seq<Hit>>) {
    if entries == [] then Ok([])
    else if !LabelsMatch(entries[0].labels, query) then Scan(block, entries[1..], query, start, end)
    else
      var samples := Query(block, entries[0].seriesId, start, end);
      if samples.Err? then Err(samples.error)
      else
        Join(if samples.value == [] then [] else [Hit(entries[0].seriesId, samples.value)],
             Scan(block, entries[1..], query, start, end))
  }

  function ByLabels(block: Block, filter: Filter, query: Labels, start: i64, end: i64): (r: Result<seq<Hit>>) {
    if filter(LabelsString(query)) then Scan(block, block.index, query, start, end) else Ok([])
  }

  method QueryByLabels(block: Block, filter: Filter, query: Labels, start: i64, end: i64) returns (r: Result<seq<Hit>>)
    ensures r == ByLabels(block, filter, query, start, end)
  {
    if !filter(LabelsString(query)) {
      return Ok([]);
    }
    var hits: seq<Hit>, entries := [], block.index;
    ghost var all := Scan(block, entries, query, start, end);
    assert all.Ok? ==> [] + all.value == all.value;
    while entries != []
      invariant all == Join(hits, Scan(block, entries, query, start, end))
      decreases |entries|
    {
      var entry := entries[0];
      if LabelsMatch(entry.labels, query) {
        var samples := QueryBlock(block, entry.seriesId, start, end);
        if samples.Err? {
          return Err(samples.error);
        }
        var hit := if samples.value == [] then [] else [Hit(entry.seriesId, samples.value)];
        JoinStep(hits, hit, Scan(block, entries[1..], query, start, end));
        hits := hits + hit;
      }
      entries := entries[1..];
    }
    AppendNil(hits);
    r := Ok(hits);
  }

  lemma JoinStep(done: seq<Hit>, hit: seq<Hit>, rest: Result<seq<Hit>>)
    ensures Join(done, Join(hit, rest)) == Join(done + hit, rest)
  {
    if rest.Ok? {
      Assoc(done, hit, rest.value);
    }
  }

  // ----- what a raw block answers ------------------------------------------

  /** The series that match, with their samples in the range, in the order of the index. */
  function Matching(raw: map<u64, SeriesData>, order: seq<u64>, query: Labels, start: i64, end: i64): (hits: seq<Hit>)
    requires Covers(order, raw)
  {
    if order == [] then []
    else
      var data := raw[order[0]];
      MatchOf(order[0], data.labels, InRange(data, start, end), query) + Matching(raw, order[1..], query, start, end)
  }

  /** What one series contributes. */
  function MatchOf(id: u64, labels: Labels, samples: seq<Sample>, query: Labels): (hits: seq<Hit>) {
    if LabelsMatch(labels, query) && samples != [] then [Hit(id, samples)] else []
  }

  /** The block gives every series its own samples. */
  ghost predicate Answers(block: Block, raw: map<u64, SeriesData>, start: i64, end: i64) {
    forall id :: id in raw ==> Query(block, id, start, end) == Ok(InRange(raw[id], start, end))
  }

  /** Entries for these series, in this order. */
  predicate EntriesFor(entries: seq<Entry>, raw: map<u64, SeriesData>, order: seq<u64>) {
    && |entries| == |order|
    && forall i :: 0 <= i < |order| ==>
         order[i] in raw && entries[i].seriesId == order[i] && entries[i].labels == raw[order[i]].labels
  }

  lemma {:induction false} SlotsAreFor(raw: map<u64, SeriesData>, order: seq<u64>, offset: nat)
    requires Covers(order, raw)
    ensures EntriesFor(Slots(order, RawExtents(raw), offset), raw, order)
    decreases |order|
  {
    if order != [] {
      SlotsAreFor(raw, order[1..], offset + |raw[order[0]].timestamps|);
    }
  }

  lemma {:induction false} ScanEntries(block: Block, raw: map<u64, SeriesData>, entries: seq<Entry>, order: seq<u64>,
                                       query: Labels, start: i64, end: i64)
    requires Covers(order, raw) && EntriesFor(entries, raw, order) && Answers(block, raw, start, end)
    ensures Scan(block, entries, query, start, end) == Ok(Matching(raw, order, query, start, end))
    decreases |order|
  {
    if order != [] {
      var id, rest := order[0], entries[1..];
      ScanEntries(block, raw, rest, order[1..], query, start, end);
      AnswerOf(block, raw, start, end, id);
      Uncons(entries);
      ScanOne(block, entries[0], rest, query, start, end,
              InRange(raw[id], start, end), Matching(raw, order[1..], query, start, end));
    }
  }

  lemma AnswerOf(block: Block, raw: map<u64, SeriesData>, start: i64, end: i64, id: u64)
    requires Answers(block, raw, start, end) && id in raw
    ensures Query(block, id, start, end) == Ok(InRange(raw[id], start, end))
  {
  }

  lemma ScanOne(block: Block, entry: Entry, rest: seq<Entry>, query: Labels, start: i64, end: i64,
                samples: seq<Sample>, hits: seq<Hit>)
    requires Query(block, entry.seriesId, start, end) == Ok(samples) && Scan(block, rest, query, start, end) == Ok(hits)
    ensures Scan(block, [entry] + rest, query, start, end)
         == Ok(MatchOf(entry.seriesId, entry.labels, samples, query) + hits)
  {
    TailOfAppend([entry], rest);
    AppendNil(rest);
    AppendNil(hits);
  }

  /** A query by labels on a raw block gives exactly the matching series, or nothing if
      the filter does not know the query's own label string. */
  lemma ByLabelsExact(cast: Cast, raw: map<u64, SeriesData>, order: seq<u64>, block: Block, filter: Filter,
                      query: Labels, start: i64, end: i64)
    requires Paired(raw) && Enumerates(order, raw)
    requires block == Written(cast, raw, order, map[], []) && block.totalSamples > 0
    ensures ByLabels(block, filter, query, start, end)
         == Ok(if filter(LabelsString(query)) then Matching(raw, order, query, start, end) else [])
  {
    RawOnly(cast, raw, order, block);
    forall id | id in raw
      ensures Query(block, id, start, end) == Ok(InRange(raw[id], start, end))
    {
      QueryExact(cast, raw, order, block, id, start, end);
    }
    SlotsAreFor(raw, order, 0);
    ScanEntries(block, raw, block.index, order, query, start, end);
  }

  // ----- which series these are --------------------------------------------

  /** A hit: a series of the block that holds every queried label, name and value, with its
      own samples in the range, of which there is one. */
  ghost predicate Rightful(raw: map<u64, SeriesData>, query: Labels, start: i64, end: i64, hit: Hit) {
    && hit.id in raw && (forall x :: x in query ==> x in raw[hit.id].labels)
    && hit.samples != [] && hit.samples == InRange(raw[hit.id], start, end)
  }

  lemma {:induction false} MatchingRightful(raw: map<u64, SeriesData>, order: seq<u64>, query: Labels, start: i64,
                                            end: i64)
    requires Covers(order, raw)
    ensures forall hit :: hit in Matching(raw, order, query, start, end) ==>
              Rightful(raw, query, start, end, hit) && hit.id in order
  {
    if order != [] {
      MatchingRightful(raw, order[1..], query, start, end);
      var data := raw[order[0]];
      forall hit | hit in MatchOf(order[0], data.labels, InRange(data, start, end), query)
        ensures Rightful(raw, query, start, end, hit)
      {
        MatchingHolds(data.labels, query);
      }
    }
  }

  /** The test asks for every queried label. */
  lemma MatchingHolds(series: Labels, query: Labels)
    ensures LabelsMatch(series, query) <==> forall x :: x in query ==> x in series
  {
    if LabelsMatch(series, query) {
      forall x | x in query
        ensures x in series
      {
        var i :| 0 <= i < |query| && query[i] == x;
      }
    }
    if forall x :: x in query ==> x in series {
      assert forall i :: 0 <= i < |query| ==> query[i] in query;
    }
  }

  lemma {:induction false} MatchingHas(raw: map<u64, SeriesData>, order: seq<u64>, query: Labels, start: i64, end: i64,
                                       id: u64)
    requires Covers(order, raw) && id in order && (forall x :: x in query ==> x in raw[id].labels)
    requires InRange(raw[id], start, end) != []
    ensures Hit(id, InRange(raw[id], start, end)) in Matching(raw, order, query, start, end)
  {
    MatchingHolds(raw[id].labels, query);
    if order[0] != id {
      MatchingHas(raw, order[1..], query, start, end, id);
    }
  }

  /** No series twice. */
  predicate Once(hits: seq<Hit>) {
    forall i, j :: 0 <= i < j < |hits| ==> hits[i].id != hits[j].id
  }

  lemma {:induction false} MatchingOnce(raw: map<u64, SeriesData>, order: seq<u64>, query: Labels, start: i64, end: i64)
    requires Covers(order, raw) && forall i, j :: 0 <= i < j < |order| ==> order[i] != order[j]
    ensures Once(Matching(raw, order, query, start, end))
  {
    if order != [] {
      MatchingOnce(raw, order[1..], query, start, end);
      MatchingRightful(raw, order[1..], query, start, end);
      var rest := Matching(raw, order[1..], query, start, end);
      assert order[0] !in order[1..];
      assert forall i :: 0 <= i < |rest| ==> rest[i] in rest;
    }
  }

  lemma InRangeSome(data: SeriesData, start: i64, end: i64)
    requires |data.timestamps| == |data.values|
    ensures InRange(data, start, end) != [] <==>
            exists i :: 0 <= i < |data.timestamps| && start <= data.timestamps[i] <= end
  {
    var rows := InRangePicks(data, start, end);
    var wanted := Within(data.timestamps, start, end);
    if rows != [] {
      assert wanted[rows[0]];
    }
    if i :| 0 <= i < |data.timestamps| && start <= data.timestamps[i] <= end {
      assert wanted[i] && i in rows;
    }
  }

  /** The answer of a query whose label string the filter knows: every hit is a series that
      holds all queried labels, and every series that holds them all and has a sample in
      the range is hit exactly once. */
  lemma HitsExact(cast: Cast, raw: map<u64, SeriesData>, order: seq<u64>, block: Block, filter: Filter, query: Labels,
                  start: i64, end: i64, id: u64)
    requires Paired(raw) && Enumerates(order, raw) && filter(LabelsString(query))
    requires block == Written(cast, raw, order, map[], []) && block.totalSamples > 0
    ensures var r := ByLabels(block, filter, query, start, end);
            && r.Ok? && Once(r.value) && (forall hit :: hit in r.value ==> Rightful(raw, query, start, end, hit))
            && ((exists hit :: hit in r.value && hit.id == id) <==>
                  && id in raw && (forall x :: x in query ==> x in raw[id].labels)
                  && exists i :: 0 <= i < |raw[id].timestamps| && start <= raw[id].timestamps[i] <= end)
  {
    ByLabelsExact(cast, raw, order, block, filter, query, start, end);
    MatchingRightful(raw, order, query, start, end);
    MatchingOnce(raw, order, query, start, end);
    HitIff(raw, order, query, start, end, id);
  }

  lemma HitIff(raw: map<u64, SeriesData>, order: seq<u64>, query: Labels, start: i64, end: i64, id: u64)
    requires Paired(raw) && Enumerates(order, raw)
    ensures (exists hit :: hit in Matching(raw, order, query, start, end) && hit.id == id) <==>
            && id in raw && (forall x :: x in query ==> x in raw[id].labels)
            && exists i :: 0 <= i < |raw[id].timestamps| && start <= raw[id].timestamps[i] <= end
  {
    MatchingRightful(raw, order, query, start, end);
    if id in raw {
      InRangeSome(raw[id], start, end);
      if (forall x :: x in query ==> x in raw[id].labels) && InRange(raw[id], start, end) != [] {
        MatchingHas(raw, order, query, start, end, id);
      }
    }
  }

  /** A query for the full label set of a series finds it, in whatever order the labels are
      given. */
  lemma FullLabelsFound(cast: Cast, raw: map<u64, SeriesData>, order: seq<u64>, block: Block, filter: Filter,
                        query: Labels, start: i64, end: i64, id: u64, i: nat)
    requires Paired(raw) && Enumerates(order, raw) && NoFalseNegative(filter, raw)
    requires block == Written(cast, raw, order, map[], []) && block.totalSamples > 0
    requires id in raw && i < |raw[id].timestamps| && start <= raw[id].timestamps[i] <= end
    requires Distinct(query) && multiset(query) == multiset(raw[id].labels)
    ensures filter(LabelsString(query))
    ensures var r := ByLabels(block, filter, query, start, end);
            r.Ok? && exists hit :: hit in r.value && hit.id == id
  {
    var labels := raw[id].labels;
    StringForgetsOrder(query, labels);
    SameLabels(query, labels);
    HitsExact(cast, raw, order, block, filter, query, start, end, id);
  }

  lemma SameLabels(query: Labels, labels: Labels)
    requires multiset(query) == multiset(labels)
    ensures forall x :: x in query ==> x in labels
  {
    forall x | x in query
      ensures x in labels
    {
      assert x in multiset(query);
    }
  }

  lemma StringForgetsOrder(a: Labels, b: Labels)
    requires Distinct(a) && multiset(a) == multiset(b)
    ensures LabelsString(a) == LabelsString(b)
  {
    forall n
      ensures Named(SortByName(a), n) == Named(b, n)
    {
      SortStable(a, n);
      DistinctNamed(a, b, n);
    }
    SortAscending(a);
    SortDetermined(b, SortByName(a));
  }

  // ----- the filter --------------------------------------------------------

  /** The writer tells the filter, once for each sample, the label string of the series. */
  ghost predicate Inserted(raw: map<u64, SeriesData>, text: string) {
    exists id :: id in raw && raw[id].timestamps != [] && text == LabelsString(raw[id].labels)
  }

  ghost predicate NoFalseNegative(filter: Filter, raw: map<u64, SeriesData>) {
    forall id :: id in raw && raw[id].timestamps != [] ==> filter(LabelsString(raw[id].labels))
  }

  /** The exact condition for a query to give all matching series: the filter knows the
      label string of the query itself. It does for the full label set of a series with
      samples, and where it does not, every matching series is missed. */
  lemma ByLabelsCompleteIff(cast: Cast, raw: map<u64, SeriesData>, order: seq<u64>, block: Block, filter: Filter,
                            query: Labels, start: i64, end: i64)
    requires Paired(raw) && Enumerates(order, raw) && NoFalseNegative(filter, raw)
    requires block == Written(cast, raw, order, map[], []) && block.totalSamples > 0
    ensures ByLabels(block, filter, query, start, end) == Ok(Matching(raw, order, query, start, end))
       <==> filter(LabelsString(query)) || Matching(raw, order, query, start, end) == []
    ensures Inserted(raw, LabelsString(query)) ==> filter(LabelsString(query))
  {
    ByLabelsExact(cast, raw, order, block, filter, query, start, end);
  }

  // ----- when two label sets have one string --------------------------------

  /** Labels that the string keeps apart. */
  predicate Plain(labels: Labels) {
    forall x :: x in labels ==> '=' !in x.name && ',' !in x.value
  }

  /** What stands behind the first pair. */
  function Rest(labels: Labels): string
    requires labels != []
  {
    if |labels| == 1 then "" else ", " + Pairs(labels[1..])
  }

  /** Where two texts agree up to a character that neither beginning holds, they agree on
      both sides of it. */
  lemma CutAlike(a: string, b: string, a': string, b': string, c: char)
    requires a + b == a' + b' && c !in a && c !in a'
    requires (b == "" || b[0] == c) && (b' == "" || b'[0] == c)
    ensures a == a' && b == b'
  {
    var whole := a + b;
    assert forall i :: 0 <= i < |a| ==> whole[i] == a[i] != c;
    assert forall i :: 0 <= i < |a'| ==> whole[i] == a'[i] != c;
    assert (b == "" || whole[|a|] == c) && (b' == "" || whole[|a'|] == c);
    assert a == whole[..|a|] && a' == whole[..|a'|];
    assert b == whole[|a|..] && b' == whole[|a'|..];
  }

  lemma {:induction false} PairsInjective(a: Labels, b: Labels)
    requires Plain(a) && Plain(b) && Pairs(a) == Pairs(b)
    ensures a == b
    decreases |a|
  {
    if a != [] && b != [] {
      HeadAlike(a, b);
      Uncons(a);
      Uncons(b);
      if |a| > 1 && |b| > 1 {
        TailOfAppend(", ", Pairs(a[1..]));
        TailOfAppend(", ", Pairs(b[1..]));
        assert Pairs(a[1..]) == Rest(a)[2..] && Pairs(b[1..]) == Rest(b)[2..];
        PairsInjective(a[1..], b[1..]);
      }
    }
  }

  lemma HeadAlike(a: Labels, b: Labels)
    requires a != [] && b != [] && Plain(a) && Plain(b) && Pairs(a) == Pairs(b)
    ensures a[0] == b[0] && Rest(a) == Rest(b)
  {
    var x, y := a[0], b[0];
    assert x in a && y in b;
    PairFirst(a);
    PairFirst(b);
    PairAlike(x.name, x.value, Rest(a), y.name, y.value, Rest(b));
  }

  lemma PairFirst(labels: Labels)
    requires labels != []
    ensures Pairs(labels) == labels[0].name + ("=" + (labels[0].value + Rest(labels)))
    ensures Rest(labels) == "" || Rest(labels)[0] == ','
  {
    var x := labels[0];
    Assoc(x.name + "=", x.value, Rest(labels));
    Assoc(x.name, "=", x.value + Rest(labels));
  }

  lemma PairAlike(n: string, v: string, r: string, n': string, v': string, r': string)
    requires n + ("=" + (v + r)) == n' + ("=" + (v' + r'))
    requires '=' !in n && '=' !in n' && ',' !in v && ',' !in v'
    requires (r == "" || r[0] == ',') && (r' == "" || r'[0] == ',')
    ensures n == n' && v == v' && r == r'
  {
    CutAlike(n, "=" + (v + r), n', "=" + (v' + r'), '=');
    TailOfAppend("=", v + r);
    TailOfAppend("=", v' + r');
    assert v + r == ("=" + (v + r))[1..] && v' + r' == ("=" + (v' + r'))[1..];
    CutAlike(v, r, v', r', ',');
  }

  lemma SortedPlain(labels: Labels)
    requires Plain(labels)
    ensures Plain(SortByName(labels))
  {
    SortPermutes(labels);
    forall x | x in SortByName(labels)
      ensures x in labels
    {
      assert x in multiset(SortByName(labels));
    }
  }

  /** Plain labels have the same string iff they are the same but for the order of names. */
  lemma SameStringIff(a: Labels, b: Labels)
    requires Plain(a) && Plain(b)
    ensures LabelsString(a) == LabelsString(b) <==> SortByName(a) == SortByName(b)
  {
    if LabelsString(a) == LabelsString(b) {
      var s, t := Pairs(SortByName(a)), Pairs(SortByName(b));
      assert LabelsString(a)[1..|LabelsString(a)| - 1] == s && LabelsString(b)[1..|LabelsString(b)| - 1] == t;
      SortedPlain(a);
      SortedPlain(b);
      PairsInjective(SortByName(a), SortByName(b));
    }
  }

  /** These are all the plain queries that a filter without false positives lets through:
      the full label set of a series with samples, in some order. Any other finds nothing,
      however many series hold all its labels. */
  lemma FilterPassesIff(raw: map<u64, SeriesData>, filter: Filter, query: Labels)
    requires Plain(query) && forall id :: id in raw ==> Plain(raw[id].labels)
    requires forall text :: filter(text) <==> Inserted(raw, text)
    ensures filter(LabelsString(query)) <==>
            exists id :: id in raw && raw[id].timestamps != [] && SortByName(raw[id].labels) == SortByName(query)
  {
    if filter(LabelsString(query)) {
      var id :| id in raw && raw[id].timestamps != [] && LabelsString(query) == LabelsString(raw[id].labels);
      SameStringIff(query, raw[id].labels);
    }
    if id :| id in raw && raw[id].timestamps != [] && SortByName(raw[id].labels) == SortByName(query) {
      SameStringIff(query, raw[id].labels);
    }
  }

  /** With a comma in a value two different label sets share a string, so that the filter
      lets through a query that no series answers. */
  lemma StringsCollide()
    ensures LabelsString([Label("a", "1, b=2")]) == LabelsString([Label("b", "2"), Label("a", "1")]) == "{a=1, b=2}"
  {
    StringOfOne(Label("a", "1, b=2"));
    ShuffledString();
  }

  lemma ShuffledString()
    ensures LabelsString([Label("b", "2"), Label("a", "1")]) == "{a=1, b=2}"
  {
    var a, b := Label("a", "1"), Label("b", "2");
    StringOfTwo(a, b);
    StringForgetsOrder([b, a], [a, b]);
  }

  lemma StringOfOne(x: Label)
    ensures LabelsString([x]) == "{" + (x.name + "=" + x.value) + "}"
  {
    assert [x][1..] == [] && SortByName([x][1..]) == [] && SortByName([x]) == [x];
    AppendNil(x.name + "=" + x.value);
  }

  lemma StringOfTwo(x: Label, y: Label)
    requires Le(x.name, y.name)
    ensures LabelsString([x, y]) == "{" + (x.name + "=" + x.value + (", " + (y.name + "=" + y.value))) + "}"
  {
    var two := [x, y];
    assert two[1..] == [y] && two[1..][1..] == [];
    assert SortByName(two[1..][1..]) == [] && SortByName(two[1..]) == two[1..] && SortByName(two) == two;
    AppendNil(y.name + "=" + y.value);
    assert Pairs([y]) == y.name + "=" + y.value;
  }

  /** A query for some of the labels of a series: although the series matches, a filter
      without false positives hides it. */
  lemma PartialLabelsMissed(cast: Cast, t: i64, v: u64, raw: map<u64, SeriesData>, order: seq<u64>, block: Block,
                            filter: Filter)
    requires raw == map[1 := SeriesData([Label("a", "1"), Label("b", "2")], [t], [v])]
    requires Enumerates(order, raw) && block == Written(cast, raw, order, map[], [])
    requires forall text :: filter(text) <==> Inserted(raw, text)
    ensures var query := [Label("a", "1")];
            && LabelsMatch(raw[1].labels, query) && InRange(raw[1], t, t) == [Sample(t, v)]
            && ByLabels(block, filter, query, t, t) == Ok([])
  {
    var query := [Label("a", "1")];
    assert query[0] in raw[1].labels;
    LongerString("a", "1", "b", "2");
    assert !Inserted(raw, LabelsString(query));
    OneSample(t, v);
  }

  lemma OneSample(t: i64, v: u64)
    ensures Select([t], [v], t, t) == [Sample(t, v)]
  {
    assert [t][1..] == [] && [v][1..] == [];
    assert Select([t][1..], [v][1..], t, t) == [];
  }

  lemma LongerString(k: string, u: string, l: string, w: string)
    requires Le(k, l)
    ensures |LabelsString([Label(k, u), Label(l, w)])| > |LabelsString([Label(k, u)])|
  {
    var one, two := [Label(k, u)], [Label(k, u), Label(l, w)];
    assert two[1..] == [Label(l, w)] && one[1..] == [] && two[1..][1..] == [];
    assert SortByName(two[1..][1..]) == [] && SortByName(two[1..]) == two[1..] && SortByName(two) == two;
    assert SortByName(one[1..]) == [] && SortByName(one) == one;
    assert |Pairs(two)| >= |k| + 1 + |u| + 2 && |Pairs(one)| == |k| + 1 + |u|;
  }
}

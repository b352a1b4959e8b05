/** Whole texts: `process_text_write` of server/src/remote_server.rs and
    `export_prometheus` of server/src/monitoring/mod.rs. */
module TextWrite {
  import opened Machine
  import opened Model
  import opened Text
  import opened LabelOrder
  import opened TextLine
  import Grouping

  // ----- ingest ------------------------------------------------------------

  /** Lines that are neither blank nor comments. */
  predicate Wanted(line: string) {
    Trim(line) != "" && line != "" && line[0] != '#'
  }

  /** A line counts iff it holds something but white space and does not begin with `#`. */
  lemma WantedIff(line: string)
    ensures Wanted(line) <==> (exists i :: 0 <= i < |line| && !IsSpace(line[i])) && line[0] != '#'
  {
    var a, b := TrimParts(line);
    AppendNil(a);
    assert Spaces(a + b);
    if Spaces(line) {
      TrimSpaces(line);
    }
  }

  function Kept(lines: seq<string>): (r: seq<string>) {
    if lines == [] then [] else (if Wanted(lines[0]) then [lines[0]] else []) + Kept(lines[1..])
  }

  /** What the lines parse to; the clock gives the time at which each line is read. */
  function Entries(n: Numbers, lines: seq<string>, clock: nat -> i64): (r: seq<(Labels, Sample)>) {
    if lines == [] then []
    else
      var last := |lines| - 1;
      var e := ReadLine(n, lines[last], clock(last));
      Entries(n, lines[..last], clock) + (if e.Some? then [e.value] else [])
  }

  method KeepLines(lines: seq<string>) returns (r: seq<string>)
    ensures r == Kept(lines)
  {
    r := [];
    var rest := lines;
    while rest != []
      invariant Kept(lines) == r + Kept(rest)
      decreases |rest|
    {
      var first := if Wanted(rest[0]) then [rest[0]] else [];
      Assoc(r, first, Kept(rest[1..]));
      r := r + first;
      rest := rest[1..];
    }
    AppendNil(r);
  }

  lemma EntriesStep(n: Numbers, lines: seq<string>, clock: nat -> i64, i: nat, e: Option<(Labels, Sample)>,
                    es: seq<(Labels, Sample)>)
    requires i < |lines| && e == ReadLine(n, lines[i], clock(i)) && es == Entries(n, lines[..i], clock)
    ensures Entries(n, lines[..i + 1], clock) == if e.Some? then es + [e.value] else es
  {
    TakeTake(lines, i);
  }

  /** `process_text_write` up to the writes: the reported counts and the batches. */
  method ProcessTextWrite(n: Numbers, text: string, clock: nat -> i64)
    returns (seriesCount: nat, totalSamples: nat, batches: map<Labels, seq<Sample>>)
    ensures seriesCount == |Kept(Lines(text))|
    ensures var es := Entries(n, Kept(Lines(text)), clock);
            totalSamples == |es| && batches == Grouping.Grouped(es)
  {
    var lines := KeepLines(Lines(text));
    seriesCount, totalSamples, batches := |lines|, 0, map[];
    ghost var es: seq<(Labels, Sample)> := [];
    for i := 0 to |lines|
      invariant es == Entries(n, lines[..i], clock)
      invariant totalSamples == |es| && batches == Grouping.Grouped(es)
    {
      var e := ParseTextLine(n, lines[i], clock(i));
      EntriesStep(n, lines, clock, i, e, es);
      if e.Some? {
        Grouping.GroupedPush(es, e.value);
        totalSamples := totalSamples + 1;
        batches := Grouping.Push(batches, e.value.0, e.value.1);
        es := es + [e.value];
      }
    }
    TakeAll(lines);
  }

  /** Every parsed sample is in the batch of its series, in line order, and nowhere
      else; the batches together hold as many samples as are reported. */
  lemma BatchesConserve(n: Numbers, text: string, clock: nat -> i64, labels: Labels)
    ensures var es := Entries(n, Kept(Lines(text)), clock);
            && Grouping.Total(Grouping.Grouped(es)) == |es|
            && (labels in Grouping.Grouped(es) <==> Grouping.Under(es, labels) != [])
            && (labels in Grouping.Grouped(es) ==> Grouping.Grouped(es)[labels] == Grouping.Under(es, labels))
  {
    var es := Entries(n, Kept(Lines(text)), clock);
    Grouping.GroupedTotal(es);
    Grouping.GroupedSpec(es, labels);
  }

  // ----- the exported text -------------------------------------------------

  function MetricsText(n: Numbers, ms: seq<Metric>): string {
    if ms == [] then "" else LineText(n, ms[0]) + "\n" + MetricsText(n, ms[1..])
  }

  function GroupText(n: Numbers, name: string, ms: seq<Metric>): string
    requires ms != []
  {
    "# HELP " + name + " " + ms[0].help + "\n" + ("# TYPE " + name + " " + KindText(ms[0].kind) + "\n")
    + MetricsText(n, ms) + "\n"
  }

  /** Metrics with their names as keys. */
  function Keyed(ms: seq<Metric>): (r: seq<(string, Metric)>) {
    if ms == [] then [] else Keyed(ms[..|ms| - 1]) + [(ms[|ms| - 1].name, ms[|ms| - 1])]
  }

  function OfName(ms: seq<Metric>, name: string): seq<Metric> {
    Grouping.Under(Keyed(ms), name)
  }

  /** The names in the order in which the grouping map is iterated. */
  ghost predicate Enumerates(names: seq<string>, ms: seq<Metric>) {
    && (forall i, j :: 0 <= i < j < |names| ==> names[i] != names[j])
    && (forall name :: name in names <==> OfName(ms, name) != [])
  }

  function ExportText(n: Numbers, ms: seq<Metric>, names: seq<string>): string
    requires forall i :: 0 <= i < |names| ==> OfName(ms, names[i]) != []
  {
    if names == [] then "" else GroupText(n, names[0], OfName(ms, names[0])) + ExportText(n, ms, names[1..])
  }

  method GroupByName(ms: seq<Metric>) returns (grouped: map<string, seq<Metric>>)
    ensures grouped == Grouping.Grouped(Keyed(ms))
  {
    grouped := map[];
    for i := 0 to |ms|
      invariant grouped == Grouping.Grouped(Keyed(ms[..i]))
    {
      TakeTake(ms, i);
      Grouping.GroupedPush(Keyed(ms[..i]), (ms[i].name, ms[i]));
      grouped := Grouping.Push(grouped, ms[i].name, ms[i]);
    }
    TakeAll(ms);
  }

  /** `export_prometheus`, for any iteration orders of its maps. */
  method ExportPrometheus(n: Numbers, ms: seq<Metric>, names: seq<string>) returns (output: string)
    requires Enumerates(names, ms)
    ensures output == ExportText(n, ms, names)
  {
    var grouped := GroupByName(ms);
    output := "";
    var rest := names;
    while rest != []
      invariant forall name :: name in rest ==> OfName(ms, name) != []
      invariant ExportText(n, ms, names) == output + ExportText(n, ms, rest)
      decreases |rest|
    {
      var name := rest[0];
      assert name in rest;
      Grouping.GroupedSpec(Keyed(ms), name);
      var text := ExportGroup(n, name, grouped[name]);
      ExportStep(n, ms, rest, text, output);
      output := output + text;
      rest := rest[1..];
    }
    assert output + "" == output;
  }

  lemma ExportStep(n: Numbers, ms: seq<Metric>, names: seq<string>, text: string, output: string)
    requires names != [] && forall name :: name in names ==> OfName(ms, name) != []
    requires text == GroupText(n, names[0], OfName(ms, names[0]))
    ensures output + ExportText(n, ms, names) == (output + text) + ExportText(n, ms, names[1..])
  {
    Assoc(output, text, ExportText(n, ms, names[1..]));
  }

  method ExportGroup(n: Numbers, name: string, ms: seq<Metric>) returns (output: string)
    requires ms != []
    ensures output == GroupText(n, name, ms)
  {
    output := "# HELP " + name + " " + ms[0].help + "\n";
    output := output + ("# TYPE " + name + " " + KindText(ms[0].kind) + "\n");
    ghost var head := output;
    var rest := ms;
    while rest != []
      invariant head + MetricsText(n, ms) == output + MetricsText(n, rest)
      decreases |rest|
    {
      output := output + (LineText(n, rest[0]) + "\n");
      rest := rest[1..];
    }
    assert output + "" == output;
    output := output + "\n";
  }

  // ----- the exported text comes back --------------------------------------

  predicate OneLine(s: string) {
    '\n' !in s
  }

  /** A metric whose name, label names and help text avoid the delimiters. */
  predicate WellNamed(n: Numbers, m: Metric) {
    && GoodName(m.name, m.labels) && GoodKeys(m.labels) && Faithful(n, m.value)
    && m.name[0] != '#' && OneLine(m.name) && OneLine(m.help)
    && forall i :: 0 <= i < |m.labels| ==> OneLine(m.labels[i].name)
  }

  /** No label value holds a comma, a closing brace or a line feed. */
  predicate CleanValues(labels: Labels) {
    PlainValues(labels) && forall i :: 0 <= i < |labels| ==> OneLine(labels[i].value)
  }

  predicate Printable(n: Numbers, m: Metric) {
    WellNamed(n, m) && CleanValues(m.labels)
  }

  predicate AllPrintable(n: Numbers, ms: seq<Metric>) {
    forall i :: 0 <= i < |ms| ==> Printable(n, ms[i])
  }

  lemma {:induction false} PairsOneLine(labels: Labels)
    requires labels != [] && forall i :: 0 <= i < |labels| ==> OneLine(labels[i].name) && OneLine(labels[i].value)
    ensures OneLine(PairsText(labels))
  {
    assert OneLine(PairText(labels[0]));
    if |labels| > 1 {
      PairsOneLine(labels[1..]);
    }
  }

  /** A printed metric is one line, and one that the filter keeps. */
  lemma LineKept(n: Numbers, m: Metric)
    requires Printable(n, m)
    ensures OneLine(LineText(n, m)) && Wanted(LineText(n, m)) && Chomp(LineText(n, m)) == LineText(n, m)
  {
    LineDivides(n, m);
    LineOneLine(n, m);
    LineEnds(n, m);
  }

  lemma LineOneLine(n: Numbers, m: Metric)
    requires Printable(n, m)
    ensures OneLine(LineText(n, m))
  {
    if m.labels != [] {
      PairsOneLine(m.labels);
    }
    assert OneLine(LabelsText(m.labels));
    assert OneLine(n.show(m.value));
  }

  /** Its first character is the name's, its last the value's. */
  lemma LineEnds(n: Numbers, m: Metric)
    requires Printable(n, m)
    ensures var line, text := LineText(n, m), n.show(m.value);
            line != "" && line[0] == m.name[0] && line[|line| - 1] == text[|text| - 1]
  {
  }

  lemma NextLine(line: string, more: string, text: string)
    requires OneLine(line) && text == line + "\n" + more
    ensures Kept(Lines(text)) == (if Wanted(Chomp(line)) then [Chomp(line)] else []) + Kept(Lines(more))
  {
    LinesFirst(line, more);
    var rest := Lines(more);
    TailOfAppend([Chomp(line)], rest);
    AppendNil(rest);
  }

  lemma NextMetric(n: Numbers, m: Metric, more: string, text: string)
    requires Printable(n, m) && text == LineText(n, m) + "\n" + more
    ensures Kept(Lines(text)) == [LineText(n, m)] + Kept(Lines(more))
  {
    LineKept(n, m);
    NextLine(LineText(n, m), more, text);
  }

  lemma NextComment(line: string, more: string, text: string)
    requires OneLine(line) && |line| >= 2 && line[0] == '#' && text == line + "\n" + more
    ensures Kept(Lines(text)) == Kept(Lines(more))
  {
    NextLine(line, more, text);
    assert !Wanted(Chomp(line));
  }

  lemma NextBlank(more: string)
    ensures Kept(Lines("\n" + more)) == Kept(Lines(more))
  {
    assert "" + "\n" + more == "\n" + more;
    NextLine("", more, "\n" + more);
  }

  function LineTexts(n: Numbers, ms: seq<Metric>): (r: seq<string>)
    ensures |r| == |ms|
  {
    if ms == [] then [] else [LineText(n, ms[0])] + LineTexts(n, ms[1..])
  }

  lemma {:induction false} LineTextsAt(n: Numbers, ms: seq<Metric>, i: nat)
    requires i < |ms|
    ensures LineTexts(n, ms)[i] == LineText(n, ms[i])
  {
    if i > 0 {
      LineTextsAt(n, ms[1..], i - 1);
    }
  }

  lemma {:induction false} LineTextsAppend(n: Numbers, a: seq<Metric>, b: seq<Metric>)
    ensures LineTexts(n, a + b) == LineTexts(n, a) + LineTexts(n, b)
  {
    if a == [] {
      AppendNil(b);
    } else {
      TailOfAppend(a, b);
      LineTextsAppend(n, a[1..], b);
      LineTextsFront(n, a, LineTexts(n, b));
    }
  }

  lemma {:induction false} MetricsKept(n: Numbers, ms: seq<Metric>, more: string, text: string)
    requires AllPrintable(n, ms) && text == MetricsText(n, ms) + more
    ensures Kept(Lines(text)) == LineTexts(n, ms) + Kept(Lines(more))
    decreases |ms|
  {
    if ms == [] {
      assert text == more;
    } else {
      var m, rest := ms[0], ms[1..];
      var after := MetricsText(n, rest) + more;
      Associate(LineText(n, m), MetricsText(n, rest), more);
      NextMetric(n, m, after, text);
      MetricsKept(n, rest, more, after);
      LineTextsFront(n, ms, Kept(Lines(more)));
    }
  }

  lemma Associate(a: string, b: string, c: string)
    ensures (a + "\n" + b) + c == a + "\n" + (b + c)
  {
  }

  lemma LineTextsFront(n: Numbers, ms: seq<Metric>, more: seq<string>)
    requires ms != []
    ensures LineTexts(n, ms) + more == [LineText(n, ms[0])] + (LineTexts(n, ms[1..]) + more)
  {
    Assoc([LineText(n, ms[0])], LineTexts(n, ms[1..]), more);
  }

  lemma GroupKept(n: Numbers, name: string, ms: seq<Metric>, more: string, text: string)
    requires ms != [] && AllPrintable(n, ms) && OneLine(name) && text == GroupText(n, name, ms) + more
    ensures Kept(Lines(text)) == LineTexts(n, ms) + Kept(Lines(more))
  {
    var help, kind := "# HELP " + name + " " + ms[0].help, "# TYPE " + name + " " + KindText(ms[0].kind);
    assert Printable(n, ms[0]);
    HeadOneLine(name, ms[0].help, ms[0].kind);
    Regroup(help, kind, MetricsText(n, ms), more);
    AfterHead(help, kind, MetricsText(n, ms) + ("\n" + more), text);
    MetricsKept(n, ms, "\n" + more, MetricsText(n, ms) + ("\n" + more));
    NextBlank(more);
  }

  lemma HeadOneLine(name: string, help: string, kind: MetricType)
    requires OneLine(name) && OneLine(help)
    ensures OneLine("# HELP " + name + " " + help) && OneLine("# TYPE " + name + " " + KindText(kind))
  {
    assert OneLine(KindText(kind));
  }

  /** The two comments in front of a group are dropped. */
  lemma AfterHead(help: string, kind: string, rest: string, text: string)
    requires OneLine(help) && |help| >= 2 && help[0] == '#' && OneLine(kind) && |kind| >= 2 && kind[0] == '#'
    requires text == help + "\n" + (kind + "\n" + rest)
    ensures Kept(Lines(text)) == Kept(Lines(rest))
  {
    NextComment(help, kind + "\n" + rest, text);
    NextComment(kind, rest, kind + "\n" + rest);
  }

  lemma Regroup(a: string, b: string, c: string, more: string)
    ensures (a + "\n" + (b + "\n") + c + "\n") + more == a + "\n" + (b + "\n" + (c + ("\n" + more)))
  {
  }

  /** The metrics in the order in which they are printed. */
  function Printed(ms: seq<Metric>, names: seq<string>): (r: seq<Metric>) {
    if names == [] then [] else OfName(ms, names[0]) + Printed(ms, names[1..])
  }

  lemma {:induction false} OfNameHas(ms: seq<Metric>, name: string)
    ensures forall i :: 0 <= i < |OfName(ms, name)| ==> OfName(ms, name)[i] in ms && OfName(ms, name)[i].name == name
  {
    if ms != [] {
      OfNameHas(ms[..|ms| - 1], name);
      OfNameLast(ms, name);
    }
  }

  lemma OfNameLast(ms: seq<Metric>, name: string)
    requires ms != []
    ensures var before := OfName(ms[..|ms| - 1], name);
            OfName(ms, name) == if ms[|ms| - 1].name == name then before + [ms[|ms| - 1]] else before
  {
    var init, m := ms[..|ms| - 1], ms[|ms| - 1];
    assert Keyed(ms)[..|Keyed(ms)| - 1] == Keyed(init);
    AppendNil(OfName(init, name));
  }

  lemma {:induction false} OfNameCount(ms: seq<Metric>, name: string, m: Metric)
    ensures multiset(OfName(ms, name))[m] == if m.name == name then multiset(ms)[m] else 0
  {
    if ms != [] {
      var init, last := ms[..|ms| - 1], ms[|ms| - 1];
      OfNameCount(init, name, m);
      OfNameLast(ms, name);
      Unsnoc(ms);
      CountSnoc(init, last, m);
      if last.name == name {
        CountSnoc(OfName(init, name), last, m);
      }
    }
  }

  lemma CountSnoc(s: seq<Metric>, x: Metric, m: Metric)
    ensures multiset(s + [x])[m] == multiset(s)[m] + (if m == x then 1 else 0)
  {
  }

  lemma {:induction false} PrintedCount(ms: seq<Metric>, names: seq<string>, m: Metric)
    requires forall i, j :: 0 <= i < j < |names| ==> names[i] != names[j]
    ensures multiset(Printed(ms, names))[m] == if m.name in names then multiset(ms)[m] else 0
  {
    if names != [] {
      OfNameCount(ms, names[0], m);
      PrintedCount(ms, names[1..], m);
      Uncons(names);
      assert m.name == names[0] ==> m.name !in names[1..];
    }
  }

  /** Every metric is printed exactly once. */
  lemma PrintedPermutes(ms: seq<Metric>, names: seq<string>)
    requires Enumerates(names, ms)
    ensures multiset(Printed(ms, names)) == multiset(ms)
  {
    forall m: Metric
      ensures multiset(Printed(ms, names))[m] == multiset(ms)[m]
    {
      PrintedCount(ms, names, m);
      if m.name !in names {
        OfNameCount(ms, m.name, m);
      }
    }
  }

  lemma {:induction false} ExportKept(n: Numbers, ms: seq<Metric>, names: seq<string>)
    requires forall i :: 0 <= i < |names| ==> OfName(ms, names[i]) != []
    requires AllPrintable(n, ms)
    ensures Kept(Lines(ExportText(n, ms, names))) == LineTexts(n, Printed(ms, names))
  {
    if names != [] {
      var group, rest := OfName(ms, names[0]), names[1..];
      OfNameHas(ms, names[0]);
      GroupPrintable(n, ms, group);
      assert group[0].name == names[0];
      GroupKept(n, names[0], group, ExportText(n, ms, rest), ExportText(n, ms, names));
      ExportKept(n, ms, rest);
      LineTextsAppend(n, group, Printed(ms, rest));
    }
  }

  lemma GroupPrintable(n: Numbers, ms: seq<Metric>, group: seq<Metric>)
    requires AllPrintable(n, ms) && forall i :: 0 <= i < |group| ==> group[i] in ms
    ensures AllPrintable(n, group)
  {
    forall i | 0 <= i < |group|
      ensures Printable(n, group[i])
    {
      assert group[i] in ms;
    }
  }

  /** What the metrics should come back as, in this order. */
  function Expected(ms: seq<Metric>, clock: nat -> i64): (r: seq<(Labels, Sample)>) {
    if ms == [] then [] else Expected(ms[..|ms| - 1], clock) + [Intended(ms[|ms| - 1], clock(|ms| - 1))]
  }

  lemma LineBack(n: Numbers, m: Metric, now: i64)
    requires Printable(n, m)
    ensures ReadLine(n, LineText(n, m), now) == Some(Intended(m, now))
  {
    LineRecoveredIff(n, m, now);
  }

  lemma {:induction false} LinesRead(n: Numbers, ms: seq<Metric>, lines: seq<string>, clock: nat -> i64)
    requires AllPrintable(n, ms) && |lines| == |ms| && forall i :: 0 <= i < |ms| ==> lines[i] == LineText(n, ms[i])
    ensures Entries(n, lines, clock) == Expected(ms, clock)
    decreases |ms|
  {
    if ms != [] {
      var last := |ms| - 1;
      LineBack(n, ms[last], clock(last));
      LinesRead(n, ms[..last], lines[..last], clock);
    }
  }

  lemma {:induction false} ExpectedAt(ms: seq<Metric>, clock: nat -> i64)
    ensures |Expected(ms, clock)| == |ms|
    ensures forall i :: 0 <= i < |ms| ==> Expected(ms, clock)[i] == Intended(ms[i], clock(i))
  {
    if ms != [] {
      ExpectedAt(ms[..|ms| - 1], clock);
    }
  }

  /** Ingesting an exported text: one kept line for each metric, and every metric comes
      back with its name, its labels in order of name, and its value. */
  lemma ExportIngested(n: Numbers, ms: seq<Metric>, names: seq<string>, clock: nat -> i64)
    requires Enumerates(names, ms) && AllPrintable(n, ms)
    ensures var lines, printed := Kept(Lines(ExportText(n, ms, names))), Printed(ms, names);
            && |lines| == |ms| && multiset(printed) == multiset(ms)
            && Entries(n, lines, clock) == Expected(printed, clock)
            && |Expected(printed, clock)| == |printed|
            && forall i :: 0 <= i < |printed| ==> Expected(printed, clock)[i] == Intended(printed[i], clock(i))
  {
    var printed := Printed(ms, names);
    PrintedPermutes(ms, names);
    assert |multiset(printed)| == |printed| && |multiset(ms)| == |ms|;
    ExportKept(n, ms, names);
    forall i | 0 <= i < |printed|
      ensures printed[i] in ms
    {
      assert printed[i] in multiset(printed);
    }
    GroupPrintable(n, ms, printed);
    forall i | 0 <= i < |printed|
      ensures LineTexts(n, printed)[i] == LineText(n, printed[i])
    {
      LineTextsAt(n, printed, i);
    }
    LinesRead(n, printed, LineTexts(n, printed), clock);
    ExpectedAt(printed, clock);
  }

  // ----- and only then -----------------------------------------------------

  lemma {:induction false} KeptHas(lines: seq<string>, c: char)
    requires NoneHas(lines, c)
    ensures NoneHas(Kept(lines), c)
  {
    if lines != [] {
      KeptHas(lines[1..], c);
    }
  }

  lemma {:induction false} EntryLine(n: Numbers, lines: seq<string>, clock: nat -> i64, k: nat) returns (i: nat)
    requires k < |Entries(n, lines, clock)|
    ensures i < |lines| && ReadLine(n, lines[i], clock(i)) == Some(Entries(n, lines, clock)[k])
    decreases |lines|
  {
    var last := |lines| - 1;
    var before := Entries(n, lines[..last], clock);
    if k < |before| {
      i := EntryLine(n, lines[..last], clock, k);
    } else {
      i := last;
    }
  }

  /** The series that a metric should give. */
  function SeriesOf(m: Metric): Labels {
    SortByName([Label(NAME, m.name)] + m.labels)
  }

  ghost predicate Occurs(es: seq<(Labels, Sample)>, series: Labels) {
    exists k :: 0 <= k < |es| && es[k].0 == series
  }

  /** Whatever the text: a metric whose series is read from it has clean label values. */
  lemma OccursMeansClean(n: Numbers, text: string, clock: nat -> i64, m: Metric)
    requires Occurs(Entries(n, Kept(Lines(text)), clock), SeriesOf(m))
    ensures CleanValues(m.labels)
  {
    var lines := Kept(Lines(text));
    LinesClean(text);
    KeptHas(Lines(text), '\n');
    var k :| 0 <= k < |Entries(n, lines, clock)| && Entries(n, lines, clock)[k].0 == SeriesOf(m);
    var i := EntryLine(n, lines, clock, k);
    GivenMeansClean(n, lines[i], clock(i), m.name, m.labels, ',');
    GivenMeansClean(n, lines[i], clock(i), m.name, m.labels, '}');
    GivenMeansClean(n, lines[i], clock(i), m.name, m.labels, '\n');
  }

  // ----- one metric among others -------------------------------------------

  lemma {:induction false} KeptAppend(a: seq<string>, b: seq<string>)
    ensures Kept(a + b) == Kept(a) + Kept(b)
  {
    if a == [] {
      AppendNil(b);
    } else {
      TailOfAppend(a, b);
      KeptAppend(a[1..], b);
      Assoc(if Wanted(a[0]) then [a[0]] else [], Kept(a[1..]), Kept(b));
    }
  }

  lemma {:induction false} EntriesHas(n: Numbers, lines: seq<string>, clock: nat -> i64, i: nat, series: Labels)
    requires i < |lines|
    requires var e := ReadLine(n, lines[i], clock(i)); e.Some? && e.value.0 == series
    ensures Occurs(Entries(n, lines, clock), series)
    decreases |lines|
  {
    var last, es := |lines| - 1, Entries(n, lines, clock);
    if i == last {
      assert es[|es| - 1].0 == series;
    } else {
      var before := Entries(n, lines[..last], clock);
      EntriesHas(n, lines[..last], clock, i, series);
      var k :| 0 <= k < |before| && before[k].0 == series;
      assert es[k].0 == series;
    }
  }

  /** The text around a metric's line: what comes before ends a line. */
  ghost predicate Around(text: string, line: string, pre: string, post: string) {
    EndsLine(pre) && text == pre + (line + "\n" + post)
  }

  lemma AroundAfter(a: string, text: string, all: string, line: string, pre: string, post: string)
    requires EndsLine(a) && Around(text, line, pre, post) && all == a + text
    ensures Around(all, line, a + pre, post)
  {
    assert pre == "" ==> a + pre == a;
    Assoc(a, pre, line + "\n" + post);
  }

  lemma AroundBefore(text: string, b: string, all: string, line: string, pre: string, post: string)
    requires Around(text, line, pre, post) && all == text + b
    ensures Around(all, line, pre, post + b)
  {
    Assoc(pre, line + "\n" + post, b);
    Assoc(line + "\n", post, b);
  }

  lemma {:induction false} MetricWithin(n: Numbers, ms: seq<Metric>, m: Metric) returns (pre: string, post: string)
    requires m in ms
    ensures Around(MetricsText(n, ms), LineText(n, m), pre, post)
  {
    var line, rest := LineText(n, ms[0]) + "\n", MetricsText(n, ms[1..]);
    if ms[0] == m {
      pre, post := "", rest;
      assert "" + (line + rest) == line + rest;
    } else {
      pre, post := MetricWithin(n, ms[1..], m);
      AroundAfter(line, rest, line + rest, LineText(n, m), pre, post);
      pre := line + pre;
    }
  }

  lemma GroupWithin(n: Numbers, name: string, ms: seq<Metric>, m: Metric) returns (pre: string, post: string)
    requires m in ms
    ensures Around(GroupText(n, name, ms), LineText(n, m), pre, post)
  {
    var head := "# HELP " + name + " " + ms[0].help + "\n" + ("# TYPE " + name + " " + KindText(ms[0].kind) + "\n");
    pre, post := MetricWithin(n, ms, m);
    AroundAfter(head, MetricsText(n, ms), head + MetricsText(n, ms), LineText(n, m), pre, post);
    AroundBefore(head + MetricsText(n, ms), "\n", head + MetricsText(n, ms) + "\n", LineText(n, m), head + pre, post);
    pre, post := head + pre, post + "\n";
  }

  lemma {:induction false} OfNameIn(ms: seq<Metric>, m: Metric)
    ensures m in ms <==> m in OfName(ms, m.name)
  {
    OfNameCount(ms, m.name, m);
    assert m in multiset(ms) <==> m in multiset(OfName(ms, m.name));
  }

  lemma {:induction false} GroupEnds(n: Numbers, name: string, ms: seq<Metric>)
    requires ms != []
    ensures EndsLine(GroupText(n, name, ms))
  {
  }

  lemma {:induction false} ExportWithin(n: Numbers, ms: seq<Metric>, names: seq<string>, m: Metric)
    returns (pre: string, post: string)
    requires forall i :: 0 <= i < |names| ==> OfName(ms, names[i]) != []
    requires m in ms && m.name in names
    ensures Around(ExportText(n, ms, names), LineText(n, m), pre, post)
  {
    var own, rest := OfName(ms, names[0]), ExportText(n, ms, names[1..]);
    if names[0] == m.name {
      OfNameIn(ms, m);
      pre, post := GroupWithin(n, names[0], own, m);
      AroundBefore(GroupText(n, names[0], own), rest, ExportText(n, ms, names), LineText(n, m), pre, post);
      post := post + rest;
    } else {
      pre, post := ExportWithin(n, ms, names[1..], m);
      GroupEnds(n, names[0], own);
      AroundAfter(GroupText(n, names[0], own), rest, ExportText(n, ms, names), LineText(n, m), pre, post);
      pre := GroupText(n, names[0], own) + pre;
    }
  }

  /** A printable metric's line, wherever it stands in a text, is read. */
  lemma LineOccurs(n: Numbers, m: Metric, text: string, pre: string, post: string, clock: nat -> i64)
    requires Printable(n, m) && Around(text, LineText(n, m), pre, post)
    ensures Occurs(Entries(n, Kept(Lines(text)), clock), SeriesOf(m))
  {
    var line := LineText(n, m);
    LinesAppend(pre, line + "\n" + post);
    KeptAppend(Lines(pre), Lines(line + "\n" + post));
    NextMetric(n, m, post, line + "\n" + post);
    var i, lines := |Kept(Lines(pre))|, Kept(Lines(text));
    assert lines[i] == line;
    LineBack(n, m, clock(i));
    EntriesHas(n, lines, clock, i, SeriesOf(m));
  }

  /** The exact condition for one exported metric, whatever is exported beside it: its
      series is read back iff none of its label values holds a comma, a closing brace or
      a line feed. */
  lemma MetricRecoveredIff(n: Numbers, ms: seq<Metric>, names: seq<string>, clock: nat -> i64, m: Metric)
    requires Enumerates(names, ms) && m in ms && WellNamed(n, m)
    ensures Occurs(Entries(n, Kept(Lines(ExportText(n, ms, names))), clock), SeriesOf(m)) <==> CleanValues(m.labels)
  {
    var text := ExportText(n, ms, names);
    if Occurs(Entries(n, Kept(Lines(text)), clock), SeriesOf(m)) {
      OccursMeansClean(n, text, clock, m);
    }
    if CleanValues(m.labels) {
      OfNameIn(ms, m);
      var pre, post := ExportWithin(n, ms, names, m);
      LineOccurs(n, m, text, pre, post, clock);
    }
  }

  /** And for a whole export. */
  lemma ExportRecoveredIff(n: Numbers, ms: seq<Metric>, names: seq<string>, clock: nat -> i64)
    requires Enumerates(names, ms) && forall i :: 0 <= i < |ms| ==> WellNamed(n, ms[i])
    ensures (forall i :: 0 <= i < |ms| ==>
        Occurs(Entries(n, Kept(Lines(ExportText(n, ms, names))), clock), SeriesOf(ms[i])))
       <==> (forall i :: 0 <= i < |ms| ==> CleanValues(ms[i].labels))
  {
    forall i | 0 <= i < |ms|
      ensures Occurs(Entries(n, Kept(Lines(ExportText(n, ms, names))), clock), SeriesOf(ms[i])) <==>
          CleanValues(ms[i].labels)
    {
      MetricRecoveredIff(n, ms, names, clock, ms[i]);
    }
  }
}

/** One line of the text exposition format: the parser of server/src/remote_server.rs
    against the printer of server/src/monitoring/mod.rs. */
module TextLine {
  import opened Machine
  import opened Model
  import opened Text
  import opened LabelOrder

  /** Printing and parsing of numbers, which belong to Rust's standard library. */
  datatype Numbers = Numbers(show: u64 -> string, parseValue: string -> Option<u64>, parseTime: string -> Option<i64>)

  /** The printed value parses back, and holds neither white space nor a closing brace. */
  predicate Faithful(n: Numbers, v: u64) {
    var text := n.show(v);
    text != "" && Spaceless(text) && '}' !in text && n.parseValue(text) == Some(v)
  }

  const NAME: string := "__name__"

  // ----- the printer -------------------------------------------------------

  datatype MetricType = Counter | Gauge | Histogram | Summary

  /** A metric; its label map is given as the list in which it is iterated. */
  datatype Metric = Metric(name: string, kind: MetricType, help: string, labels: Labels, value: u64)

  function KindText(k: MetricType): string {
    match k
    case Counter => "counter"
    case Gauge => "gauge"
    case Histogram => "histogram"
    case Summary => "summary"
  }

  function PairText(l: Label): string {
    l.name + "=\"" + l.value + "\""
  }

  function PairsText(labels: Labels): string
    requires labels != []
  {
    if |labels| == 1 then PairText(labels[0]) else PairText(labels[0]) + "," + PairsText(labels[1..])
  }

  function LabelsText(labels: Labels): string {
    if labels == [] then "" else "{" + PairsText(labels) + "}"
  }

  function LineText(n: Numbers, m: Metric): string {
    m.name + LabelsText(m.labels) + " " + n.show(m.value)
  }

  // ----- the parser --------------------------------------------------------

  datatype Parts = Parts(metric: string, value: string, time: string)

  function SplitRest(metric: string, rest: string): (r: Option<Parts>) {
    if rest == "" then None
    else
      var p := FirstSpace(rest);
      if p < |rest| then Some(Parts(metric, Trim(rest[..p]), Trim(rest[p..]))) else Some(Parts(metric, rest, ""))
  }

  /** The series up to one position, the rest from another where white space begins. */
  function DivideAt(line: string, end: nat, gap: nat): (r: Option<Parts>)
    requires end <= gap <= |line|
  {
    if gap == |line| then None else SplitRest(line[..end], Trim(line[gap..]))
  }

  /** Series, value and timestamp of a trimmed line. */
  function SplitLine(line: string): (r: Option<Parts>) {
    var e := AfterLast(line, '}');
    if e > 0 then DivideAt(line, e, e + FirstSpace(line[e..]))
    else
      var p := FirstSpace(line);
      DivideAt(line, p, p)
  }

  datatype Piece = Blank | Malformed | Pair(pair: Label)

  predicate QuotedBy(s: string, q: char) {
    |s| >= 2 && s[0] == q && s[|s| - 1] == q
  }

  /** One piece between commas. */
  function ReadPiece(text: string): (r: Piece) {
    var s := Trim(text);
    if s == "" then Blank
    else
      var e := First(s, '=');
      if e == |s| then Malformed
      else
        var name, raw := Trim(s[..e]), Trim(s[e + 1..]);
        if name != "" && (QuotedBy(raw, '"') || QuotedBy(raw, '\'')) then Pair(Label(name, raw[1..|raw| - 1]))
        else Malformed
  }

  /** One piece in front of the labels read from the others. */
  function Cons(p: Piece, rest: Option<Labels>): Option<Labels> {
    match p
    case Malformed => None
    case Blank => rest
    case Pair(l) => if rest.None? then None else Some([l] + rest.value)
  }

  function ReadPieces(pieces: seq<string>): (r: Option<Labels>) {
    if pieces == [] then Some([]) else Cons(ReadPiece(pieces[0]), ReadPieces(pieces[1..]))
  }

  /** The series part: a name alone, or a name and the text between the first braces. */
  datatype Form = Bare | Invalid | Braced(name: string, inner: string)

  function FormOf(metric: string): (f: Form) {
    var o, c := First(metric, '{'), First(metric, '}');
    if o == |metric| then Bare
    else if Trim(metric[..o]) == "" || c == |metric| || c <= o then Invalid
    else Braced(Trim(metric[..o]), metric[o + 1..c])
  }

  /** The labels of the series part, the metric name first. */
  function ReadSeries(metric: string): (r: Option<Labels>) {
    match FormOf(metric)
    case Bare => Some([Label(NAME, metric)])
    case Invalid => None
    case Braced(name, inner) => Onto([Label(NAME, name)], ReadPieces(Split(inner, ',')))
  }

  function ReadTime(n: Numbers, text: string, now: i64): Option<i64> {
    if text == "" then Some(now) else n.parseTime(text)
  }

  /** `parse_text_line`; a series and its one sample. */
  function ReadLine(n: Numbers, line: string, now: i64): (r: Option<(Labels, Sample)>) {
    var parts := SplitLine(Trim(line));
    if parts.None? then None
    else
      var labels, value := ReadSeries(parts.value.metric), n.parseValue(parts.value.value);
      var time := ReadTime(n, parts.value.time, now);
      if labels.None? || value.None? || time.None? then None
      else Some((SortByName(labels.value), Sample(time.value, value.value)))
  }

  /** `parse_text_line`, with its loop over the label pieces in ParseSeries. */
  method ParseTextLine(n: Numbers, line: string, now: i64) returns (r: Option<(Labels, Sample)>)
    ensures r == ReadLine(n, line, now)
  {
    var parts := SplitLine(Trim(line));
    if parts.None? {
      return None;
    }
    var labels := ParseSeries(parts.value.metric);
    var value, time := n.parseValue(parts.value.value), ReadTime(n, parts.value.time, now);
    if labels.None? || value.None? || time.None? {
      return None;
    }
    r := Some((SortByName(labels.value), Sample(time.value, value.value)));
  }

  method ParseSeries(metric: string) returns (r: Option<Labels>)
    ensures r == ReadSeries(metric)
  {
    match FormOf(metric)
    case Bare =>
      r := Some([Label(NAME, metric)]);
    case Invalid =>
      r := None;
    case Braced(name, inner) =>
      r := ParsePairs([Label(NAME, name)], Split(inner, ','));
  }

  /** The loop over the label pieces. */
  method ParsePairs(first: Labels, all: seq<string>) returns (r: Option<Labels>)
    ensures r == Onto(first, ReadPieces(all))
  {
    var pairs, pieces := first, all;
    while pieces != []
      invariant Onto(first, ReadPieces(all)) == Onto(pairs, ReadPieces(pieces))
      decreases |pieces|
    {
      var p := ReadPiece(pieces[0]);
      OntoStep(pairs, p, ReadPieces(pieces[1..]));
      if p == Malformed {
        return None;
      }
      if p.Pair? {
        pairs := pairs + [p.pair];
      }
      pieces := pieces[1..];
    }
    AppendNil(pairs);
    r := Some(pairs);
  }

  lemma OntoStep(done: Labels, p: Piece, rest: Option<Labels>)
    ensures Onto(done, Cons(p, rest)) ==
              match p
              case Malformed => None
              case Blank => Onto(done, rest)
              case Pair(l) => Onto(done + [l], rest)
  {
    if p.Pair? && rest.Some? {
      Assoc(done, [p.pair], rest.value);
    }
  }

  // ----- one printed line --------------------------------------------------

  /** A label name that survives the trip: no delimiter and no outer white space. */
  predicate GoodKey(k: string) {
    Tight(k) && ',' !in k && '=' !in k && '}' !in k
  }

  predicate GoodKeys(labels: Labels) {
    Distinct(labels) && forall i :: 0 <= i < |labels| ==> GoodKey(labels[i].name)
  }

  predicate GoodName(name: string, labels: Labels) {
    Tight(name) && '{' !in name && '}' !in name && (labels == [] ==> Spaceless(name))
  }

  predicate PlainValue(v: string) {
    ',' !in v && '}' !in v
  }

  predicate PlainValues(labels: Labels) {
    forall i :: 0 <= i < |labels| ==> PlainValue(labels[i].value)
  }

  /** What ingesting the metric should give. */
  function Intended(m: Metric, now: i64): (Labels, Sample) {
    (SortByName([Label(NAME, m.name)] + m.labels), Sample(now, m.value))
  }

  /** Reading a piece with the right label name and an opening quote. */
  lemma PieceCut(k: string, u: string)
    requires GoodKey(k)
    ensures match ReadPiece(k + "=\"" + u)
            case Blank => false
            case Malformed => true
            case Pair(l) => l.name == k && |l.value| < |u|
  {
    var t, s := "\"" + TrimEnd(u), k + "=\"" + TrimEnd(u);
    TrimEndStops(k + "=\"", u);
    assert (k + "=\"" + u)[0] == k[0];
    assert Trim(k + "=\"" + u) == s;
    FirstIs(s, '=', |k|);
    assert s[..|k|] == k && s[|k| + 1..] == t;
    TrimTight(k);
    assert TrimStart(t) == t;
  }

  lemma PieceWhole(l: Label)
    requires GoodKey(l.name)
    ensures ReadPiece(PairText(l)) == Pair(l)
  {
    var s, raw := PairText(l), "\"" + l.value + "\"";
    assert s[0] == l.name[0] && s[|s| - 1] == '"';
    TrimTight(s);
    FirstIs(s, '=', |l.name|);
    assert s[..|l.name|] == l.name && s[|l.name| + 1..] == raw;
    TrimTight(l.name);
    TrimTight(raw);
    assert raw[1..|raw| - 1] == l.value;
  }

  lemma PairClean(l: Label, c: char)
    requires c == ',' || c == '}'
    requires GoodKey(l.name) && PlainValue(l.value)
    ensures c !in PairText(l)
  {
  }

  /** The text between the braces as the parser delimits it: up to the first closing
      brace. */
  function Seen(body: string): string {
    body[..First(body, '}')]
  }

  lemma SeenStep(p: string, rest: string, body: string)
    requires body == p + "," + rest && '}' !in p
    ensures Seen(body) == p + "," + Seen(rest)
  {
    FirstIs(body, '}', |p| + 1 + First(rest, '}'));
  }

  lemma SeenAll(p: string)
    requires '}' !in p
    ensures Seen(p) == p
  {
    FirstIs(p, '}', |p|);
  }

  /** A leading pair without delimiters is read and the rest follows. */
  lemma PlainHead(labels: Labels)
    requires labels != [] && GoodKey(labels[0].name) && PlainValue(labels[0].value)
    ensures var read := ReadPieces(Split(Seen(PairsText(labels)), ','));
            read == if |labels| == 1 then Some([labels[0]])
                    else Onto([labels[0]], ReadPieces(Split(Seen(PairsText(labels[1..])), ',')))
  {
    var l := labels[0];
    var p := PairText(l);
    PairClean(l, ',');
    PairClean(l, '}');
    PieceWhole(l);
    if |labels| == 1 {
      SeenAll(p);
      SplitOne(p, ',');
      OnePiece(p, l);
    } else {
      var rest := PairsText(labels[1..]);
      CommaCut(p, rest, PairsText(labels));
      var pieces := Split(Seen(rest), ',');
      TailOfAppend([p], pieces);
      AppendNil(pieces);
    }
  }

  lemma OnePiece(p: string, l: Label)
    requires ReadPiece(p) == Pair(l)
    ensures ReadPieces([p]) == Some([l])
  {
    assert ReadPieces([p][1..]) == Some([]);
    AppendNil([l]);
  }

  /** Plain values: every pair is read. */
  lemma {:induction false} PlainRead(labels: Labels)
    requires labels != [] && GoodKeys(labels) && PlainValues(labels)
    ensures ReadPieces(Split(Seen(PairsText(labels)), ',')) == Some(labels)
  {
    PlainHead(labels);
    Uncons(labels);
    if |labels| > 1 {
      GoodTail(labels, labels[1..]);
      PlainRead(labels[1..]);
    }
  }

  lemma GoodTail(labels: Labels, rest: Labels)
    requires labels != [] && GoodKeys(labels) && PlainValues(labels) && rest == labels[1..]
    ensures GoodKeys(rest) && PlainValues(rest)
  {
  }

  /** The first piece when the first value holds a comma or a closing brace: it ends
      inside the value. */
  lemma FirstPieceCut(l: Label, more: string) returns (u: string, rest: seq<string>)
    requires GoodKey(l.name) && !PlainValue(l.value)
    ensures |u| < |l.value|
    ensures Split(Seen(PairText(l) + more), ',') == [l.name + "=\"" + u] + rest
  {
    var v, body := l.value, PairText(l) + more;
    var i, j := First(v, ','), First(v, '}');
    if i < j {
      u := v[..i];
      var p, tail := l.name + "=\"" + u, v[i + 1..] + "\"" + more;
      PairSplits(l, more, i, u, p, tail);
      CommaCut(p, tail, body);
      rest := Split(Seen(tail), ',');
    } else {
      u := v[..j];
      var p, tail := l.name + "=\"" + u, v[j + 1..] + "\"" + more;
      PairSplits(l, more, j, u, p, tail);
      BraceCut(p, tail, body);
      rest := [];
    }
  }

  lemma PairSplits(l: Label, more: string, i: nat, u: string, p: string, tail: string)
    requires i < |l.value| && u == l.value[..i]
    requires p == l.name + "=\"" + u && tail == l.value[i + 1..] + "\"" + more
    ensures PairText(l) + more == p + [l.value[i]] + tail
  {
    assert l.value == u + [l.value[i]] + l.value[i + 1..];
  }

  lemma CommaCut(p: string, tail: string, body: string)
    requires body == p + "," + tail && ',' !in p && '}' !in p
    ensures Split(Seen(body), ',') == [p] + Split(Seen(tail), ',')
  {
    SeenStep(p, tail, body);
    SplitFirst(p, ',', Seen(tail));
  }

  lemma BraceCut(p: string, tail: string, body: string)
    requires body == p + "}" + tail && ',' !in p && '}' !in p
    ensures Split(Seen(body), ',') == [p]
  {
    FirstIs(body, '}', |p|);
    assert Seen(body) == p;
    SplitOne(p, ',');
  }

  lemma CutHead(l: Label, more: string)
    requires GoodKey(l.name) && !PlainValue(l.value)
    ensures var read := ReadPieces(Split(Seen(PairText(l) + more), ','));
            read.Some? ==> exists w :: w != l.value && Label(l.name, w) in read.value
  {
    var u, rest := FirstPieceCut(l, more);
    var p := l.name + "=\"" + u;
    PieceCut(l.name, u);
    TailOfAppend([p], rest);
    AppendNil(rest);
    match ReadPiece(p)
    case Malformed =>
    case Pair(x) =>
      assert x == Label(l.name, x.value);
  }

  /** Some label comes out with another value. */
  ghost predicate Corrupt(labels: Labels, read: Labels) {
    exists i, w :: 0 <= i < |labels| && w != labels[i].value && Label(labels[i].name, w) in read
  }

  /** A value with a comma or a closing brace: the line is refused, or that label comes
      out with another value. */
  lemma {:induction false} CutRead(labels: Labels)
    requires labels != [] && GoodKeys(labels) && !PlainValues(labels)
    ensures var read := ReadPieces(Split(Seen(PairsText(labels)), ','));
            read.Some? ==> Corrupt(labels, read.value)
  {
    if PlainValue(labels[0].value) {
      PlainHead(labels);
      CutRead(labels[1..]);
      var after := ReadPieces(Split(Seen(PairsText(labels[1..])), ','));
      if after.Some? {
        CorruptLater(labels, after.value);
      }
    } else {
      CutFirst(labels);
    }
  }

  lemma CutFirst(labels: Labels)
    requires labels != [] && GoodKey(labels[0].name) && !PlainValue(labels[0].value)
    ensures var read := ReadPieces(Split(Seen(PairsText(labels)), ','));
            read.Some? ==> Corrupt(labels, read.value)
  {
    var l, body := labels[0], PairsText(labels);
    var more := if |labels| == 1 then "" else "," + PairsText(labels[1..]);
    assert body == PairText(l) + more;
    CutHead(l, more);
    var read := ReadPieces(Split(Seen(body), ','));
    if read.Some? {
      CorruptFirst(labels, read.value);
    }
  }

  lemma CorruptFirst(labels: Labels, read: Labels)
    requires labels != [] && exists w :: w != labels[0].value && Label(labels[0].name, w) in read
    ensures Corrupt(labels, read)
  {
    var w :| w != labels[0].value && Label(labels[0].name, w) in read;
    assert Label(labels[0].name, w) in read;
  }

  lemma CorruptLater(labels: Labels, read: Labels)
    requires labels != [] && Corrupt(labels[1..], read)
    ensures Corrupt(labels, [labels[0]] + read)
  {
    var i, w :| 0 <= i < |labels[1..]| && w != labels[1..][i].value && Label(labels[1..][i].name, w) in read;
    assert Label(labels[i + 1].name, w) in [labels[0]] + read;
  }

  /** A corrupt reading cannot be sorted into the right labels. */
  lemma CorruptShows(name: Label, labels: Labels, read: Labels)
    requires Distinct(labels)
    ensures SortByName([name] + read) == SortByName([name] + labels) ==> !Corrupt(labels, read)
  {
    var x, y := [name] + read, [name] + labels;
    if SortByName(x) == SortByName(y) {
      SortPermutes(x);
      SortPermutes(y);
      assert multiset(x) == multiset{name} + multiset(read);
      assert multiset(y) == multiset{name} + multiset(labels);
      assert multiset(read) == multiset(x) - multiset{name} == multiset(labels);
      NotCorrupt(labels, read);
    }
  }

  lemma NotCorrupt(labels: Labels, read: Labels)
    requires Distinct(labels) && multiset(read) == multiset(labels)
    ensures !Corrupt(labels, read)
  {
    forall i, w | 0 <= i < |labels| && w != labels[i].value
      ensures Label(labels[i].name, w) !in read
    {
      var l := Label(labels[i].name, w);
      assert l !in labels;
      assert l !in multiset(labels);
    }
  }

  /** Where the parser divides a printed line. */
  lemma LineDivides(n: Numbers, m: Metric)
    requires GoodName(m.name, m.labels) && Faithful(n, m.value)
    ensures Trim(LineText(n, m)) == LineText(n, m)
    ensures SplitLine(LineText(n, m)) == Some(Parts(m.name + LabelsText(m.labels), n.show(m.value), ""))
  {
    var metric, text, line := m.name + LabelsText(m.labels), n.show(m.value), LineText(n, m);
    assert Tight(metric) && (m.labels != [] ==> metric[|metric| - 1] == '}');
    if m.labels == [] {
      assert metric == m.name;
    }
    Divides(metric, text, line);
  }

  lemma Divides(metric: string, text: string, line: string)
    requires Tight(metric) && text != "" && Spaceless(text) && '}' !in text && line == metric + " " + text
    requires metric[|metric| - 1] == '}' || ('}' !in metric && Spaceless(metric))
    ensures Trim(line) == line && SplitLine(line) == Some(Parts(metric, text, ""))
  {
    assert line[0] == metric[0] && line[|line| - 1] == text[|text| - 1];
    TrimTight(line);
    RestReads(metric, text);
    if metric[|metric| - 1] == '}' {
      DividesBraced(metric, text, line);
    } else {
      DividesBare(metric, text, line);
    }
  }

  lemma DividesBraced(metric: string, rest: string, line: string)
    requires '}' !in rest && line == metric + " " + rest && metric != "" && metric[|metric| - 1] == '}'
    ensures SplitLine(line) == SplitRest(metric, Trim(" " + rest))
  {
    var m := |metric|;
    assert line[..m] == metric && line[m..] == " " + rest;
    AfterLastIs(line, '}', m);
    FirstSpaceIs(line[m..], 0);
  }

  lemma DividesBare(metric: string, rest: string, line: string)
    requires '}' !in rest && line == metric + " " + rest && '}' !in metric && Spaceless(metric)
    ensures SplitLine(line) == SplitRest(metric, Trim(" " + rest))
  {
    var m := |metric|;
    assert line[..m] == metric && line[m..] == " " + rest;
    AfterLastIs(line, '}', 0);
    FirstSpaceIs(line, m);
  }

  lemma RestReads(metric: string, text: string)
    requires text != "" && Spaceless(text)
    ensures SplitRest(metric, Trim(" " + text)) == Some(Parts(metric, text, ""))
  {
    RestTrims(text);
    FirstSpaceIs(text, |text|);
  }

  lemma RestTrims(text: string)
    requires text != "" && Spaceless(text)
    ensures Trim(" " + text) == text
  {
    assert (" " + text)[1..] == text;
    TrimTight(text);
  }

  lemma SeriesReads(m: Metric)
    requires GoodName(m.name, m.labels)
    ensures var read := ReadSeries(m.name + LabelsText(m.labels));
            if m.labels == [] then read == Some([Label(NAME, m.name)])
            else read == Onto([Label(NAME, m.name)], ReadPieces(Split(Seen(PairsText(m.labels)), ',')))
  {
    var metric := m.name + LabelsText(m.labels);
    if m.labels == [] {
      assert metric == m.name;
      FirstIs(metric, '{', |metric|);
    } else {
      SeriesBraced(m.name, PairsText(m.labels), metric);
    }
  }

  lemma SeriesBraced(name: string, body: string, metric: string)
    requires Tight(name) && '{' !in name && '}' !in name && metric == name + ("{" + body + "}")
    ensures ReadSeries(metric) == Onto([Label(NAME, name)], ReadPieces(Split(Seen(body), ',')))
  {
    var o, e := |name|, First(body, '}');
    Braces(name, body, "{" + body + "}", metric);
    Between(name, body, metric, o, e);
    TrimTight(name);
    SeriesFrom(metric, o, o + 1 + e, name, Seen(body));
  }

  lemma SeriesFrom(metric: string, o: nat, c: nat, name: string, seen: string)
    requires First(metric, '{') == o < c == First(metric, '}') < |metric|
    requires name != "" && Trim(name) == name && metric[..o] == name && metric[o + 1..c] == seen
    ensures FormOf(metric) == Braced(name, seen)
  {
  }

  /** The first braces of a printed series. */
  lemma Braces(name: string, body: string, rest: string, metric: string)
    requires '{' !in name && '}' !in name && rest == "{" + body + "}" && metric == name + rest
    ensures First(metric, '{') == |name| && First(metric, '}') == |name| + 1 + First(body, '}')
  {
    FirstBehind(name, rest, '{');
    FirstBehind(name, rest, '}');
    FirstIs(rest, '}', 1 + First(body, '}'));
  }

  lemma Between(name: string, body: string, metric: string, o: nat, e: nat)
    requires metric == name + ("{" + body + "}") && o == |name| && e <= |body|
    ensures metric[..o] == name && metric[o + 1..o + 1 + e] == body[..e]
  {
  }

  /** A printed metric with proper name and label names is recovered, whatever else its
      label values hold, if and only if no value holds a comma or a closing brace. */
  lemma LineRecoveredIff(n: Numbers, m: Metric, now: i64)
    requires GoodName(m.name, m.labels) && GoodKeys(m.labels) && Faithful(n, m.value)
    ensures ReadLine(n, LineText(n, m), now) == Some(Intended(m, now)) <==> PlainValues(m.labels)
  {
    LineDivides(n, m);
    var name := Label(NAME, m.name);
    if PlainValues(m.labels) {
      PlainSeries(m);
    } else {
      SeriesReads(m);
      CutRead(m.labels);
      var read := ReadPieces(Split(Seen(PairsText(m.labels)), ','));
      if read.Some? {
        CorruptShows(name, m.labels, read.value);
      }
    }
  }

  /** A timestamp after the value is the sample's time. */
  lemma TimedLineRecovered(n: Numbers, m: Metric, stamp: string, time: i64, now: i64)
    requires GoodName(m.name, m.labels) && GoodKeys(m.labels) && Faithful(n, m.value) && PlainValues(m.labels)
    requires stamp != "" && Spaceless(stamp) && '}' !in stamp && n.parseTime(stamp) == Some(time)
    ensures ReadLine(n, LineText(n, m) + " " + stamp, now) == Some(Intended(m, time))
  {
    var metric, text := m.name + LabelsText(m.labels), n.show(m.value);
    var line := LineText(n, m) + " " + stamp;
    assert line == metric + " " + (text + " " + stamp);
    assert Tight(metric) && (m.labels != [] ==> metric[|metric| - 1] == '}');
    if m.labels == [] {
      assert metric == m.name;
    }
    TimedDivides(metric, text, stamp, line);
    PlainSeries(m);
  }

  lemma PlainSeries(m: Metric)
    requires GoodName(m.name, m.labels) && GoodKeys(m.labels) && PlainValues(m.labels)
    ensures ReadSeries(m.name + LabelsText(m.labels)) == Some([Label(NAME, m.name)] + m.labels)
  {
    SeriesReads(m);
    if m.labels == [] {
      assert [Label(NAME, m.name)] + m.labels == [Label(NAME, m.name)];
    } else {
      PlainRead(m.labels);
    }
  }

  lemma TimedDivides(metric: string, text: string, stamp: string, line: string)
    requires Tight(metric) && (metric[|metric| - 1] == '}' || ('}' !in metric && Spaceless(metric)))
    requires text != "" && Spaceless(text) && '}' !in text && stamp != "" && Spaceless(stamp) && '}' !in stamp
    requires line == metric + " " + (text + " " + stamp)
    ensures Trim(line) == line && SplitLine(line) == Some(Parts(metric, text, stamp))
  {
    var rest := text + " " + stamp;
    assert line[0] == metric[0] && line[|line| - 1] == stamp[|stamp| - 1];
    TrimTight(line);
    TimedRest(metric, text, stamp, rest);
    if metric[|metric| - 1] == '}' {
      DividesBraced(metric, rest, line);
    } else {
      DividesBare(metric, rest, line);
    }
  }

  lemma TimedRest(metric: string, text: string, stamp: string, rest: string)
    requires text != "" && Spaceless(text) && stamp != "" && Spaceless(stamp) && rest == text + " " + stamp
    ensures SplitRest(metric, Trim(" " + rest)) == Some(Parts(metric, text, stamp))
  {
    assert (" " + rest)[1..] == rest;
    assert rest[0] == text[0] && rest[|rest| - 1] == stamp[|stamp| - 1];
    TrimTight(rest);
    FirstSpaceIs(rest, |text|);
    assert rest[..|text|] == text && rest[|text|..] == " " + stamp;
    TrimTight(text);
    RestTrims(stamp);
  }

  /** The iteration order of the label map does not matter. */
  lemma LabelOrderHidden(n: Numbers, m: Metric, labels: Labels, now: i64)
    requires GoodName(m.name, m.labels) && GoodKeys(m.labels) && Faithful(n, m.value) && PlainValues(m.labels)
    requires multiset(labels) == multiset(m.labels)
    ensures ReadLine(n, LineText(n, m.(labels := labels)), now) == ReadLine(n, LineText(n, m), now)
  {
    DistinctPermuted(m.labels, labels);
    forall i | 0 <= i < |labels|
      ensures labels[i] in m.labels
    {
      assert labels[i] in multiset(labels);
    }
    assert |labels| == |multiset(labels)| == |m.labels|;
    LineRecoveredIff(n, m, now);
    LineRecoveredIff(n, m.(labels := labels), now);
    SortForgetsOrder(Label(NAME, m.name), m.labels, labels);
  }

  // ----- what a line can give ----------------------------------------------

  ghost predicate NoValueHas(labels: Labels, c: char) {
    forall i :: 0 <= i < |labels| ==> c !in labels[i].value
  }

  lemma PieceClean(text: string, c: char)
    requires c !in text && ReadPiece(text).Pair?
    ensures c !in ReadPiece(text).pair.value
  {
    var t := Trim(text);
    var e := First(t, '=');
    TrimHas(text, c);
    TrimHas(t[e + 1..], c);
  }

  lemma {:induction false} PiecesClean(pieces: seq<string>, c: char)
    requires NoneHas(pieces, c) && ReadPieces(pieces).Some?
    ensures NoValueHas(ReadPieces(pieces).value, c)
  {
    if pieces != [] {
      PiecesClean(pieces[1..], c);
      if ReadPiece(pieces[0]).Pair? {
        PieceClean(pieces[0], c);
      }
    }
  }

  /** A read series is a name followed by labels without a comma, a closing brace or any
      character that the text does not hold. */
  lemma SeriesClean(metric: string, c: char)
    requires ReadSeries(metric).Some? && (c == ',' || c == '}' || c !in metric)
    ensures var labels := ReadSeries(metric).value;
            labels != [] && labels[0].name == NAME && NoValueHas(labels[1..], c)
  {
    var form := FormOf(metric);
    if form.Braced? {
      InnerClean(metric, c);
      SplitClean(form.inner, ',', c);
      PiecesClean(Split(form.inner, ','), c);
    }
  }

  lemma InnerClean(metric: string, c: char)
    requires FormOf(metric).Braced? && (c == ',' || c == '}' || c !in metric)
    ensures c == ',' || c !in FormOf(metric).inner
  {
  }

  lemma LineClean(n: Numbers, line: string, now: i64, c: char) returns (labels: Labels)
    requires ReadLine(n, line, now).Some? && (c == ',' || c == '}' || c !in line)
    ensures ReadLine(n, line, now).value.0 == SortByName(labels)
    ensures labels != [] && labels[0].name == NAME && NoValueHas(labels[1..], c)
  {
    var t := Trim(line);
    TrimHas(line, c);
    var parts := SplitLine(t).value;
    assert c in parts.metric ==> c in t;
    SeriesClean(parts.metric, c);
    labels := ReadSeries(parts.metric).value;
  }

  /** Labels that sort like a name and other labels are that name and those labels. */
  lemma SortedApart(labels: Labels, name: string, other: Labels)
    requires labels != [] && labels[0].name == NAME
    requires SortByName(labels) == SortByName([Label(NAME, name)] + other)
    ensures multiset(labels[1..]) == multiset(other)
  {
    var all := [Label(NAME, name)] + other;
    SameHead(labels, all, NAME);
    SortPermutes(labels);
    SortPermutes(all);
    SameTail(labels, all);
    TailOfAppend([Label(NAME, name)], other);
    AppendNil(other);
  }

  lemma SameHead(a: Labels, b: Labels, n: string)
    requires a != [] && b != [] && a[0].name == n && b[0].name == n && SortByName(a) == SortByName(b)
    ensures a[0] == b[0]
  {
    SortStable(a, n);
    SortStable(b, n);
    assert Named(a, n)[0] == a[0] && Named(b, n)[0] == b[0];
  }

  lemma SameTail(a: Labels, b: Labels)
    requires a != [] && b != [] && a[0] == b[0] && multiset(a) == multiset(b)
    ensures multiset(a[1..]) == multiset(b[1..])
  {
    Uncons(a);
    Uncons(b);
    assert multiset(a[1..]) == multiset(a) - multiset{a[0]};
    assert multiset(b[1..]) == multiset(b) - multiset{b[0]};
  }

  /** A line that gives a metric's labels shows that their values hold no comma, no
      closing brace and no character that the line does not hold. */
  lemma GivenMeansClean(n: Numbers, line: string, now: i64, name: string, labels: Labels, c: char)
    requires ReadLine(n, line, now).Some? && (c == ',' || c == '}' || c !in line)
    requires ReadLine(n, line, now).value.0 == SortByName([Label(NAME, name)] + labels)
    ensures NoValueHas(labels, c)
  {
    var read := LineClean(n, line, now, c);
    SortedApart(read, name, labels);
    forall i | 0 <= i < |labels|
      ensures c !in labels[i].value
    {
      assert labels[i] in multiset(labels);
      assert labels[i] in multiset(read[1..]);
    }
  }
}

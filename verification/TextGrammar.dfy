/** Which lines the parser of server/src/remote_server.rs accepts, and as what: its
    searching and trimming against a grammar, in both directions and on every text. */
module TextGrammar {
  import opened Machine
  import opened Model
  import opened Text
  import opened LabelOrder
  import opened TextLine

  // ----- one label ---------------------------------------------------------

  /** White space, name, white space, equals sign, white space, quoted value, white space.
      The value may hold anything, the quote and white space included. */
  ghost predicate Renders(text: string, a: string, l: Label, b: string, c: string, q: char, d: string) {
    && Spaces(a) && Spaces(b) && Spaces(c) && Spaces(d) && (q == '"' || q == '\'')
    && Tight(l.name) && '=' !in l.name
    && text == a + (l.name + b + ("=" + (c + ([q] + l.value + [q])))) + d
  }

  ghost predicate ReadsAs(text: string, l: Label) {
    exists a, b, c, q, d :: Renders(text, a, l, b, c, q, d)
  }

  lemma RenderedRead(text: string, a: string, l: Label, b: string, c: string, q: char, d: string)
    requires Renders(text, a, l, b, c, q, d)
    ensures ReadPiece(text) == Pair(l)
  {
    var raw := [q] + l.value + [q];
    var left, right := l.name + b, c + raw;
    var s := left + ("=" + right);
    SidesRead(l.name, b, c, raw, left, right, s);
    TrimIs(a, s, d);
    PieceFrom(text, s, |left|, l, q, raw);
  }

  lemma SidesRead(k: string, b: string, c: string, raw: string, left: string, right: string, s: string)
    requires Tight(k) && '=' !in k && Spaces(b) && Spaces(c) && Tight(raw)
    requires left == k + b && right == c + raw && s == left + ("=" + right)
    ensures Tight(s) && First(s, '=') == |left| < |s| && Trim(s[..|left|]) == k && Trim(s[|left| + 1..]) == raw
  {
    Halves(left, right, s);
    EqualsAt(k, b, "=" + right, s);
    TightAround(k, b, c, raw, left, right, s);
    TrimBehind(k, b);
    TrimBefore(c, raw);
  }

  lemma Halves(left: string, right: string, s: string)
    requires s == left + ("=" + right)
    ensures |left| < |s| && s[..|left|] == left && s[|left| + 1..] == right
  {
  }

  lemma PieceFrom(text: string, s: string, e: nat, l: Label, q: char, raw: string)
    requires Trim(text) == s && First(s, '=') == e < |s| && Trim(s[..e]) == l.name != "" && Trim(s[e + 1..]) == raw
    requires raw == [q] + l.value + [q] && (q == '"' || q == '\'')
    ensures ReadPiece(text) == Pair(l)
  {
    assert raw[1..|raw| - 1] == l.value;
  }

  /** A text that begins and ends with no white space. */
  lemma TightAround(k: string, b: string, c: string, raw: string, left: string, right: string, s: string)
    requires Tight(k) && Tight(raw) && left == k + b && right == c + raw && s == left + ("=" + right)
    ensures Tight(s)
  {
    assert s[0] == left[0] == k[0];
    assert s[|s| - 1] == right[|right| - 1] == raw[|raw| - 1];
  }

  lemma EqualsAt(k: string, b: string, right: string, s: string)
    requires '=' !in k && Spaces(b) && right != "" && right[0] == '=' && s == k + b + right
    ensures First(s, '=') == |k + b|
  {
    assert !IsSpace('=');
    FirstIs(s, '=', |k + b|);
  }

  lemma TrimBehind(t: string, b: string)
    requires Tight(t) && Spaces(b)
    ensures Trim(t + b) == t
  {
    TrimIs("", t, b);
    AppendNil(t);
  }

  lemma TrimBefore(a: string, t: string)
    requires Tight(t) && Spaces(a)
    ensures Trim(a + t) == t
  {
    TrimIs(a, t, "");
    AppendNil(a + t);
  }

  lemma ReadRendered(text: string, l: Label) returns (a: string, b: string, c: string, q: char, d: string)
    requires ReadPiece(text) == Pair(l)
    ensures Renders(text, a, l, b, c, q, d)
  {
    var s := Trim(text);
    var e := First(s, '=');
    a, d := TrimParts(text);
    b, c, q := SidesRendered(s, e, l);
    assert text == a + s + d;
  }

  lemma SidesRendered(s: string, e: nat, l: Label) returns (b: string, c: string, q: char)
    requires Tight(s) && First(s, '=') == e < |s| && Trim(s[..e]) == l.name != ""
    requires var raw := Trim(s[e + 1..]); (QuotedBy(raw, '"') || QuotedBy(raw, '\'')) && l.value == raw[1..|raw| - 1]
    ensures Spaces(b) && Spaces(c) && (q == '"' || q == '\'') && Tight(l.name) && '=' !in l.name
    ensures s == l.name + b + ("=" + (c + ([q] + l.value + [q])))
  {
    var left, right := s[..e], s[e + 1..];
    var raw := Trim(right);
    AtCharacter(s, e, '=');
    NotBefore(s, '=');
    TrimHas(left, '=');
    b, c := BothRendered(s, left, l.name, right, raw);
    q := raw[0];
    Unquoted(raw, q, l.value);
  }

  lemma BothRendered(s: string, left: string, name: string, right: string, raw: string)
    returns (b: string, c: string)
    requires Tight(s) && s == left + ("=" + right) && Trim(left) == name != "" && Trim(right) == raw != ""
    ensures left == name + b && Spaces(b) && Tight(name) && right == c + raw && Spaces(c)
  {
    b := LeftRendered(left, s, right);
    c := RightRendered(right, s, left);
  }

  lemma LeftRendered(left: string, s: string, right: string) returns (b: string)
    requires Tight(s) && s == left + ("=" + right) && Trim(left) != ""
    ensures left == Trim(left) + b && Spaces(b) && Tight(Trim(left))
  {
    var a, d := TrimParts(left);
    NothingBefore(left, a, Trim(left), d, s, right);
    b := d;
  }

  lemma RightRendered(right: string, s: string, left: string) returns (c: string)
    requires Tight(s) && s == left + ("=" + right) && Trim(right) != ""
    ensures right == c + Trim(right) && Spaces(c) && Tight(Trim(right))
  {
    var a, d := TrimParts(right);
    NothingBehind(right, a, Trim(right), d, s, left);
    c := a;
  }

  /** The front of a trimmed text is not white space. */
  lemma NothingBefore(left: string, a: string, name: string, b: string, s: string, right: string)
    requires left == a + name + b && Spaces(a) && name != "" && Tight(s) && s == left + ("=" + right)
    ensures a == "" && left == name + b
  {
    assert forall i :: 0 <= i < |a| ==> s[i] == a[i];
  }

  lemma LastOf(front: string, d: string, s: string)
    requires s == front + d && Spaces(d) && s != "" && !IsSpace(s[|s| - 1])
    ensures d == ""
  {
    if d != "" {
      assert false;
    }
  }

  lemma NothingBehind(right: string, c: string, raw: string, d: string, s: string, left: string)
    requires right == c + raw + d && Spaces(d) && raw != "" && Tight(s) && s == left + ("=" + right)
    ensures d == "" && right == c + raw
  {
    LastOf(left + ("=" + (c + raw)), d, s);
  }

  lemma Unquoted(raw: string, q: char, value: string)
    requires QuotedBy(raw, q) && value == raw[1..|raw| - 1]
    ensures raw == [q] + value + [q]
  {
  }

  /** A piece between commas is read as a label iff it renders that label; only one of white
      space alone is passed over; any other refuses the line. */
  lemma PieceReadIff(text: string, l: Label)
    ensures ReadPiece(text) == Pair(l) <==> ReadsAs(text, l)
    ensures ReadPiece(text) == Blank <==> Spaces(text)
  {
    if ReadPiece(text) == Pair(l) {
      var a, b, c, q, d := ReadRendered(text, l);
    }
    if ReadsAs(text, l) {
      var a, b, c, q, d :| Renders(text, a, l, b, c, q, d);
      RenderedRead(text, a, l, b, c, q, d);
    }
    if Spaces(text) {
      TrimSpaces(text);
    }
    if ReadPiece(text) == Blank {
      var a, b := TrimParts(text);
    }
  }

  // ----- the labels --------------------------------------------------------

  /** The rows from `lo` on are, in order, all pieces but the blank ones, and read as these
      labels. */
  ghost predicate PiecesRead(pieces: seq<string>, lo: nat, rows: seq<nat>, labels: Labels) {
    && |rows| == |labels|
    && (forall k :: 0 <= k < |rows| ==> lo <= rows[k] < |pieces| && ReadsAs(pieces[rows[k]], labels[k]))
    && (forall j, k :: 0 <= j < k < |rows| ==> rows[j] < rows[k])
    && (forall i :: lo <= i < |pieces| ==> i in rows || Spaces(pieces[i]))
  }

  lemma {:induction false} ReadToRows(pieces: seq<string>, lo: nat, labels: Labels) returns (rows: seq<nat>)
    requires lo <= |pieces| && ReadPieces(pieces[lo..]) == Some(labels)
    ensures PiecesRead(pieces, lo, rows, labels)
    decreases |pieces| - lo
  {
    rows := [];
    if lo < |pieces| {
      var p := ReadPiece(pieces[lo]);
      assert pieces[lo..][1..] == pieces[lo + 1..];
      if p.Blank? {
        rows := ReadToRows(pieces, lo + 1, labels);
        PieceReadIff(pieces[lo], Label("", ""));
      } else {
        var rest := ReadPieces(pieces[lo + 1..]).value;
        rows := ReadToRows(pieces, lo + 1, rest);
        PieceReadIff(pieces[lo], p.pair);
        rows := RowsCons(pieces, lo, rows, rest, p.pair);
      }
    }
  }

  lemma RowsCons(pieces: seq<string>, lo: nat, rows: seq<nat>, labels: Labels, l: Label) returns (more: seq<nat>)
    requires lo < |pieces| && PiecesRead(pieces, lo + 1, rows, labels) && ReadsAs(pieces[lo], l)
    ensures PiecesRead(pieces, lo, more, [l] + labels)
  {
    var all := [l] + labels;
    more := [lo] + rows;
    forall k | 0 <= k < |more|
      ensures lo <= more[k] < |pieces| && ReadsAs(pieces[more[k]], all[k])
    {
      assert k > 0 ==> more[k] == rows[k - 1] && all[k] == labels[k - 1];
    }
    forall i | lo <= i < |pieces|
      ensures i in more || Spaces(pieces[i])
    {
      assert i in rows ==> i in more;
      assert more[0] == lo;
    }
  }

  lemma {:induction false} RowsToRead(pieces: seq<string>, lo: nat, rows: seq<nat>, labels: Labels)
    requires lo <= |pieces| && PiecesRead(pieces, lo, rows, labels)
    ensures ReadPieces(pieces[lo..]) == Some(labels)
    decreases |pieces| - lo
  {
    if lo < |pieces| {
      assert pieces[lo..][1..] == pieces[lo + 1..] && pieces[lo..][0] == pieces[lo];
      if rows != [] && rows[0] == lo {
        RowsTail(pieces, lo, rows, labels);
        RowsToRead(pieces, lo + 1, rows[1..], labels[1..]);
        PieceReadIff(pieces[lo], labels[0]);
        Uncons(labels);
      } else {
        assert lo !in rows;
        PieceReadIff(pieces[lo], Label("", ""));
        RowsToRead(pieces, lo + 1, rows, labels);
      }
    }
  }

  lemma RowsTail(pieces: seq<string>, lo: nat, rows: seq<nat>, labels: Labels)
    requires lo < |pieces| && PiecesRead(pieces, lo, rows, labels) && rows != [] && rows[0] == lo
    ensures PiecesRead(pieces, lo + 1, rows[1..], labels[1..])
  {
    forall i | lo + 1 <= i < |pieces|
      ensures i in rows[1..] || Spaces(pieces[i])
    {
      if i in rows {
        var k :| 0 <= k < |rows| && rows[k] == i;
        assert rows[1..][k - 1] == i;
      }
    }
  }

  /** Pieces separated by commas that read as these labels. */
  ghost predicate Lists(inner: string, pieces: seq<string>, rows: seq<nat>, labels: Labels) {
    pieces != [] && NoneHas(pieces, ',') && inner == Joined(pieces, ',') && PiecesRead(pieces, 0, rows, labels)
  }

  lemma ListReadIff(inner: string, labels: Labels)
    ensures ReadPieces(Split(inner, ',')) == Some(labels) <==> exists pieces, rows :: Lists(inner, pieces, rows, labels)
  {
    var split := Split(inner, ',');
    SplitJoined(inner, ',');
    SplitClean(inner, ',', ',');
    if ReadPieces(split) == Some(labels) {
      assert split[0..] == split;
      var rows := ReadToRows(split, 0, labels);
      assert Lists(inner, split, rows, labels);
    }
    if pieces, rows :| Lists(inner, pieces, rows, labels) {
      JoinedSplits(pieces, ',');
      assert pieces[0..] == pieces;
      RowsToRead(pieces, 0, rows, labels);
    }
  }

  // ----- the series --------------------------------------------------------

  /** A name with white space around it, the labels in braces, and anything behind them. */
  ghost predicate Braces(metric: string, a: string, name: string, b: string, inner: string, junk: string) {
    && Spaces(a) && Spaces(b) && Tight(name) && '{' !in name && '}' !in name && '}' !in inner
    && metric == a + name + b + ("{" + (inner + ("}" + junk)))
  }

  lemma BracesRead(metric: string, a: string, name: string, b: string, inner: string, junk: string)
    requires Braces(metric, a, name, b, inner, junk)
    ensures FormOf(metric) == Braced(name, inner)
  {
    var head := a + name + b;
    NoBraceAround(a, name, b, '{');
    NoBraceAround(a, name, b, '}');
    BraceSpots(metric, head, inner, junk);
    InnerAt(metric, head, inner, junk);
    TrimIs(a, name, b);
    FormIs(metric, |head|, |head| + 1 + |inner|, name, inner);
  }

  lemma BraceSpots(metric: string, head: string, inner: string, junk: string)
    requires metric == head + ("{" + (inner + ("}" + junk))) && '{' !in head && '}' !in head && '}' !in inner
    ensures First(metric, '{') == |head| && First(metric, '}') == |head| + 1 + |inner|
  {
    var behind := "}" + junk;
    FirstBehind(inner, behind, '}');
    FirstBehind("{", inner + behind, '}');
    FirstBehind(head, "{" + (inner + behind), '}');
    FirstBehind(head, "{" + (inner + behind), '{');
  }

  lemma InnerAt(metric: string, head: string, inner: string, junk: string)
    requires metric == head + ("{" + (inner + ("}" + junk)))
    ensures |head| + 1 + |inner| < |metric| && metric[..|head|] == head
    ensures metric[|head| + 1..|head| + 1 + |inner|] == inner
  {
    var rest := inner + ("}" + junk);
    ThreeParts(head, "{", rest, metric);
    SliceOfDrop(metric, |head| + 1, 0, |inner|);
    assert rest[0..|inner|] == inner;
  }

  lemma FormIs(metric: string, o: nat, c: nat, name: string, inner: string)
    requires First(metric, '{') == o && First(metric, '}') == c && o < c < |metric|
    requires Trim(metric[..o]) == name != "" && metric[o + 1..c] == inner
    ensures FormOf(metric) == Braced(name, inner)
  {
  }

  lemma NoBraceAround(a: string, name: string, b: string, c: char)
    requires Spaces(a) && Spaces(b) && c !in name && !IsSpace(c)
    ensures c !in a + name + b
  {
  }

  lemma ReadBraces(metric: string, name: string, inner: string) returns (a: string, b: string, junk: string)
    requires FormOf(metric) == Braced(name, inner)
    ensures Braces(metric, a, name, b, inner, junk)
  {
    var o, c := First(metric, '{'), First(metric, '}');
    a, b := TrimParts(metric[..o]);
    junk := metric[c + 1..];
    NotBefore(metric, '{');
    BraceLater(metric, o, c);
    TrimHas(metric[..o], '{');
    TrimHas(metric[..o], '}');
    AtBraces(metric, o, c);
  }

  lemma BraceLater(metric: string, o: nat, c: nat)
    requires c == First(metric, '}') && o < c
    ensures '}' !in metric[..o] && '}' !in metric[o + 1..c]
  {
  }

  lemma AtBraces(metric: string, o: nat, c: nat)
    requires o < c < |metric| && metric[o] == '{' && metric[c] == '}'
    ensures metric == metric[..o] + ("{" + (metric[o + 1..c] + ("}" + metric[c + 1..])))
  {
  }

  /** The series part: a name alone, or a name and labels in braces. */
  ghost predicate Series(metric: string, labels: Labels) {
    || ('{' !in metric && labels == [Label("__name__", metric)])
    || exists a, name, b, inner, junk, pieces, rows ::
         && Braces(metric, a, name, b, inner, junk) && labels != [] && labels[0] == Label("__name__", name)
         && Lists(inner, pieces, rows, labels[1..])
  }

  lemma SeriesReadIff(metric: string, labels: Labels)
    ensures ReadSeries(metric) == Some(labels) <==> Series(metric, labels)
  {
    if ReadSeries(metric) == Some(labels) && FormOf(metric).Braced? {
      var f := FormOf(metric);
      var a, b, junk := ReadBraces(metric, f.name, f.inner);
      var rest := ReadPieces(Split(f.inner, ',')).value;
      TailOfAppend([Label(NAME, f.name)], rest);
      AppendNil(rest);
      ListReadIff(f.inner, labels[1..]);
      var pieces, rows :| Lists(f.inner, pieces, rows, labels[1..]);
      assert Braces(metric, a, f.name, b, f.inner, junk);
    }
    if a, name, b, inner, junk, pieces, rows :|
      && Braces(metric, a, name, b, inner, junk) && labels != [] && labels[0] == Label("__name__", name)
      && Lists(inner, pieces, rows, labels[1..]) {
      BracesRead(metric, a, name, b, inner, junk);
      ListReadIff(inner, labels[1..]);
      Uncons(labels);
    }
  }

  // ----- the line ----------------------------------------------------------

  /** The series, ignored characters, white space, the value, and perhaps white space and a
      time. With braces the series ends with the last one; without it holds no space. */
  ghost predicate Divides(line: string, p: Parts, junk: string, gap: string, gap2: string) {
    && line == p.metric + (junk + (gap + (p.value + (gap2 + p.time))))
    && p.metric != "" && Spaceless(junk) && Spaces(gap) && gap != "" && p.value != "" && Spaceless(p.value)
    && Spaces(gap2) && (if p.time == "" then gap2 == "" else gap2 != "" && Tight(p.time))
    && '}' !in junk && '}' !in p.value && '}' !in p.time
    && (p.metric[|p.metric| - 1] == '}' || ('}' !in p.metric && junk == "" && Spaceless(p.metric)))
  }

  /** A tail that begins with white space and does not end with it. */
  lemma TailTrimmed(tail: string) returns (gap: string)
    requires tail != "" && IsSpace(tail[0]) && !IsSpace(tail[|tail| - 1])
    ensures tail == gap + Trim(tail) && gap != "" && Spaces(gap) && Tight(Trim(tail))
  {
    var a, b := TrimParts(tail);
    LastOf(a + Trim(tail), b, tail);
    gap := a;
    AppendNil(a + Trim(tail));
  }

  /** Value and time, from the white space in front of them. */
  lemma RestDivides(metric: string, tail: string, p: Parts) returns (gap: string, gap2: string)
    requires tail != "" && IsSpace(tail[0]) && !IsSpace(tail[|tail| - 1])
    requires SplitRest(metric, Trim(tail)) == Some(p)
    ensures p.metric == metric && tail == gap + (p.value + (gap2 + p.time))
    ensures gap != "" && Spaces(gap) && p.value != "" && Spaceless(p.value) && Spaces(gap2)
    ensures if p.time == "" then gap2 == "" else gap2 != "" && Tight(p.time)
  {
    gap := TailTrimmed(tail);
    var rest := Trim(tail);
    var k := FirstSpace(rest);
    if k < |rest| {
      gap2 := TailTrimmed(rest[k..]);
      TrimTight(rest[..k]);
      assert rest == rest[..k] + rest[k..];
    } else {
      gap2 := "";
    }
  }

  /** Where `SplitLine` divides: behind the last brace, or at the first white space. */
  lemma SplitPlace(line: string) returns (end: nat, at: nat)
    requires Tight(line)
    ensures 0 < end <= at <= |line| && SplitLine(line) == DivideAt(line, end, at)
    ensures at < |line| ==> IsSpace(line[at])
    ensures forall i :: end <= i < at ==> !IsSpace(line[i])
    ensures forall i :: end <= i < |line| ==> line[i] != '}'
    ensures line[end - 1] == '}' || (end == at && forall i :: 0 <= i < end ==> line[i] != '}' && !IsSpace(line[i]))
  {
    end := AfterLast(line, '}');
    if end > 0 {
      var k := FirstSpace(line[end..]);
      at := end + k;
      SpaceBehind(line, end, k);
      SplitBehind(line, end, k, DivideAt(line, end, at));
    } else {
      end := FirstSpace(line);
      at := end;
    }
  }

  lemma SpaceBehind(line: string, e: nat, k: nat)
    requires e <= |line| && k == FirstSpace(line[e..])
    ensures e + k <= |line| && (e + k < |line| ==> IsSpace(line[e + k]))
    ensures forall i :: e <= i < e + k ==> !IsSpace(line[i])
  {
    assert forall i :: e <= i < |line| ==> line[i] == line[e..][i - e];
  }

  lemma SplitDivides(line: string, p: Parts) returns (junk: string, gap: string, gap2: string)
    requires Tight(line) && SplitLine(line) == Some(p)
    ensures Divides(line, p, junk, gap, gap2)
  {
    var end, at := SplitPlace(line);
    junk := line[end..at];
    gap, gap2 := TailDivides(line, end, at, p);
    JunkPlain(line, end, at, p.metric, junk);
    DividesIs(line, p, junk, gap, gap2, line[at..]);
  }

  /** Behind the place of division stand the value and perhaps a time. */
  lemma TailDivides(line: string, end: nat, at: nat, p: Parts) returns (gap: string, gap2: string)
    requires Tight(line) && end <= at <= |line| && DivideAt(line, end, at) == Some(p)
    requires (at < |line| ==> IsSpace(line[at])) && forall i :: end <= i < |line| ==> line[i] != '}'
    ensures p.metric == line[..end] && line == p.metric + (line[end..at] + line[at..])
    ensures line[at..] == gap + (p.value + (gap2 + p.time)) && '}' !in line[at..]
    ensures gap != "" && Spaces(gap) && p.value != "" && Spaceless(p.value) && Spaces(gap2)
    ensures if p.time == "" then gap2 == "" else gap2 != "" && Tight(p.time)
  {
    Parted(line, end, at);
    SliceFree(line, at, |line|);
    gap, gap2 := RestDivides(line[..end], line[at..], p);
  }

  lemma JunkPlain(line: string, end: nat, at: nat, metric: string, junk: string)
    requires 0 < end <= at <= |line| && metric == line[..end] && junk == line[end..at]
    requires forall i :: end <= i < at ==> !IsSpace(line[i]) && line[i] != '}'
    requires line[end - 1] == '}' || (end == at && forall i :: 0 <= i < end ==> line[i] != '}' && !IsSpace(line[i]))
    ensures '}' !in junk && Spaceless(junk) && metric != ""
    ensures metric[|metric| - 1] == '}' || ('}' !in metric && junk == "" && Spaceless(metric))
  {
    SliceFree(line, end, at);
    MetricKept(line, end, at, metric, junk);
  }

  lemma Parted(line: string, end: nat, at: nat)
    requires end <= at < |line|
    ensures line == line[..end] + (line[end..at] + line[at..])
    ensures line[at..][0] == line[at] && line[at..][|line[at..]| - 1] == line[|line| - 1]
    ensures line[at..|line|] == line[at..]
  {
  }

  lemma SliceFree(line: string, lo: nat, hi: nat)
    requires lo <= hi <= |line| && forall i :: lo <= i < hi ==> line[i] != '}'
    ensures '}' !in line[lo..hi]
    ensures (forall i :: lo <= i < hi ==> !IsSpace(line[i])) ==> Spaceless(line[lo..hi])
  {
  }

  lemma MetricKept(line: string, end: nat, at: nat, metric: string, junk: string)
    requires 0 < end <= at <= |line| && metric == line[..end] && junk == line[end..at]
    requires line[end - 1] == '}' || (end == at && forall i :: 0 <= i < end ==> line[i] != '}' && !IsSpace(line[i]))
    ensures metric != ""
    ensures metric[|metric| - 1] == '}' || ('}' !in metric && junk == "" && Spaceless(metric))
  {
  }

  lemma NoBrace(whole: string, a: string, b: string)
    requires '}' !in whole && whole == a + b
    ensures '}' !in a && '}' !in b
  {
    assert forall i :: 0 <= i < |a| ==> whole[i] == a[i];
    assert forall i :: 0 <= i < |b| ==> whole[|a| + i] == b[i];
  }

  lemma DividesIs(line: string, p: Parts, junk: string, gap: string, gap2: string, tail: string)
    requires line == p.metric + (junk + tail) && tail == gap + (p.value + (gap2 + p.time))
    requires p.metric != "" && Spaceless(junk) && Spaces(gap) && gap != "" && p.value != "" && Spaceless(p.value)
    requires Spaces(gap2) && if p.time == "" then gap2 == "" else gap2 != "" && Tight(p.time)
    requires '}' !in junk && '}' !in tail
    requires p.metric[|p.metric| - 1] == '}' || ('}' !in p.metric && junk == "" && Spaceless(p.metric))
    ensures Divides(line, p, junk, gap, gap2)
  {
    NoBrace(tail, gap, p.value + (gap2 + p.time));
    NoBrace(p.value + (gap2 + p.time), p.value, gap2 + p.time);
    NoBrace(gap2 + p.time, gap2, p.time);
  }

  lemma DividesSplit(line: string, p: Parts, junk: string, gap: string, gap2: string)
    requires Divides(line, p, junk, gap, gap2)
    ensures SplitLine(line) == Some(p)
  {
    var tail := gap + (p.value + (gap2 + p.time));
    RestSplits(p, gap, gap2);
    BraceFree(gap, p.value, gap2, p.time);
    if p.metric[|p.metric| - 1] == '}' {
      SplitAfterBrace(line, p, junk, tail);
    } else {
      AppendNil(tail);
      SplitAtSpace(line, p, tail);
    }
  }

  /** The last brace ends the series, and white space begins behind the ignored characters. */
  lemma PlaceBehind(line: string, metric: string, junk: string, tail: string) returns (e: nat, k: nat)
    requires line == metric + (junk + tail) && metric != "" && metric[|metric| - 1] == '}'
    requires '}' !in junk && '}' !in tail && Spaceless(junk) && tail != "" && IsSpace(tail[0])
    ensures AfterLast(line, '}') == e && e > 0 && e + k < |line| && FirstSpace(line[e..]) == k
    ensures line[..e] == metric && line[e + k..] == tail
  {
    e, k := |metric|, |junk|;
    ThreeParts(metric, junk, tail, line);
    LastBrace(line, metric, junk, tail);
    FirstSpaceIs(junk + tail, |junk|);
  }

  lemma SplitBehind(line: string, e: nat, k: nat, r: Option<Parts>)
    requires AfterLast(line, '}') == e && e > 0 && FirstSpace(line[e..]) == k && DivideAt(line, e, e + k) == r
    ensures SplitLine(line) == r
  {
  }

  lemma SplitAfterBrace(line: string, p: Parts, junk: string, tail: string)
    requires line == p.metric + (junk + tail) && p.metric != "" && p.metric[|p.metric| - 1] == '}'
    requires '}' !in junk && '}' !in tail && Spaceless(junk) && tail != "" && IsSpace(tail[0])
    requires SplitRest(p.metric, Trim(tail)) == Some(p)
    ensures SplitLine(line) == Some(p)
  {
    var e, k := PlaceBehind(line, p.metric, junk, tail);
    SplitFound(line, e, k, p, tail);
  }

  lemma SplitFound(line: string, e: nat, k: nat, p: Parts, tail: string)
    requires AfterLast(line, '}') == e && e > 0 && FirstSpace(line[e..]) == k && e + k < |line|
    requires line[..e] == p.metric && line[e + k..] == tail && SplitRest(p.metric, Trim(tail)) == Some(p)
    ensures SplitLine(line) == Some(p)
  {
    DivideIs(line, e, e + k, p, p.metric, tail);
    SplitBehind(line, e, k, Some(p));
  }

  lemma DivideIs(line: string, end: nat, gap: nat, p: Parts, metric: string, tail: string)
    requires end <= gap < |line| && line[..end] == metric && line[gap..] == tail
    requires SplitRest(metric, Trim(tail)) == Some(p)
    ensures DivideAt(line, end, gap) == Some(p)
  {
  }

  lemma SplitAtSpace(line: string, p: Parts, tail: string)
    requires line == p.metric + tail && '}' !in p.metric && '}' !in tail && Spaceless(p.metric)
    requires tail != "" && IsSpace(tail[0]) && SplitRest(p.metric, Trim(tail)) == Some(p)
    ensures SplitLine(line) == Some(p)
  {
    AfterLastIs(line, '}', 0);
    FirstSpaceIs(line, |p.metric|);
    assert line[..|p.metric|] == p.metric && line[|p.metric|..] == tail;
  }

  lemma LastBrace(line: string, metric: string, junk: string, tail: string)
    requires line == metric + (junk + tail) && metric != "" && metric[|metric| - 1] == '}'
    requires '}' !in junk && '}' !in tail
    ensures AfterLast(line, '}') == |metric|
  {
    AfterLastIs(line, '}', |metric|);
  }

  lemma BraceFree(gap: string, value: string, gap2: string, time: string)
    requires Spaces(gap) && Spaces(gap2) && '}' !in value && '}' !in time
    ensures '}' !in gap + (value + (gap2 + time))
  {
    assert !IsSpace('}');
    assert '}' !in gap && '}' !in gap2;
    assert '}' !in gap2 + time;
    assert '}' !in value + (gap2 + time);
  }

  lemma RestSplits(p: Parts, gap: string, gap2: string)
    requires Spaces(gap) && p.value != "" && Spaceless(p.value) && Spaces(gap2)
    requires if p.time == "" then gap2 == "" else gap2 != "" && Tight(p.time)
    ensures SplitRest(p.metric, Trim(gap + (p.value + (gap2 + p.time)))) == Some(p)
  {
    var rest := p.value + (gap2 + p.time);
    var k := |p.value|;
    TightRest(p.value, gap2, p.time);
    TrimBefore(gap, rest);
    FirstSpaceIs(rest, k);
    if p.time != "" {
      assert rest[..k] == p.value && rest[k..] == gap2 + p.time;
      TrimTight(p.value);
      TrimBefore(gap2, p.time);
    } else {
      AppendNil(p.value);
    }
  }

  lemma TightRest(value: string, gap2: string, time: string)
    requires value != "" && Spaceless(value)
    requires if time == "" then gap2 == "" else gap2 != "" && Tight(time)
    ensures Tight(value + (gap2 + time))
  {
  }

  /** A trimmed line is divided into its parts exactly as the grammar says; any other line is
      refused. */
  lemma LineSplitIff(line: string, p: Parts)
    requires Tight(line)
    ensures SplitLine(line) == Some(p) <==> exists junk, gap, gap2 :: Divides(line, p, junk, gap, gap2)
  {
    if SplitLine(line) == Some(p) {
      var junk, gap, gap2 := SplitDivides(line, p);
    }
    if junk, gap, gap2 :| Divides(line, p, junk, gap, gap2) {
      DividesSplit(line, p, junk, gap, gap2);
    }
  }

  /** A text that stands for these labels, this value and this time. */
  ghost predicate Means(n: Numbers, line: string, now: i64, labels: Labels, x: Sample) {
    exists a, trimmed, b, p, junk, gap, gap2 ::
      && Spaces(a) && Spaces(b) && line == a + trimmed + b && Tight(trimmed)
      && Divides(trimmed, p, junk, gap, gap2) && Series(p.metric, labels)
      && n.parseValue(p.value) == Some(x.value)
      && (if p.time == "" then x.timestamp == now else n.parseTime(p.time) == Some(x.timestamp))
  }

  lemma LineMeant(n: Numbers, line: string, now: i64, r: (Labels, Sample)) returns (labels: Labels)
    requires ReadLine(n, line, now) == Some(r)
    ensures r.0 == SortByName(labels) && Means(n, line, now, labels, r.1)
  {
    var trimmed := Trim(line);
    var a, b := TrimParts(line);
    assert trimmed != "";
    var p := SplitLine(trimmed).value;
    var junk, gap, gap2 := SplitDivides(trimmed, p);
    labels := ReadSeries(p.metric).value;
    SeriesReadIff(p.metric, labels);
  }

  lemma MeaningRead(n: Numbers, line: string, now: i64, labels: Labels, x: Sample)
    requires Means(n, line, now, labels, x)
    ensures ReadLine(n, line, now) == Some((SortByName(labels), x))
  {
    var a, trimmed, b, p, junk, gap, gap2 :|
      && Spaces(a) && Spaces(b) && line == a + trimmed + b && Tight(trimmed)
      && Divides(trimmed, p, junk, gap, gap2) && Series(p.metric, labels)
      && n.parseValue(p.value) == Some(x.value)
      && (if p.time == "" then x.timestamp == now else n.parseTime(p.time) == Some(x.timestamp));
    TrimIs(a, trimmed, b);
    DividesSplit(trimmed, p, junk, gap, gap2);
    SeriesReadIff(p.metric, labels);
  }

  /** The parser accepts a line with a result iff the grammar gives the line that meaning, the
      labels sorted by name; so it accepts no other line, and no line has two meanings. */
  lemma LineReadIff(n: Numbers, line: string, now: i64, r: (Labels, Sample))
    ensures ReadLine(n, line, now) == Some(r) <==>
            exists labels :: Means(n, line, now, labels, r.1) && r.0 == SortByName(labels)
  {
    if ReadLine(n, line, now) == Some(r) {
      var labels := LineMeant(n, line, now, r);
    }
    if labels :| Means(n, line, now, labels, r.1) && r.0 == SortByName(labels) {
      MeaningRead(n, line, now, labels, r.1);
    }
  }
}

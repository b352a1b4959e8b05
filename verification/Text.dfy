/** The string operations of Rust's standard library that the text formats use:
    trimming, searching, splitting and joining. */
module Text {
  import opened Machine

  /** `char::is_whitespace`: the Unicode property White_Space. */
  predicate IsSpace(c: char) {
    || '\t' <= c <= '\r' || c == ' ' || c == '\U{85}' || c == '\U{A0}' || c == '\U{1680}'
    || '\U{2000}' <= c <= '\U{200A}' || c == '\U{2028}' || c == '\U{2029}' || c == '\U{202F}'
    || c == '\U{205F}' || c == '\U{3000}'
  }

  function TrimStart(s: string): (r: string) {
    if s != "" && IsSpace(s[0]) then TrimStart(s[1..]) else s
  }

  function TrimEnd(s: string): (r: string)
    ensures |r| <= |s|
  {
    if s != "" && IsSpace(s[|s| - 1]) then TrimEnd(s[..|s| - 1]) else s
  }

  function Trim(s: string): (r: string) {
    TrimEnd(TrimStart(s))
  }

  /** Neither end is white space. */
  predicate Tight(s: string) {
    s != "" && !IsSpace(s[0]) && !IsSpace(s[|s| - 1])
  }

  predicate Spaceless(s: string) {
    forall i :: 0 <= i < |s| ==> !IsSpace(s[i])
  }

  /** Position of the first occurrence, or the length if there is none. */
  function First(s: string, c: char): (i: nat)
    ensures i <= |s|
    ensures i < |s| ==> s[i] == c
    ensures forall j :: 0 <= j < i ==> s[j] != c
  {
    if s == "" || s[0] == c then 0 else 1 + First(s[1..], c)
  }

  function FirstSpace(s: string): (i: nat)
    ensures i <= |s|
    ensures i < |s| ==> IsSpace(s[i])
    ensures forall j :: 0 <= j < i ==> !IsSpace(s[j])
  {
    if s == "" || IsSpace(s[0]) then 0 else 1 + FirstSpace(s[1..])
  }

  /** The position after the last occurrence, or 0 if there is none. */
  function AfterLast(s: string, c: char): (i: nat)
    ensures i <= |s|
    ensures i > 0 ==> s[i - 1] == c
    ensures forall j :: i <= j < |s| ==> s[j] != c
  {
    if s == "" || s[|s| - 1] == c then |s| else AfterLast(s[..|s| - 1], c)
  }

  function Split(s: string, c: char): (r: seq<string>)
    decreases |s|
  {
    var i := First(s, c);
    if i == |s| then [s] else [s[..i]] + Split(s[i + 1..], c)
  }

  /** `str::lines`: a carriage return goes with the line feed it precedes. */
  function Lines(s: string): (r: seq<string>)
    decreases |s|
  {
    var i := First(s, '\n');
    if i == |s| then (if s == "" then [] else [s]) else [Chomp(s[..i])] + Lines(s[i + 1..])
  }

  function Chomp(s: string): string {
    if s != "" && s[|s| - 1] == '\r' then s[..|s| - 1] else s
  }

  lemma FirstIs(s: string, c: char, i: nat)
    requires i <= |s| && (i < |s| ==> s[i] == c)
    requires forall j :: 0 <= j < i ==> s[j] != c
    ensures First(s, c) == i
  {
    var p := First(s, c);
    assert !(p < i) && !(i < p);
  }

  lemma NotBefore(s: string, c: char)
    ensures c !in s[..First(s, c)]
  {
  }

  lemma FirstBehind(a: string, b: string, c: char)
    requires c !in a
    ensures First(a + b, c) == |a| + First(b, c)
  {
    FirstIs(a + b, c, |a| + First(b, c));
  }

  lemma FirstSpaceIs(s: string, i: nat)
    requires i <= |s| && (i < |s| ==> IsSpace(s[i]))
    requires forall j :: 0 <= j < i ==> !IsSpace(s[j])
    ensures FirstSpace(s) == i
  {
    var p := FirstSpace(s);
    assert !(p < i) && !(i < p);
  }

  lemma AfterLastIs(s: string, c: char, i: nat)
    requires i <= |s| && (i > 0 ==> s[i - 1] == c)
    requires forall j :: i <= j < |s| ==> s[j] != c
    ensures AfterLast(s, c) == i
  {
    var p := AfterLast(s, c);
    assert !(i < p) && !(p < i);
  }

  lemma TrimTight(s: string)
    requires Tight(s)
    ensures Trim(s) == s
  {
  }

  /** Trimming the end stops at a character that is no white space. */
  lemma {:induction false} TrimEndStops(a: string, b: string)
    requires a != "" && !IsSpace(a[|a| - 1])
    ensures TrimEnd(a + b) == a + TrimEnd(b)
    decreases |b|
  {
    if b == "" {
      assert a + b == a;
    } else if IsSpace(b[|b| - 1]) {
      assert (a + b)[..|a + b| - 1] == a + b[..|b| - 1];
      TrimEndStops(a, b[..|b| - 1]);
    }
  }

  predicate Spaces(s: string) {
    forall i :: 0 <= i < |s| ==> IsSpace(s[i])
  }

  lemma {:induction false} TrimStartParts(s: string) returns (a: string)
    ensures s == a + TrimStart(s) && Spaces(a) && (TrimStart(s) == "" || !IsSpace(TrimStart(s)[0]))
  {
    a := "";
    if s != "" && IsSpace(s[0]) {
      a := TrimStartParts(s[1..]);
      a := [s[0]] + a;
    }
  }

  lemma {:induction false} TrimEndParts(s: string) returns (b: string)
    ensures s == TrimEnd(s) + b && Spaces(b) && (TrimEnd(s) == "" || !IsSpace(TrimEnd(s)[|TrimEnd(s)| - 1]))
  {
    b := "";
    if s != "" && IsSpace(s[|s| - 1]) {
      b := TrimEndParts(s[..|s| - 1]);
      b := b + [s[|s| - 1]];
    }
  }

  /** Trimming takes white space off both ends, all of it and nothing else. */
  lemma TrimParts(s: string) returns (a: string, b: string)
    ensures s == a + Trim(s) + b && Spaces(a) && Spaces(b) && (Trim(s) == "" || Tight(Trim(s)))
  {
    a := TrimStartParts(s);
    var t := TrimStart(s);
    b := TrimEndParts(t);
    FrontKept(t, TrimEnd(t), b);
    Assoc(a, TrimEnd(t), b);
  }

  lemma FrontKept(t: string, e: string, b: string)
    requires t == e + b && (t == "" || !IsSpace(t[0])) && (e == "" || !IsSpace(e[|e| - 1]))
    ensures e == "" || Tight(e)
  {
    assert e != "" ==> t[0] == e[0];
  }

  lemma {:induction false} TrimStartStops(a: string, r: string)
    requires Spaces(a) && (r == "" || !IsSpace(r[0]))
    ensures TrimStart(a + r) == r
  {
    if a == "" {
      AppendNil(r);
    } else {
      TailOfAppend(a, r);
      TrimStartStops(a[1..], r);
    }
  }

  lemma {:induction false} TrimEndSpaces(b: string)
    requires Spaces(b)
    ensures TrimEnd(b) == ""
  {
    if b != "" {
      TrimEndSpaces(b[..|b| - 1]);
    }
  }

  lemma TrimSpaces(s: string)
    requires Spaces(s)
    ensures Trim(s) == ""
  {
    TrimStartStops(s, "");
    AppendNil(s);
  }

  lemma TrimIs(a: string, t: string, b: string)
    requires Spaces(a) && Spaces(b) && Tight(t)
    ensures Trim(a + t + b) == t
  {
    Assoc(a, t, b);
    TrimStartStops(a, t + b);
    TrimEndStops(t, b);
    TrimEndSpaces(b);
    AppendNil(t);
  }

  /** The text is empty or ends with its last line. */
  predicate EndsLine(s: string) {
    s == "" || s[|s| - 1] == '\n'
  }

  lemma {:induction false} LinesAppend(a: string, b: string)
    requires EndsLine(a)
    ensures Lines(a + b) == Lines(a) + Lines(b)
    decreases |a|
  {
    if a == "" {
      assert a + b == b;
    } else {
      var i := First(a, '\n');
      FirstIs(a + b, '\n', i);
      assert (a + b)[..i] == a[..i] && (a + b)[i + 1..] == a[i + 1..] + b;
      LinesAppend(a[i + 1..], b);
      Assoc([Chomp(a[..i])], Lines(a[i + 1..]), Lines(b));
    }
  }

  // ----- no character appears from nowhere ---------------------------------

  lemma {:induction false} TrimStartHas(s: string, c: char)
    ensures c in TrimStart(s) ==> c in s
  {
    if s != "" && IsSpace(s[0]) {
      TrimStartHas(s[1..], c);
    }
  }

  lemma {:induction false} TrimEndHas(s: string, c: char)
    ensures c in TrimEnd(s) ==> c in s
  {
    if s != "" && IsSpace(s[|s| - 1]) {
      TrimEndHas(s[..|s| - 1], c);
    }
  }

  lemma TrimHas(s: string, c: char)
    ensures c in Trim(s) ==> c in s
  {
    TrimStartHas(s, c);
    TrimEndHas(TrimStart(s), c);
  }

  ghost predicate NoneHas(texts: seq<string>, c: char) {
    forall i :: 0 <= i < |texts| ==> c !in texts[i]
  }

  /** No piece holds the separator, nor what the whole does not hold. */
  lemma {:induction false} SplitClean(s: string, c: char, d: char)
    requires d == c || d !in s
    ensures NoneHas(Split(s, c), d)
    decreases |s|
  {
    var i := First(s, c);
    if i < |s| {
      SplitClean(s[i + 1..], c, d);
    }
  }

  lemma {:induction false} LinesClean(s: string)
    ensures NoneHas(Lines(s), '\n')
    decreases |s|
  {
    var i := First(s, '\n');
    if i < |s| {
      LinesClean(s[i + 1..]);
    }
  }

  lemma SplitFirst(a: string, c: char, b: string)
    requires c !in a
    ensures Split(a + [c] + b, c) == [a] + Split(b, c)
  {
    var s := a + [c] + b;
    FirstIs(s, c, |a|);
    assert s[..|a|] == a && s[|a| + 1..] == b;
  }

  lemma SplitOne(a: string, c: char)
    requires c !in a
    ensures Split(a, c) == [a]
  {
    FirstIs(a, c, |a|);
  }

  /** A line end of carriage return and line feed is taken off as a whole. */
  lemma LinesCrlf(a: string, b: string)
    requires '\n' !in a
    ensures Lines(a + "\r\n" + b) == [a] + Lines(b)
  {
    var line := a + "\r";
    assert a + "\r\n" + b == line + "\n" + b && line[..|line| - 1] == a;
    LinesFirst(line, b);
  }

  /** The pieces with the separator between them. */
  function Joined(pieces: seq<string>, c: char): string
    requires pieces != []
  {
    if |pieces| == 1 then pieces[0] else pieces[0] + [c] + Joined(pieces[1..], c)
  }

  /** Splitting undoes joining, and is undone by it. */
  lemma {:induction false} SplitJoined(s: string, c: char)
    ensures Split(s, c) != [] && Joined(Split(s, c), c) == s
    decreases |s|
  {
    var i := First(s, c);
    if i < |s| {
      SplitJoined(s[i + 1..], c);
      JoinedCons(s[..i], Split(s[i + 1..], c), c);
      AtCharacter(s, i, c);
      Assoc(s[..i], [c], s[i + 1..]);
    }
  }

  lemma JoinedCons(x: string, rest: seq<string>, c: char)
    requires rest != []
    ensures Joined([x] + rest, c) == x + [c] + Joined(rest, c)
  {
    TailOfAppend([x], rest);
    AppendNil(rest);
  }

  lemma AtCharacter(s: string, i: nat, c: char)
    requires i < |s| && s[i] == c
    ensures s == s[..i] + ([c] + s[i + 1..])
  {
  }

  lemma {:induction false} JoinedSplits(pieces: seq<string>, c: char)
    requires pieces != [] && NoneHas(pieces, c)
    ensures Split(Joined(pieces, c), c) == pieces
    decreases |pieces|
  {
    if |pieces| == 1 {
      SplitOne(pieces[0], c);
    } else {
      JoinedSplits(pieces[1..], c);
      SplitFirst(pieces[0], c, Joined(pieces[1..], c));
      Uncons(pieces);
    }
  }

  lemma LinesFirst(a: string, b: string)
    requires '\n' !in a
    ensures Lines(a + "\n" + b) == [Chomp(a)] + Lines(b)
  {
    var s := a + "\n" + b;
    FirstIs(s, '\n', |a|);
    assert s[..|a|] == a && s[|a| + 1..] == b;
  }
}

/** Sorting labels by name, as `sort_by` does: stable, with strings compared by
    their characters in order. */
module LabelOrder {
  import opened Machine
  import opened Model

  /** Byte order of UTF-8 text is the order of its characters. */
  predicate Le(a: string, b: string) {
    a == "" || (b != "" && (a[0] < b[0] || (a[0] == b[0] && Le(a[1..], b[1..]))))
  }

  function Place(x: Label, s: Labels): (r: Labels) {
    if s == [] || Le(x.name, s[0].name) then [x] + s else [s[0]] + Place(x, s[1..])
  }

  function SortByName(s: Labels): (r: Labels) {
    if s == [] then [] else Place(s[0], SortByName(s[1..]))
  }

  /** The labels of one name, in order. */
  function Named(s: Labels, n: string): (r: Labels) {
    if s == [] then [] else (if s[0].name == n then [s[0]] else []) + Named(s[1..], n)
  }

  predicate Ascending(s: Labels) {
    forall i, j :: 0 <= i < j < |s| ==> Le(s[i].name, s[j].name)
  }

  predicate Distinct(s: Labels) {
    forall i, j :: 0 <= i < j < |s| ==> s[i].name != s[j].name
  }

  /** The same labels of every name, in the same order. */
  ghost predicate SameNamed(a: Labels, b: Labels) {
    forall n :: Named(a, n) == Named(b, n)
  }

  lemma {:induction false} LeTotal(a: string, b: string)
    ensures Le(a, b) || Le(b, a)
    ensures Le(a, b) && Le(b, a) ==> a == b
  {
    if a != "" && b != "" && a[0] == b[0] {
      LeTotal(a[1..], b[1..]);
      Uncons(a);
      Uncons(b);
    }
  }

  lemma {:induction false} LeTransitive(a: string, b: string, c: string)
    requires Le(a, b) && Le(b, c)
    ensures Le(a, c)
  {
    if a != "" && a[0] == b[0] == c[0] {
      LeTransitive(a[1..], b[1..], c[1..]);
    }
  }

  lemma {:induction false} PlacePermutes(x: Label, s: Labels)
    ensures multiset(Place(x, s)) == multiset{x} + multiset(s)
  {
    if s != [] && !Le(x.name, s[0].name) {
      PlacePermutes(x, s[1..]);
      Uncons(s);
    }
  }

  lemma {:induction false} SortPermutes(s: Labels)
    ensures multiset(SortByName(s)) == multiset(s)
  {
    if s != [] {
      SortPermutes(s[1..]);
      PlacePermutes(s[0], SortByName(s[1..]));
      Uncons(s);
    }
  }

  lemma {:induction false} PlaceAscending(x: Label, s: Labels)
    requires Ascending(s)
    ensures Ascending(Place(x, s))
  {
    if s == [] {
    } else if Le(x.name, s[0].name) {
      forall j | 0 <= j < |s|
        ensures Le(x.name, s[j].name)
      {
        if j > 0 {
          LeTransitive(x.name, s[0].name, s[j].name);
        }
      }
    } else {
      var rest := Place(x, s[1..]);
      PlaceAscending(x, s[1..]);
      PlacePermutes(x, s[1..]);
      LeTotal(x.name, s[0].name);
      forall j | 0 <= j < |rest|
        ensures Le(s[0].name, rest[j].name)
      {
        assert rest[j] in multiset(rest);
        assert rest[j] == x || rest[j] in s[1..];
      }
    }
  }

  lemma {:induction false} SortAscending(s: Labels)
    ensures Ascending(SortByName(s))
  {
    if s != [] {
      SortAscending(s[1..]);
      PlaceAscending(s[0], SortByName(s[1..]));
    }
  }

  lemma {:induction false} PlaceStable(x: Label, s: Labels, n: string)
    ensures Named(Place(x, s), n) == (if x.name == n then [x] else []) + Named(s, n)
  {
    if s == [] || Le(x.name, s[0].name) {
      TailOfAppend([x], s);
      AppendNil(s);
    } else {
      var rest := Place(x, s[1..]);
      PlaceStable(x, s[1..], n);
      TailOfAppend([s[0]], rest);
      AppendNil(rest);
      LeTotal(x.name, s[0].name);
      PassEmpty(if s[0].name == n then [s[0]] else [], if x.name == n then [x] else [], Named(s[1..], n));
    }
  }

  lemma PassEmpty<T>(a: seq<T>, b: seq<T>, c: seq<T>)
    requires a == [] || b == []
    ensures a + (b + c) == b + (a + c)
  {
  }

  /** Labels of the same name keep their order. */
  lemma {:induction false} SortStable(s: Labels, n: string)
    ensures Named(SortByName(s), n) == Named(s, n)
  {
    if s != [] {
      SortStable(s[1..], n);
      PlaceStable(s[0], SortByName(s[1..]), n);
    }
  }

  lemma {:induction false} NamedHas(s: Labels, l: Label)
    ensures l in Named(s, l.name) <==> l in s
  {
    if s != [] {
      NamedHas(s[1..], l);
      Uncons(s);
    }
  }

  lemma {:induction false} NamedOnly(s: Labels, n: string)
    ensures forall i :: 0 <= i < |Named(s, n)| ==> Named(s, n)[i].name == n
    ensures Distinct(s) ==> |Named(s, n)| <= 1
  {
    if s != [] {
      NamedOnly(s[1..], n);
      if Distinct(s) && Named(s[1..], n) != [] {
        var l := Named(s[1..], n)[0];
        NamedHas(s[1..], l);
        assert l in s[1..];
      }
    }
  }

  lemma HeadFirst(a: Labels, b: Labels)
    requires Ascending(b) && a != [] && b != [] && Named(b, a[0].name) == Named(a, a[0].name)
    ensures Le(b[0].name, a[0].name)
  {
    NamedHas(a, a[0]);
    NamedHas(b, a[0]);
    var j :| 0 <= j < |b| && b[j] == a[0];
    if j == 0 {
      LeTotal(b[0].name, b[0].name);
    }
  }

  /** An ascending list is determined by its labels of each name. */
  lemma {:induction false} AscendingUnique(a: Labels, b: Labels)
    requires Ascending(a) && Ascending(b)
    requires SameNamed(a, b)
    ensures a == b
  {
    if a == [] || b == [] {
      HeadNamed(a);
      HeadNamed(b);
    } else {
      HeadFirst(a, b);
      HeadFirst(b, a);
      LeTotal(a[0].name, b[0].name);
      assert Named(a, a[0].name)[0] == a[0] && Named(b, b[0].name)[0] == b[0];
      forall n
        ensures Named(a[1..], n) == Named(b[1..], n)
      {
        assert Named(a, n) == Named(b, n);
        TailNamed(a, n);
        TailNamed(b, n);
      }
      AscendingUnique(a[1..], b[1..]);
      Uncons(a);
      Uncons(b);
    }
  }

  lemma HeadNamed(a: Labels)
    ensures a != [] ==> Named(a, a[0].name) != []
  {
  }

  lemma TailNamed(a: Labels, n: string)
    requires a != []
    ensures Named(a[1..], n) == if a[0].name == n then Named(a, n)[1..] else Named(a, n)
  {
  }

  /** The sorted list is the only ascending one that keeps the order of labels of the
      same name. */
  lemma SortDetermined(s: Labels, r: Labels)
    ensures r == SortByName(s) <==> Ascending(r) && SameNamed(r, s)
  {
    SortAscending(s);
    forall n
      ensures Named(SortByName(s), n) == Named(s, n)
    {
      SortStable(s, n);
    }
    if Ascending(r) && SameNamed(r, s) {
      assert SameNamed(r, SortByName(s));
      AscendingUnique(r, SortByName(s));
    }
  }

  lemma DistinctNamed(a: Labels, b: Labels, n: string)
    requires Distinct(a) && multiset(a) == multiset(b)
    ensures Named(a, n) == Named(b, n)
  {
    DistinctPermuted(a, b);
    NamedOnly(a, n);
    NamedOnly(b, n);
    if Named(a, n) != [] {
      SameOnly(a, b, n);
    }
    if Named(b, n) != [] {
      SameOnly(b, a, n);
    }
  }

  lemma SameOnly(a: Labels, b: Labels, n: string)
    requires |Named(a, n)| == 1 && Named(a, n)[0].name == n && |Named(b, n)| <= 1 && multiset(a) == multiset(b)
    ensures Named(a, n) == Named(b, n)
  {
    var l := Named(a, n)[0];
    assert l in Named(a, n);
    NamedHas(a, l);
    assert l in multiset(b);
    NamedHas(b, l);
  }

  lemma DistinctPermuted(a: Labels, b: Labels)
    requires Distinct(a) && multiset(a) == multiset(b)
    ensures Distinct(b)
  {
    forall i, j | 0 <= i < j < |b|
      ensures b[i].name != b[j].name
    {
      if b[i].name == b[j].name {
        assert b[i] in multiset(b) && b[j] in multiset(b);
        var p :| 0 <= p < |a| && a[p] == b[i];
        var q :| 0 <= q < |a| && a[q] == b[j];
        assert p == q;
        Twice(b, i, j);
        Once(a, p);
      }
    }
  }

  lemma Twice(s: Labels, i: nat, j: nat)
    requires i < j < |s| && s[i] == s[j]
    ensures multiset(s)[s[i]] >= 2
  {
    assert s == s[..j] + s[j..];
    assert s[i] == s[..j][i] && s[j] == s[j..][0];
    assert s[i] in multiset(s[..j]) && s[i] in multiset(s[j..]);
    assert multiset(s) == multiset(s[..j]) + multiset(s[j..]);
  }

  lemma Once(s: Labels, i: nat)
    requires Distinct(s) && i < |s|
    ensures multiset(s)[s[i]] == 1
  {
    var a, b := s[..i], s[i + 1..];
    assert s == a + [s[i]] + b;
    assert s[i] !in a && s[i] !in b;
    assert multiset(s) == multiset(a) + multiset{s[i]} + multiset(b);
  }

  /** The order in which a map yields its labels does not show after sorting. */
  lemma SortForgetsOrder(first: Label, a: Labels, b: Labels)
    requires Distinct(a) && multiset(a) == multiset(b)
    ensures SortByName([first] + a) == SortByName([first] + b)
  {
    var x, y := [first] + a, [first] + b;
    forall n
      ensures Named(SortByName(x), n) == Named(y, n)
    {
      SortStable(x, n);
      DistinctNamed(a, b, n);
      TailOfAppend([first], a);
      TailOfAppend([first], b);
      AppendNil(a);
      AppendNil(b);
    }
    SortAscending(x);
    SortDetermined(y, SortByName(x));
  }
}

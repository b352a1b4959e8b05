/** The orders in which a hash set or map can be walked: every key exactly once. */
module Orders {

  ghost predicate Walks<T(!new)>(order: seq<T>, s: set<T>) {
    && (forall x :: x in order <==> x in s)
    && (forall i, j :: 0 <= i < j < |order| ==> order[i] != order[j])
  }

  ghost function Walk<T(!new)>(s: set<T>): (order: seq<T>) {
    if s == {} then [] else var x :| x in s; [x] + Walk(s - {x})
  }

  lemma {:induction false} WalkCovers<T(!new)>(s: set<T>)
    ensures Walks(Walk(s), s)
  {
    if s != {} {
      var x :| x in s && Walk(s) == [x] + Walk(s - {x});
      WalkCovers(s - {x});
      WalksCons(x, Walk(s - {x}), s);
    }
  }

  lemma WalksEmpty<T(!new)>(order: seq<T>)
    requires Walks(order, {})
    ensures order == []
  {
    WalksFirst(order, {});
  }

  lemma WalksFirst<T(!new)>(order: seq<T>, s: set<T>)
    requires Walks(order, s)
    ensures order != [] ==> order[0] in s
  {
    assert order == [] || order[0] in order;
  }

  lemma WalksCons<T(!new)>(x: T, rest: seq<T>, s: set<T>)
    requires x in s && Walks(rest, s - {x})
    ensures Walks([x] + rest, s)
  {
    var order := [x] + rest;
    assert forall i :: 0 <= i < |rest| ==> rest[i] in rest;
    forall y
      ensures y in order <==> y in s
    {
      assert y in order <==> y == x || y in rest;
    }
  }

  lemma WalksTail<T(!new)>(order: seq<T>, s: set<T>)
    requires Walks(order, s) && order != []
    ensures order[0] in s && Walks(order[1..], s - {order[0]})
  {
    var rest := order[1..];
    assert order == [order[0]] + rest;
    forall y
      ensures y in rest <==> y in s - {order[0]}
    {
      if y in rest {
        var i :| 0 <= i < |rest| && rest[i] == y;
        assert order[i + 1] == y;
      }
    }
  }

  /** Leaving one key out of a walk. */
  lemma WalksWithout<T(!new)>(order: seq<T>, s: set<T>, p: nat)
    requires Walks(order, s) && p < |order|
    ensures order[p] in s && Walks(order[..p] + order[p + 1..], s - {order[p]})
  {
    var x, rest := order[p], order[..p] + order[p + 1..];
    forall i | 0 <= i < |rest|
      ensures rest[i] == order[if i < p then i else i + 1]
    {
    }
    forall y
      ensures y in rest <==> y in s - {x}
    {
      if y in rest {
        var i :| 0 <= i < |rest| && rest[i] == y;
        assert order[if i < p then i else i + 1] == y;
      }
      if y in s - {x} {
        var i :| 0 <= i < |order| && order[i] == y;
        assert rest[if i < p then i else i - 1] == y;
      }
    }
    assert x in order;
  }

  /** Two walks with a key between them. */
  lemma WalksJoin<T(!new)>(a: seq<T>, x: T, b: seq<T>, s: set<T>, t: set<T>)
    requires Walks(a, s) && Walks(b, t) && s !! t && x !in s && x !in t
    ensures Walks(a + [x] + b, s + {x} + t)
  {
    var order := a + [x] + b;
    forall y
      ensures y in order <==> y in s + {x} + t
    {
      assert y in order <==> y in a || y == x || y in b;
    }
    forall i, j | 0 <= i < j < |order|
      ensures order[i] != order[j]
    {
      assert order[i] in a || order[i] == x || order[i] in b;
      assert i < |a| ==> a[i] in a;
      assert j > |a| ==> b[j - |a| - 1] in b;
    }
  }

  /** The keys before one of the keys of a walk. */
  lemma WalksFront<T(!new)>(order: seq<T>, s: set<T>, p: nat) returns (front: set<T>)
    requires Walks(order, s) && p < |order|
    ensures Walks(order[..p], front) && front <= s - {order[p]}
  {
    front := set x | x in order[..p];
    forall x | x in front
      ensures x in s - {order[p]}
    {
      assert x in order;
    }
  }
}

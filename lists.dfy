/**
 * Python list operations on lists of values: `list.remove(x)`, which deletes
 * the first element equal to `x`, repeated removal, and order-preserving
 * filtering.
 */
module Lists {

  /** The distinct elements of `s`. */
  function Elements<T>(s: seq<T>): set<T> {
    set x | x in s
  }

  /** `s.remove(x)`: the first element equal to `x` is deleted (Python raises if there is none). */
  function RemoveFirst<T(==)>(s: seq<T>, x: T): (r: seq<T>)
    requires x in s
    ensures |r| == |s| - 1
  {
    if s[0] == x then s[1..] else [s[0]] + RemoveFirst(s[1..], x)
  }

  /** `remove` takes away exactly one occurrence of the value. */
  lemma {:induction false} RemoveFirstCount<T>(s: seq<T>, x: T)
    requires x in s
    ensures multiset(RemoveFirst(s, x)) == multiset(s) - multiset{x}
  {
    assert s == [s[0]] + s[1..];
    if s[0] != x {
      RemoveFirstCount(s[1..], x);
    }
  }

  /** `for x in rs: s.remove(x)`. */
  function RemoveEach<T(==)>(s: seq<T>, rs: seq<T>): (r: seq<T>)
    requires multiset(rs) <= multiset(s)
    ensures multiset(r) == multiset(s) - multiset(rs)
    decreases |rs|
  {
    if rs == [] then s
    else
      assert rs == [rs[0]] + rs[1..];
      assert rs[0] in multiset(rs);
      assert rs[0] in multiset(s);
      RemoveFirstCount(s, rs[0]);
      RemoveEach(RemoveFirst(s, rs[0]), rs[1..])
  }

  /** The elements of `s` outside `xs`, in their order. */
  function Drop<T>(s: seq<T>, xs: set<T>): seq<T> {
    if s == [] then [] else (if s[0] in xs then [] else [s[0]]) + Drop(s[1..], xs)
  }

  lemma {:induction false} DropAppend<T>(s: seq<T>, x: T, xs: set<T>)
    ensures Drop(s + [x], xs) == Drop(s, xs) + (if x in xs then [] else [x])
  {
    if s != [] {
      assert (s + [x])[1..] == s[1..] + [x];
      DropAppend(s[1..], x, xs);
    }
  }

  lemma {:induction false} DropNothing<T>(s: seq<T>, xs: set<T>)
    requires forall i :: 0 <= i < |s| ==> s[i] !in xs
    ensures Drop(s, xs) == s
  {
    if s != [] {
      DropNothing(s[1..], xs);
    }
  }

  lemma {:induction false} DropConcat<T>(s: seq<T>, t: seq<T>, xs: set<T>)
    ensures Drop(s + t, xs) == Drop(s, xs) + Drop(t, xs)
  {
    if s == [] {
      assert s + t == t;
    } else {
      assert (s + t)[1..] == s[1..] + t;
      DropConcat(s[1..], t, xs);
    }
  }

  lemma {:induction false} DropTwice<T>(s: seq<T>, a: set<T>, b: set<T>)
    ensures Drop(Drop(s, a), b) == Drop(s, a + b)
  {
    if s != [] {
      var head := if s[0] in a then [] else [s[0]];
      DropConcat(head, Drop(s[1..], a), b);
      DropTwice(s[1..], a, b);
      if s[0] !in a {
        assert Drop(head, b) == (if s[0] in b then [] else [s[0]]) + Drop(head[1..], b);
      }
    }
  }

  lemma {:induction false} DropCount<T>(s: seq<T>, xs: set<T>, y: T)
    requires y !in xs
    ensures multiset(Drop(s, xs))[y] == multiset(s)[y]
  {
    if s != [] {
      DropCount(s[1..], xs, y);
      assert s == [s[0]] + s[1..];
    }
  }

  lemma SplitHead<T>(s: seq<T>)
    requires s != []
    ensures multiset(s) == multiset{s[0]} + multiset(s[1..])
  {
    assert s == [s[0]] + s[1..];
  }

  /** Removing an element that occurs exactly once is filtering it out. */
  lemma {:induction false} RemoveFirstUnique<T>(s: seq<T>, x: T)
    requires multiset(s)[x] == 1
    ensures x in s
    ensures RemoveFirst(s, x) == Drop(s, {x})
  {
    assert x in s by {
      assert x in multiset(s);
    }
    SplitHead(s);
    if s[0] == x {
      assert x !in s[1..] by {
        assert multiset(s[1..])[x] == 0;
      }
      DropNothing(s[1..], {x});
    } else {
      assert multiset(s[1..])[x] == 1;
      RemoveFirstUnique(s[1..], x);
    }
  }

  /**
   * Removing distinct values that each occur exactly once leaves the other
   * elements in their original order.
   */
  lemma {:induction false} RemoveEachUnique<T>(s: seq<T>, rs: seq<T>)
    requires multiset(rs) <= multiset(s)
    requires forall i, j :: 0 <= i < j < |rs| ==> rs[i] != rs[j]
    requires forall i :: 0 <= i < |rs| ==> multiset(s)[rs[i]] == 1
    ensures RemoveEach(s, rs) == Drop(s, Elements(rs))
    decreases |rs|
  {
    if rs == [] {
      assert Elements(rs) == {};
      DropNothing(s, {});
    } else {
      var x, rest := rs[0], rs[1..];
      RemoveFirstUnique(s, x);
      var s' := RemoveFirst(s, x);
      RemoveFirstCount(s, x);
      assert multiset(rest) <= multiset(s') by {
        SplitHead(rs);
      }
      assert RemoveEach(s, rs) == RemoveEach(s', rest);
      forall i | 0 <= i < |rest|
        ensures multiset(s')[rest[i]] == 1
      {
        assert rest[i] == rs[i + 1];
        DropCount(s, {x}, rest[i]);
      }
      forall i, j | 0 <= i < j < |rest|
        ensures rest[i] != rest[j]
      {
        assert rest[i] == rs[i + 1] && rest[j] == rs[j + 1];
      }
      RemoveEachUnique(s', rest);
      DropTwice(s, {x}, Elements(rest));
      ElementsCons(rs);
    }
  }

  lemma ElementsCons<T>(rs: seq<T>)
    requires rs != []
    ensures Elements(rs) == {rs[0]} + Elements(rs[1..])
  {
    forall y
      ensures y in Elements(rs) <==> y == rs[0] || y in rs[1..]
    {
      assert rs == [rs[0]] + rs[1..];
    }
  }

  /** An element found at exactly one index occurs once. */
  lemma CountOne<T>(s: seq<T>, k: nat)
    requires k < |s|
    requires forall j :: 0 <= j < |s| && s[j] == s[k] ==> j == k
    ensures multiset(s)[s[k]] == 1
  {
    assert s == s[..k] + [s[k]] + s[k + 1..];
    assert s[k] !in s[..k];
    assert s[k] !in s[k + 1..];
  }

  /** `remove` deletes the first occurrence, which is the one after a prefix without it. */
  lemma {:induction false} RemoveFirstAfter<T>(p: seq<T>, x: T, q: seq<T>)
    requires x !in p
    ensures RemoveFirst(p + [x] + q, x) == p + q
  {
    var s := p + [x] + q;
    if p == [] {
      assert s[0] == x && s[1..] == q;
    } else {
      assert s[0] == p[0] != x;
      assert s[1..] == p[1..] + [x] + q;
      RemoveFirstAfter(p[1..], x, q);
      assert RemoveFirst(s, x) == [p[0]] + RemoveFirst(s[1..], x);
      assert p + q == [p[0]] + (p[1..] + q);
    }
  }

  /** One step of `for x in rs: s.remove(x)`. */
  lemma RemoveEachStep<T>(s: seq<T>, rs: seq<T>)
    requires rs != [] && multiset(rs) <= multiset(s)
    ensures rs[0] in s
    ensures multiset(rs[1..]) <= multiset(RemoveFirst(s, rs[0]))
    ensures RemoveEach(s, rs) == RemoveEach(RemoveFirst(s, rs[0]), rs[1..])
  {
    assert rs == [rs[0]] + rs[1..];
    assert rs[0] in multiset(rs);
    assert rs[0] in multiset(s);
    RemoveFirstCount(s, rs[0]);
  }
}

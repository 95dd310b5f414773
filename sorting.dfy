/**
 * Sorting by a caller-supplied order. Both the document store (`.sort(...)`)
 * and the browser (`Array.prototype.sort` with a comparator) sort; this module
 * gives the insertion sort both are modelled by and what is proved about it:
 * the result is a permutation of the input, it is ordered whenever the order is
 * a total preorder, and it is stable: the elements tied with any one value
 * keep their relative order.
 */
module Sorting {

  /** `le(a, b)`: `a` may come before `b`. */
  ghost predicate Total<T(!new)>(le: (T, T) -> bool) {
    forall a, b :: le(a, b) || le(b, a)
  }

  ghost predicate Transitive<T(!new)>(le: (T, T) -> bool) {
    forall a, b, c :: le(a, b) && le(b, c) ==> le(a, c)
  }

  ghost predicate Sorted<T>(s: seq<T>, le: (T, T) -> bool) {
    forall i, j :: 0 <= i < j < |s| ==> le(s[i], s[j])
  }

  /** `x` placed before the first element it may precede. */
  function Insert<T>(x: T, s: seq<T>, le: (T, T) -> bool): (r: seq<T>)
    ensures multiset(r) == multiset(s) + multiset{x}
    ensures |r| == |s| + 1
  {
    if s == [] || le(x, s[0]) then [x] + s
    else
      var rest := Insert(x, s[1..], le);
      assert s == [s[0]] + s[1..];
      [s[0]] + rest
  }

  function Sort<T>(s: seq<T>, le: (T, T) -> bool): (r: seq<T>)
    ensures multiset(r) == multiset(s)
    ensures |r| == |s|
  {
    if s == [] then []
    else
      assert s == [s[0]] + s[1..];
      Insert(s[0], Sort(s[1..], le), le)
  }

  lemma {:induction false} InsertSorted<T(!new)>(x: T, s: seq<T>, le: (T, T) -> bool)
    requires Total(le) && Transitive(le) && Sorted(s, le)
    ensures Sorted(Insert(x, s, le), le)
  {
    if s == [] || le(x, s[0]) {
      var r := [x] + s;
      forall i, j | 0 <= i < j < |r| ensures le(r[i], r[j]) {
        if i == 0 && j > 1 {
          assert le(x, s[0]) && le(s[0], s[j - 1]);
        }
      }
    } else {
      var rest := Insert(x, s[1..], le);
      InsertSorted(x, s[1..], le);
      var r := [s[0]] + rest;
      forall j | 0 <= j < |rest| ensures le(s[0], rest[j]) {
        assert rest[j] in multiset(rest);
        if rest[j] != x {
          assert rest[j] in multiset(s[1..]);
          var k :| 0 <= k < |s[1..]| && s[1..][k] == rest[j];
          assert le(s[0], s[k + 1]);
        }
      }
      assert forall i, j :: 0 <= i < j < |r| ==> le(r[i], r[j]) by {
        forall i, j | 0 <= i < j < |r| ensures le(r[i], r[j]) {
          if i > 0 { assert r[i] == rest[i - 1] && r[j] == rest[j - 1]; }
          else { assert r[j] == rest[j - 1]; }
        }
      }
    }
  }

  /** Under a total preorder the output is ordered. */
  lemma {:induction false} SortSorted<T(!new)>(s: seq<T>, le: (T, T) -> bool)
    requires Total(le) && Transitive(le)
    ensures Sorted(Sort(s, le), le)
  {
    if s != [] {
      SortSorted(s[1..], le);
      InsertSorted(s[0], Sort(s[1..], le), le);
    }
  }

  /** When the order ties every pair, the input order is kept. */
  lemma {:induction false} SortAllTiesIdentity<T>(s: seq<T>, le: (T, T) -> bool)
    requires forall i, j :: 0 <= i < |s| && 0 <= j < |s| ==> le(s[i], s[j])
    ensures Sort(s, le) == s
  {
    if s != [] {
      SortAllTiesIdentity(s[1..], le);
      assert Sort(s[1..], le) == s[1..];
      if |s| > 1 {
        assert le(s[0], s[1]);
      }
    }
  }

  /** The elements of `s` the order ties with `y` (each may precede the other), in their order in `s`. */
  function TiedWith<T>(s: seq<T>, y: T, le: (T, T) -> bool): (r: seq<T>)
    ensures |r| <= |s|
    ensures forall i :: 0 <= i < |r| ==> le(r[i], y) && le(y, r[i])
  {
    if s == [] then []
    else (if le(s[0], y) && le(y, s[0]) then [s[0]] else []) + TiedWith(s[1..], y, le)
  }

  /**
   * Inserting `x` puts it in front of every element tied with it: those it
   * passes may not follow it, so they are not tied with anything `x` is tied with.
   */
  lemma {:induction false} InsertKeepsTies<T(!new)>(x: T, s: seq<T>, y: T, le: (T, T) -> bool)
    requires Transitive(le)
    ensures TiedWith(Insert(x, s, le), y, le) == (if le(x, y) && le(y, x) then [x] else []) + TiedWith(s, y, le)
  {
    if s == [] || le(x, s[0]) {
      assert ([x] + s)[1..] == s;
    } else {
      var rest := Insert(x, s[1..], le);
      InsertKeepsTies(x, s[1..], y, le);
      assert ([s[0]] + rest)[1..] == rest;
      if le(x, y) && le(y, x) {
        assert !(le(s[0], y) && le(y, s[0]));
      }
    }
  }

  /**
   * Stability: the elements tied with any `y` come out in the order they went
   * in. Only transitivity is needed.
   */
  lemma {:induction false} SortStable<T(!new)>(s: seq<T>, y: T, le: (T, T) -> bool)
    requires Transitive(le)
    ensures TiedWith(Sort(s, le), y, le) == TiedWith(s, y, le)
  {
    if s != [] {
      SortStable(s[1..], y, le);
      InsertKeepsTies(s[0], Sort(s[1..], le), y, le);
    }
  }

  /** `x` goes in front when it may precede the first element. */
  lemma InsertFront<T>(x: T, s: seq<T>, le: (T, T) -> bool)
    requires s == [] || le(x, s[0])
    ensures Insert(x, s, le) == [x] + s
  {
  }

  /** `x` passes an element it may not precede. */
  lemma InsertPast<T>(x: T, y: T, s: seq<T>, le: (T, T) -> bool)
    requires !le(x, y)
    ensures Insert(x, [y] + s, le) == [y] + Insert(x, s, le)
  {
    assert ([y] + s)[1..] == s;
  }

  /** Three elements where the first precedes neither of the others, which are in order: the first moves to the end. */
  lemma SortThreeFirstLast<T>(a: T, b: T, c: T, le: (T, T) -> bool)
    requires le(b, c) && !le(a, b) && !le(a, c)
    ensures Sort([a, b, c], le) == [b, c, a]
  {
    assert [a, b, c][1..] == [b, c] && [b, c][1..] == [c] && [c][1..] == [];
    InsertFront(c, [], le);
    var sc := Sort([c], le);
    assert sc == Insert(c, Sort([], le), le) == [c];
    InsertFront(b, [c], le);
    var sbc := Sort([b, c], le);
    assert sbc == Insert(b, sc, le) == [b, c];
    InsertFront(a, [], le);
    InsertPast(a, c, [], le);
    assert Insert(a, [c], le) == [c, a];
    InsertPast(a, b, [c], le);
    assert Insert(a, [b, c], le) == [b, c, a];
    assert Sort([a, b, c], le) == Insert(a, sbc, le);
  }
}

/** `Array.prototype.sort` as a stable insertion sort over a comparison (ECMA-262, section
    23.1.3.30), shared by the palette's ranking and the panels that list names. */
module Sorting {

  function Filter<T>(keep: T -> bool, s: seq<T>): seq<T> {
    if s == [] then [] else (if keep(s[0]) then [s[0]] else []) + Filter(keep, s[1..])
  }

  lemma {:induction false} InFilter<T>(keep: T -> bool, s: seq<T>, x: T)
    ensures x in Filter(keep, s) <==> x in s && keep(x)
  {
    if s != [] {
      InFilter(keep, s[1..], x);
    }
  }

  /** What is picked stands in the order it had. */
  lemma {:induction false} FilterInOrder<T>(keep: T -> bool, s: seq<T>, i: nat, j: nat)
    requires i < j < |s| && keep(s[i]) && keep(s[j])
    ensures exists k, l | 0 <= k < l < |Filter(keep, s)| :: Filter(keep, s)[k] == s[i] && Filter(keep, s)[l] == s[j]
  {
    var found, rest := Filter(keep, s), Filter(keep, s[1..]);
    if i == 0 {
      InFilter(keep, s[1..], s[j]);
      assert s[1..][j - 1] == s[j];
      var l :| 0 <= l < |rest| && rest[l] == s[j];
      assert found[0] == s[0] && found[l + 1] == rest[l];
    } else {
      FilterInOrder(keep, s[1..], i - 1, j - 1);
      var k, l :| 0 <= k < l < |rest| && rest[k] == s[1..][i - 1] && rest[l] == s[1..][j - 1];
      var n := |found| - |rest|;
      assert found[k + n] == rest[k] && found[l + n] == rest[l];
    }
  }

  lemma FilterCons<T>(keep: T -> bool, x: T, s: seq<T>)
    ensures Filter(keep, [x] + s) == (if keep(x) then [x] else []) + Filter(keep, s)
  {
    assert ([x] + s)[1..] == s;
  }

  lemma {:induction false} FilterTwice<T(!new)>(keep: T -> bool, first: T -> bool, s: seq<T>)
    requires forall x | keep(x) :: first(x)
    ensures Filter(keep, Filter(first, s)) == Filter(keep, s)
  {
    if s == [] {
      assert Filter(first, s) == [];
    } else {
      FilterTwice(keep, first, s[1..]);
      var rest := Filter(first, s[1..]);
      assert Filter(first, s) == if first(s[0]) then [s[0]] + rest else rest;
      FilterCons(keep, s[0], rest);
    }
  }

  /** Before the first element that `x` does not come after. */
  function Insert<T>(before: (T, T) -> bool, x: T, s: seq<T>): seq<T> {
    if s == [] || !before(s[0], x) then [x] + s else [s[0]] + Insert(before, x, s[1..])
  }

  function Sort<T>(before: (T, T) -> bool, s: seq<T>): seq<T> {
    if s == [] then [] else Insert(before, s[0], Sort(before, s[1..]))
  }

  ghost predicate Sorted<T>(before: (T, T) -> bool, s: seq<T>) {
    forall i, j | 0 <= i < j < |s| :: !before(s[j], s[i])
  }

  /** What comes not after is transitive, and of two elements at most one comes before. */
  ghost predicate Orders<T(!new)>(before: (T, T) -> bool) {
    && (forall a, b :: before(a, b) ==> !before(b, a))
    && (forall a, b, c :: !before(b, a) && !before(c, b) ==> !before(c, a))
  }

  lemma ConsSorted<T>(before: (T, T) -> bool, x: T, s: seq<T>)
    requires Sorted(before, s) && forall y | y in s :: !before(y, x)
    ensures Sorted(before, [x] + s)
  {
  }

  lemma {:induction false} InsertKeepsAll<T>(before: (T, T) -> bool, x: T, s: seq<T>)
    ensures multiset(Insert(before, x, s)) == multiset{x} + multiset(s)
  {
    if s != [] && before(s[0], x) {
      InsertKeepsAll(before, x, s[1..]);
      assert s == [s[0]] + s[1..];
    }
  }

  lemma {:induction false} InsertSorts<T(!new)>(before: (T, T) -> bool, x: T, s: seq<T>)
    requires Orders(before) && Sorted(before, s)
    ensures Sorted(before, Insert(before, x, s))
  {
    if s == [] {
    } else if !before(s[0], x) {
      forall y | y in s ensures !before(y, x) {
        assert y == s[0] || !before(y, s[0]);
      }
      ConsSorted(before, x, s);
    } else {
      InsertSorts(before, x, s[1..]);
      InsertKeepsAll(before, x, s[1..]);
      forall y | y in Insert(before, x, s[1..]) ensures !before(y, s[0]) {
        assert y in multiset(Insert(before, x, s[1..]));
      }
      ConsSorted(before, s[0], Insert(before, x, s[1..]));
    }
  }

  /** The result is sorted and has the same elements as often. */
  lemma {:induction false} SortSorts<T(!new)>(before: (T, T) -> bool, s: seq<T>)
    requires Orders(before)
    ensures Sorted(before, Sort(before, s)) && multiset(Sort(before, s)) == multiset(s)
  {
    if s != [] {
      SortSorts(before, s[1..]);
      InsertSorts(before, s[0], Sort(before, s[1..]));
      InsertKeepsAll(before, s[0], Sort(before, s[1..]));
      assert s == [s[0]] + s[1..];
    }
  }

  /** None of the elements picked comes before another. */
  ghost predicate Alike<T(!new)>(before: (T, T) -> bool, keep: T -> bool) {
    forall a, b | keep(a) && keep(b) :: !before(a, b)
  }

  lemma {:induction false} InsertIsStable<T(!new)>(before: (T, T) -> bool, keep: T -> bool, x: T, s: seq<T>)
    requires Alike(before, keep)
    ensures Filter(keep, Insert(before, x, s)) == (if keep(x) then [x] else []) + Filter(keep, s)
  {
    if s == [] || !before(s[0], x) {
      FilterCons(keep, x, s);
    } else {
      InsertIsStable(before, keep, x, s[1..]);
      FilterCons(keep, s[0], Insert(before, x, s[1..]));
    }
  }

  /** Elements of equal rank keep their order. */
  lemma {:induction false} SortIsStable<T(!new)>(before: (T, T) -> bool, keep: T -> bool, s: seq<T>)
    requires Alike(before, keep)
    ensures Filter(keep, Sort(before, s)) == Filter(keep, s)
  {
    if s != [] {
      SortIsStable(before, keep, s[1..]);
      InsertIsStable(before, keep, s[0], Sort(before, s[1..]));
    }
  }
}

/** The stable sort the source obtains from its libraries (`Array.prototype.sort`
    in JavaScript, `sorted` in Python), as an insertion sort on sequences, and the
    code-point lexicographic order on strings (Python's `sorted`; JavaScript's
    `sort()` agrees inside the Basic Multilingual Plane). */
module Sorting {

  /** `x` and `y` are neither before the other under `before`. */
  predicate Tied<T>(before: (T, T) -> bool, x: T, y: T) {
    !before(x, y) && !before(y, x)
  }

  /** `before` is a strict weak order: irreflexive, transitive, and ties are
      transitive too. Every "compare by key" order is one. */
  ghost predicate StrictWeakOrder<T(!new)>(before: (T, T) -> bool) {
    && (forall a :: !before(a, a))
    && (forall a, b, c :: before(a, b) && before(b, c) ==> before(a, c))
    && (forall a, b, c :: Tied(before, a, b) && Tied(before, b, c) ==> Tied(before, a, c))
  }

  /** No element is placed after one it should come after. */
  ghost predicate Sorted<T>(s: seq<T>, before: (T, T) -> bool) {
    forall i, j :: 0 <= i < j < |s| ==> !before(s[j], s[i])
  }

  /** Inserts `x` after every element it is not strictly before: an element
      that ties with earlier ones goes after them. */
  function Insert<T>(x: T, s: seq<T>, before: (T, T) -> bool): (r: seq<T>)
    ensures multiset(r) == multiset(s) + multiset{x}
  {
    if s == [] then [x]
    else if before(x, s[0]) then [x] + s
    else
      assert s == [s[0]] + s[1..];
      [s[0]] + Insert(x, s[1..], before)
  }

  /** Stable sort: the elements of `xs` are inserted in their input order. */
  function SortBy<T>(xs: seq<T>, before: (T, T) -> bool): (r: seq<T>)
    ensures multiset(r) == multiset(xs)
  {
    if xs == [] then []
    else
      assert xs == xs[..|xs| - 1] + [xs[|xs| - 1]];
      Insert(xs[|xs| - 1], SortBy(xs[..|xs| - 1], before), before)
  }

  /** The elements of `s` tied with `y`, in the order `s` has them. */
  function TiesOf<T>(s: seq<T>, y: T, before: (T, T) -> bool): seq<T> {
    if s == [] then []
    else (if Tied(before, s[0], y) then [s[0]] else []) + TiesOf(s[1..], y, before)
  }

  lemma {:induction false} TiesOfAppend<T>(s: seq<T>, t: seq<T>, y: T, before: (T, T) -> bool)
    ensures TiesOf(s + t, y, before) == TiesOf(s, y, before) + TiesOf(t, y, before)
  {
    if s != [] {
      var head := if Tied(before, s[0], y) then [s[0]] else [];
      assert (s + t)[0] == s[0];
      assert (s + t)[1..] == s[1..] + t;
      TiesOfAppend(s[1..], t, y, before);
      calc {
        TiesOf(s + t, y, before);
        head + TiesOf(s[1..] + t, y, before);
        head + (TiesOf(s[1..], y, before) + TiesOf(t, y, before));
        (head + TiesOf(s[1..], y, before)) + TiesOf(t, y, before);
      }
    } else {
      assert s + t == t;
    }
  }

  lemma {:induction false} TiesOfNone<T>(s: seq<T>, y: T, before: (T, T) -> bool)
    requires forall k :: 0 <= k < |s| ==> !Tied(before, s[k], y)
    ensures TiesOf(s, y, before) == []
  {
    if s != [] {
      TiesOfNone(s[1..], y, before);
    }
  }

  /** In a strict weak order an element tied with `a` is before whatever `a` is before. */
  lemma TiedSubstitutes<T(!new)>(before: (T, T) -> bool, t: T, a: T, c: T)
    requires StrictWeakOrder(before)
    ensures Tied(before, t, a) && before(a, c) ==> before(t, c)
  {
    assert before(a, c) && before(c, t) ==> before(a, t);
    assert Tied(before, a, t) && Tied(before, t, c) ==> Tied(before, a, c);
  }

  lemma Transitive<T(!new)>(before: (T, T) -> bool, a: T, b: T, c: T)
    requires StrictWeakOrder(before)
    ensures before(a, b) && before(b, c) ==> before(a, c)
    ensures Tied(before, a, b) && Tied(before, b, c) ==> Tied(before, a, c)
  {
  }

  lemma {:induction false} InsertSorted<T(!new)>(x: T, s: seq<T>, before: (T, T) -> bool)
    requires StrictWeakOrder(before) && Sorted(s, before)
    ensures Sorted(Insert(x, s, before), before)
  {
    if s != [] {
      if before(x, s[0]) {
        var r := [x] + s;
        forall i, j | 0 <= i < j < |r| ensures !before(r[j], r[i]) {
          Transitive(before, r[j], x, s[0]);
        }
      } else {
        var tail := Insert(x, s[1..], before);
        InsertSorted(x, s[1..], before);
        var r := [s[0]] + tail;
        forall i, j | 0 <= i < j < |r| ensures !before(r[j], r[i]) {
          if i == 0 {
            assert r[j] in multiset(tail);
            assert r[j] == x || r[j] in multiset(s[1..]);
            if r[j] != x {
              var k :| 0 <= k < |s[1..]| && s[1..][k] == r[j];
              assert s[k + 1] == r[j];
            }
          }
        }
      }
    }
  }

  /** The sort's result is sorted. */
  lemma {:induction false} SortBySorted<T(!new)>(xs: seq<T>, before: (T, T) -> bool)
    requires StrictWeakOrder(before)
    ensures Sorted(SortBy(xs, before), before)
  {
    if xs != [] {
      SortBySorted(xs[..|xs| - 1], before);
      InsertSorted(xs[|xs| - 1], SortBy(xs[..|xs| - 1], before), before);
    }
  }

  /** When `x` is strictly before the head of a sorted `s`, nothing in `s` ties with `x`. */
  lemma NoTiesBehind<T(!new)>(x: T, s: seq<T>, y: T, before: (T, T) -> bool)
    requires StrictWeakOrder(before) && Sorted(s, before)
    requires s != [] && before(x, s[0]) && Tied(before, x, y)
    ensures TiesOf(s, y, before) == []
  {
    forall k | 0 <= k < |s| ensures !Tied(before, s[k], y) {
      TiedSubstitutes(before, s[k], x, s[0]);
      Transitive(before, s[k], y, x);
    }
    TiesOfNone(s, y, before);
  }

  lemma InsertFrontStable<T(!new)>(x: T, s: seq<T>, y: T, before: (T, T) -> bool)
    requires StrictWeakOrder(before) && Sorted(s, before)
    requires s != [] && before(x, s[0])
    ensures TiesOf([x] + s, y, before)
         == TiesOf(s, y, before) + (if Tied(before, x, y) then [x] else [])
  {
    assert ([x] + s)[0] == x;
    assert ([x] + s)[1..] == s;
    if Tied(before, x, y) {
      NoTiesBehind(x, s, y, before);
    }
  }

  lemma {:induction false} InsertStable<T(!new)>(x: T, s: seq<T>, y: T, before: (T, T) -> bool)
    requires StrictWeakOrder(before) && Sorted(s, before)
    ensures TiesOf(Insert(x, s, before), y, before)
         == TiesOf(s, y, before) + (if Tied(before, x, y) then [x] else [])
  {
    if s == [] {
    } else if before(x, s[0]) {
      InsertFrontStable(x, s, y, before);
    } else {
      var head := if Tied(before, s[0], y) then [s[0]] else [];
      var tail := Insert(x, s[1..], before);
      var last := if Tied(before, x, y) then [x] else [];
      InsertStable(x, s[1..], y, before);
      assert ([s[0]] + tail)[0] == s[0];
      assert ([s[0]] + tail)[1..] == tail;
      calc {
        TiesOf(Insert(x, s, before), y, before);
        TiesOf([s[0]] + tail, y, before);
        head + TiesOf(tail, y, before);
        head + (TiesOf(s[1..], y, before) + last);
        (head + TiesOf(s[1..], y, before)) + last;
      }
    }
  }

  /** Stability: for every tie class, the sort keeps the input order of its members. */
  lemma {:induction false} SortByStable<T(!new)>(xs: seq<T>, y: T, before: (T, T) -> bool)
    requires StrictWeakOrder(before)
    ensures TiesOf(SortBy(xs, before), y, before) == TiesOf(xs, y, before)
  {
    if xs != [] {
      var init, last := xs[..|xs| - 1], xs[|xs| - 1];
      var sortedInit := SortBy(init, before);
      var tie := if Tied(before, last, y) then [last] else [];
      assert xs == init + [last];
      calc {
        TiesOf(SortBy(xs, before), y, before);
        TiesOf(Insert(last, sortedInit, before), y, before);
        { SortBySorted(init, before); InsertStable(last, sortedInit, y, before); }
        TiesOf(sortedInit, y, before) + tie;
        { SortByStable(init, y, before); }
        TiesOf(init, y, before) + tie;
        { assert TiesOf([last], y, before) == tie; }
        TiesOf(init, y, before) + TiesOf([last], y, before);
        { TiesOfAppend(init, [last], y, before); }
        TiesOf(xs, y, before);
      }
    }
  }

  /** Code-point lexicographic order (Python's `sorted`; JavaScript's `sort()`
      agrees inside the Basic Multilingual Plane): a proper prefix comes first,
      otherwise the first differing character decides. */
  predicate StrLess(a: string, b: string) {
    if a == [] then b != []
    else if b == [] then false
    else if a[0] != b[0] then a[0] < b[0]
    else StrLess(a[1..], b[1..])
  }

  lemma {:induction false} StrLessIrreflexive(a: string)
    ensures !StrLess(a, a)
  {
    if a != [] {
      StrLessIrreflexive(a[1..]);
    }
  }

  lemma {:induction false} StrLessTransitive(a: string, b: string, c: string)
    requires StrLess(a, b) && StrLess(b, c)
    ensures StrLess(a, c)
  {
    if a != [] && b != [] && c != [] && a[0] == b[0] && b[0] == c[0] {
      StrLessTransitive(a[1..], b[1..], c[1..]);
    }
  }

  lemma {:induction false} StrLessTotal(a: string, b: string)
    ensures a == b || StrLess(a, b) || StrLess(b, a)
  {
    if a != [] && b != [] && a[0] == b[0] {
      StrLessTotal(a[1..], b[1..]);
      if a[1..] == b[1..] {
        assert a == [a[0]] + a[1..] && b == [b[0]] + b[1..];
      }
    }
  }

  /** Ordering values by a string key, ascending (`ascending`) or descending, is
      a strict weak order whose ties are exactly the equal keys. */
  lemma StrKeyOrder<T(!new)>(key: T -> string, ascending: bool, before: (T, T) -> bool)
    requires forall a, b :: before(a, b) == if ascending then StrLess(key(a), key(b)) else StrLess(key(b), key(a))
    ensures StrictWeakOrder(before)
    ensures forall a, b :: Tied(before, a, b) <==> key(a) == key(b)
  {
    forall a, b | Tied(before, a, b) ensures key(a) == key(b) {
      StrLessTotal(key(a), key(b));
    }
    forall a, b | key(a) == key(b) ensures Tied(before, a, b) {
      StrLessIrreflexive(key(a));
    }
    forall a ensures !before(a, a) {
      StrLessIrreflexive(key(a));
    }
    forall a, b, c | before(a, b) && before(b, c) ensures before(a, c) {
      if ascending {
        StrLessTransitive(key(a), key(b), key(c));
      } else {
        StrLessTransitive(key(c), key(b), key(a));
      }
    }
  }

  /** Ordering values by an integer key, descending, is a strict weak order whose
      ties are exactly the equal keys. */
  lemma IntKeyOrder<T(!new)>(key: T -> int, before: (T, T) -> bool)
    requires forall a, b :: before(a, b) == (key(a) > key(b))
    ensures StrictWeakOrder(before)
    ensures forall a, b :: Tied(before, a, b) <==> key(a) == key(b)
  {
  }

  /** No value occurs twice in `s`. */
  ghost predicate NoDuplicates<T(!new)>(s: seq<T>) {
    forall x :: multiset(s)[x] <= 1
  }

  lemma NoDuplicatesDistinct<T(!new)>(s: seq<T>, i: int, j: int)
    requires NoDuplicates(s) && 0 <= i < j < |s|
    ensures s[i] != s[j]
  {
    assert s == s[..j] + s[j..];
    assert s[..j][i] == s[i] && s[j..][0] == s[j];
    assert multiset(s)[s[j]] == multiset(s[..j])[s[j]] + multiset(s[j..])[s[j]];
    assert multiset(s[..j])[s[i]] >= 1 && multiset(s[j..])[s[j]] >= 1;
    assert multiset(s)[s[j]] <= 1;
  }

  /** A duplicate-free list sorted by the string order is strictly increasing. */
  lemma SortedStrictly(s: seq<string>)
    requires NoDuplicates(s) && Sorted(s, StrLess)
    ensures forall i, j :: 0 <= i < j < |s| ==> StrLess(s[i], s[j])
  {
    forall i, j | 0 <= i < j < |s| ensures StrLess(s[i], s[j]) {
      NoDuplicatesDistinct(s, i, j);
      StrLessTotal(s[i], s[j]);
    }
  }
}

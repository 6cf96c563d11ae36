/** Python's `sorted(xs, key=...)`, a stable sort, as an insertion sort over a
    "less than or equal" relation on the elements. */
module Sorting {

  ghost predicate Total<T(!new)>(leq: (T, T) -> bool)
  {
    forall a: T, b: T :: leq(a, b) || leq(b, a)
  }

  ghost predicate Transitive<T(!new)>(leq: (T, T) -> bool)
  {
    forall a: T, b: T, c: T :: leq(a, b) && leq(b, c) ==> leq(a, c)
  }

  predicate SortedBy<T>(s: seq<T>, leq: (T, T) -> bool)
  {
    forall i, j :: 0 <= i < j < |s| ==> leq(s[i], s[j])
  }

  /** Puts `x` in front of the first element it does not exceed. */
  function Insert<T(!new)>(x: T, s: seq<T>, leq: (T, T) -> bool): (r: seq<T>)
    ensures multiset(r) == multiset(s) + multiset{x}
    ensures |r| == |s| + 1
    ensures forall y :: y in r <==> y in s || y == x
  {
    if s == [] || leq(x, s[0]) then [x] + s
    else
      assert s == [s[0]] + s[1..];
      [s[0]] + Insert(x, s[1..], leq)
  }

  /** Elements are inserted from the back, so an element goes in front of
      the equal elements that followed it: the sort is stable. */
  function SortBy<T(!new)>(s: seq<T>, leq: (T, T) -> bool): (r: seq<T>)
    ensures multiset(r) == multiset(s)
    ensures |r| == |s|
    ensures forall x :: x in r <==> x in s
  {
    if s == [] then []
    else
      assert s == [s[0]] + s[1..];
      Insert(s[0], SortBy(s[1..], leq), leq)
  }

  /** The elements of `s` that tie with `y` under the relation, in their
      order in `s`. */
  function TiedWith<T>(s: seq<T>, y: T, leq: (T, T) -> bool): seq<T>
  {
    if s == [] then []
    else (if leq(s[0], y) && leq(y, s[0]) then [s[0]] else []) + TiedWith(s[1..], y, leq)
  }

  /** An element goes in front of every element it ties with. */
  lemma {:induction false} InsertTied<T(!new)>(x: T, s: seq<T>, y: T, leq: (T, T) -> bool)
    requires Transitive(leq)
    ensures TiedWith(Insert(x, s, leq), y, leq)
            == (if leq(x, y) && leq(y, x) then [x] else []) + TiedWith(s, y, leq)
    decreases |s|
  {
    var b := if leq(x, y) && leq(y, x) then [x] else [];
    if s == [] || leq(x, s[0]) {
      var r := [x] + s;
      assert Insert(x, s, leq) == r;
      assert r[0] == x && r[1..] == s;
      assert TiedWith(r, y, leq) == b + TiedWith(s, y, leq);
    } else {
      var rest := Insert(x, s[1..], leq);
      var r := [s[0]] + rest;
      assert Insert(x, s, leq) == r;
      assert r[0] == s[0] && r[1..] == rest;
      var a := if leq(s[0], y) && leq(y, s[0]) then [s[0]] else [];
      var tail := TiedWith(s[1..], y, leq);
      assert TiedWith(r, y, leq) == a + TiedWith(rest, y, leq);
      assert TiedWith(s, y, leq) == a + tail;
      InsertTied(x, s[1..], y, leq);
      if b == [] {
        assert TiedWith(rest, y, leq) == tail;
        assert TiedWith(r, y, leq) == TiedWith(s, y, leq);
        assert b + TiedWith(s, y, leq) == TiedWith(s, y, leq);
      } else {
        var e := s[0];
        assert leq(x, y) && leq(y, e) ==> leq(x, e);
        assert !(leq(e, y) && leq(y, e));
        assert a == [];
        assert TiedWith(rest, y, leq) == b + tail;
        assert TiedWith(r, y, leq) == b + tail;
        assert TiedWith(s, y, leq) == tail;
      }
    }
  }

  /** The sort is stable: the elements that tie with any `y` come out in the
      order they went in. */
  lemma {:induction false} SortByStable<T(!new)>(s: seq<T>, y: T, leq: (T, T) -> bool)
    requires Transitive(leq)
    ensures TiedWith(SortBy(s, leq), y, leq) == TiedWith(s, y, leq)
    decreases |s|
  {
    if s != [] {
      SortByStable(s[1..], y, leq);
      InsertTied(s[0], SortBy(s[1..], leq), y, leq);
    }
  }

  /** Every element of a sorted sequence is at least its head. */
  lemma HeadIsLeast<T>(s: seq<T>, leq: (T, T) -> bool, e: T)
    requires SortedBy(s, leq) && s != [] && e in s[1..]
    ensures leq(s[0], e)
  {
    var j :| 0 <= j < |s[1..]| && s[1..][j] == e;
    assert s[j + 1] == e;
  }

  /** A sorted sequence stays sorted behind an element that does not exceed
      any of its elements. */
  lemma ConsSorted<T>(a: T, rest: seq<T>, leq: (T, T) -> bool)
    requires SortedBy(rest, leq) && forall e :: e in rest ==> leq(a, e)
    ensures SortedBy([a] + rest, leq)
  {
    var r := [a] + rest;
    forall i, j | 0 <= i < j < |r| ensures leq(r[i], r[j]) {
      if i == 0 {
        assert r[j] == rest[j - 1];
      } else {
        assert r[i] == rest[i - 1] && r[j] == rest[j - 1];
      }
    }
  }

  lemma {:induction false} InsertSorted<T(!new)>(x: T, s: seq<T>, leq: (T, T) -> bool)
    requires Total(leq) && Transitive(leq)
    requires SortedBy(s, leq)
    ensures SortedBy(Insert(x, s, leq), leq)
    decreases |s|
  {
    if s != [] && !leq(x, s[0]) {
      var rest := Insert(x, s[1..], leq);
      assert Insert(x, s, leq) == [s[0]] + rest;
      assert SortedBy(s[1..], leq);
      InsertSorted(x, s[1..], leq);
      assert leq(s[0], x);
      forall e | e in rest ensures leq(s[0], e) {
        if e != x {
          HeadIsLeast(s, leq, e);
        }
      }
      ConsSorted(s[0], rest, leq);
    }
  }

  /** The result of the sort is ordered by the relation. */
  lemma {:induction false} SortBySorted<T(!new)>(s: seq<T>, leq: (T, T) -> bool)
    requires Total(leq) && Transitive(leq)
    ensures SortedBy(SortBy(s, leq), leq)
    decreases |s|
  {
    if s != [] {
      SortBySorted(s[1..], leq);
      InsertSorted(s[0], SortBy(s[1..], leq), leq);
    }
  }
}

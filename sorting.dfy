/** `Array.prototype.sort` with a comparator, as a stable insertion sort.
    `lt(a, b)` holds when the comparator returns a negative number for (a, b), that is,
    when `a` must come before `b`. For a comparator that is consistent (a strict weak
    order on the elements) a stable sort has exactly one possible result, so this is the
    result an ECMAScript 2019 engine produces: `SortSorted` and `SortStable` state the
    properties that determine it. */
module Sorting {

  /** `r` is ordered: no element is strictly before an element to its left. */
  predicate Sorted<T>(r: seq<T>, lt: (T, T) -> bool)
  {
    forall i, j :: 0 <= i < j < |r| ==> !lt(r[j], r[i])
  }

  /** The comparator is consistent on the elements of `s`: asymmetric, and
      "not before" is transitive. */
  ghost predicate StrictWeakOn<T(!new)>(s: seq<T>, lt: (T, T) -> bool)
  {
    && (forall x, y :: x in s && y in s && lt(x, y) ==> !lt(y, x))
    && (forall x, y, z :: x in s && y in s && z in s && !lt(x, y) && !lt(y, z) ==> !lt(x, z))
  }

  /** Places `x` before the first element that is not strictly before it, so that `x`
      stays ahead of the elements it ties with. */
  function Insert<T>(x: T, s: seq<T>, lt: (T, T) -> bool): (r: seq<T>)
    ensures multiset(r) == multiset(s) + multiset{x}
    ensures |r| == |s| + 1
  {
    if s == [] then [x]
    else if !lt(s[0], x) then [x] + s
    else
      assert s == [s[0]] + s[1..];
      [s[0]] + Insert(x, s[1..], lt)
  }

  /** The sorted copy (`[...data].sort(cmp)`): the input itself is a value and is left as it is. */
  function Sort<T>(s: seq<T>, lt: (T, T) -> bool): (r: seq<T>)
    ensures multiset(r) == multiset(s)
    ensures |r| == |s|
  {
    if s == [] then []
    else
      assert s == [s[0]] + s[1..];
      Insert(s[0], Sort(s[1..], lt), lt)
  }

  lemma StrictWeakSub<T(!new)>(a: seq<T>, b: seq<T>, lt: (T, T) -> bool)
    requires StrictWeakOn(b, lt)
    requires forall x :: x in a ==> x in b
    ensures StrictWeakOn(a, lt)
  {
  }

  lemma {:induction false} InsertSorted<T(!new)>(x: T, s: seq<T>, lt: (T, T) -> bool)
    requires Sorted(s, lt)
    requires StrictWeakOn([x] + s, lt)
    ensures Sorted(Insert(x, s, lt), lt)
  {
    if s != [] && lt(s[0], x) {
      var t := s[1..];
      assert forall y :: y in [x] + t ==> y in [x] + s;
      StrictWeakSub([x] + t, [x] + s, lt);
      InsertSorted(x, t, lt);
      HeadStaysFirst(x, s, lt);
    } else if s != [] {
      InsertAtFront(x, s, lt);
    }
  }

  /** A sorted sequence stays sorted under a head that no element is strictly before. */
  lemma ConsSorted<T>(h: T, rest: seq<T>, lt: (T, T) -> bool)
    requires Sorted(rest, lt)
    requires forall j :: 0 <= j < |rest| ==> !lt(rest[j], h)
    ensures Sorted([h] + rest, lt)
  {
    var r := [h] + rest;
    assert forall i :: 0 < i < |r| ==> r[i] == rest[i - 1];
  }

  /** When `s[0]` is strictly before `x`, it stays ahead of the insertion into the rest. */
  lemma HeadStaysFirst<T(!new)>(x: T, s: seq<T>, lt: (T, T) -> bool)
    requires s != [] && lt(s[0], x)
    requires Sorted(s, lt) && Sorted(Insert(x, s[1..], lt), lt)
    requires StrictWeakOn([x] + s, lt)
    ensures Sorted([s[0]] + Insert(x, s[1..], lt), lt)
  {
    var t := s[1..];
    var rest := Insert(x, t, lt);
    forall j | 0 <= j < |rest| ensures !lt(rest[j], s[0]) {
      var y := rest[j];
      assert y in multiset(rest);
      assert y in multiset(t) || y == x;
      if y != x {
        assert y in t;
        var k :| 0 <= k < |t| && t[k] == y;
        assert s[k + 1] == y;
      } else {
        assert x in [x] + s && s[0] in [x] + s;
      }
    }
    ConsSorted(s[0], rest, lt);
  }

  /** When `s[0]` is not strictly before `x`, putting `x` first keeps the order. */
  lemma InsertAtFront<T(!new)>(x: T, s: seq<T>, lt: (T, T) -> bool)
    requires s != [] && !lt(s[0], x)
    requires Sorted(s, lt)
    requires StrictWeakOn([x] + s, lt)
    ensures Sorted([x] + s, lt)
  {
    var r := [x] + s;
    forall i, j | 0 <= i < j < |r| ensures !lt(r[j], r[i]) {
      if i == 0 {
        // r[j] is s[j-1]; s[0] is not before x, and s[j-1] is not before s[0]
        assert r[j] == s[j - 1];
        if j > 1 {
          assert !lt(s[j - 1], s[0]);
          assert s[j - 1] in [x] + s && s[0] in [x] + s && x in [x] + s;
        }
      } else {
        assert r[i] == s[i - 1] && r[j] == s[j - 1];
      }
    }
  }

  /** The result is ordered (for a consistent comparator) and is a permutation of the input. */
  lemma {:induction false} SortSorted<T(!new)>(s: seq<T>, lt: (T, T) -> bool)
    requires StrictWeakOn(s, lt)
    ensures Sorted(Sort(s, lt), lt)
    ensures multiset(Sort(s, lt)) == multiset(s)
  {
    if s != [] {
      var t := s[1..];
      assert forall y :: y in t ==> y in s;
      StrictWeakSub(t, s, lt);
      SortSorted(t, lt);
      var st := Sort(t, lt);
      forall y | y in [s[0]] + st ensures y in s {
        if y != s[0] {
          assert y in multiset(st);
        }
      }
      StrictWeakSub([s[0]] + st, s, lt);
      InsertSorted(s[0], st, lt);
    }
  }

  // ---------------------------------------------------------------- stability

  /** Neither of `x` and `y` comes strictly before the other: the comparator returns 0. */
  predicate Tied<T>(x: T, y: T, lt: (T, T) -> bool)
  {
    !lt(x, y) && !lt(y, x)
  }

  /** The elements of `s` that tie with `c`, in the order of `s`. */
  function TiedWith<T>(s: seq<T>, c: T, lt: (T, T) -> bool): seq<T>
  {
    if s == [] then [] else (if Tied(c, s[0], lt) then [s[0]] else []) + TiedWith(s[1..], c, lt)
  }

  /** `TiedWith` on a sequence with a known first element. */
  lemma TiedWithCons<T>(y: T, r: seq<T>, c: T, lt: (T, T) -> bool)
    ensures TiedWith([y] + r, c, lt) == (if Tied(c, y, lt) then [y] else []) + TiedWith(r, c, lt)
  {
    assert ([y] + r)[1..] == r;
  }

  /** Two elements one of which is strictly before the other cannot both tie with `c`. */
  lemma StrictNotBothTied<T(!new)>(w: seq<T>, a: T, b: T, c: T, lt: (T, T) -> bool)
    requires StrictWeakOn(w, lt) && a in w && b in w && c in w
    requires lt(a, b)
    ensures !(Tied(c, a, lt) && Tied(c, b, lt))
  {
  }

  /** Inserting past a first element that is strictly before `x` keeps that element first. */
  lemma InsertPast<T>(x: T, u: seq<T>, lt: (T, T) -> bool)
    requires u != [] && lt(u[0], x)
    ensures Insert(x, u, lt) == [u[0]] + Insert(x, u[1..], lt)
  {
  }

  /** Two optional elements that are never both present may be swapped. */
  lemma SwapOptional<T>(p: bool, y: T, q: bool, x: T, r: seq<T>)
    requires !(p && q)
    ensures (if p then [y] else []) + ((if q then [x] else []) + r)
         == (if q then [x] else []) + ((if p then [y] else []) + r)
  {
  }

  /** Inserting `x` past elements none of which ties with `c` together with `x` leaves the
      elements tied with `c` in order, with `x` ahead of those it passed over. */
  lemma {:induction false} InsertKeepsTies<T>(x: T, u: seq<T>, c: T, lt: (T, T) -> bool)
    requires forall i :: 0 <= i < |u| && lt(u[i], x) ==> !(Tied(c, u[i], lt) && Tied(c, x, lt))
    ensures TiedWith(Insert(x, u, lt), c, lt) == (if Tied(c, x, lt) then [x] else []) + TiedWith(u, c, lt)
  {
    if u != [] && lt(u[0], x) {
      var t := u[1..];
      assert forall i :: 0 <= i < |t| ==> t[i] == u[i + 1];
      InsertKeepsTies(x, t, c, lt);
      var rest := Insert(x, t, lt);
      var y := u[0];
      var ys: seq<T> := if Tied(c, y, lt) then [y] else [];
      var xs: seq<T> := if Tied(c, x, lt) then [x] else [];
      calc {
        TiedWith(Insert(x, u, lt), c, lt);
        { InsertPast(x, u, lt); }
        TiedWith([y] + rest, c, lt);
        { TiedWithCons(y, rest, c, lt); }
        ys + TiedWith(rest, c, lt);
        ys + (xs + TiedWith(t, c, lt));
        { SwapOptional(Tied(c, y, lt), y, Tied(c, x, lt), x, TiedWith(t, c, lt)); }
        xs + (ys + TiedWith(t, c, lt));
        { assert u == [y] + t; TiedWithCons(y, t, c, lt); }
        xs + TiedWith(u, c, lt);
      }
    } else if u != [] {
      TiedWithCons(x, u, c, lt);
    }
  }

  /** Inserting `x` places it ahead of every element it ties with, and leaves their order. */
  lemma {:induction false} InsertStable<T(!new)>(x: T, u: seq<T>, c: T, lt: (T, T) -> bool)
    requires StrictWeakOn([c, x] + u, lt)
    ensures TiedWith(Insert(x, u, lt), c, lt) == (if Tied(c, x, lt) then [x] else []) + TiedWith(u, c, lt)
  {
    forall i | 0 <= i < |u| && lt(u[i], x)
      ensures !(Tied(c, u[i], lt) && Tied(c, x, lt))
    {
      StrictNotBothTied([c, x] + u, u[i], x, c, lt);
    }
    InsertKeepsTies(x, u, c, lt);
  }

  /** The sort is stable: the elements that tie with any `c` come out in their input order. */
  lemma {:induction false} SortStable<T(!new)>(s: seq<T>, c: T, lt: (T, T) -> bool)
    requires StrictWeakOn([c] + s, lt)
    ensures TiedWith(Sort(s, lt), c, lt) == TiedWith(s, c, lt)
  {
    if s != [] {
      var t := s[1..];
      assert forall y :: y in [c] + t ==> y in [c] + s;
      StrictWeakSub([c] + t, [c] + s, lt);
      SortStable(t, c, lt);
      var st := Sort(t, lt);
      forall y | y in [c, s[0]] + st ensures y in [c] + s {
        if y in st {
          assert y in multiset(st);
        }
      }
      StrictWeakSub([c, s[0]] + st, [c] + s, lt);
      InsertStable(s[0], st, c, lt);
    }
  }
}

/**
  Stable sorting, as the library sort does it: `before(a, b)` says that a must come strictly
  before b, and elements that are not separated by `before` keep their order.
*/
module Sorting {

  function Insert<T>(before: (T, T) -> bool, x: T, s: seq<T>): (r: seq<T>)
    ensures multiset(r) == multiset(s) + multiset{x}
  {
    if s == [] || !before(s[0], x) then [x] + s
    else
      assert s == [s[0]] + s[1..];
      [s[0]] + Insert(before, x, s[1..])
  }

  function Sort<T>(before: (T, T) -> bool, s: seq<T>): (r: seq<T>)
    ensures multiset(r) == multiset(s)
  {
    if s == [] then []
    else
      assert s == [s[0]] + s[1..];
      Insert(before, s[0], Sort(before, s[1..]))
  }

  ghost predicate Ordered<T(!new)>(le: (T, T) -> bool, s: seq<T>) {
    forall i, j :: 0 <= i < j < |s| ==> le(s[i], s[j])
  }

  /** `before` is a strict version of the total preorder `le`. */
  ghost predicate Refines<T(!new)>(before: (T, T) -> bool, le: (T, T) -> bool) {
    && (forall a, b :: before(a, b) ==> le(a, b))
    && (forall a, b :: !before(a, b) ==> le(b, a))
    && (forall a, b, c :: le(a, b) && le(b, c) ==> le(a, c))
  }

  lemma {:induction false} InsertOrdered<T(!new)>(before: (T, T) -> bool, le: (T, T) -> bool, x: T, s: seq<T>)
    requires Refines(before, le) && Ordered(le, s)
    ensures Ordered(le, Insert(before, x, s))
  {
    if s == [] {
    } else {
      if !before(s[0], x) {
        assert le(x, s[0]);
        assert forall j :: 0 <= j < |s| ==> le(x, s[j]);
      } else {
        InsertOrdered(before, le, x, s[1..]);
        var r := Insert(before, x, s[1..]);
        forall j | 0 <= j < |r| ensures le(s[0], r[j]) {
          assert r[j] in multiset(r);
          assert r[j] in s[1..] || r[j] == x;
        }
      }
    }
  }

  lemma {:induction false} SortOrdered<T(!new)>(before: (T, T) -> bool, le: (T, T) -> bool, s: seq<T>)
    requires Refines(before, le)
    ensures Ordered(le, Sort(before, s))
  {
    if s == [] {
    } else {
      SortOrdered(before, le, s[1..]);
      InsertOrdered(before, le, s[0], Sort(before, s[1..]));
    }
  }

  lemma SortLength<T>(before: (T, T) -> bool, s: seq<T>)
    ensures |Sort(before, s)| == |s|
    ensures forall i :: 0 <= i < |s| ==> Sort(before, s)[i] in s
    ensures forall x :: x in s ==> x in Sort(before, s)
  {
    var r := Sort(before, s);
    assert |multiset(r)| == |multiset(s)|;
    forall i | 0 <= i < |s| ensures r[i] in s {
      assert r[i] in multiset(r);
    }
    forall x | x in s ensures x in r {
      assert x in multiset(s);
    }
  }

  function Filter<T>(keep: T -> bool, s: seq<T>): seq<T> {
    if s == [] then []
    else if keep(s[0]) then [s[0]] + Filter(keep, s[1..])
    else Filter(keep, s[1..])
  }

  /** Elements that `before` never separates come out in the order they went in. */
  lemma {:induction false} SortStable<T(!new)>(before: (T, T) -> bool, tied: T -> bool, s: seq<T>)
    requires forall a, b :: tied(a) && tied(b) ==> !before(a, b)
    ensures Filter(tied, Sort(before, s)) == Filter(tied, s)
  {
    if s == [] {
    } else {
      SortStable(before, tied, s[1..]);
      InsertStable(before, tied, s[0], Sort(before, s[1..]));
    }
  }

  lemma {:induction false} InsertStable<T(!new)>(before: (T, T) -> bool, tied: T -> bool, x: T, s: seq<T>)
    requires forall a, b :: tied(a) && tied(b) ==> !before(a, b)
    ensures Filter(tied, Insert(before, x, s)) == (if tied(x) then [x] else []) + Filter(tied, s)
  {
    if s == [] || !before(s[0], x) {
      assert ([x] + s)[1..] == s;
    } else {
      InsertStable(before, tied, x, s[1..]);
      var r := [s[0]] + Insert(before, x, s[1..]);
      assert r[1..] == Insert(before, x, s[1..]);
    }
  }

  /** Of two elements of the sorted list either `before` puts the first in front, or the list had it in front. */
  lemma {:induction false} SortTies<T(!new)>(before: (T, T) -> bool, tie: (T, T) -> bool, s: seq<T>)
    requires forall i, j :: 0 <= i < j < |s| ==> tie(s[i], s[j])
    ensures forall i, j :: 0 <= i < j < |s| ==>
              |Sort(before, s)| == |s| &&
              (before(Sort(before, s)[i], Sort(before, s)[j]) || tie(Sort(before, s)[i], Sort(before, s)[j]))
  {
    SortLength(before, s);
    if s == [] {
    } else {
      SortTies(before, tie, s[1..]);
      var rest := Sort(before, s[1..]);
      SortLength(before, s[1..]);
      forall j | 0 <= j < |rest| ensures tie(s[0], rest[j]) {
        var m :| 0 <= m < |s[1..]| && s[1..][m] == rest[j];
        assert s[m + 1] == rest[j];
      }
      InsertTies(before, tie, s[0], rest);
    }
  }

  lemma {:induction false} InsertTies<T(!new)>(before: (T, T) -> bool, tie: (T, T) -> bool, x: T, s: seq<T>)
    requires forall j :: 0 <= j < |s| ==> tie(x, s[j])
    requires forall i, j :: 0 <= i < j < |s| ==> before(s[i], s[j]) || tie(s[i], s[j])
    ensures |Insert(before, x, s)| == |s| + 1
    ensures forall j :: 0 <= j < |s| + 1 ==> Insert(before, x, s)[j] in s || Insert(before, x, s)[j] == x
    ensures forall i, j :: 0 <= i < j < |s| + 1 ==>
              before(Insert(before, x, s)[i], Insert(before, x, s)[j]) ||
              tie(Insert(before, x, s)[i], Insert(before, x, s)[j])
  {
    if s == [] || !before(s[0], x) {
    } else {
      InsertTies(before, tie, x, s[1..]);
    }
  }

  /** A list in order stays as it is. */
  lemma {:induction false} SortInOrder<T>(before: (T, T) -> bool, s: seq<T>)
    requires forall i, j :: 0 <= i < j < |s| ==> !before(s[j], s[i])
    ensures Sort(before, s) == s
  {
    if s == [] {
    } else {
      SortInOrder(before, s[1..]);
    }
  }

  lemma {:induction false} InsertLast<T>(before: (T, T) -> bool, x: T, s: seq<T>)
    requires forall i :: 0 <= i < |s| ==> before(s[i], x)
    ensures Insert(before, x, s) == s + [x]
  {
    if s == [] {
    } else {
      InsertLast(before, x, s[1..]);
    }
  }

  /** A list in strictly opposite order is reversed. */
  lemma {:induction false} SortReverses<T>(before: (T, T) -> bool, s: seq<T>)
    requires forall i, j :: 0 <= i < j < |s| ==> before(s[j], s[i])
    ensures |Sort(before, s)| == |s| && forall i :: 0 <= i < |s| ==> Sort(before, s)[i] == s[|s| - 1 - i]
  {
    if s == [] {
    } else {
      SortReverses(before, s[1..]);
      InsertLast(before, s[0], Sort(before, s[1..]));
    }
  }
}

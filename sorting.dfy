/**
 * Stable sorting by a comparator, as `Array.prototype.sort` (stable since
 * ECMAScript 2019) and as a database `ORDER BY` with a deterministic tie order
 * are modelled here: an insertion sort by a total preorder `le`, where
 * `le(a, b)` means "a may come before b".
 */
module Sorting {

  ghost predicate IsTotalPreorder<T(!new)>(le: (T, T) -> bool) {
    && (forall a, b :: le(a, b) || le(b, a))
    && (forall a, b, c :: le(a, b) && le(b, c) ==> le(a, c))
  }

  predicate SortedBy<T>(s: seq<T>, le: (T, T) -> bool) {
    forall i, j :: 0 <= i < j < |s| ==> le(s[i], s[j])
  }

  /** Inserts `x` after every element of `s` that may precede it. */
  function Insert<T>(x: T, s: seq<T>, le: (T, T) -> bool): (r: seq<T>)
    ensures multiset(r) == multiset(s) + multiset{x}
  {
    if s == [] then [x]
    else if le(s[0], x) then
      assert s == [s[0]] + s[1..];
      [s[0]] + Insert(x, s[1..], le)
    else [x] + s
  }

  /** Inserting into a sorted sequence keeps it sorted. */
  lemma {:induction false} InsertSorted<T(!new)>(x: T, s: seq<T>, le: (T, T) -> bool)
    requires IsTotalPreorder(le)
    requires SortedBy(s, le)
    ensures SortedBy(Insert(x, s, le), le)
    decreases |s|
  {
    if s == [] {
    } else if le(s[0], x) {
      InsertSorted(x, s[1..], le);
      ConsSorted(s[0], s[1..], Insert(x, s[1..], le), x, le);
    } else {
      FrontSorted(x, s, le);
    }
  }

  /** The head stays in front of the sorted insertion into the tail. */
  lemma ConsSorted<T(!new)>(h: T, tail: seq<T>, rest: seq<T>, x: T, le: (T, T) -> bool)
    requires IsTotalPreorder(le)
    requires SortedBy([h] + tail, le) && le(h, x)
    requires multiset(rest) == multiset(tail) + multiset{x}
    requires SortedBy(rest, le)
    ensures SortedBy([h] + rest, le)
  {
    forall k | 0 <= k < |rest| ensures le(h, rest[k]) {
      assert rest[k] in multiset(rest);
      if rest[k] != x {
        assert rest[k] in multiset(tail);
        var j :| 0 <= j < |tail| && tail[j] == rest[k];
        assert ([h] + tail)[0] == h && ([h] + tail)[j + 1] == tail[j];
        assert le(h, tail[j]);
      }
    }
    var r := [h] + rest;
    forall i, j | 0 <= i < j < |r| ensures le(r[i], r[j]) {
      assert r[j] == rest[j - 1];
      if i == 0 {
        assert le(h, rest[j - 1]);
      } else {
        assert r[i] == rest[i - 1];
        assert le(rest[i - 1], rest[j - 1]);
      }
    }
  }

  /** An element that may not follow the head goes in front. */
  lemma FrontSorted<T(!new)>(x: T, s: seq<T>, le: (T, T) -> bool)
    requires IsTotalPreorder(le)
    requires SortedBy(s, le) && s != [] && !le(s[0], x)
    ensures SortedBy([x] + s, le)
  {
    assert le(x, s[0]);
    var r := [x] + s;
    forall i, j | 0 <= i < j < |r| ensures le(r[i], r[j]) {
      if i == 0 {
        if j > 1 {
          assert le(s[0], s[j - 1]);
        }
      } else {
        assert r[i] == s[i - 1] && r[j] == s[j - 1];
      }
    }
  }

  /** The stable sort of `s`: later elements are inserted after equal earlier ones. */
  function Sort<T(!new)>(s: seq<T>, le: (T, T) -> bool): (r: seq<T>)
    requires IsTotalPreorder(le)
    ensures multiset(r) == multiset(s)
    ensures SortedBy(r, le)
    decreases |s|
  {
    if s == [] then []
    else
      assert s == s[..|s| - 1] + [s[|s| - 1]];
      var sorted := Sort(s[..|s| - 1], le);
      InsertSorted(s[|s| - 1], sorted, le);
      Insert(s[|s| - 1], sorted, le)
  }

  /** The elements of `s` that `le` ranks level with `x`, in their order in `s`. */
  function Equivalents<T>(s: seq<T>, x: T, le: (T, T) -> bool): seq<T>
    decreases |s|
  {
    if s == [] then []
    else (if le(x, s[0]) && le(s[0], x) then [s[0]] else []) + Equivalents(s[1..], x, le)
  }

  lemma {:induction false} EquivalentsAppend<T>(a: seq<T>, b: seq<T>, x: T, le: (T, T) -> bool)
    ensures Equivalents(a + b, x, le) == Equivalents(a, x, le) + Equivalents(b, x, le)
    decreases |a|
  {
    if a == [] {
      assert a + b == b;
    } else {
      assert (a + b)[0] == a[0] && (a + b)[1..] == a[1..] + b;
      EquivalentsAppend(a[1..], b, x, le);
    }
  }

  lemma {:induction false} NoEquivalents<T>(s: seq<T>, x: T, le: (T, T) -> bool)
    requires forall k :: 0 <= k < |s| ==> !(le(x, s[k]) && le(s[k], x))
    ensures Equivalents(s, x, le) == []
    decreases |s|
  {
    if s != [] {
      NoEquivalents(s[1..], x, le);
    }
  }

  /**
   * Inserting `e` into a sorted sequence puts it after every element level
   * with it, so among the elements level with any `x` it comes last.
   */
  lemma {:induction false} InsertStable<T(!new)>(e: T, s: seq<T>, le: (T, T) -> bool, x: T)
    requires IsTotalPreorder(le)
    requires SortedBy(s, le)
    ensures Equivalents(Insert(e, s, le), x, le) == Equivalents(s, x, le) + Equivalents([e], x, le)
    decreases |s|
  {
    if s == [] {
      assert Insert(e, s, le) == [e];
    } else if le(s[0], e) {
      InsertStable(e, s[1..], le, x);
      StepPast(e, s, le, x);
    } else {
      GoFront(e, s, le, x);
    }
  }

  /** `e` passes the head: the head's contribution comes first on both sides. */
  lemma StepPast<T>(e: T, s: seq<T>, le: (T, T) -> bool, x: T)
    requires s != [] && le(s[0], e)
    requires Equivalents(Insert(e, s[1..], le), x, le) == Equivalents(s[1..], x, le) + Equivalents([e], x, le)
    ensures Equivalents(Insert(e, s, le), x, le) == Equivalents(s, x, le) + Equivalents([e], x, le)
  {
    assert Insert(e, s, le) == [s[0]] + Insert(e, s[1..], le);
    assert s == [s[0]] + s[1..];
    ConsLevel(s[0], s[1..], Insert(e, s[1..], le), Equivalents([e], x, le), x, le);
  }

  lemma ConsLevel<T>(h: T, t: seq<T>, t': seq<T>, extra: seq<T>, x: T, le: (T, T) -> bool)
    requires Equivalents(t', x, le) == Equivalents(t, x, le) + extra
    ensures Equivalents([h] + t', x, le) == Equivalents([h] + t, x, le) + extra
  {
    assert ([h] + t)[0] == h && ([h] + t)[1..] == t;
    assert ([h] + t')[0] == h && ([h] + t')[1..] == t';
  }

  /** `e` goes in front, ahead of elements none of which is level with it. */
  lemma GoFront<T(!new)>(e: T, s: seq<T>, le: (T, T) -> bool, x: T)
    requires IsTotalPreorder(le)
    requires SortedBy(s, le) && s != [] && !le(s[0], e)
    ensures Equivalents(Insert(e, s, le), x, le) == Equivalents(s, x, le) + Equivalents([e], x, le)
  {
    assert Insert(e, s, le) == [e] + s;
    EquivalentsAppend([e], s, x, le);
    if le(x, e) && le(e, x) {
      NoneLevelAfter(e, s, le, x);
    } else {
      assert Equivalents([e], x, le) == [] + Equivalents([e][1..], x, le);
    }
  }

  /** When `e` goes in front, nothing after it is level with `e`. */
  lemma NoneLevelAfter<T(!new)>(e: T, s: seq<T>, le: (T, T) -> bool, x: T)
    requires IsTotalPreorder(le)
    requires SortedBy(s, le) && s != [] && !le(s[0], e)
    requires le(x, e) && le(e, x)
    ensures Equivalents(s, x, le) == []
  {
    forall k | 0 <= k < |s| ensures !(le(x, s[k]) && le(s[k], x)) {
      assert k == 0 || le(s[0], s[k]);
    }
    NoEquivalents(s, x, le);
  }

  /**
   * The sort is stable: the elements level with any `x` come out in the order
   * they went in.
   */
  lemma {:induction false} SortStable<T(!new)>(s: seq<T>, le: (T, T) -> bool, x: T)
    requires IsTotalPreorder(le)
    ensures Equivalents(Sort(s, le), x, le) == Equivalents(s, x, le)
    decreases |s|
  {
    if s != [] {
      var front, e := s[..|s| - 1], s[|s| - 1];
      SortStable(front, le, x);
      InsertStable(e, Sort(front, le), le, x);
      assert s == front + [e];
      EquivalentsAppend(front, [e], x, le);
    }
  }

  lemma SortPreservesLength<T(!new)>(s: seq<T>, le: (T, T) -> bool)
    requires IsTotalPreorder(le)
    ensures |Sort(s, le)| == |s|
  {
    assert |multiset(Sort(s, le))| == |multiset(s)|;
  }
}

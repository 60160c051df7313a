/**
  Python's `sorted(items, key=score, reverse=True)` on scored items: a
  stable sort by descending score. Items with equal scores keep the order
  they had in the input.
*/
module Sorting {

  /** Scores never increase along `s`. */
  predicate Descending<T>(s: seq<(T, real)>) {
    forall i, j :: 0 <= i < j < |s| ==> s[i].1 >= s[j].1
  }

  /** Places `x` after every item of `s` with a strictly higher score and before the rest. */
  function Insert<T>(x: (T, real), s: seq<(T, real)>): seq<(T, real)> {
    if s == [] || s[0].1 <= x.1 then [x] + s else [s[0]] + Insert(x, s[1..])
  }

  /** Insertion sort, taking the items from the back so that the earlier of two equal items stays first. */
  function SortDesc<T>(s: seq<(T, real)>): seq<(T, real)> {
    if s == [] then [] else Insert(s[0], SortDesc(s[1..]))
  }

  /** The items of `s` scored exactly `r`, in their order in `s`. */
  function WithScore<T>(s: seq<(T, real)>, r: real): seq<(T, real)> {
    if s == [] then [] else (if s[0].1 == r then [s[0]] else []) + WithScore(s[1..], r)
  }

  lemma {:induction false} InsertPerm<T>(x: (T, real), s: seq<(T, real)>)
    ensures multiset(Insert(x, s)) == multiset(s) + multiset{x}
    decreases |s|
  {
    if s != [] && s[0].1 > x.1 {
      InsertPerm(x, s[1..]);
      assert s == [s[0]] + s[1..];
    }
  }

  lemma {:induction false} InsertDescending<T>(x: (T, real), s: seq<(T, real)>)
    requires Descending(s)
    ensures Descending(Insert(x, s))
    decreases |s|
  {
    if s != [] && s[0].1 > x.1 {
      var t := Insert(x, s[1..]);
      InsertDescending(x, s[1..]);
      InsertPerm(x, s[1..]);
      forall k | 0 <= k < |t|
        ensures t[k].1 <= s[0].1
      {
        assert t[k] in multiset(t);
        if t[k] != x {
          assert t[k] in multiset(s[1..]);
          var j :| 0 <= j < |s[1..]| && s[1..][j] == t[k];
          assert s[j + 1] == t[k];
        }
      }
      assert Insert(x, s) == [s[0]] + t;
    }
  }

  lemma {:induction false} InsertWithScore<T>(x: (T, real), s: seq<(T, real)>, r: real)
    ensures WithScore(Insert(x, s), r) == (if x.1 == r then [x] else []) + WithScore(s, r)
    decreases |s|
  {
    if s == [] || s[0].1 <= x.1 {
      assert ([x] + s)[1..] == s;
    } else {
      var t := Insert(x, s[1..]);
      InsertWithScore(x, s[1..], r);
      assert ([s[0]] + t)[1..] == t;
    }
  }

  /**
    The sorted items are the input items rearranged, their scores never
    increase, and the items of any one score appear in their input order.
  */
  lemma {:induction false} SortDescFacts<T>(s: seq<(T, real)>, r: real)
    ensures |SortDesc(s)| == |s|
    ensures multiset(SortDesc(s)) == multiset(s)
    ensures Descending(SortDesc(s))
    ensures WithScore(SortDesc(s), r) == WithScore(s, r)
    decreases |s|
  {
    if s != [] {
      SortDescFacts(s[1..], r);
      InsertPerm(s[0], SortDesc(s[1..]));
      InsertDescending(s[0], SortDesc(s[1..]));
      InsertWithScore(s[0], SortDesc(s[1..]), r);
      assert s == [s[0]] + s[1..];
      assert multiset(SortDesc(s)) == multiset(s);
    }
  }

  /** The sort keeps exactly the items of the input. */
  lemma SortDescMembers<T>(s: seq<(T, real)>, x: (T, real))
    ensures x in SortDesc(s) <==> x in s
  {
    SortDescFacts(s, 0.0);
    assert x in SortDesc(s) <==> x in multiset(SortDesc(s));
  }

  /** Python's `s[:k]`: a negative `k` counts from the end. */
  function SliceEnd(k: int, n: nat): (e: nat)
    ensures e <= n
    ensures k >= 0 ==> e == if k <= n then k else n
    ensures k < 0 ==> e == if n + k >= 0 then n + k else 0
  {
    if k >= 0 then (if k <= n then k else n) else if n + k >= 0 then n + k else 0
  }
}

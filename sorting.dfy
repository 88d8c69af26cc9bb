/**
  A stable insertion sort under a total preorder, standing for the `ORDER BY` clauses of
  the queries the model performs.
 */
module Sorting {

  ghost predicate IsTotalPreorder<T(!new)>(le: (T, T) -> bool) {
    && (forall a, b :: le(a, b) || le(b, a))
    && (forall a, b, c :: le(a, b) && le(b, c) ==> le(a, c))
  }

  predicate SortedBy<T>(s: seq<T>, le: (T, T) -> bool) {
    forall i, j :: 0 <= i < j < |s| ==> le(s[i], s[j])
  }

  predicate Distinct<T(==)>(s: seq<T>) {
    forall i, j :: 0 <= i < j < |s| ==> s[i] != s[j]
  }

  /** Places `x` before the first element it is not after. */
  function Insert<T(!new)>(x: T, s: seq<T>, le: (T, T) -> bool): (r: seq<T>)
    requires IsTotalPreorder(le)
    requires SortedBy(s, le)
    ensures SortedBy(r, le)
    ensures |r| == |s| + 1
    ensures forall y :: y in r <==> y == x || y in s
    ensures Distinct(s) && x !in s ==> Distinct(r)
  {
    if s == [] then [x]
    else if le(x, s[0]) then
      assert forall j :: 0 <= j < |s| ==> le(s[0], s[j]) || j == 0;
      [x] + s
    else
      var t := Insert(x, s[1..], le);
      assert forall y :: y in t ==> le(s[0], y);
      assert Distinct(s) ==> s[0] !in s[1..] by {
        if Distinct(s) {
          forall j | 0 <= j < |s[1..]|
            ensures s[1..][j] != s[0]
          {
            assert s[1..][j] == s[j + 1];
          }
        }
      }
      [s[0]] + t
  }

  /** A sorted rearrangement of `s`: same length, same elements. */
  function InsertionSort<T(!new)>(s: seq<T>, le: (T, T) -> bool): (r: seq<T>)
    requires IsTotalPreorder(le)
    ensures SortedBy(r, le)
    ensures |r| == |s|
    ensures forall y :: y in r <==> y in s
    ensures Distinct(s) ==> Distinct(r)
  {
    if s == [] then [] else Insert(s[0], InsertionSort(s[1..], le), le)
  }

  /** Equal keys in position order: whenever `r[b]` sorts no later than `r[a]`, `a` before `b` means `r[a] < r[b]`. */
  predicate TiesAscending(r: seq<nat>, le: (nat, nat) -> bool) {
    forall a, b :: 0 <= a < b < |r| && le(r[b], r[a]) ==> r[a] < r[b]
  }

  lemma {:induction false} InsertTiesAscending(x: nat, t: seq<nat>, le: (nat, nat) -> bool)
    requires IsTotalPreorder(le)
    requires SortedBy(t, le) && TiesAscending(t, le)
    requires forall j :: 0 <= j < |t| ==> x < t[j]
    ensures TiesAscending(Insert(x, t, le), le)
    decreases |t|
  {
    if t != [] && !le(x, t[0]) {
      var u := Insert(x, t[1..], le);
      assert TiesAscending(t[1..], le) by {
        forall a, b | 0 <= a < b < |t[1..]| && le(t[1..][b], t[1..][a])
          ensures t[1..][a] < t[1..][b]
        {
          assert t[1..][a] == t[a + 1] && t[1..][b] == t[b + 1];
        }
      }
      InsertTiesAscending(x, t[1..], le);
      var r := Insert(x, t, le);
      assert r == [t[0]] + u;
      forall a, b | 0 <= a < b < |r| && le(r[b], r[a])
        ensures r[a] < r[b]
      {
        if a == 0 {
          assert r[b] in u;
          if r[b] != x {
            var q :| 0 <= q < |t[1..]| && t[1..][q] == r[b];
            assert t[q + 1] == r[b];
          }
        } else {
          assert r[a] == u[a - 1] && r[b] == u[b - 1];
        }
      }
    }
  }

  /**
    The sort is stable: on positions listed in increasing order, elements that tie keep
    that order.
   */
  lemma {:induction false} InsertionSortStable(s: seq<nat>, le: (nat, nat) -> bool)
    requires IsTotalPreorder(le)
    requires forall i, j :: 0 <= i < j < |s| ==> s[i] < s[j]
    ensures TiesAscending(InsertionSort(s, le), le)
    decreases |s|
  {
    if s != [] {
      var t := InsertionSort(s[1..], le);
      InsertionSortStable(s[1..], le);
      forall j | 0 <= j < |t|
        ensures s[0] < t[j]
      {
        assert t[j] in s[1..];
      }
      InsertTiesAscending(s[0], t, le);
    }
  }
}

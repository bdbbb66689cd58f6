// A stable insertion sort that stands for Python's `sorted(..., reverse=True)`
// and for the SQL ORDER BY clauses of the queries.
module Sorting {
  // Insert x before the first element it may precede.
  function Insert<T>(x: T, s: seq<T>, ge: (T, T) -> bool): (r: seq<T>)
    ensures |r| == |s| + 1
    ensures multiset(r) == multiset(s) + multiset{x}
  {
    if s == [] || ge(x, s[0]) then [x] + s
    else
      assert s == [s[0]] + s[1..];
      [s[0]] + Insert(x, s[1..], ge)
  }

  function SortBy<T>(s: seq<T>, ge: (T, T) -> bool): (r: seq<T>)
    ensures |r| == |s|
    ensures multiset(r) == multiset(s)
  {
    if s == [] then []
    else
      assert s == [s[0]] + s[1..];
      Insert(s[0], SortBy(s[1..], ge), ge)
  }

  ghost predicate TotalPreorder<T(!new)>(ge: (T, T) -> bool)
  {
    (forall x, y :: ge(x, y) || ge(y, x))
    && (forall x, y, z :: ge(x, y) && ge(y, z) ==> ge(x, z))
  }

  ghost predicate SortedBy<T>(s: seq<T>, ge: (T, T) -> bool)
  {
    forall i, j :: 0 <= i < j < |s| ==> ge(s[i], s[j])
  }

  lemma {:induction false} InsertSorted<T(!new)>(x: T, s: seq<T>, ge: (T, T) -> bool)
    requires TotalPreorder(ge) && SortedBy(s, ge)
    ensures SortedBy(Insert(x, s, ge), ge)
  {
    if s != [] && !ge(x, s[0]) {
      InsertSorted(x, s[1..], ge);
      var r := Insert(x, s, ge);
      var t := Insert(x, s[1..], ge);
      assert r == [s[0]] + t;
      assert forall k :: 0 <= k < |t| ==> t[k] in multiset(s[1..]) + multiset{x};
      forall j | 0 < j < |r| ensures ge(r[0], r[j]) {
        assert r[j] == t[j - 1];
        assert t[j - 1] in multiset(s[1..]) + multiset{x};
        if t[j - 1] == x {
        } else {
          assert t[j - 1] in s[1..];
        }
      }
    }
  }

  lemma {:induction false} SortSorted<T(!new)>(s: seq<T>, ge: (T, T) -> bool)
    requires TotalPreorder(ge)
    ensures SortedBy(SortBy(s, ge), ge)
  {
    if s != [] {
      SortSorted(s[1..], ge);
      InsertSorted(s[0], SortBy(s[1..], ge), ge);
    }
  }

  // The first element of the sorted sequence is the earliest element that may
  // precede every element.
  lemma {:induction false} SortFirstIsEarliestMax<T(!new)>(s: seq<T>, ge: (T, T) -> bool) returns (j: nat)
    requires TotalPreorder(ge) && |s| > 0
    ensures j < |s| && SortBy(s, ge)[0] == s[j]
    ensures forall i :: 0 <= i < |s| ==> ge(s[j], s[i])
    ensures forall i :: 0 <= i < j ==> !ge(s[i], s[j])
  {
    if |s| == 1 {
      j := 0;
    } else {
      var t := SortBy(s[1..], ge);
      var j' := SortFirstIsEarliestMax(s[1..], ge);
      if ge(s[0], t[0]) {
        j := 0;
        forall i | 0 <= i < |s| ensures ge(s[0], s[i]) {
          if i > 0 { assert s[i] == s[1..][i - 1]; }
        }
      } else {
        j := j' + 1;
        forall i | 0 <= i < |s| ensures ge(s[j], s[i]) {
          if i > 0 { assert s[i] == s[1..][i - 1]; }
        }
        forall i | 0 <= i < j ensures !ge(s[i], s[j]) {
          if i > 0 { assert s[i] == s[1..][i - 1]; }
        }
      }
    }
  }

  // Descending order of a real-valued key, as `sorted(xs, key=k, reverse=True)`.
  function ByKeyDesc<T>(key: T -> real): (T, T) -> bool
  {
    (x: T, y: T) => key(x) >= key(y)
  }

  lemma ByKeyDescApply<T>(key: T -> real, x: T, y: T)
    ensures ByKeyDesc(key)(x, y) <==> key(x) >= key(y)
  {
  }

  lemma ByKeyDescTotal<T(!new)>(key: T -> real)
    ensures TotalPreorder(ByKeyDesc(key))
  {
  }

  // The elements whose key equals k, in order.
  function WithKey<T>(s: seq<T>, key: T -> real, k: real): (r: seq<T>)
    ensures |r| <= |s|
  {
    if s == [] then []
    else (if key(s[0]) == k then [s[0]] else []) + WithKey(s[1..], key, k)
  }

  lemma {:induction false} InsertKeepsTies<T>(x: T, s: seq<T>, key: T -> real, k: real)
    requires SortedBy(s, ByKeyDesc(key))
    ensures WithKey(Insert(x, s, ByKeyDesc(key)), key, k)
         == (if key(x) == k then [x] else []) + WithKey(s, key, k)
  {
    var ge := ByKeyDesc(key);
    if s != [] && !ge(x, s[0]) {
      assert key(s[0]) > key(x);
      assert SortedBy(s[1..], ge);
      InsertKeepsTies(x, s[1..], key, k);
      var r := Insert(x, s, ge);
      assert r == [s[0]] + Insert(x, s[1..], ge);
      assert r[1..] == Insert(x, s[1..], ge);
      if key(x) == k {
        assert key(s[0]) != k;
      }
    } else {
      var r := Insert(x, s, ge);
      assert r == [x] + s;
      assert r[1..] == s;
    }
  }

  // Stability: among elements with equal keys the input order is kept.
  lemma {:induction false} SortKeepsTies<T(!new)>(s: seq<T>, key: T -> real, k: real)
    ensures WithKey(SortBy(s, ByKeyDesc(key)), key, k) == WithKey(s, key, k)
  {
    if s != [] {
      SortKeepsTies(s[1..], key, k);
      ByKeyDescTotal(key);
      SortSorted(s[1..], ByKeyDesc(key));
      InsertKeepsTies(s[0], SortBy(s[1..], ByKeyDesc(key)), key, k);
    }
  }

  // No two elements share a key.
  ghost predicate DistinctBy<T, K>(s: seq<T>, f: T -> K)
  {
    forall i, j :: 0 <= i < j < |s| ==> f(s[i]) != f(s[j])
  }

  lemma {:induction false} InsertKeepsDistinct<T, K>(x: T, s: seq<T>, ge: (T, T) -> bool, f: T -> K)
    requires DistinctBy(s, f) && forall k :: 0 <= k < |s| ==> f(s[k]) != f(x)
    ensures DistinctBy(Insert(x, s, ge), f)
  {
    if s != [] && !ge(x, s[0]) {
      var t := Insert(x, s[1..], ge);
      InsertKeepsDistinct(x, s[1..], ge, f);
      var r := [s[0]] + t;
      assert r == Insert(x, s, ge);
      forall j | 0 < j < |r| ensures f(r[0]) != f(r[j]) {
        assert r[j] == t[j - 1];
        assert t[j - 1] in multiset(s[1..]) + multiset{x};
        if t[j - 1] != x {
          assert t[j - 1] in s[1..];
        }
      }
    }
  }

  lemma {:induction false} SortKeepsDistinct<T, K>(s: seq<T>, ge: (T, T) -> bool, f: T -> K)
    requires DistinctBy(s, f)
    ensures DistinctBy(SortBy(s, ge), f)
  {
    if s != [] {
      SortKeepsDistinct(s[1..], ge, f);
      var t := SortBy(s[1..], ge);
      forall k | 0 <= k < |t| ensures f(t[k]) != f(s[0]) {
        assert t[k] in multiset(s[1..]);
      }
      InsertKeepsDistinct(s[0], t, ge, f);
    }
  }
}

// The ORDER BY clauses of the queries over the watched and recommendation
// tables. A row's sort rank is a sequence of numbers compared left to right,
// each one descending; a nullable column sorted NULLS LAST contributes a
// presence flag (1 before 0) followed by its value.
module RowOrder {
  import opened Wrappers
  import opened Dates
  import opened Sorting
  import opened Text

  // The rows of s that satisfy p, in order (a WHERE clause).
  function Filter<T>(s: seq<T>, p: T -> bool): (r: seq<T>)
    ensures |r| <= |s|
    ensures forall x :: x in r ==> x in s && p(x)
    ensures forall x :: x in s && p(x) ==> x in r
  {
    if s == [] then []
    else
      var rest := Filter(s[1..], p);
      assert forall x :: x in s ==> x == s[0] || x in s[1..];
      if p(s[0]) then [s[0]] + rest else rest
  }

  // a ranks no later than b.
  function LexGe(a: seq<real>, b: seq<real>): bool
  {
    if a == [] || b == [] then true
    else if a[0] != b[0] then a[0] > b[0]
    else LexGe(a[1..], b[1..])
  }

  lemma {:induction false} LexGeTotal(a: seq<real>, b: seq<real>)
    requires |a| == |b|
    ensures LexGe(a, b) || LexGe(b, a)
  {
    if a != [] && a[0] == b[0] {
      LexGeTotal(a[1..], b[1..]);
    }
  }

  lemma {:induction false} LexGeTrans(a: seq<real>, b: seq<real>, c: seq<real>)
    requires |a| == |b| == |c|
    requires LexGe(a, b) && LexGe(b, c)
    ensures LexGe(a, c)
  {
    if a != [] && a[0] == b[0] == c[0] {
      LexGeTrans(a[1..], b[1..], c[1..]);
    }
  }

  // Ranks that tie both ways are equal.
  lemma {:induction false} LexGeAntisymmetric(a: seq<real>, b: seq<real>)
    requires |a| == |b|
    requires LexGe(a, b) && LexGe(b, a)
    ensures a == b
  {
    if a != [] {
      LexGeAntisymmetric(a[1..], b[1..]);
      assert a == [a[0]] + a[1..] && b == [b[0]] + b[1..];
    }
  }

  function ByRank<T>(rank: T -> seq<real>): (T, T) -> bool
  {
    (x, y) => LexGe(rank(x), rank(y))
  }

  // Ranks of one length order rows totally.
  lemma ByRankTotal<T(!new)>(rank: T -> seq<real>, n: nat)
    requires forall x :: |rank(x)| == n
    ensures TotalPreorder(ByRank(rank))
  {
    forall x, y ensures ByRank(rank)(x, y) || ByRank(rank)(y, x) {
      LexGeTotal(rank(x), rank(y));
    }
    forall x, y, z | ByRank(rank)(x, y) && ByRank(rank)(y, z) ensures ByRank(rank)(x, z) {
      LexGeTrans(rank(x), rank(y), rank(z));
    }
  }

  // A date as a day count; it keeps the calendar order of valid dates.
  function DateKey(d: Date): int
  {
    d.year * 372 + (d.month - 1) * 31 + (d.day - 1)
  }

  lemma DateKeyOrder(a: Date, b: Date)
    requires Valid(a) && Valid(b)
    ensures DateKey(a) < DateKey(b) <==> Before(a, b)
    ensures DateKey(a) == DateKey(b) <==> a == b
  {
    assert 1 <= a.day <= 31 && 1 <= b.day <= 31 by {
      assert DaysInMonth(a.year, a.month) <= 31 && DaysInMonth(b.year, b.month) <= 31;
    }
    if a.year < b.year {
      assert DateKey(a) < a.year * 372 + 372 <= DateKey(b);
    } else if b.year < a.year {
      assert DateKey(b) < b.year * 372 + 372 <= DateKey(a);
    }
  }

  // `watched_date DESC NULLS LAST`.
  function DateDescNullsLast(d: Option<Date>): (r: seq<real>)
    ensures |r| == 2
  {
    if d.Some? then [1.0, DateKey(d.value) as real] else [0.0, 0.0]
  }

  // A real-valued column `DESC NULLS LAST`.
  function RealDescNullsLast(x: Option<real>): (r: seq<real>)
    ensures |r| == 2
  {
    if x.Some? then [1.0, x.value] else [0.0, 0.0]
  }

  // The first two components decide between a present and a missing date,
  // and between two present dates.
  lemma DateRankOrder(d: Option<Date>, e: Option<Date>, rest1: seq<real>, rest2: seq<real>)
    requires d.Some? ==> Valid(d.value)
    requires e.Some? ==> Valid(e.value)
    requires LexGe(DateDescNullsLast(d) + rest1, DateDescNullsLast(e) + rest2)
    ensures d.None? ==> e.None?
    ensures d.Some? && e.Some? ==> !Before(d.value, e.value)
    ensures d == e ==> LexGe(rest1, rest2)
  {
    var a := DateDescNullsLast(d) + rest1;
    var b := DateDescNullsLast(e) + rest2;
    assert a[1..][1..] == rest1 && b[1..][1..] == rest2;
    if d.Some? && e.Some? {
      DateKeyOrder(d.value, e.value);
    }
  }

  function Ids<V>(listing: seq<(int, V)>): (r: seq<int>)
    ensures |r| == |listing| && forall i :: 0 <= i < |listing| ==> r[i] == listing[i].0
  {
    seq(|listing|, i requires 0 <= i < |listing| => listing[i].0)
  }

  // listing holds every row of a table once, with its id: the rows a query
  // scans.
  ghost predicate Lists<V>(listing: seq<(int, V)>, rows: map<int, V>)
  {
    (forall i :: 0 <= i < |listing| ==> listing[i].0 in rows && listing[i].1 == rows[listing[i].0])
    && (forall id :: id in rows ==> id in Ids(listing))
    && (forall i, j :: 0 <= i < j < |listing| ==> listing[i].0 != listing[j].0)
  }

  // A rank that ties no later than another agrees on the first component,
  // and the rest decides.
  lemma LexGeHead(a: seq<real>, b: seq<real>)
    requires |a| == |b| > 0 && LexGe(a, b)
    ensures a[0] >= b[0]
    ensures a[0] == b[0] ==> LexGe(a[1..], b[1..])
  {
  }

  // ORDER BY ... LIMIT n: the first n rows in order, all taken from the
  // input; with a limit at least the input's size, every row.
  lemma SortTake<T(!new)>(s: seq<T>, ge: (T, T) -> bool, n: nat)
    requires TotalPreorder(ge)
    ensures var r := Take(SortBy(s, ge), n);
      && |r| == (if n < |s| then n else |s|)
      && (forall i :: 0 <= i < |r| ==> r[i] in s)
      && (forall i, j :: 0 <= i < j < |r| ==> ge(r[i], r[j]))
      && (n >= |s| ==> forall x :: x in s ==> x in r)
  {
    SortSorted(s, ge);
    var t := SortBy(s, ge);
    var r := Take(t, n);
    forall i | 0 <= i < |r| ensures r[i] in s {
      assert r[i] == t[i];
      assert t[i] in multiset(t);
    }
    if n >= |s| {
      forall x | x in s ensures x in r {
        assert x in multiset(s);
      }
    }
  }
}

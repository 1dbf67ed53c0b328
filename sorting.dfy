/**
 * Python's `sorted`: a stable sort, here an insertion sort over a
 * "may precede" relation `le`, and the median that the engine computes
 * from a sorted copy in several places.
 */
module Sorting {
  import opened Numeric

  ghost predicate Total<T(!new)>(le: (T, T) -> bool)
  {
    forall a, b :: le(a, b) || le(b, a)
  }

  ghost predicate Transitive<T(!new)>(le: (T, T) -> bool)
  {
    forall a, b, c :: le(a, b) && le(b, c) ==> le(a, c)
  }

  /** Every element may precede every later one. */
  ghost predicate SortedBy<T>(s: seq<T>, le: (T, T) -> bool)
  {
    forall i, j :: 0 <= i < j < |s| ==> le(s[i], s[j])
  }

  /** Places `x` before the first element it may precede, so `x` goes ahead of its equals. */
  function InsertBy<T>(x: T, s: seq<T>, le: (T, T) -> bool): (r: seq<T>)
    ensures multiset(r) == multiset(s) + multiset{x}
    ensures |r| == |s| + 1
  {
    if s == [] || le(x, s[0]) then [x] + s
    else
      assert s == [s[0]] + s[1..];
      [s[0]] + InsertBy(x, s[1..], le)
  }

  /** Stable sort: inserting the earliest element last puts it ahead of every later equal. */
  function SortBy<T>(s: seq<T>, le: (T, T) -> bool): (r: seq<T>)
    ensures multiset(r) == multiset(s)
    ensures |r| == |s|
  {
    if s == [] then []
    else
      assert s == [s[0]] + s[1..];
      InsertBy(s[0], SortBy(s[1..], le), le)
  }

  lemma {:induction false} InsertBySorted<T(!new)>(x: T, s: seq<T>, le: (T, T) -> bool)
    requires Total(le) && Transitive(le)
    requires SortedBy(s, le)
    ensures SortedBy(InsertBy(x, s, le), le)
  {
    if s == [] || le(x, s[0]) {
      var r := [x] + s;
      forall i, j | 0 <= i < j < |r| ensures le(r[i], r[j]) {
        if i == 0 && j > 1 {
          assert le(x, s[0]) && le(s[0], s[j - 1]);
        }
      }
    } else {
      var tail := InsertBy(x, s[1..], le);
      InsertBySorted(x, s[1..], le);
      assert le(s[0], x);
      forall k | 0 <= k < |tail| ensures le(s[0], tail[k]) {
        assert tail[k] in multiset(tail);
        if tail[k] != x {
          assert tail[k] in multiset(s[1..]);
          var m :| 0 <= m < |s[1..]| && s[1..][m] == tail[k];
          assert s[m + 1] == tail[k];
        }
      }
      var r := [s[0]] + tail;
      forall i, j | 0 <= i < j < |r| ensures le(r[i], r[j]) {
        if i > 0 {
          assert r[i] == tail[i - 1] && r[j] == tail[j - 1];
        }
      }
    }
  }

  lemma {:induction false} SortBySorted<T(!new)>(s: seq<T>, le: (T, T) -> bool)
    requires Total(le) && Transitive(le)
    ensures SortedBy(SortBy(s, le), le)
  {
    if s != [] {
      SortBySorted(s[1..], le);
      InsertBySorted(s[0], SortBy(s[1..], le), le);
    }
  }

  function RealLe(a: real, b: real): bool
  {
    a <= b
  }

  /** `sorted(values)` for a list of floats: ascending, same elements. */
  function SortReals(s: seq<real>): (r: seq<real>)
    ensures multiset(r) == multiset(s) && |r| == |s|
    ensures forall i, j :: 0 <= i < j < |r| ==> r[i] <= r[j]
  {
    assert Total(RealLe) && Transitive(RealLe);
    SortBySorted(s, RealLe);
    SortBy(s, RealLe)
  }

  /** The middle sorted value, or the mean of the two middle values for an even count. */
  function Median(s: seq<real>): real
    requires |s| > 0
  {
    var t := SortReals(s);
    var n := |t|;
    if n % 2 == 0 then (t[n / 2 - 1] + t[n / 2]) / 2.0 else t[n / 2]
  }

  /** The median lies between the smallest and the largest value. */
  lemma MedianWithinRange(s: seq<real>)
    requires |s| > 0
    ensures exists i :: 0 <= i < |s| && s[i] <= Median(s)
    ensures exists j :: 0 <= j < |s| && Median(s) <= s[j]
  {
    var t := SortReals(s);
    var n := |t|;
    assert t[0] <= Median(s) <= t[n - 1];
    assert t[0] in multiset(s) && t[n - 1] in multiset(s);
    var i :| 0 <= i < |s| && s[i] == t[0];
    var j :| 0 <= j < |s| && s[j] == t[n - 1];
  }

  /** Counting the elements above a threshold does not depend on their order. */
  lemma {:induction false} CountGreaterInsert(x: real, s: seq<real>, le: (real, real) -> bool, m: real)
    ensures CountGreater(InsertBy(x, s, le), m) == (if x > m then 1 else 0) + CountGreater(s, m)
  {
    if s == [] || le(x, s[0]) {
      assert ([x] + s)[1..] == s;
    } else {
      CountGreaterInsert(x, s[1..], le, m);
      var r := [s[0]] + InsertBy(x, s[1..], le);
      assert r[1..] == InsertBy(x, s[1..], le);
    }
  }

  lemma {:induction false} CountGreaterSortBy(s: seq<real>, le: (real, real) -> bool, m: real)
    ensures CountGreater(SortBy(s, le), m) == CountGreater(s, m)
  {
    if s != [] {
      CountGreaterSortBy(s[1..], le, m);
      CountGreaterInsert(s[0], SortBy(s[1..], le), le, m);
    }
  }

  /** When the first `j` elements are at most `m`, at most the other `|t| - j` can exceed it. */
  lemma {:induction false} CountGreaterAfterPrefix(t: seq<real>, m: real, j: nat)
    requires j <= |t|
    requires forall i :: 0 <= i < j ==> t[i] <= m
    ensures CountGreater(t, m) <= |t| - j
  {
    if j > 0 {
      CountGreaterAfterPrefix(t[1..], m, j - 1);
    }
  }

  /** The first `k` sorted values are at most the median, `k` being half the count rounded up. */
  lemma MedianAbovePrefix(s: seq<real>)
    requires |s| > 0
    ensures var t := SortReals(s);
      forall i :: 0 <= i < (|s| + 1) / 2 ==> t[i] <= Median(s)
  {
    var t := SortReals(s);
    var n := |t|;
    var m := Median(s);
    if n % 2 == 0 {
      assert t[n / 2 - 1] <= t[n / 2];
      assert t[n / 2 - 1] <= m;
    } else {
      assert t[n / 2] == m;
    }
    forall i | 0 <= i < (n + 1) / 2 ensures t[i] <= m {
      if n % 2 == 0 {
        assert t[i] <= t[n / 2 - 1];
      } else {
        assert t[i] <= t[n / 2];
      }
    }
  }

  /** At most half of the values (rounded down) lie strictly above their median. */
  lemma MedianCountAbove(s: seq<real>)
    requires |s| > 0
    ensures CountGreater(s, Median(s)) <= |s| / 2
  {
    var t := SortReals(s);
    var m := Median(s);
    CountGreaterSortBy(s, RealLe, m);
    assert t == SortBy(s, RealLe);
    MedianAbovePrefix(s);
    CountGreaterAfterPrefix(t, m, (|s| + 1) / 2);
  }
  /** The elements of `s` whose key is `k`, in their order in `s`. */
  function KeepKey<T>(s: seq<T>, key: T -> real, k: real): (r: seq<T>)
    ensures |r| <= |s|
  {
    if s == [] then []
    else (if key(s[0]) == k then [s[0]] else []) + KeepKey(s[1..], key, k)
  }

  lemma {:induction false} KeepKeyAppend<T>(s: seq<T>, t: seq<T>, key: T -> real, k: real)
    ensures KeepKey(s + t, key, k) == KeepKey(s, key, k) + KeepKey(t, key, k)
  {
    if s == [] {
      assert s + t == t;
    } else {
      var h := if key(s[0]) == k then [s[0]] else [];
      assert (s + t)[0] == s[0];
      assert (s + t)[1..] == s[1..] + t;
      KeepKeyAppend(s[1..], t, key, k);
      assert KeepKey(s + t, key, k) == h + (KeepKey(s[1..], key, k) + KeepKey(t, key, k));
      assert KeepKey(s, key, k) == h + KeepKey(s[1..], key, k);
    }
  }

  /**
   * Under an order that sorts by descending key, inserting `x` puts it
   * ahead of every element with its key, and leaves the others' order.
   */
  lemma {:induction false} InsertByKeepKey<T>(x: T, s: seq<T>, le: (T, T) -> bool, key: T -> real, k: real)
    requires forall a, b :: le(a, b) <==> key(b) <= key(a)
    ensures KeepKey(InsertBy(x, s, le), key, k) == (if key(x) == k then [x] else []) + KeepKey(s, key, k)
  {
    if s == [] || le(x, s[0]) {
      assert ([x] + s)[1..] == s;
    } else {
      InsertByKeepKey(x, s[1..], le, key, k);
      var r := [s[0]] + InsertBy(x, s[1..], le);
      assert r[1..] == InsertBy(x, s[1..], le);
      assert key(x) < key(s[0]);
    }
  }

  /** Stability: sorting by descending key keeps the input order among equal keys. */
  lemma {:induction false} SortByKeepKey<T>(s: seq<T>, le: (T, T) -> bool, key: T -> real, k: real)
    requires forall a, b :: le(a, b) <==> key(b) <= key(a)
    ensures KeepKey(SortBy(s, le), key, k) == KeepKey(s, key, k)
  {
    if s != [] {
      SortByKeepKey(s[1..], le, key, k);
      InsertByKeepKey(s[0], SortBy(s[1..], le), le, key, k);
    }
  }
}

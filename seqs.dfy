/**
 * Generic sequence helpers: the bounded FIFO window that Python's
 * `deque(maxlen=w)` and the list trim `xs[-w:]` implement, and
 * duplicate-freedom.
 */
module Seqs {

  /** The newest (last) `min(|s|, w)` elements of `s`, in order. */
  function Newest<T>(s: seq<T>, w: nat): (r: seq<T>)
    ensures |r| <= w && |r| <= |s|
  {
    if |s| <= w then s else s[|s| - w..]
  }

  /** Appending `x` to a window bounded by `w`, evicting the oldest element when full. */
  function Push<T>(s: seq<T>, x: T, w: nat): seq<T>
  {
    Newest(s + [x], w)
  }

  /** Trimming before appending changes nothing: the window only ever depends on the newest inputs. */
  lemma NewestPush<T>(s: seq<T>, x: T, w: nat)
    ensures Push(Newest(s, w), x, w) == Newest(s + [x], w)
  {
    var t := Newest(s, w);
    if |s| > w && w > 0 {
      assert (t + [x])[|t + [x]| - w..] == (s + [x])[|s + [x]| - w..];
    }
  }

  /** The window over `s` after feeding it the first `i` elements of `xs`. */
  function Fed<T>(s: seq<T>, xs: seq<T>, i: nat, w: nat): seq<T>
    requires i <= |xs|
  {
    Newest(s + xs[..i], w)
  }

  lemma FedNone<T>(s: seq<T>, xs: seq<T>, w: nat)
    requires |s| <= w
    ensures Fed(s, xs, 0, w) == s
  {
    assert s + xs[..0] == s;
  }

  /** One more element of `xs` fed into the window over `s + xs[..i]`. */
  lemma NewestPushNext<T>(s: seq<T>, xs: seq<T>, i: nat, w: nat)
    requires i < |xs|
    ensures Push(Fed(s, xs, i, w), xs[i], w) == Fed(s, xs, i + 1, w)
  {
    var a := s + xs[..i];
    assert s + xs[..i + 1] == a + [xs[i]] by {
      assert xs[..i + 1] == xs[..i] + [xs[i]];
    }
    NewestPush(a, xs[i], w);
  }

  /** Python's `s[:n]`: the first `n` elements, or all but the last `-n` for negative `n`. */
  function PyHead<T>(s: seq<T>, n: int): (r: seq<T>)
    ensures |r| <= |s| && r == s[..|r|]
    ensures 0 <= n ==> |r| == (if n < |s| then n else |s|)
    ensures n < 0 ==> |r| == (if -n < |s| then |s| + n else 0)
  {
    if 0 <= n then (if n < |s| then s[..n] else s)
    else if -n < |s| then s[..|s| + n] else []
  }

  lemma {:induction false} NewestNewest<T>(s: seq<T>, w: nat)
    ensures Newest(Newest(s, w), w) == Newest(s, w)
  {
  }

  /** No element occurs twice. */
  ghost predicate Distinct<T>(s: seq<T>)
  {
    forall i, j :: 0 <= i < j < |s| ==> s[i] != s[j]
  }

  lemma {:induction false} DistinctCounts<T>(s: seq<T>)
    ensures Distinct(s) <==> forall x :: multiset(s)[x] <= 1
  {
    if s != [] {
      DistinctCounts(s[1..]);
      assert s == [s[0]] + s[1..];
      assert multiset(s) == multiset{s[0]} + multiset(s[1..]);
      if Distinct(s) {
        assert s[0] !in s[1..];
        assert Distinct(s[1..]) by {
          forall i, j | 0 <= i < j < |s[1..]| ensures s[1..][i] != s[1..][j] {
            assert s[1..][i] == s[i + 1] && s[1..][j] == s[j + 1];
          }
        }
      }
      if forall x :: multiset(s)[x] <= 1 {
        assert forall x :: multiset(s[1..])[x] <= 1 by {
          forall x ensures multiset(s[1..])[x] <= 1 {
            assert multiset(s)[x] <= 1;
          }
        }
        assert multiset(s)[s[0]] <= 1;
        assert multiset(s[1..])[s[0]] == 0;
        forall i, j | 0 <= i < j < |s| ensures s[i] != s[j] {
          if i == 0 {
            assert s[j] in s[1..];
          } else {
            assert s[1..][i - 1] == s[i] && s[1..][j - 1] == s[j];
          }
        }
      }
    }
  }

  /** `s` is `t` with some elements dropped: its elements occur in `t` in the same order. */
  ghost predicate Subsequence<T>(s: seq<T>, t: seq<T>)
  {
    if s == [] then true
    else if t == [] then false
    else (s[0] == t[0] && Subsequence(s[1..], t[1..])) || Subsequence(s, t[1..])
  }

  /** Rearranging a duplicate-free sequence leaves it duplicate-free. */
  lemma DistinctPermutation<T>(s: seq<T>, t: seq<T>)
    requires multiset(s) == multiset(t)
    requires Distinct(s)
    ensures Distinct(t)
  {
    DistinctCounts(s);
    DistinctCounts(t);
  }
}

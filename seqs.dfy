/** Sequence helpers shared by the analysis modules: optional values,
    duplicate-free sequences, duplicate removal and flattening. */
module Seqs {

  datatype Option<T> = None | Some(value: T)

  predicate NoDup<T(==)>(s: seq<T>) {
    forall i, j :: 0 <= i < j < |s| ==> s[i] != s[j]
  }

  function ToSet<T(==)>(s: seq<T>): set<T> { set x | x in s }

  lemma {:induction false} NoDupCard<T>(s: seq<T>)
    requires NoDup(s)
    ensures |ToSet(s)| == |s|
    decreases |s|
  {
    if |s| > 0 {
      var t := s[..|s| - 1];
      NoDupCard(t);
      assert ToSet(s) == ToSet(t) + {s[|s| - 1]};
      assert s[|s| - 1] !in ToSet(t);
    }
  }

  lemma {:induction false} ToSetCard<T>(s: seq<T>)
    ensures |ToSet(s)| <= |s|
    decreases |s|
  {
    if |s| > 0 {
      var t := s[..|s| - 1];
      ToSetCard(t);
      assert ToSet(s) == ToSet(t) + {s[|s| - 1]};
    }
  }

  /** Python's list(set(s)) with the order fixed to first occurrence. */
  function Dedup<T(==,!new)>(s: seq<T>): (r: seq<T>)
    ensures NoDup(r)
    ensures forall x :: x in r <==> x in s
    ensures |r| <= |s|
    decreases |s|
  {
    if |s| == 0 then []
    else
      var t := Dedup(s[..|s| - 1]);
      assert forall x :: x in s <==> x in s[..|s| - 1] || x == s[|s| - 1];
      if s[|s| - 1] in t then t else t + [s[|s| - 1]]
  }

  /** Concatenation of f(x) for every x of s, in order. */
  function FlatMap<A, B>(s: seq<A>, f: A -> seq<B>): seq<B>
    decreases |s|
  {
    if |s| == 0 then [] else FlatMap(s[..|s| - 1], f) + f(s[|s| - 1])
  }

  lemma {:induction false} FlatMapIn<A, B>(s: seq<A>, f: A -> seq<B>, y: B)
    ensures y in FlatMap(s, f) <==> exists k :: 0 <= k < |s| && y in f(s[k])
    decreases |s|
  {
    if |s| > 0 {
      var t := s[..|s| - 1];
      FlatMapIn(t, f, y);
      if y in f(s[|s| - 1]) {
        assert y in FlatMap(s, f);
      }
      if exists k :: 0 <= k < |t| && y in f(t[k]) {
        var k :| 0 <= k < |t| && y in f(t[k]);
        assert s[k] == t[k];
      }
      if exists k :: 0 <= k < |s| && y in f(s[k]) {
        var k :| 0 <= k < |s| && y in f(s[k]);
        if k < |t| {
          assert t[k] == s[k];
        }
      }
    }
  }

  /** Extending the input by one element extends the output by its image. */
  lemma FlatMapSnoc<A, B>(s: seq<A>, x: A, f: A -> seq<B>)
    ensures FlatMap(s + [x], f) == FlatMap(s, f) + f(x)
  {
    assert (s + [x])[..|s|] == s;
  }

  /** Python's sum(1 for x in s if p(x)). */
  function CountIf<T>(s: seq<T>, p: T -> bool): (r: nat)
    ensures r <= |s|
    decreases |s|
  {
    if |s| == 0 then 0 else CountIf(s[..|s| - 1], p) + (if p(s[|s| - 1]) then 1 else 0)
  }

  /** Python's sum(f(x) for x in s) over integers. */
  function Sum<T>(s: seq<T>, f: T -> int): int
    decreases |s|
  {
    if |s| == 0 then 0 else Sum(s[..|s| - 1], f) + f(s[|s| - 1])
  }

  /** Python's sum(f(x) for x in s) over numbers read as reals. */
  function SumReal<T>(s: seq<T>, f: T -> real): real
    decreases |s|
  {
    if |s| == 0 then 0.0 else SumReal(s[..|s| - 1], f) + f(s[|s| - 1])
  }

  /** A sum of terms that all lie in [lo, hi] lies in [|s| * lo, |s| * hi]. */
  lemma {:induction false} SumRealBounds<T>(s: seq<T>, f: T -> real, lo: real, hi: real)
    requires forall i :: 0 <= i < |s| ==> lo <= f(s[i]) <= hi
    ensures |s| as real * lo <= SumReal(s, f) <= |s| as real * hi
    decreases |s|
  {
    if |s| > 0 {
      SumRealBounds(s[..|s| - 1], f, lo, hi);
      assert f(s[|s| - 1]) <= hi;
    }
  }

  /** Counting is additive over concatenation. */
  lemma {:induction false} CountIfAppend<T>(a: seq<T>, b: seq<T>, p: T -> bool)
    ensures CountIf(a + b, p) == CountIf(a, p) + CountIf(b, p)
    decreases |b|
  {
    if |b| == 0 {
      assert a + b == a;
    } else {
      assert (a + b)[..|a + b| - 1] == a + b[..|b| - 1];
      CountIfAppend(a, b[..|b| - 1], p);
    }
  }

  /** Python's sum(f(x) for x in s) / len(s), taken as 0 for an empty s
      (the guard every caller in the analysis puts in front of it). */
  function Mean<T>(s: seq<T>, f: T -> real): (r: real)
    ensures |s| == 0 ==> r == 0.0
    ensures |s| > 0 ==> r * |s| as real == SumReal(s, f)
  {
    if |s| == 0 then 0.0 else SumReal(s, f) / |s| as real
  }

  /** A mean of terms that all lie in [lo, hi] lies in [lo, hi]. */
  lemma MeanBounds<T>(s: seq<T>, f: T -> real, lo: real, hi: real)
    requires |s| > 0
    requires forall i :: 0 <= i < |s| ==> lo <= f(s[i]) <= hi
    ensures lo <= Mean(s, f) <= hi
  {
    SumRealBounds(s, f, lo, hi);
    var n := |s| as real;
    assert Mean(s, f) * n == SumReal(s, f);
  }

  /** Prefixes of prefixes are prefixes. */
  lemma PrefixTrans<T>(a: seq<T>, b: seq<T>, c: seq<T>)
    requires a <= b && b <= c
    ensures a <= c
  {
    assert c[..|a|] == c[..|b|][..|a|];
  }

  function SetAt<K, V>(m: map<K, set<V>>, k: K): set<V> {
    if k in m then m[k] else {}
  }
}

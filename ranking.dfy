/** Sorting by a numeric key in descending order the way Python's
    `sorted(xs, key=k, reverse=True)` does it: stable, so that items with
    equal keys keep their input order; and top-n selections built from it. */
module Ranking {

  predicate NonIncreasing<T(!new)>(s: seq<T>, key: T -> real) {
    forall i, j :: 0 <= i < j < |s| ==> key(s[i]) >= key(s[j])
  }

  /** Inserts x before the first element whose key is not greater than x's. */
  function Insert<T(!new)>(x: T, s: seq<T>, key: T -> real): (r: seq<T>)
    ensures |r| == |s| + 1
    ensures multiset(r) == multiset(s) + multiset{x}
    decreases |s|
  {
    if |s| == 0 || key(s[0]) <= key(x) then [x] + s
    else
      assert s == [s[0]] + s[1..];
      [s[0]] + Insert(x, s[1..], key)
  }

  /** Every key in Insert(x, s) is bounded by any bound on x's and s's keys. */
  lemma {:induction false} InsertBound<T(!new)>(x: T, s: seq<T>, key: T -> real, b: real)
    requires key(x) <= b
    requires forall i :: 0 <= i < |s| ==> key(s[i]) <= b
    ensures forall i :: 0 <= i < |Insert(x, s, key)| ==> key(Insert(x, s, key)[i]) <= b
    decreases |s|
  {
    if |s| > 0 && key(s[0]) > key(x) {
      InsertBound(x, s[1..], key, b);
    }
  }

  lemma {:induction false} InsertSorted<T(!new)>(x: T, s: seq<T>, key: T -> real)
    requires NonIncreasing(s, key)
    ensures NonIncreasing(Insert(x, s, key), key)
    decreases |s|
  {
    if |s| > 0 && key(s[0]) > key(x) {
      NonIncreasingTail(s, key);
      InsertSorted(x, s[1..], key);
      InsertBound(x, s[1..], key, key(s[0]));
      var r := Insert(x, s, key);
      var t := Insert(x, s[1..], key);
      assert forall i :: 0 < i < |r| ==> r[i] == t[i - 1];
    }
  }

  /** Stable descending sort by key. */
  function SortDesc<T(!new)>(s: seq<T>, key: T -> real): (r: seq<T>)
    ensures |r| == |s|
    ensures multiset(r) == multiset(s)
    decreases |s|
  {
    if |s| == 0 then []
    else
      assert s == [s[0]] + s[1..];
      Insert(s[0], SortDesc(s[1..], key), key)
  }

  /** The sort orders its result by non-increasing key. */
  lemma {:induction false} SortDescSorted<T(!new)>(s: seq<T>, key: T -> real)
    ensures NonIncreasing(SortDesc(s, key), key)
    decreases |s|
  {
    if |s| > 0 {
      SortDescSorted(s[1..], key);
      InsertSorted(s[0], SortDesc(s[1..], key), key);
    }
  }

  /** The elements whose key equals v, in their order in s. */
  function WithKey<T(!new)>(s: seq<T>, key: T -> real, v: real): seq<T>
    decreases |s|
  {
    if |s| == 0 then []
    else (if key(s[0]) == v then [s[0]] else []) + WithKey(s[1..], key, v)
  }

  lemma {:induction false} InsertWithKey<T(!new)>(x: T, s: seq<T>, key: T -> real, v: real)
    ensures WithKey(Insert(x, s, key), key, v)
         == (if key(x) == v then [x] else []) + WithKey(s, key, v)
    decreases |s|
  {
    var r := Insert(x, s, key);
    if |s| == 0 || key(s[0]) <= key(x) {
      assert r[1..] == s;
    } else {
      InsertWithKey(x, s[1..], key, v);
      assert r[1..] == Insert(x, s[1..], key);
      if key(x) == v {
        assert key(s[0]) != v;
      }
    }
  }

  /** Stability: for every key value, the elements with that key come out in
      the order they went in. */
  lemma {:induction false} SortDescStable<T(!new)>(s: seq<T>, key: T -> real, v: real)
    ensures WithKey(SortDesc(s, key), key, v) == WithKey(s, key, v)
    decreases |s|
  {
    if |s| > 0 {
      SortDescStable(s[1..], key, v);
      InsertWithKey(s[0], SortDesc(s[1..], key), key, v);
    }
  }

  /** The elements with a positive key, in order. */
  function Positive<T(!new)>(s: seq<T>, key: T -> real): (r: seq<T>)
    ensures |r| <= |s|
    ensures forall i :: 0 <= i < |r| ==> key(r[i]) > 0.0
    decreases |s|
  {
    if |s| == 0 then []
    else
      var rest := Positive(s[1..], key);
      if key(s[0]) > 0.0 then [s[0]] + rest else rest
  }

  /** Positive keeps exactly the entries with a positive key. */
  lemma {:induction false} PositiveMembers<T(!new)>(s: seq<T>, key: T -> real)
    ensures forall x :: x in Positive(s, key) <==> x in s && key(x) > 0.0
    decreases |s|
  {
    if |s| > 0 {
      PositiveMembers(s[1..], key);
      assert forall x :: x in s <==> x == s[0] || x in s[1..];
    }
  }

  /** Python's s[:n] for n >= 0. */
  function Take<T(!new)>(s: seq<T>, n: nat): (r: seq<T>)
    ensures |r| == (if n < |s| then n else |s|)
    ensures r == s[..|r|]
  {
    if n < |s| then s[..n] else s
  }

  lemma {:induction false} NonIncreasingTail<T(!new)>(s: seq<T>, key: T -> real)
    requires |s| > 0 && NonIncreasing(s, key)
    ensures NonIncreasing(s[1..], key)
  {
    assert forall i, j :: 0 <= i < j < |s[1..]| ==> s[1..][i] == s[i + 1] && s[1..][j] == s[j + 1];
  }

  lemma {:induction false} NoPositiveAfterNonPositive<T(!new)>(s: seq<T>, key: T -> real)
    requires |s| > 0 && NonIncreasing(s, key) && key(s[0]) <= 0.0
    ensures Positive(s, key) == []
    decreases |s|
  {
    if |s| > 1 {
      assert key(s[1]) <= key(s[0]);
      NonIncreasingTail(s, key);
      NoPositiveAfterNonPositive(s[1..], key);
    }
  }

  lemma {:induction false} NonIncreasingPrefix<T(!new)>(s: seq<T>, n: nat, key: T -> real)
    requires NonIncreasing(s, key)
    ensures NonIncreasing(Take(s, n), key)
  {
  }

  /** On a non-increasing sequence, cutting to n and then dropping the
      non-positive entries equals dropping first and cutting after. */
  lemma {:induction false} TakeThenPositive<T(!new)>(s: seq<T>, n: nat, key: T -> real)
    requires NonIncreasing(s, key)
    ensures Positive(Take(s, n), key) == Take(Positive(s, key), n)
    decreases |s|
  {
    if n == 0 || |s| == 0 {
      assert Take(s, n) == [];
    } else if key(s[0]) <= 0.0 {
      NoPositiveAfterNonPositive(s, key);
      NoPositiveInPrefix(s, n, key);
    } else {
      NonIncreasingTail(s, key);
      TakeThenPositive(s[1..], n - 1, key);
      PositiveTakeCons(s, n, key);
    }
  }

  /** The step of TakeThenPositive for a leading entry with a positive key. */
  lemma PositiveTakeCons<T(!new)>(s: seq<T>, n: nat, key: T -> real)
    requires |s| > 0 && n > 0 && key(s[0]) > 0.0
    requires Positive(Take(s[1..], n - 1), key) == Take(Positive(s[1..], key), n - 1)
    ensures Positive(Take(s, n), key) == Take(Positive(s, key), n)
  {
    var x, rest := s[0], s[1..];
    assert s == [x] + rest;
    TakeCons(x, rest, n);
    PositiveCons(x, Take(rest, n - 1), key);
    PositiveCons(x, rest, key);
    TakeCons(x, Positive(rest, key), n);
  }

  lemma NoPositiveInPrefix<T(!new)>(s: seq<T>, n: nat, key: T -> real)
    requires n > 0 && |s| > 0 && NonIncreasing(s, key) && key(s[0]) <= 0.0
    ensures Positive(Take(s, n), key) == []
  {
    NonIncreasingPrefix(s, n, key);
    assert Take(s, n)[0] == s[0];
    NoPositiveAfterNonPositive(Take(s, n), key);
  }

  lemma PositiveCons<T(!new)>(x: T, s: seq<T>, key: T -> real)
    ensures Positive([x] + s, key) == (if key(x) > 0.0 then [x] else []) + Positive(s, key)
  {
    assert ([x] + s)[1..] == s;
  }

  lemma TakeCons<T(!new)>(x: T, s: seq<T>, n: nat)
    requires n > 0
    ensures Take([x] + s, n) == [x] + Take(s, n - 1)
  {
  }

  /** The n highest-ranked entries with a positive key, best first, ties in
      input order. */
  function TopPositive<T(!new)>(s: seq<T>, key: T -> real, n: nat): (r: seq<T>)
    ensures |r| <= n
    ensures forall i :: 0 <= i < |r| ==> key(r[i]) > 0.0
    ensures forall x :: x in r ==> x in s
  {
    var sorted := SortDesc(s, key);
    var r := Take(Positive(sorted, key), n);
    PositiveMembers(sorted, key);
    assert forall x :: x in r ==> x in Positive(sorted, key);
    assert forall x :: x in sorted ==> x in multiset(sorted);
    r
  }

  /** The top-n selection is ordered best first, and when fewer than n
      entries qualify, it holds every entry with a positive key. */
  lemma TopPositiveOrdered<T(!new)>(s: seq<T>, key: T -> real, n: nat)
    ensures NonIncreasing(TopPositive(s, key, n), key)
    ensures |Positive(s, key)| <= n ==> forall x :: x in s && key(x) > 0.0 ==> x in TopPositive(s, key, n)
  {
    var sorted := SortDesc(s, key);
    SortDescSorted(s, key);
    PositiveSorted(sorted, key);
    var p := Positive(sorted, key);
    assert NonIncreasing(Take(p, n), key);
    PositiveCount(sorted, s, key);
    PositiveMembers(sorted, key);
    forall x | x in s && key(x) > 0.0 && |Positive(s, key)| <= n ensures x in TopPositive(s, key, n) {
      assert x in multiset(s);
      assert x in multiset(sorted);
      assert x in p;
    }
  }

  lemma {:induction false} PositiveSorted<T(!new)>(s: seq<T>, key: T -> real)
    requires NonIncreasing(s, key)
    ensures NonIncreasing(Positive(s, key), key)
    decreases |s|
  {
    if |s| > 0 {
      NonIncreasingTail(s, key);
      PositiveSorted(s[1..], key);
      var rest := Positive(s[1..], key);
      PositiveMembers(s[1..], key);
      forall j | 0 <= j < |rest| ensures key(s[0]) >= key(rest[j]) {
        assert rest[j] in s[1..];
      }
    }
  }

  /** Filtering by a positive key depends only on the multiset of entries. */
  lemma {:induction false} PositiveMultiset<T(!new)>(s: seq<T>, key: T -> real)
    ensures forall x :: multiset(Positive(s, key))[x] == (if key(x) > 0.0 then multiset(s)[x] else 0)
    decreases |s|
  {
    if |s| > 0 {
      PositiveMultiset(s[1..], key);
      assert s == [s[0]] + s[1..];
      assert multiset(s) == multiset{s[0]} + multiset(s[1..]);
    }
  }

  /** A permutation keeps the number of entries with a positive key. */
  lemma PositiveCount<T(!new)>(a: seq<T>, b: seq<T>, key: T -> real)
    requires multiset(a) == multiset(b)
    ensures |Positive(a, key)| == |Positive(b, key)|
  {
    PositiveMultiset(a, key);
    PositiveMultiset(b, key);
    assert multiset(Positive(a, key)) == multiset(Positive(b, key));
    assert |multiset(Positive(a, key))| == |Positive(a, key)|;
    assert |multiset(Positive(b, key))| == |Positive(b, key)|;
  }

  /** Cutting a sequence keeps, for each key value, a prefix of the
      elements with that value. */
  lemma {:induction false} WithKeyTake<T(!new)>(s: seq<T>, n: nat, key: T -> real, v: real)
    ensures WithKey(Take(s, n), key, v) <= WithKey(s, key, v)
    decreases |s|
  {
    if n > 0 && |s| > 0 {
      var t := Take(s, n);
      assert t[1..] == Take(s[1..], n - 1);
      WithKeyTake(s[1..], n - 1, key, v);
    }
  }

  /** Dropping the non-positive entries does not touch those with a
      positive key value. */
  lemma {:induction false} WithKeyPositive<T(!new)>(s: seq<T>, key: T -> real, v: real)
    requires v > 0.0
    ensures WithKey(Positive(s, key), key, v) == WithKey(s, key, v)
    decreases |s|
  {
    if |s| > 0 {
      WithKeyPositive(s[1..], key, v);
      var p := Positive(s, key);
      if key(s[0]) > 0.0 {
        assert p[1..] == Positive(s[1..], key);
      }
    }
  }

  /** sorted(s, key, reverse=True)[:n] with the non-positive entries
      dropped: for every positive key value, the chosen entries with that
      value are the first ones of s with that value, in the order of s. */
  lemma RankedTiesInOrder<T(!new)>(s: seq<T>, key: T -> real, n: nat, v: real)
    requires v > 0.0
    ensures WithKey(Positive(Take(SortDesc(s, key), n), key), key, v) <= WithKey(s, key, v)
  {
    var sorted := SortDesc(s, key);
    WithKeyPositive(Take(sorted, n), key, v);
    WithKeyTake(sorted, n, key, v);
    SortDescStable(s, key, v);
  }

  /** A prefix takes its entries from the sequence. */
  lemma TakeSubset<T(!new)>(t: seq<T>, n: nat)
    ensures multiset(Take(t, n)) <= multiset(t)
  {
    var rest := t[|Take(t, n)|..];
    assert t == Take(t, n) + rest;
  }

  /** sorted(s, key, reverse=True)[:n] takes its entries from s, and with
      n or fewer entries it takes all of them. */
  lemma TopNSubset<T(!new)>(s: seq<T>, key: T -> real, n: nat)
    ensures multiset(Take(SortDesc(s, key), n)) <= multiset(s)
    ensures |s| <= n ==> multiset(Take(SortDesc(s, key), n)) == multiset(s)
  {
    var sorted := SortDesc(s, key);
    assert multiset(sorted) == multiset(s);
    TakeSubset(sorted, n);
  }

  /** sorted(s, key, reverse=True)[:n] is a top-n selection: no entry left
      out has a larger key than an entry chosen. */
  lemma TopNSelection<T(!new)>(s: seq<T>, key: T -> real, n: nat)
    ensures forall c, d ::
      c in multiset(s) - multiset(Take(SortDesc(s, key), n)) && d in Take(SortDesc(s, key), n)
      ==> key(c) <= key(d)
  {
    var sorted := SortDesc(s, key);
    var top := Take(sorted, n);
    var k := |top|;
    var rest := sorted[k..];
    assert multiset(s) == multiset(top) + multiset(rest) by {
      assert sorted == top + rest;
    }
    assert forall c, d :: c in rest && d in top ==> key(c) <= key(d) by {
      SortDescSorted(s, key);
      forall c, d | c in rest && d in top
        ensures key(c) <= key(d)
      {
        var j :| 0 <= j < |rest| && rest[j] == c;
        var i :| 0 <= i < k && top[i] == d;
        assert sorted[i] == d && sorted[k + j] == c;
      }
    }
  }
}

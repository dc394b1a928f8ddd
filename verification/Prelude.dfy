/** Shared vocabulary: optional values and a few facts about sequences. */
module Prelude {

  datatype Option<+T> = None | Some(value: T)

  datatype Result<+T, +E> = Ok(value: T) | Err(error: E)

  function Reverse<T>(s: seq<T>): (r: seq<T>)
    ensures |r| == |s|
    ensures forall k | 0 <= k < |s| :: r[k] == s[|s| - 1 - k]
  {
    if s == [] then [] else [s[|s| - 1]] + Reverse(s[..|s| - 1])
  }

  ghost predicate Distinct<T(!new)>(s: seq<T>) {
    forall i, j | 0 <= i < j < |s| :: s[i] != s[j]
  }

  /** 0, 1, ..., n - 1. */
  function Iota(n: nat): (s: seq<nat>)
    ensures |s| == n
    ensures forall k | 0 <= k < n :: s[k] == k
  {
    seq(n, k => k)
  }

  lemma {:induction false} IotaSnoc(n: nat)
    ensures Iota(n + 1) == Iota(n) + [n]
  {
  }

  // ----- stable sorting by an integer key (`sorted(..., key=...)`) -----

  ghost predicate SortedBy<T>(s: seq<T>, key: T -> int) {
    forall i, j | 0 <= i < j < |s| :: key(s[i]) <= key(s[j])
  }

  function Insert<T>(s: seq<T>, x: T, key: T -> int): (r: seq<T>)
    ensures |r| == |s| + 1
  {
    if s == [] || key(s[|s| - 1]) <= key(x) then s + [x]
    else Insert(s[..|s| - 1], x, key) + [s[|s| - 1]]
  }

  lemma {:induction false} InsertPermutes<T>(s: seq<T>, x: T, key: T -> int)
    ensures multiset(Insert(s, x, key)) == multiset(s) + multiset{x}
  {
    if !(s == [] || key(s[|s| - 1]) <= key(x)) {
      InsertPermutes(s[..|s| - 1], x, key);
      assert s == s[..|s| - 1] + [s[|s| - 1]];
    }
  }

  lemma {:induction false} InsertSorts<T>(s: seq<T>, x: T, key: T -> int)
    requires SortedBy(s, key)
    ensures SortedBy(Insert(s, x, key), key)
  {
    if !(s == [] || key(s[|s| - 1]) <= key(x)) {
      var front, last := s[..|s| - 1], s[|s| - 1];
      var r := Insert(front, x, key);
      InsertSorts(front, x, key);
      InsertPermutes(front, x, key);
      forall i | 0 <= i < |r| ensures key(r[i]) <= key(last) {
        assert r[i] in multiset(r);
      }
    }
  }

  function Sort<T>(s: seq<T>, key: T -> int): (r: seq<T>)
    ensures multiset(r) == multiset(s) && SortedBy(r, key) && |r| == |s|
  {
    if s == [] then []
    else
      assert s == s[..|s| - 1] + [s[|s| - 1]];
      InsertPermutes(Sort(s[..|s| - 1], key), s[|s| - 1], key);
      InsertSorts(Sort(s[..|s| - 1], key), s[|s| - 1], key);
      Insert(Sort(s[..|s| - 1], key), s[|s| - 1], key)
  }

  /** Sorting what is sorted changes nothing. */
  lemma {:induction false} SortSorted<T>(s: seq<T>, key: T -> int)
    requires SortedBy(s, key)
    ensures Sort(s, key) == s
  {
    if s != [] { SortSorted(s[..|s| - 1], key); }
  }

  lemma {:induction false} PermutationFacts<T(!new)>(s: seq<T>, r: seq<T>)
    requires multiset(r) == multiset(s)
    ensures forall x :: x in r <==> x in s
    ensures Distinct(s) ==> Distinct(r)
    ensures |r| == |s|
  {
    assert |multiset(r)| == |r| && |multiset(s)| == |s|;
    forall x ensures x in r <==> x in s {
      assert x in multiset(r) <==> x in r;
    }
    if Distinct(s) {
      forall i, j | 0 <= i < j < |r| ensures r[i] != r[j] {
        if r[i] == r[j] {
          CountTwice(r, i, j);
          DistinctCounts(s, r[i]);
        }
      }
    }
  }

  lemma {:induction false} CountTwice<T>(r: seq<T>, i: nat, j: nat)
    requires i < j < |r| && r[i] == r[j]
    ensures multiset(r)[r[i]] >= 2
  {
    assert r == r[..j] + [r[j]] + r[j + 1..];
    assert r[i] in r[..j];
  }

  lemma {:induction false} DistinctCounts<T(!new)>(s: seq<T>, x: T)
    requires Distinct(s)
    ensures multiset(s)[x] <= 1
  {
    if s != [] {
      var front, last := s[..|s| - 1], s[|s| - 1];
      assert s == front + [last];
      DistinctCounts(front, x);
      if x == last {
        assert x !in front;
      }
    }
  }

  lemma FirstIsIn<T>(s: seq<T>)
    ensures s != [] ==> s[0] in s
  {
  }

  // ----- flattening -----

  function Flatten<T>(ss: seq<seq<T>>): seq<T> {
    if ss == [] then [] else Flatten(ss[..|ss| - 1]) + ss[|ss| - 1]
  }

  lemma {:induction false} FlattenSnoc<T>(ss: seq<seq<T>>, s: seq<T>)
    ensures Flatten(ss + [s]) == Flatten(ss) + s
  {
    assert (ss + [s])[..|ss + [s]| - 1] == ss;
  }

  ghost predicate InSome<T(!new)>(ss: seq<seq<T>>, x: T) {
    exists k :: 0 <= k < |ss| && x in ss[k]
  }

  lemma {:induction false} FlattenIn<T(!new)>(ss: seq<seq<T>>, x: T)
    ensures x in Flatten(ss) <==> InSome(ss, x)
  {
    if ss != [] {
      var front, last := ss[..|ss| - 1], ss[|ss| - 1];
      FlattenIn(front, x);
      if InSome(front, x) { var k :| 0 <= k < |front| && x in front[k]; assert x in ss[k]; }
      if InSome(ss, x) && x !in last { var k :| 0 <= k < |ss| && x in ss[k]; assert x in front[k]; }
      if x in last { assert x in ss[|ss| - 1]; }
    }
  }

  ghost predicate Disjoint<T(!new)>(ss: seq<seq<T>>) {
    && (forall k | 0 <= k < |ss| :: Distinct(ss[k]))
    && forall j, k, x | 0 <= j < k < |ss| && x in ss[j] :: x !in ss[k]
  }

  lemma {:induction false} FlattenDistinct<T(!new)>(ss: seq<seq<T>>)
    requires Disjoint(ss)
    ensures Distinct(Flatten(ss))
  {
    if ss != [] {
      var front, last := ss[..|ss| - 1], ss[|ss| - 1];
      FlattenDistinct(front);
      forall x | x in Flatten(front) ensures x !in last {
        FlattenIn(front, x);
        var k :| 0 <= k < |front| && x in front[k];
        assert x in ss[k];
      }
      DistinctConcat(Flatten(front), last);
    }
  }

  lemma {:induction false} DistinctConcat<T(!new)>(a: seq<T>, b: seq<T>)
    requires Distinct(a) && Distinct(b) && forall x | x in a :: x !in b
    ensures Distinct(a + b)
  {
    forall i, j | 0 <= i < j < |a + b| ensures (a + b)[i] != (a + b)[j] {
      if i < |a| <= j { assert a[i] in a && b[j - |a|] in b; }
    }
  }

  lemma {:induction false} DistinctParts<T(!new)>(ss: seq<seq<T>>)
    requires Distinct(Flatten(ss))
    ensures Disjoint(ss)
  {
    if ss != [] {
      var front, last := ss[..|ss| - 1], ss[|ss| - 1];
      var flat := Flatten(front);
      assert Flatten(ss) == flat + last;
      assert forall i | 0 <= i < |flat| :: (flat + last)[i] == flat[i];
      assert forall i | 0 <= i < |last| :: (flat + last)[|flat| + i] == last[i];
      DistinctParts(front);
      forall j, x | 0 <= j < |front| && x in front[j] ensures x !in last {
        FlattenIn(front, x);
        var i :| 0 <= i < |flat| && flat[i] == x;
      }
    }
  }
}

/** The character edit cost behind token similarity (`alignment.py`) and the
    changed-character measure of the E4 budget (`editing.py`). Strings are
    sequences over any type with equality. */
module EditDistance {

  function Max(x: nat, y: nat): nat {
    if x >= y then x else y
  }

  function Min(x: nat, y: nat): nat {
    if x <= y then x else y
  }

  function Min3(x: nat, y: nat, z: nat): nat {
    Min(Min(x, y), z)
  }

  function Subst<T(==)>(x: T, y: T): nat {
    if x == y then 0 else 1
  }

  function Last<T>(a: seq<T>): T
    requires a != []
  {
    a[|a| - 1]
  }

  function Front<T>(a: seq<T>): seq<T>
    requires a != []
  {
    a[..|a| - 1]
  }

  /** Levenshtein's recurrence, from the right end. */
  function Lev<T(==)>(a: seq<T>, b: seq<T>): nat
    decreases |a| + |b|
  {
    if a == [] then |b|
    else if b == [] then |a|
    else
      Min3(Lev(Front(a), b) + 1, Lev(a, Front(b)) + 1,
           Lev(Front(a), Front(b)) + Subst(Last(a), Last(b)))
  }

  // The recurrence, one unfolding at a time: the lemmas below hide `Lev` and
  // call these where they need it.

  lemma {:induction false} LevEmpty<T>(a: seq<T>)
    ensures Lev([], a) == Lev(a, []) == |a|
  {
  }

  lemma {:induction false} LevUnfold<T>(a: seq<T>, b: seq<T>)
    requires a != [] && b != []
    ensures Lev(a, b) == Min3(Lev(Front(a), b) + 1, Lev(a, Front(b)) + 1,
                              Lev(Front(a), Front(b)) + Subst(Last(a), Last(b)))
  {
    hide Min3, Subst, Front, Last;
  }

  lemma {:induction false} LevStep<T>(a: seq<T>, x: T, b: seq<T>, y: T)
    ensures Lev(a + [x], b + [y])
         == Min3(Lev(a, b + [y]) + 1, Lev(a + [x], b) + 1, Lev(a, b) + Subst(x, y))
  {
    hide Lev;
    assert Front(a + [x]) == a && Front(b + [y]) == b;
    LevUnfold(a + [x], b + [y]);
  }

  /** `_edit_distance`: two rows, one per prefix of `a`. */
  method Distance<T(==)>(a: seq<T>, b: seq<T>) returns (d: nat)
    ensures d == Lev(a, b)
  {
    hide Lev;
    var previous := seq(|b| + 1, j => j);
    forall j | 0 <= j <= |b| ensures previous[j] == Lev(a[..0], b[..j]) {
      LevEmpty(b[..j]);
    }
    for i := 1 to |a| + 1
      invariant |previous| == |b| + 1
      invariant forall j | 0 <= j <= |b| :: previous[j] == Lev(a[..i - 1], b[..j])
    {
      var current := [i];
      LevEmpty(a[..i]);
      for j := 1 to |b| + 1
        invariant |current| == j
        invariant forall k | 0 <= k < j :: current[k] == Lev(a[..i], b[..k])
      {
        LevStep(a[..i - 1], a[i - 1], b[..j - 1], b[j - 1]);
        assert a[..i] == a[..i - 1] + [a[i - 1]] && b[..j] == b[..j - 1] + [b[j - 1]];
        current := current + [Min3(previous[j] + 1, current[j - 1] + 1,
                                   previous[j - 1] + (if a[i - 1] == b[j - 1] then 0 else 1))];
      }
      previous := current;
    }
    assert a[..|a|] == a && b[..|b|] == b;
    d := previous[|b|];
  }

  // ----- Lev is a metric -----

  /** The distance is the same both ways ... */
  lemma {:induction false} LevSymmetric<T>(a: seq<T>, b: seq<T>)
    ensures Lev(a, b) == Lev(b, a)
    decreases |a| + |b|
  {
    hide Lev;
    if a == [] || b == [] {
      LevEmpty(a);
      LevEmpty(b);
    } else {
      LevUnfold(a, b);
      LevUnfold(b, a);
      LevSymmetric(Front(a), b);
      LevSymmetric(a, Front(b));
      LevSymmetric(Front(a), Front(b));
    }
  }

  /** Bounded by the longer length, at least the length difference, and zero
      exactly on equal sequences. */
  lemma {:induction false} LevBounds<T>(a: seq<T>, b: seq<T>)
    ensures Lev(a, b) <= Max(|a|, |b|)
    ensures |a| - |b| <= Lev(a, b) && |b| - |a| <= Lev(a, b)
    ensures Lev(a, b) == 0 <==> a == b
    decreases |a| + |b|
  {
    hide Lev;
    if a == [] || b == [] {
      LevEmpty(a);
      LevEmpty(b);
    } else {
      LevUnfold(a, b);
      LevBounds(Front(a), b);
      LevBounds(a, Front(b));
      LevBounds(Front(a), Front(b));
      assert a == Front(a) + [Last(a)] && b == Front(b) + [Last(b)];
    }
  }

  /** ... and going through a third sequence is never shorter. */
  lemma {:induction false} LevTriangle<T>(a: seq<T>, b: seq<T>, c: seq<T>)
    ensures Lev(a, c) <= Lev(a, b) + Lev(b, c)
    decreases |a| + |b| + |c|
  {
    hide Lev;
    LevBounds(a, b);
    LevBounds(b, c);
    LevBounds(a, c);
    if a == [] || b == [] || c == [] {
      LevEmpty(a);
      LevEmpty(b);
      LevEmpty(c);
    } else {
      LevUnfold(a, b);
      LevUnfold(b, c);
      LevUnfold(a, c);
      LevTriangle(Front(a), b, c);
      LevTriangle(a, b, Front(c));
      LevTriangle(a, Front(b), c);
      LevTriangle(Front(a), Front(b), c);
      LevTriangle(a, Front(b), Front(c));
      LevTriangle(Front(a), Front(b), Front(c));
    }
  }

  // ----- Lev is the length of the shortest chain of single-character edits -----

  /** `b` is `a` with one character inserted, removed or replaced. */
  ghost predicate OneEdit<T(!new)>(a: seq<T>, b: seq<T>) {
    exists p: seq<T>, x: seq<T>, y: seq<T>, s: seq<T> :: OneEditAt(a, b, p, x, y, s)
  }

  ghost predicate OneEditAt<T>(a: seq<T>, b: seq<T>, p: seq<T>, x: seq<T>, y: seq<T>, s: seq<T>) {
    a == p + x + s && b == p + y + s && |x| <= 1 && |y| <= 1
  }

  /** A chain of edits from its first sequence to its last. */
  ghost predicate EditChain<T(!new)>(chain: seq<seq<T>>) {
    |chain| > 0 && forall k | 0 <= k < |chain| - 1 :: OneEdit(chain[k], chain[k + 1])
  }

  lemma {:induction false} LevAppend<T>(p: seq<T>, b: seq<T>)
    ensures Lev(p, p + b) == |b|
  {
    hide Lev;
    LevBounds(p, p + b);
    if b == [] {
      assert p + b == p;
    } else {
      var b' := Front(b);
      LevAppend(p, b');
      assert Front(p + b) == p + b';
      if p == [] {
        LevEmpty(p + b);
      } else {
        LevUnfold(p, p + b);
      }
    }
  }

  lemma {:induction false} LevPrefix<T>(p: seq<T>, a: seq<T>, b: seq<T>)
    ensures Lev(p + a, p + b) == Lev(a, b)
    decreases |a| + |b|
  {
    hide Lev;
    if a == [] || b == [] {
      LevAppend(p, a);
      LevAppend(p, b);
      LevSymmetric(p, p + a);
      LevEmpty(a);
      LevEmpty(b);
      assert p + [] == p;
    } else {
      var a', b' := Front(a), Front(b);
      LevPrefix(p, a', b);
      LevPrefix(p, a, b');
      LevPrefix(p, a', b');
      LevUnfold(a, b);
      LevUnfold(p + a, p + b);
      assert Front(p + a) == p + a' && Front(p + b) == p + b';
    }
  }

  lemma {:induction false} LevSuffix<T>(a: seq<T>, b: seq<T>, s: seq<T>)
    ensures Lev(a + s, b + s) == Lev(a, b)
    decreases |s|
  {
    hide Lev;
    if s == [] {
      assert a + s == a && b + s == b;
    } else {
      var s', x := Front(s), Last(s);
      LevSuffix(a, b, s');
      assert a + s == a + s' + [x] && b + s == b + s' + [x];
      LevLastAlike(a + s', b + s', x);
    }
  }

  /** A last character in common never pays to edit. */
  lemma {:induction false} LevLastAlike<T>(a: seq<T>, b: seq<T>, x: T)
    ensures Lev(a + [x], b + [x]) == Lev(a, b)
  {
    hide Lev;
    LevStep(a, x, b, x);
    LevAppend(a, [x]);
    LevAppend(b, [x]);
    LevSymmetric(b, b + [x]);
    LevTriangle(a, b + [x], b);
    LevTriangle(a, a + [x], b);
  }

  /** A common frame changes no distance. */
  lemma {:induction false} LevFramed<T>(p: seq<T>, x: seq<T>, y: seq<T>, s: seq<T>)
    ensures Lev(p + x + s, p + y + s) == Lev(x, y) <= Max(|x|, |y|)
  {
    hide Lev;
    LevSuffix(p + x, p + y, s);
    LevPrefix(p, x, y);
    LevBounds(x, y);
  }

  /** Two edits side by side cost no more than their sum. */
  lemma {:induction false} LevConcat<T>(a: seq<T>, b: seq<T>, r: seq<T>, s: seq<T>)
    ensures Lev(a + r, b + s) <= Lev(a, b) + Lev(r, s)
  {
    hide Lev;
    LevSuffix(a, b, r);
    LevPrefix(b, r, s);
    LevTriangle(a + r, b + r, b + s);
  }

  /** No chain of edits is shorter than the distance. */
  lemma {:induction false} LevIsLowerBound<T(!new)>(chain: seq<seq<T>>)
    requires EditChain(chain)
    ensures Lev(chain[0], Last(chain)) <= |chain| - 1
    decreases |chain|
  {
    hide Lev;
    if |chain| == 1 {
      LevBounds(chain[0], chain[0]);
    } else {
      var k := |chain| - 2;
      LevIsLowerBound(chain[..k + 1]);
      assert OneEdit(chain[k], chain[k + 1]);
      var p, x, y, s :| OneEditAt(chain[k], chain[k + 1], p, x, y, s);
      LevFramed(p, x, y, s);
      LevTriangle(chain[0], chain[k], chain[k + 1]);
    }
  }

  lemma {:induction false} ChainCons<T(!new)>(a: seq<T>, chain: seq<seq<T>>)
    requires EditChain(chain) && OneEdit(a, chain[0])
    ensures EditChain([a] + chain) && Last([a] + chain) == Last(chain)
  {
    var c := [a] + chain;
    forall k | 0 <= k < |c| - 1 ensures OneEdit(c[k], c[k + 1]) {
      if k > 0 { assert c[k] == chain[k - 1] && c[k + 1] == chain[k]; }
    }
  }

  lemma {:induction false} ChainSnoc<T(!new)>(chain: seq<seq<T>>, b: seq<T>)
    requires EditChain(chain) && OneEdit(Last(chain), b)
    ensures EditChain(chain + [b]) && (chain + [b])[0] == chain[0]
  {
  }

  /** Some chain of edits is exactly as long as the distance. */
  lemma {:induction false} LevIsReached<T(!new)>(a: seq<T>, b: seq<T>, s: seq<T>) returns (chain: seq<seq<T>>)
    ensures EditChain(chain) && chain[0] == a + s && Last(chain) == b + s
    ensures |chain| == Lev(a, b) + 1
    decreases |a| + |b|
  {
    hide Lev;
    if a == [] && b == [] {
      LevEmpty(a);
      return [a + s];
    }
    LevEmpty(a);
    LevEmpty(b);
    if a != [] && b != [] { LevUnfold(a, b); }
    if a != [] { LevEmpty(Front(a)); assert a == Front(a) + [Last(a)]; }
    if b != [] { LevEmpty(Front(b)); assert b == Front(b) + [Last(b)]; }
    if a != [] && Lev(a, b) == Lev(Front(a), b) + 1 {
      var rest := LevIsReached(Front(a), b, s);
      assert OneEditAt(a + s, Front(a) + s, Front(a), [Last(a)], [], s);
      ChainCons(a + s, rest);
      chain := [a + s] + rest;
    } else if b != [] && Lev(a, b) == Lev(a, Front(b)) + 1 {
      var rest := LevIsReached(a, Front(b), s);
      assert OneEditAt(Front(b) + s, b + s, Front(b), [], [Last(b)], s);
      ChainSnoc(rest, b + s);
      chain := rest + [b + s];
    } else {
      var y := [Last(b)];
      var rest := LevIsReached(Front(a), Front(b), y + s);
      assert Front(b) + (y + s) == b + s;
      if Last(a) == Last(b) {
        assert Front(a) + (y + s) == a + s;
        chain := rest;
      } else {
        assert OneEditAt(a + s, Front(a) + (y + s), Front(a), [Last(a)], y, s);
        ChainCons(a + s, rest);
        chain := [a + s] + rest;
      }
    }
  }

  // ----- similarity -----

  /** `char_similarity`: one minus the distance over the longer length. */
  function CharSimilarity<T(==)>(a: seq<T>, b: seq<T>): real {
    if a == b then 1.0
    else if a == [] || b == [] then 0.0
    else 1.0 - Lev(a, b) as real / Max(|a|, |b|) as real
  }

  lemma {:induction false} QuotientBounds(d: nat, m: nat)
    requires d <= m && 0 < m
    ensures 0.0 <= d as real / m as real <= 1.0
    ensures d as real / m as real == 0.0 <==> d == 0
    ensures d as real / m as real == 1.0 <==> d == m
  {
  }

  /** It is a similarity, and 1 only on equal tokens. */
  lemma {:induction false} CharSimilarityIsASimilarity<T>(a: seq<T>, b: seq<T>)
    ensures 0.0 <= CharSimilarity(a, b) <= 1.0
    ensures CharSimilarity(a, b) == CharSimilarity(b, a)
    ensures CharSimilarity(a, b) == 1.0 <==> a == b
  {
    hide Lev;
    LevBounds(a, b);
    LevSymmetric(a, b);
    if a != [] && b != [] { QuotientBounds(Lev(a, b), Max(|a|, |b|)); }
  }

  /** Sequences with no character in common are as far apart as can be. */
  lemma {:induction false} NothingSharedIsFar<T>(a: seq<T>, b: seq<T>)
    requires forall x | x in a :: x !in b
    ensures Lev(a, b) == Max(|a|, |b|)
    decreases |a| + |b|
  {
    hide Lev;
    LevEmpty(a);
    LevEmpty(b);
    if a != [] && b != [] {
      LevUnfold(a, b);
      assert Last(a) in a;
      NothingSharedIsFar(Front(a), b);
      NothingSharedIsFar(a, Front(b));
      NothingSharedIsFar(Front(a), Front(b));
    }
  }

  /** `char_similarity` is 0 on tokens sharing no character, though not only there. */
  lemma {:induction false} NothingSharedScoresZero<T>(a: seq<T>, b: seq<T>)
    requires a != [] || b != []
    requires forall x | x in a :: x !in b
    ensures CharSimilarity(a, b) == 0.0
  {
    hide Lev;
    NothingSharedIsFar(a, b);
    assert a == b ==> a == [] by { if a != [] { assert a[0] in a; } }
    if a != [] && b != [] { QuotientBounds(Lev(a, b), Max(|a|, |b|)); }
  }

  // ----- when the score is zero -----

  /** Equal characters matched in order, from the right end. */
  ghost predicate Matching<T>(a: seq<T>, b: seq<T>, m: seq<(nat, nat)>) {
    if m == [] then true
    else
      var (i, j) := m[|m| - 1];
      i < |a| && j < |b| && a[i] == b[j] && Matching(a[..i], b[..j], m[..|m| - 1])
  }

  function Excess(x: nat, y: nat): nat {
    if x > y then x - y else 0
  }

  /** The characters of `a` that a matching leaves no room for: between two matches,
      and at either end, those beyond the length of the facing stretch of `b`. */
  ghost function Deleted<T>(a: seq<T>, b: seq<T>, m: seq<(nat, nat)>): nat
    requires Matching(a, b, m)
  {
    if m == [] then Excess(|a|, |b|)
    else
      var (i, j) := m[|m| - 1];
      Excess(|a| - i - 1, |b| - j - 1) + Deleted(a[..i], b[..j], m[..|m| - 1])
  }

  /** Editing along a matching costs the length of `b`, less the matches, plus the
      deletions: no less than the distance ... */
  lemma {:induction false} MatchingCosts<T>(a: seq<T>, b: seq<T>, m: seq<(nat, nat)>)
    requires Matching(a, b, m)
    ensures Lev(a, b) + |m| <= |b| + Deleted(a, b, m)
    decreases |m|
  {
    hide Lev;
    if m == [] {
      LevBounds(a, b);
    } else {
      var (i, j) := m[|m| - 1];
      MatchingCosts(a[..i], b[..j], m[..|m| - 1]);
      var r, s := a[i + 1..], b[j + 1..];
      LevConcat(a[..i], b[..j], [a[i]] + r, [b[j]] + s);
      LevPrefix([a[i]], r, s);
      LevBounds(r, s);
      assert a == a[..i] + ([a[i]] + r) && b == b[..j] + ([b[j]] + s);
    }
  }

  /** ... and along some matching exactly the distance. */
  lemma {:induction false} SomeMatchingReaches<T>(a: seq<T>, b: seq<T>) returns (m: seq<(nat, nat)>)
    ensures Matching(a, b, m) && Lev(a, b) + |m| == |b| + Deleted(a, b, m)
    decreases |a| + |b|
  {
    hide Lev, Matching, Deleted;
    if a == [] || b == [] {
      m := [];
      LevEmpty(a);
      LevEmpty(b);
      NothingMatched(a, b);
    } else {
      LevUnfold(a, b);
      assert a[..|a|] == a && b[..|b|] == b;
      if Lev(a, b) == Lev(Front(a), b) + 1 {
        m := SomeMatchingReaches(Front(a), b);
        MatchedInMore(a, b, m, |a| - 1, |b|);
      } else if Lev(a, b) == Lev(a, Front(b)) + 1 {
        m := SomeMatchingReaches(a, Front(b));
        MatchedInMore(a, b, m, |a|, |b| - 1);
      } else if Last(a) == Last(b) {
        var front := SomeMatchingReaches(Front(a), Front(b));
        m := front + [(|a| - 1, |b| - 1)];
        MatchedLast(a, b, front);
      } else {
        m := SomeMatchingReaches(Front(a), Front(b));
        MatchedInMore(a, b, m, |a| - 1, |b| - 1);
      }
      MatchingCosts(a, b, m);
    }
  }

  lemma NothingMatched<T>(a: seq<T>, b: seq<T>)
    ensures Matching(a, b, []) && Deleted(a, b, []) == Excess(|a|, |b|)
  {
  }

  lemma {:induction false} MatchedLast<T>(a: seq<T>, b: seq<T>, front: seq<(nat, nat)>)
    requires a != [] && b != [] && Last(a) == Last(b) && Matching(Front(a), Front(b), front)
    ensures var m := front + [(|a| - 1, |b| - 1)];
      Matching(a, b, m) && Deleted(a, b, m) == Deleted(Front(a), Front(b), front)
  {
    var m := front + [(|a| - 1, |b| - 1)];
    assert m[..|m| - 1] == front;
  }

  /** A matching of two prefixes matches the whole. */
  lemma {:induction false} MatchedInMore<T>(a: seq<T>, b: seq<T>, m: seq<(nat, nat)>, i: nat, j: nat)
    requires i <= |a| && j <= |b| && Matching(a[..i], b[..j], m)
    ensures Matching(a, b, m)
    ensures |a| == i + 1 && |b| == j + 1 ==> Deleted(a, b, m) == Deleted(a[..i], b[..j], m)
    ensures |a| == i + 1 && |b| == j ==> Deleted(a, b, m) <= Deleted(a[..i], b[..j], m) + 1
    ensures |a| == i && |b| == j + 1 ==> Deleted(a, b, m) <= Deleted(a[..i], b[..j], m)
  {
    if m != [] {
      var (x, y) := m[|m| - 1];
      assert a[..i][..x] == a[..x] && b[..j][..y] == b[..y];
    }
  }

  lemma {:induction false} MatchesFit<T>(a: seq<T>, b: seq<T>, m: seq<(nat, nat)>)
    requires Matching(a, b, m)
    ensures |m| <= |a| && |m| <= |b|
    decreases |m|
  {
    if m != [] {
      var (i, j) := m[|m| - 1];
      MatchesFit(a[..i], b[..j], m[..|m| - 1]);
    }
  }

  /** `char_similarity` is 0 exactly when no matching of equal characters pays: each
      has at most as many matches as the deletions it costs the shorter token. */
  lemma {:induction false} ZeroWhenNoMatchingPays<T(!new)>(a: seq<T>, b: seq<T>)
    requires |a| <= |b|
    ensures CharSimilarity(a, b) == 0.0 <==> b != [] && forall m | Matching(a, b, m) :: |m| <= Deleted(a, b, m)
  {
    hide Lev;
    LevBounds(a, b);
    if a != [] { QuotientBounds(Lev(a, b), |b|); }
    var best := SomeMatchingReaches(a, b);
    if a == [] {
      LevEmpty(b);
    }
    forall m | Matching(a, b, m) && Lev(a, b) == |b| ensures |m| <= Deleted(a, b, m) {
      MatchingCosts(a, b, m);
    }
  }

  /** Two transposed letters share everything and still score 0. */
  lemma {:induction false} SharedLettersMayScoreZero()
    ensures CharSimilarity("ab", "ba") == 0.0
  {
    hide Lev, CharSimilarity;
    forall m: seq<(nat, nat)> | Matching("ab", "ba", m) ensures |m| <= Deleted("ab", "ba", m) {
      if m != [] {
        var front := m[..|m| - 1];
        var (i, j) := m[|m| - 1];
        MatchesFit("ab"[..i], "ba"[..j], front);
      }
    }
    ZeroWhenNoMatchingPays("ab", "ba");
  }

  /** One shared character that faces its twin at no more than the length difference
      is enough to score. */
  lemma {:induction false} SharedInReachScores<T(!new)>(a: seq<T>, b: seq<T>, i: nat, j: nat)
    requires |a| <= |b| && i < |a| && i <= j <= i + (|b| - |a|) && a[i] == b[j]
    ensures CharSimilarity(a, b) > 0.0
  {
    hide Lev;
    var m := [(i, j)];
    assert m[..0] == [];
    assert Deleted(a[..i], b[..j], m[..0]) == Excess(i, j) == 0;
    assert Matching(a, b, m) && Deleted(a, b, m) == 0;
    ZeroWhenNoMatchingPays(a, b);
    CharSimilarityIsASimilarity(a, b);
  }

  // ----- the E4 measure -----

  ghost predicate SamePrefix<T>(a: seq<T>, b: seq<T>, p: nat) {
    p <= |a| && p <= |b| && forall k | 0 <= k < p :: a[k] == b[k]
  }

  ghost predicate SameSuffix<T>(a: seq<T>, b: seq<T>, s: nat) {
    s <= |a| && s <= |b| && forall k | |a| - s <= k < |a| :: a[k] == b[k + |b| - |a|]
  }

  /** What `_changed_chars` trims away: the longest common prefix `p`, then the
      longest common suffix `s` of what is left. */
  ghost predicate Trims<T>(a: seq<T>, b: seq<T>, p: nat, s: nat) {
    && SamePrefix(a, b, p) && SameSuffix(a, b, s)
    && p + s <= Min(|a|, |b|)
    && (p < Min(|a|, |b|) ==> a[p] != b[p])
    && (p + s < Min(|a|, |b|) ==> a[|a| - 1 - s] != b[|b| - 1 - s])
  }

  lemma {:induction false} TrimsOnce<T>(a: seq<T>, b: seq<T>, p: nat, s: nat, p': nat, s': nat)
    requires Trims(a, b, p, s) && Trims(a, b, p', s')
    ensures p == p' && s == s'
  {
    assert p == p';
  }

  /** The size of the window left after trimming. */
  ghost predicate IsWindow<T(!new)>(a: seq<T>, b: seq<T>, n: int) {
    exists p: nat, s: nat :: Trims(a, b, p, s) && n == Max(|a|, |b|) - p - s
  }

  function PrefixFrom<T(==)>(a: seq<T>, b: seq<T>, i: nat): (p: nat)
    requires i <= |a| && i <= |b| && forall k | 0 <= k < i :: a[k] == b[k]
    ensures SamePrefix(a, b, p) && (p < Min(|a|, |b|) ==> a[p] != b[p])
    decreases |a| - i
  {
    if i < |a| && i < |b| && a[i] == b[i] then PrefixFrom(a, b, i + 1) else i
  }

  function SuffixFrom<T(==)>(a: seq<T>, b: seq<T>, cap: nat, i: nat): (s: nat)
    requires i <= cap <= Min(|a|, |b|) && SameSuffix(a, b, i)
    ensures SameSuffix(a, b, s) && s <= cap && (s < cap ==> a[|a| - 1 - s] != b[|b| - 1 - s])
    decreases cap - i
  {
    if i < cap && a[|a| - 1 - i] == b[|b| - 1 - i] then SuffixFrom(a, b, cap, i + 1) else i
  }

  /** The measure as a function. */
  function Changed<T(==,!new)>(a: seq<T>, b: seq<T>): (n: nat)
    ensures IsWindow(a, b, n)
  {
    var p := PrefixFrom(a, b, 0);
    var s := SuffixFrom(a, b, Min(|a|, |b|) - p, 0);
    assert Trims(a, b, p, s);
    Max(|a|, |b|) - p - s
  }

  lemma {:induction false} OneWindow<T(!new)>(a: seq<T>, b: seq<T>, m: int, n: int)
    requires IsWindow(a, b, m) && IsWindow(a, b, n)
    ensures m == n
  {
    var p: nat, s: nat :| Trims(a, b, p, s) && m == Max(|a|, |b|) - p - s;
    var p': nat, s': nat :| Trims(a, b, p', s') && n == Max(|a|, |b|) - p' - s';
    TrimsOnce(a, b, p, s, p', s');
  }

  /** `_changed_chars`: the differing window left after trimming the common
      prefix and then the common suffix. It never underestimates the edit. */
  method ChangedChars<T(==,!new)>(original: seq<T>, replacement: seq<T>) returns (n: nat)
    ensures IsWindow(original, replacement, n)
    ensures n == 0 <==> original == replacement
    ensures Lev(original, replacement) <= n <= Max(|original|, |replacement|)
  {
    hide Lev;
    LevBounds(original, replacement);
    if original == replacement {
      assert Trims(original, replacement, |original|, 0);
      return 0;
    }
    var p := 0;
    var maxP := Min(|original|, |replacement|);
    while p < maxP && original[p] == replacement[p]
      invariant p <= maxP && SamePrefix(original, replacement, p)
    {
      p := p + 1;
    }
    var s := 0;
    var maxS := maxP - p;
    while s < maxS && original[|original| - 1 - s] == replacement[|replacement| - 1 - s]
      invariant s <= maxS && SameSuffix(original, replacement, s)
    {
      s := s + 1;
    }
    n := Max(|original|, |replacement|) - p - s;
    assert Trims(original, replacement, p, s);
    TrimBounds(original, replacement, p, s);
  }

  lemma {:induction false} TrimBounds<T>(a: seq<T>, b: seq<T>, p: nat, s: nat)
    requires Trims(a, b, p, s)
    ensures Lev(a, b) <= Max(|a|, |b|) - p - s
  {
    hide Lev;
    var x, y := a[p..|a| - s], b[p..|b| - s];
    Recompose(a, p, s);
    Recompose(b, p, s);
    assert a[..p] == b[..p];
    assert a[|a| - s..] == b[|b| - s..];
    LevFramed(a[..p], x, y, a[|a| - s..]);
  }

  lemma {:induction false} Recompose<T>(a: seq<T>, p: nat, s: nat)
    requires p + s <= |a|
    ensures a == a[..p] + a[p..|a| - s] + a[|a| - s..]
  {
  }

  lemma {:induction false} ChangedBoundsLev<T(!new)>(a: seq<T>, b: seq<T>)
    ensures Lev(a, b) <= Changed(a, b)
  {
    hide Lev;
    assert IsWindow(a, b, Changed(a, b));
    var p: nat, s: nat :| Trims(a, b, p, s) && Changed(a, b) == Max(|a|, |b|) - p - s;
    TrimBounds(a, b, p, s);
  }

  /** On a pure insertion, and on a pure deletion, the measure is exactly the
      text inserted or deleted, which is also the edit distance. */
  lemma {:induction false} InsertionIsMeasuredExactly<T(!new)>(l: seq<T>, x: seq<T>, r: seq<T>, n: int)
    requires IsWindow(l + r, l + x + r, n) || IsWindow(l + x + r, l + r, n)
    ensures n == |x| == Lev(l + r, l + x + r) == Lev(l + x + r, l + r)
  {
    hide Lev, SamePrefix, SameSuffix, Trims;
    var a, b := l + r, l + x + r;
    InsertionDistance(l, x, r);
    InsertionFrame(l, x, r);
    if IsWindow(a, b, n) {
      var p: nat, s: nat :| Trims(a, b, p, s) && n == Max(|a|, |b|) - p - s;
      TrimCovers(a, b, p, s, |l|);
    } else {
      var p: nat, s: nat :| Trims(b, a, p, s) && n == Max(|b|, |a|) - p - s;
      TrimCovers(b, a, p, s, |l|);
    }
  }

  lemma {:induction false} InsertionDistance<T>(l: seq<T>, x: seq<T>, r: seq<T>)
    ensures Lev(l + r, l + x + r) == Lev(l + x + r, l + r) == |x|
  {
    hide Lev;
    LevSymmetric(l + r, l + x + r);
    LevFramed(l, [], x, r);
    LevEmpty(x);
    assert l + [] + r == l + r;
  }

  lemma {:induction false} InsertionFrame<T>(l: seq<T>, x: seq<T>, r: seq<T>)
    ensures var a, b := l + r, l + x + r;
      && SamePrefix(a, b, |l|) && SamePrefix(b, a, |l|)
      && SameSuffix(a, b, |r|) && SameSuffix(b, a, |r|)
  {
  }

  lemma {:induction false} TrimCovers<T>(a: seq<T>, b: seq<T>, p: nat, s: nat, k: nat)
    requires Trims(a, b, p, s)
    requires k <= Min(|a|, |b|) && SamePrefix(a, b, k) && SameSuffix(a, b, Min(|a|, |b|) - k)
    ensures p + s == Min(|a|, |b|)
  {
    assert p >= k;
  }
}

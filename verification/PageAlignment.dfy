/** `page_alignment.py`: which returned line answers which source line, and the
    character-wise re-cut of a returned page. */
module PageAlignment {
  import opened Prelude
  import A = Alignment

  const MERGE_SLACK_TOKENS: nat := 2
  const DEFAULT_LINE_BAND: int := 20

  // ----- line-keyed matching -----

  function Tokens<T(==)>(line: seq<T>): set<T> {
    set x | x in line
  }

  /** `line_similarity`: Jaccard over the tokens, refused outright when the
      token counts are too far apart. A line is the list of its tokens. */
  function LineSimilarity<T(==)>(left: seq<T>, right: seq<T>): real {
    if A.Abs(|left| - |right|) > MERGE_SLACK_TOKENS then 0.0
    else
      var l, r := Tokens(left), Tokens(right);
      if l == {} && r == {} then 1.0
      else if l == {} || r == {} then 0.0
      else |l * r| as real / |l + r| as real
  }

  /** It is a similarity, and it gives evidence exactly to lines of close token
      counts that are both empty or share a token. */
  lemma {:induction false} LineSimilarityIsEvidence<T>(left: seq<T>, right: seq<T>)
    ensures 0.0 <= LineSimilarity(left, right) <= 1.0
    ensures LineSimilarity(left, right) == LineSimilarity(right, left)
    ensures LineSimilarity(left, right) > 0.0 <==>
      A.Abs(|left| - |right|) <= MERGE_SLACK_TOKENS
      && (left == right == [] || exists x :: x in left && x in right)
  {
    var l, r := Tokens(left), Tokens(right);
    assert l + r == r + l && l * r == r * l;
    if l != {} { var x :| x in l; assert x in left; }
    if r != {} { var x :| x in r; assert x in right; }
    if left != [] { assert left[0] in l; }
    if right != [] { assert right[0] in r; }
    if l != {} && r != {} {
      SubsetCard(l * r, l + r);
      if l * r == {} {
        assert forall x :: x in left && x in right ==> x in l * r;
      } else {
        var x :| x in l * r;
        assert x in left && x in right;
        SubsetCard({x}, l * r);
      }
      A.Ratio(|l * r| as real, |l + r|);
    }
  }

  lemma {:induction false} SubsetCard<T>(a: set<T>, b: set<T>)
    requires a <= b
    ensures |a| <= |b|
  {
    assert b == a + (b - a);
  }

  /** Which returned line answers source line i, when one does. */
  ghost predicate Answers(pairs: seq<A.AlignedPair>, i: nat, j: nat) {
    exists k :: 0 <= k < |pairs| && pairs[k].source == Some(i) && pairs[k].target == Some(j)
  }

  function LineTask<T(==,!new)>(source: seq<seq<T>>, returned: seq<seq<T>>, band: int): (t: A.Task<seq<T>>)
    ensures t.Valid()
  {
    A.TaskOf(source, returned, Some(band), (l: seq<T>, r: seq<T>) => LineSimilarity(l, r))
  }

  lemma {:induction false} LineTaskReady<T(!new)>(source: seq<seq<T>>, returned: seq<seq<T>>, band: int)
    ensures var t := LineTask(source, returned, band);
      A.IsSimilarity(t.sim) && t.In(|source|, |returned|)
  {
    LineTask(source, returned, band).Corridor(|source|);
    forall l: seq<T>, r: seq<T> ensures 0.0 <= LineSimilarity(l, r) <= 1.0 {
      LineSimilarityIsEvidence(l, r);
    }
  }

  /** The alignment of the two pages, as `align_tokens` lists it. */
  ghost function Pairs<T(!new)>(source: seq<seq<T>>, returned: seq<seq<T>>, band: int): seq<A.AlignedPair> {
    LineTaskReady(source, returned, band);
    LineTask(source, returned, band).Trace(|source|, |returned|)
  }

  ghost predicate Exhausted<T(!new)>(source: seq<seq<T>>, returned: seq<seq<T>>, band: int) {
    LineTaskReady(source, returned, band);
    LineTask(source, returned, band).Touches(|source|, |returned|)
  }

  lemma {:induction false} AnswersStep(pairs: seq<A.AlignedPair>, k: nat)
    requires k < |pairs|
    ensures forall i: nat, j: nat :: Answers(pairs[..k + 1], i, j) <==>
      Answers(pairs[..k], i, j) || (pairs[k].source == Some(i) && pairs[k].target == Some(j))
  {
    forall i: nat, j: nat
      ensures Answers(pairs[..k + 1], i, j) <==>
        Answers(pairs[..k], i, j) || (pairs[k].source == Some(i) && pairs[k].target == Some(j))
    {
      assert forall x | 0 <= x < k :: pairs[..k + 1][x] == pairs[..k][x];
      assert pairs[..k + 1][k] == pairs[k];
    }
  }

  /** Source indices only grow along the list, and so do target indices. */
  ghost predicate Grows(pairs: seq<A.AlignedPair>) {
    forall a, b | 0 <= a < b < |pairs| ::
      && (pairs[a].source.Some? && pairs[b].source.Some? ==> pairs[a].source.value < pairs[b].source.value)
      && (pairs[a].target.Some? && pairs[b].target.Some? ==> pairs[a].target.value < pairs[b].target.value)
  }

  lemma {:induction false} AlignmentGrows<T(!new)>(t: A.Task<T>, w: seq<A.AlignedPair>, i: nat, j: nat)
    requires i <= |t.source| && j <= |t.target| && t.Aligns(w, i, j)
    ensures Grows(w)
    decreases |w|
  {
    if w != [] {
      var last, front := w[|w| - 1], w[..|w| - 1];
      var (pi, pj) := A.Before(i, j, A.Shape(last));
      AlignmentGrows(t, front, pi, pj);
      t.InRange(front, pi, pj);
      assert forall a | 0 <= a < |front| :: w[a] == front[a];
    }
  }

  /** `align_page_lines`: a strictly increasing partial injection that matches
      only lines with evidence; `unclaimed` is its complement, in order. */
  method AlignPageLines<T(==,!new)>(source: seq<seq<T>>, returned: seq<seq<T>>, band: int := DEFAULT_LINE_BAND)
    returns (matched: seq<Option<nat>>, unclaimed: seq<nat>, bandExhausted: bool)
    ensures |matched| == |source|
    ensures forall i | 0 <= i < |matched| && matched[i].Some? ::
      matched[i].value < |returned| && LineSimilarity(source[i], returned[matched[i].value]) > 0.0
    ensures forall i, k | 0 <= i < k < |matched| && matched[i].Some? && matched[k].Some? ::
      matched[i].value < matched[k].value
    ensures forall j: nat :: j in unclaimed <==> j < |returned| && Some(j) !in matched
    ensures forall a, b | 0 <= a < b < |unclaimed| :: unclaimed[a] < unclaimed[b]
    ensures forall i: nat, j: nat | i < |source| ::
      matched[i] == Some(j) <==> Answers(Pairs(source, returned, band), i, j)
    ensures bandExhausted == Exhausted(source, returned, band)
  {
    hide A.Task.Trace, A.Task.Touches, A.Suspect, A.Score, A.Task.Lo, A.Task.Hi, LineSimilarity;
    var t := LineTask(source, returned, band);
    LineTaskReady(source, returned, band);
    var pairs, score, moved;
    pairs, score, moved, bandExhausted := A.AlignTokens(source, returned, Some(band), t.sim);
    assert pairs == Pairs(source, returned, band);
    PairsAreSound(source, returned, band);
    matched := seq(|source|, _ => None);
    var claimed: set<nat> := {};
    for k := 0 to |pairs|
      invariant |matched| == |source|
      invariant Recorded(pairs[..k], matched)
      invariant forall j :: j in claimed <==> Some(j) in matched
    {
      var pair := pairs[k];
      AnswersStep(pairs, k);
      if pair.source.None? || pair.target.None? {
        continue;
      }
      matched, claimed := Record(pairs, k, matched, claimed);
    }
    assert pairs[..|pairs|] == pairs;
    RecordedIsIncreasing(pairs, matched);
    unclaimed := Complement(claimed, |returned|);
  }

  method Complement(claimed: set<nat>, n: nat) returns (rest: seq<nat>)
    ensures forall j: nat :: j in rest <==> j < n && j !in claimed
    ensures forall a, b | 0 <= a < b < |rest| :: rest[a] < rest[b]
  {
    rest := [];
    for j := 0 to n
      invariant forall x: nat :: x in rest <==> x < j && x !in claimed
      invariant forall a, b | 0 <= a < b < |rest| :: rest[a] < rest[b]
    {
      if j !in claimed {
        assert forall a | 0 <= a < |rest| :: rest[a] in rest;
        rest := rest + [j];
      }
    }
  }

  ghost predicate Recorded(pairs: seq<A.AlignedPair>, matched: seq<Option<nat>>) {
    forall i: nat, j: nat | i < |matched| :: matched[i] == Some(j) <==> Answers(pairs, i, j)
  }

  method Record(pairs: seq<A.AlignedPair>, k: nat, matched: seq<Option<nat>>, claimed: set<nat>)
    returns (matched': seq<Option<nat>>, claimed': set<nat>)
    requires k < |pairs| && pairs[k].source.Some? && pairs[k].target.Some? && pairs[k].source.value < |matched|
    requires Grows(pairs) && Recorded(pairs[..k], matched)
    requires forall j :: j in claimed <==> Some(j) in matched
    ensures |matched'| == |matched| && Recorded(pairs[..k + 1], matched')
    ensures forall j :: j in claimed' <==> Some(j) in matched'
  {
    var i, j := pairs[k].source.value, pairs[k].target.value;
    AnswersStep(pairs, k);
    forall x: nat ensures !Answers(pairs[..k], i, x) {
      assert forall a | 0 <= a < k :: pairs[..k][a].source != Some(i);
    }
    assert matched[i].None?;
    matched' := matched[i := Some(j)];
    claimed' := claimed + {j};
    assert matched'[i] == Some(j);
    forall x | Some(x) in matched ensures Some(x) in matched' {
      var a :| 0 <= a < |matched| && matched[a] == Some(x);
      assert matched'[a] == Some(x);
    }
  }

  lemma {:induction false} PairsAreSound<T(!new)>(source: seq<seq<T>>, returned: seq<seq<T>>, band: int)
    ensures var pairs := Pairs(source, returned, band);
      && Grows(pairs)
      && (forall k | 0 <= k < |pairs| && pairs[k].source.Some? :: pairs[k].source.value < |source|)
      && (forall i: nat, j: nat | Answers(pairs, i, j) ::
           i < |source| && j < |returned| && LineSimilarity(source[i], returned[j]) > 0.0)
  {
    var t, n, m := LineTask(source, returned, band), |source|, |returned|;
    var pairs := Pairs(source, returned, band);
    LineTaskReady(source, returned, band);
    t.TraceIsAlignment(n, m);
    AlignmentGrows(t, pairs, n, m);
    t.InRange(pairs, n, m);
    t.AlignsLists(pairs, n, m);
    forall i: nat, j: nat | Answers(pairs, i, j)
      ensures i < |source| && j < |returned| && LineSimilarity(source[i], returned[j]) > 0.0
    {
      var k :| 0 <= k < |pairs| && pairs[k].source == Some(i) && pairs[k].target == Some(j);
      assert t.Rated(pairs[k]) && A.Shape(pairs[k]).Match?;
    }
  }

  lemma {:induction false} RecordedIsIncreasing(pairs: seq<A.AlignedPair>, matched: seq<Option<nat>>)
    requires Grows(pairs) && Recorded(pairs, matched)
    ensures forall i, k | 0 <= i < k < |matched| && matched[i].Some? && matched[k].Some? ::
      matched[i].value < matched[k].value
  {
    forall i, k | 0 <= i < k < |matched| && matched[i].Some? && matched[k].Some?
      ensures matched[i].value < matched[k].value
    {
      assert Answers(pairs, i, matched[i].value) && Answers(pairs, k, matched[k].value);
      var a :| 0 <= a < |pairs| && pairs[a].source == Some(i) && pairs[a].target == matched[i];
      var b :| 0 <= b < |pairs| && pairs[b].source == Some(k) && pairs[b].target == matched[k];
    }
  }
}

/** `_coalesce` (`planner.py`): merging consecutive block groups greedily while
    both budgets hold, and why no other in-order merge does better. */
module Coalescing {
  import opened Prelude
  import opened Manifest
  import opened Chunks

  /** The block ids a chunk covers and the page positions of their lines. */
  datatype Group = Group(ids: seq<string>, lines: seq<nat>)

  /** `_total_chars` of the lines at the given positions. */
  function CharsAt(page: seq<Line>, at: seq<nat>): nat {
    if at == [] then 0
    else CharsAt(page, at[..|at| - 1]) + if at[|at| - 1] < |page| then |page[at[|at| - 1]].ocr| else 0
  }

  lemma {:induction false} CharsConcat(page: seq<Line>, a: seq<nat>, b: seq<nat>)
    ensures CharsAt(page, a + b) == CharsAt(page, a) + CharsAt(page, b)
    decreases |b|
  {
    if b == [] {
      assert a + b == a;
    } else {
      CharsConcat(page, a, b[..|b| - 1]);
      assert (a + b)[..|a + b| - 1] == a + b[..|b| - 1];
    }
  }

  predicate Fits(page: seq<Line>, cfg: Config, at: seq<nat>) {
    |at| <= cfg.maxLines && CharsAt(page, at) <= cfg.maxChars
  }

  /** The chunk a run of consecutive groups becomes. */
  function Merge(run: seq<Group>): Group {
    if run == [] then Group([], [])
    else
      var front, last := Merge(run[..|run| - 1]), run[|run| - 1];
      Group(front.ids + last.ids, front.lines + last.lines)
  }

  /** An in-order merge of the groups: non-empty runs, none above a budget. */
  ghost predicate IsMerge(page: seq<Line>, cfg: Config, groups: seq<Group>, runs: seq<seq<Group>>) {
    && Flatten(runs) == groups
    && forall k | 0 <= k < |runs| :: runs[k] != [] && Fits(page, cfg, Merge(runs[k]).lines)
  }

  /** Not more runs than `other`, and with as many, a last run no longer. */
  ghost predicate Ahead(runs: seq<seq<Group>>, other: seq<seq<Group>>) {
    && |runs| <= |other|
    && (|runs| == |other| && runs != [] ==> |runs[|runs| - 1]| <= |other[|other| - 1]|)
  }

  ghost predicate Best(page: seq<Line>, cfg: Config, groups: seq<Group>, runs: seq<seq<Group>>) {
    forall other | IsMerge(page, cfg, groups, other) :: Ahead(runs, other)
  }

  lemma {:induction false} MergeSnoc(run: seq<Group>, g: Group)
    ensures Merge(run + [g]) == Group(Merge(run).ids + g.ids, Merge(run).lines + g.lines)
  {
    assert (run + [g])[..|run|] == run;
  }

  lemma {:induction false} MergeConcat(a: seq<Group>, b: seq<Group>)
    ensures Merge(a + b) == Group(Merge(a).ids + Merge(b).ids, Merge(a).lines + Merge(b).lines)
    decreases |b|
  {
    if b == [] {
      assert a + b == a;
    } else {
      MergeConcat(a, b[..|b| - 1]);
      assert (a + b)[..|a + b| - 1] == a + b[..|b| - 1];
    }
  }

  /** What fits still fits when its first groups, or its last one, are dropped. */
  lemma {:induction false} SuffixFits(page: seq<Line>, cfg: Config, a: seq<Group>, b: seq<Group>)
    requires Fits(page, cfg, Merge(a + b).lines)
    ensures Fits(page, cfg, Merge(a).lines) && Fits(page, cfg, Merge(b).lines)
  {
    MergeConcat(a, b);
    CharsConcat(page, Merge(a).lines, Merge(b).lines);
  }

  /** A merge of groups + [g] with g taken away again. */
  lemma {:induction false} DropLast(page: seq<Line>, cfg: Config, groups: seq<Group>, g: Group, other: seq<seq<Group>>)
    returns (less: seq<seq<Group>>)
    requires IsMerge(page, cfg, groups + [g], other)
    ensures IsMerge(page, cfg, groups, less) && other != []
    ensures var last := other[|other| - 1];
      && last[|last| - 1] == g && Fits(page, cfg, Merge(last).lines)
      && if |last| == 1 then |less| == |other| - 1
         else |less| == |other| && less[|less| - 1] == last[..|last| - 1]
  {
    var k := |other| - 1;
    var last, front := other[k], other[..k];
    assert Flatten(other) == Flatten(front) + last;
    assert last == last[..|last| - 1] + [g] && groups == Flatten(front) + last[..|last| - 1] by {
      assert (groups + [g])[|groups|] == g;
      assert (groups + [g])[..|groups|] == groups;
      assert (Flatten(front) + last)[..|groups|] == Flatten(front) + last[..|last| - 1];
    }
    if |last| == 1 {
      less := front;
    } else {
      less := front + [last[..|last| - 1]];
      FlattenSnoc(front, last[..|last| - 1]);
      SuffixFits(page, cfg, last[..|last| - 1], [g]);
    }
  }

  /** One group more: the greedy choice stays ahead of every other merge. */
  lemma {:induction false} GreedyStaysAhead(page: seq<Line>, cfg: Config, groups: seq<Group>, runs: seq<seq<Group>>, g: Group)
    requires IsMerge(page, cfg, groups, runs) && Best(page, cfg, groups, runs)
    requires Fits(page, cfg, g.lines)
    ensures var next := Greedy(page, cfg, runs, g);
      IsMerge(page, cfg, groups + [g], next) && Best(page, cfg, groups + [g], next)
  {
    var next := Greedy(page, cfg, runs, g);
    GreedyMerges(page, cfg, groups, runs, g);
    hide IsMerge, Best, Ahead, Greedy, Fits;
    GreedyIsBest(page, cfg, groups, runs, g);
  }

  lemma {:induction false} GreedyMerges(page: seq<Line>, cfg: Config, groups: seq<Group>, runs: seq<seq<Group>>, g: Group)
    requires IsMerge(page, cfg, groups, runs) && Fits(page, cfg, g.lines)
    ensures IsMerge(page, cfg, groups + [g], Greedy(page, cfg, runs, g))
  {
    hide Fits, Merge, Flatten, IsMerge;
    if runs != [] && Fits(page, cfg, Merge(runs[|runs| - 1] + [g]).lines) {
      LongerRun(page, cfg, groups, runs, g);
    } else {
      NewRun(page, cfg, groups, runs, g);
    }
  }

  lemma {:induction false} NewRun(page: seq<Line>, cfg: Config, groups: seq<Group>, runs: seq<seq<Group>>, g: Group)
    requires IsMerge(page, cfg, groups, runs) && Fits(page, cfg, g.lines)
    ensures IsMerge(page, cfg, groups + [g], runs + [[g]])
  {
    MergeOne(g);
    FlattenSnoc(runs, [g]);
    hide Fits, Merge, Flatten;
  }

  lemma {:induction false} LongerRun(page: seq<Line>, cfg: Config, groups: seq<Group>, runs: seq<seq<Group>>, g: Group)
    requires IsMerge(page, cfg, groups, runs) && runs != [] && Fits(page, cfg, Merge(runs[|runs| - 1] + [g]).lines)
    ensures IsMerge(page, cfg, groups + [g], runs[..|runs| - 1] + [runs[|runs| - 1] + [g]])
  {
    var k := |runs| - 1;
    FlattenSnoc(runs[..k], runs[k] + [g]);
    FlattenSnoc(runs[..k], runs[k]);
    hide Fits, Merge, Flatten;
    assert runs[..k] + [runs[k]] == runs;
    assert Flatten(runs[..k]) + (runs[k] + [g]) == Flatten(runs[..k]) + runs[k] + [g];
  }

  lemma {:induction false} GreedyIsBest(page: seq<Line>, cfg: Config, groups: seq<Group>, runs: seq<seq<Group>>, g: Group)
    requires IsMerge(page, cfg, groups, runs) && Best(page, cfg, groups, runs)
    ensures Best(page, cfg, groups + [g], Greedy(page, cfg, runs, g))
  {
    hide IsMerge, Ahead, Greedy, Fits;
    var next := Greedy(page, cfg, runs, g);
    forall other | IsMerge(page, cfg, groups + [g], other) ensures Ahead(next, other) {
      AheadOfOne(page, cfg, groups, runs, g, other);
    }
  }

  /** What the loop body does with the next group. */
  ghost function Greedy(page: seq<Line>, cfg: Config, runs: seq<seq<Group>>, g: Group): (next: seq<seq<Group>>) {
    if runs != [] && Fits(page, cfg, Merge(runs[|runs| - 1] + [g]).lines)
    then runs[..|runs| - 1] + [runs[|runs| - 1] + [g]]
    else runs + [[g]]
  }

  lemma {:induction false} AheadOfOne(page: seq<Line>, cfg: Config, groups: seq<Group>, runs: seq<seq<Group>>, g: Group,
                                      other: seq<seq<Group>>)
    requires IsMerge(page, cfg, groups, runs) && Best(page, cfg, groups, runs)
    requires IsMerge(page, cfg, groups + [g], other)
    ensures Ahead(Greedy(page, cfg, runs, g), other)
  {
    var less := DropLast(page, cfg, groups, g, other);
    assert Ahead(runs, less);
    var last := other[|other| - 1];
    if runs != [] && |last| > 1 && |runs| == |other| {
      var before := LastRunIsSuffix(page, cfg, groups, runs, less);
      var mine := runs[|runs| - 1];
      assert last == before + (mine + [g]);
      SuffixFits(page, cfg, before, mine + [g]);
    }
  }

  lemma {:induction false} LastRunIsSuffix(page: seq<Line>, cfg: Config, groups: seq<Group>, runs: seq<seq<Group>>, less: seq<seq<Group>>)
    returns (before: seq<Group>)
    requires IsMerge(page, cfg, groups, runs) && IsMerge(page, cfg, groups, less) && runs != [] && less != []
    requires |runs[|runs| - 1]| <= |less[|less| - 1]|
    ensures less[|less| - 1] == before + runs[|runs| - 1]
  {
    var mine, its := runs[|runs| - 1], less[|less| - 1];
    var a, b := Flatten(runs[..|runs| - 1]), Flatten(less[..|less| - 1]);
    assert a + mine == b + its;
    var cut := |its| - |mine|;
    assert its[cut..] == (b + its)[|b| + cut..] == (a + mine)[|a|..] == mine;
    before := its[..cut];
    assert its == before + mine;
  }

  /** `_coalesce`: the ids and the lines keep their concatenation, every chunk is
      within both budgets, and no in-order merge has fewer chunks. */
  method Coalesce(page: seq<Line>, cfg: Config, grouped: seq<Group>) returns (out: seq<Group>, ghost runs: seq<seq<Group>>)
    requires forall k | 0 <= k < |grouped| :: Fits(page, cfg, grouped[k].lines)
    ensures IsMerge(page, cfg, grouped, runs) && Best(page, cfg, grouped, runs)
    ensures |out| == |runs| && forall k | 0 <= k < |out| :: out[k] == Merge(runs[k])
    ensures forall k | 0 <= k < |out| :: Fits(page, cfg, out[k].lines)
    ensures Merge(out) == Merge(grouped)
  {
    hide Merge, Fits, IsMerge, Best;
    out, runs := [], [];
    NothingMerged(page, cfg);
    for i := 0 to |grouped|
      invariant IsMerge(page, cfg, grouped[..i], runs) && Best(page, cfg, grouped[..i], runs)
      invariant |out| == |runs| && forall k | 0 <= k < |out| :: out[k] == Merge(runs[k])
    {
      var g := grouped[i];
      assert grouped[..i + 1] == grouped[..i] + [g];
      GreedyStaysAhead(page, cfg, grouped[..i], runs, g);
      if out != [] {
        var prev := out[|out| - 1];
        var merged := prev.lines + g.lines;
        MergeSnoc(runs[|runs| - 1], g);
        if Fits(page, cfg, merged) {
          out := out[..|out| - 1] + [Group(prev.ids + g.ids, merged)];
          runs := Greedy(page, cfg, runs, g);
          continue;
        }
      }
      MergeOne(g);
      out := out + [g];
      runs := Greedy(page, cfg, runs, g);
    }
    assert grouped[..|grouped|] == grouped;
    MergeFits(page, cfg, grouped, runs);
    MergeOfMerges(runs, out);
    MergeKeepsAll(page, cfg, grouped, runs);
  }

  lemma NothingMerged(page: seq<Line>, cfg: Config)
    ensures IsMerge(page, cfg, [], []) && Best(page, cfg, [], [])
  {
  }

  lemma MergeOne(g: Group)
    ensures Merge([g]) == g
  {
    MergeSnoc([], g);
    assert [] + [g] == [g];
  }

  lemma MergeFits(page: seq<Line>, cfg: Config, groups: seq<Group>, runs: seq<seq<Group>>)
    requires IsMerge(page, cfg, groups, runs)
    ensures forall k | 0 <= k < |runs| :: Fits(page, cfg, Merge(runs[k]).lines)
  {
  }

  lemma MergeKeepsAll(page: seq<Line>, cfg: Config, groups: seq<Group>, runs: seq<seq<Group>>)
    requires IsMerge(page, cfg, groups, runs)
    ensures Flatten(runs) == groups
  {
  }

  lemma {:induction false} MergeOfMerges(runs: seq<seq<Group>>, out: seq<Group>)
    requires |out| == |runs| && forall k | 0 <= k < |out| :: out[k] == Merge(runs[k])
    ensures Merge(out) == Merge(Flatten(runs))
  {
    if runs != [] {
      var k := |runs| - 1;
      MergeOfMerges(runs[..k], out[..k]);
      MergeConcat(Flatten(runs[..k]), runs[k]);
    }
  }
}

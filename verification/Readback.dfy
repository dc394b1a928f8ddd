/** Reading an alignment back from the target side: the lazily built index of
    `TokenAlignment.source_for_target`. */
module Readback {
  import opened Prelude
  import opened Alignment

  /** The dictionary: each target token to what it came from; a repeated key keeps
      its last value. */
  function Index(w: seq<AlignedPair>): map<nat, Option<nat>> {
    if w == [] then map[]
    else
      var m, last := Index(w[..|w| - 1]), w[|w| - 1];
      if last.target.Some? then m[last.target.value := last.source] else m
  }

  function SourceOf(w: seq<AlignedPair>, target: nat): Option<nat> {
    if target in Index(w) then Index(w)[target] else None
  }

  class TokenAlignment {
    const pairs: seq<AlignedPair>
    var byTarget: Option<map<nat, Option<nat>>>

    ghost predicate Valid()
      reads this
    {
      byTarget.Some? ==> byTarget.value == Index(pairs)
    }

    constructor (pairs: seq<AlignedPair>)
      ensures Valid() && this.pairs == pairs && byTarget.None?
    {
      this.pairs, byTarget := pairs, None;
    }

    /** The first question builds the index, every later one reads it; the answer
        does not depend on which it is. */
    method SourceForTarget(target: nat) returns (r: Option<nat>)
      requires Valid()
      modifies this
      ensures Valid() && byTarget.Some? && r == SourceOf(pairs, target)
    {
      if byTarget.None? {
        var index := map[];
        for k := 0 to |pairs|
          invariant index == Index(pairs[..k])
        {
          assert pairs[..k + 1][..k] == pairs[..k];
          if pairs[k].target.Some? {
            index := index[pairs[k].target.value := pairs[k].source];
          }
        }
        assert pairs[..|pairs|] == pairs;
        byTarget := Some(index);
      }
      r := if target in byTarget.value then byTarget.value[target] else None;
    }
  }

  /** Every matched or inserted target token is answered with its own pair. */
  ghost predicate Answered(w: seq<AlignedPair>) {
    forall k | 0 <= k < |w| && w[k].target.Some? :: SourceOf(w, w[k].target.value) == w[k].source
  }

  /** The answers for the first j target tokens are source tokens before i... */
  ghost predicate Below(w: seq<AlignedPair>, i: nat, j: nat) {
    forall b: nat | b < j && SourceOf(w, b).Some? :: SourceOf(w, b).value < i
  }

  /** ...in strictly increasing order. */
  ghost predicate Increasing(w: seq<AlignedPair>, j: nat) {
    forall a: nat, b: nat | a < b < j && SourceOf(w, a).Some? && SourceOf(w, b).Some? :: SourceOf(w, a).value < SourceOf(w, b).value
  }

  ghost predicate Knows(w: seq<AlignedPair>, j: nat) {
    forall b: nat :: b in Index(w) <==> b < j
  }

  ghost predicate Adds(p: AlignedPair, pi: int, pj: int, i: nat, j: nat) {
    && pi == (if p.source.Some? then i - 1 else i) && (p.source.Some? ==> p.source.value == pi)
    && pj == (if p.target.Some? then j - 1 else j) && (p.target.Some? ==> p.target.value == pj)
  }

  lemma IndexMore(front: seq<AlignedPair>, last: AlignedPair, b: nat)
    ensures SourceOf(front + [last], b) == if last.target == Some(b) then last.source else SourceOf(front, b)
    ensures b in Index(front + [last]) <==> b in Index(front) || last.target == Some(b)
  {
    assert (front + [last])[..|front|] == front;
  }

  lemma {:induction false} OnePairMore(front: seq<AlignedPair>, last: AlignedPair, pi: nat, pj: nat, i: nat, j: nat)
    requires Adds(last, pi, pj, i, j) && Knows(front, pj) && Answered(front) && Below(front, pi, pj) && Increasing(front, pj)
    ensures Knows(front + [last], j) && Answered(front + [last]) && Below(front + [last], i, j) && Increasing(front + [last], j)
  {
    hide Index;
    forall b: nat
      ensures SourceOf(front + [last], b) == if last.target == Some(b) then last.source else SourceOf(front, b)
      ensures b in Index(front + [last]) <==> b in Index(front) || last.target == Some(b)
    {
      IndexMore(front, last, b);
    }
    hide SourceOf;
    forall k | 0 <= k < |front| && front[k].target.Some? ensures front[k].target.value < pj {
      TargetsAreKnown(front, pj, k);
    }
  }

  lemma {:induction false} TargetsAreKnown(w: seq<AlignedPair>, j: nat, k: nat)
    requires Knows(w, j) && k < |w| && w[k].target.Some?
    ensures w[k].target.value < j
  {
    InIndex(w, k);
  }

  lemma {:induction false} InIndex(w: seq<AlignedPair>, k: nat)
    requires k < |w| && w[k].target.Some?
    ensures w[k].target.value in Index(w)
  {
    if k < |w| - 1 { InIndex(w[..|w| - 1], k); }
  }

  /** What it answers about a complete alignment: exactly the target's own pair.
      It knows every target token and no other, says None exactly of the inserted
      ones, and the sources it names lie in range and strictly increase. */
  lemma {:induction false} ReadbackIsTheAlignment<T(!new)>(t: Task<T>, w: seq<AlignedPair>, i: nat, j: nat)
    requires i <= |t.source| && j <= |t.target| && t.Lists(w, i, j)
    ensures Knows(w, j) && Answered(w) && Below(w, i, j) && Increasing(w, j)
    decreases |w|
  {
    hide Knows, Answered, Below, Increasing;
    if w == [] {
      assert |Iota(i)| == 0 && |Iota(j)| == 0;
      NothingToRead(i);
    } else {
      var last, front := w[|w| - 1], w[..|w| - 1];
      t.ListsBackward(w, i, j);
      var (pi, pj) := Before(i, j, Shape(last));
      ReadbackIsTheAlignment(t, front, pi, pj);
      assert front + [last] == w;
      OnePairMore(front, last, pi, pj, i, j);
    }
  }

  lemma NothingToRead(i: nat)
    ensures Knows([], 0) && Answered([]) && Below([], i, 0) && Increasing([], 0)
  {
  }
}

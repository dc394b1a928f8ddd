/** `alignment.py`: the banded dynamic program over two token sequences, its
    backtrack, and what the alignment it returns is worth. Costs are exact
    reals and the similarity is any function into [0, 1]; the backtrack keeps
    the source's tolerance. */
module Alignment {
  import opened Prelude

  const TOLERANCE: real := 0.000000001
  const MOVE_SIMILARITY: real := 0.8
  const WEAK_MATCH: real := 0.5

  function Max(x: int, y: int): int { if x >= y then x else y }
  function Min(x: int, y: int): int { if x <= y then x else y }
  function Abs(x: int): nat { if x >= 0 then x else -x }
  function AbsReal(x: real): real { if x >= 0.0 then x else -x }

  /** What n comparisons up to the tolerance can add up to. */
  function Slack(n: nat): real { n as real * TOLERANCE }

  lemma {:induction false} SlackStep(n: nat)
    ensures Slack(n + 1) == Slack(n) + TOLERANCE
  {
  }

  ghost predicate IsSimilarity<T(!new)>(sim: (T, T) -> real) {
    forall x, y :: 0.0 <= sim(x, y) <= 1.0
  }

  // ----- the corridor -----

  /** Python's `round` of the rational x / d: to nearest, ties to even. */
  function RoundHalfEven(x: nat, d: nat): nat
    requires d > 0
  {
    var q, r := x / d, x % d;
    if 2 * r < d then q else if 2 * r > d then q + 1 else if q % 2 == 0 then q else q + 1
  }

  function Centre(i: nat, n: nat, m: nat): nat {
    if n == m then i else if n == 0 then 0 else RoundHalfEven(i * m, n)
  }

  /** `_banded_range`: columns reachable from row `i`, as [lo, hi). */
  function BandedRange(i: nat, n: nat, m: nat, band: nat): (int, int) {
    var centre := Centre(i, n, m);
    (Max(0, centre - band), Min(m, centre + band + 1))
  }

  lemma {:induction false} RoundBounds(x: nat, d: nat)
    requires d > 0
    ensures 2 * x - d <= 2 * (d * RoundHalfEven(x, d)) <= 2 * x + d
  {
    var q, r := x / d, x % d;
    assert x == d * q + r;
    assert d * (q + 1) == d * q + d;
  }

  lemma {:induction false} MulMonotone(d: nat, a: int, b: int)
    ensures a <= b ==> d * a <= d * b
  {
  }

  lemma {:induction false} RoundMonotone(x: nat, y: nat, d: nat)
    requires d > 0 && x <= y
    ensures RoundHalfEven(x, d) <= RoundHalfEven(y, d)
  {
    DivMonotone(x, y, d);
  }

  lemma {:induction false} DivMonotone(x: nat, y: nat, d: nat)
    requires d > 0 && x <= y
    ensures x / d < y / d || (x / d == y / d && x % d <= y % d)
  {
    var p, q := x / d, y / d;
    assert x == d * p + x % d && y == d * q + y % d;
    MulMonotone(d, q + 1, p);
    assert d * (q + 1) == d * q + d;
  }

  lemma {:induction false} CentreGap(n: nat, a: int, b: int, x: int, m: nat, e: nat)
    requires 0 < n && m <= n + e
    requires 2 * x - n <= 2 * (n * a) && 2 * (n * b) <= 2 * (x + m) + n
    ensures b - a <= e + 2
  {
    MulMonotone(n, e + 3 + a, b);
    assert n * (e + 3 + a) == n * e + 3 * n + n * a;
    assert n * e >= e by { MulMonotone(e, 1, n); }
  }

  /** From one row to the next the centre never goes back, and never jumps by
      more than the band plus two. */
  lemma {:induction false} CentreStep(i: nat, n: nat, m: nat, e: nat)
    requires i < n && m - n <= e
    ensures Centre(i, n, m) <= Centre(i + 1, n, m) <= Centre(i, n, m) + e + 2
  {
    if n != m {
      var x := i * m;
      assert (i + 1) * m == x + m;
      RoundMonotone(x, x + m, n);
      RoundBounds(x, n);
      RoundBounds(x + m, n);
      CentreGap(n, RoundHalfEven(x, n), RoundHalfEven(x + m, n), x, m, e);
    }
  }

  lemma {:induction false} RoundExact(m: nat, n: nat)
    requires n > 0
    ensures RoundHalfEven(n * m, n) == m
  {
    var x, p := n * m, (n * m) / n;
    assert x == n * p + x % n;
    assert n * (p + 1) == n * p + n && n * (m + 1) == n * m + n;
    MulMonotone(n, p + 1, m);
    MulMonotone(n, m + 1, p);
  }

  lemma {:induction false} CentreEnds(n: nat, m: nat)
    ensures Centre(0, n, m) == 0
    ensures n > 0 ==> Centre(n, n, m) == m
  {
    if n > 0 {
      RoundExact(m, n);
      RoundExact(0, n);
    }
  }

  // ----- the table -----

  /** A table entry: the source's float, with `inf` kept apart. */
  datatype Cost = Inf | Fin(v: real)

  function Plus(c: Cost, x: real): Cost {
    if c.Inf? then Inf else Fin(c.v + x)
  }

  predicate Less(a: Cost, b: Cost) {
    a.Fin? && (b.Inf? || a.v < b.v)
  }

  function Best(a: Cost, b: Cost): Cost {
    if Less(b, a) then b else a
  }

  /** abs(a - b) < 1e-9, false as soon as one side is infinite. */
  predicate Near(a: Cost, b: Cost) {
    a.Fin? && b.Fin? && AbsReal(a.v - b.v) < TOLERANCE
  }

  /** One correspondence: a match has both indices, a deletion only the source
      one, an insertion only the target one. */
  datatype AlignedPair = AlignedPair(source: Option<nat>, target: Option<nat>, similarity: real)

  datatype Move = Match | Deletion | Insertion

  /** Where a move into (i, j) comes from. */
  function Before(i: nat, j: nat, move: Move): (int, int) {
    match move
    case Match => (i - 1, j - 1)
    case Deletion => (i - 1, j)
    case Insertion => (i, j - 1)
  }

  /** One alignment task: two sequences, the effective band, the similarity. */
  datatype Task<!T(!new)> = Task(source: seq<T>, target: seq<T>, band: nat, sim: (T, T) -> real) {

    ghost predicate Valid() {
      |source| - |target| <= band && |target| - |source| <= band
    }

    /** Row `i` of the table: its first column and the one after its last. */
    function Lo(i: nat): nat {
      Max(0, BandedRange(i, |source|, |target|, band).0 - 1)
    }

    function Hi(i: nat): int {
      Min(|target| + 1, BandedRange(i, |source|, |target|, band).1 + 1)
    }

    predicate In(i: nat, j: nat): (inside: bool)
      ensures inside ==> i <= |source| && j <= |target|
    {
      i <= |source| && Lo(i) <= j < Hi(i)
    }

    /** Rows start at 0, end at the corner, never move back, and overlap. */
    lemma {:induction false} Corridor(i: nat)
      requires Valid() && i <= |source|
      ensures In(0, 0) && In(|source|, |target|) && Hi(i) <= |target| + 1
      ensures Lo(i) < Hi(i)
      ensures i > 0 ==> Lo(i - 1) <= Lo(i) < Hi(i - 1)
    {
      var n, m := |source|, |target|;
      CentreEnds(n, m);
      CentreBound(i);
      if i > 0 {
        CentreStep(i - 1, n, m, band);
        CentreBound(i - 1);
      }
    }

    lemma {:induction false} CentreBound(i: nat)
      requires Valid() && i <= |source|
      ensures Centre(i, |source|, |target|) <= |target|
      decreases |source| - i
    {
      var n, m := |source|, |target|;
      CentreEnds(n, m);
      if i < n {
        CentreStep(i, n, m, band);
        CentreBound(i + 1);
      }
    }

    function Gap(i: nat, j: nat): real
      requires 0 < i <= |source| && 0 < j <= |target|
    {
      2.0 * (1.0 - sim(source[i - 1], target[j - 1]))
    }

    /** What the table holds at (i, j). */
    function Cell(i: nat, j: nat): Cost
      decreases i, j
    {
      if !In(i, j) then Inf
      else if i == 0 then Fin(j as real)
      else if j == 0 then Fin(i as real)
      else Best(Best(Plus(Cell(i - 1, j), 1.0), Plus(Cell(i, j - 1), 1.0)),
                Plus(Cell(i - 1, j - 1), Gap(i, j)))
    }

    lemma {:induction false} CellInside(i: nat, j: nat)
      requires i > 0 && j > 0 && In(i, j)
      ensures Cell(i, j) == Best(Best(Plus(Cell(i - 1, j), 1.0), Plus(Cell(i, j - 1), 1.0)),
                                 Plus(Cell(i - 1, j - 1), Gap(i, j)))
    {
      hide Lo, Hi, Gap;
    }

    /** Every cell of the corridor is finite, and no other. */
    lemma {:induction false} CellFinite(i: nat, j: nat)
      requires Valid()
      ensures Cell(i, j).Fin? <==> In(i, j)
      decreases i, j
    {
      if In(i, j) {
        Corridor(i);
        if i > 0 && j > 0 {
          if j > Lo(i) {
            CellFinite(i, j - 1);
          } else {
            CellFinite(i - 1, j);
          }
        }
      }
    }

    lemma {:induction false} CellUp(i: nat, j: nat)
      requires Valid() && i > 0 && In(i, j) && In(i - 1, j)
      ensures Cell(i, j).Fin? && Cell(i - 1, j).Fin? && Cell(i, j).v <= Cell(i - 1, j).v + 1.0
    {
      CellFinite(i, j);
      CellFinite(i - 1, j);
    }

    lemma {:induction false} CellLeft(i: nat, j: nat)
      requires Valid() && j > 0 && In(i, j) && In(i, j - 1)
      ensures Cell(i, j).Fin? && Cell(i, j - 1).Fin? && Cell(i, j).v <= Cell(i, j - 1).v + 1.0
    {
      CellFinite(i, j);
      CellFinite(i, j - 1);
    }

    lemma {:induction false} CellDiagonal(i: nat, j: nat)
      requires Valid() && i > 0 && j > 0 && In(i, j) && In(i - 1, j - 1)
      ensures Cell(i, j).Fin? && Cell(i - 1, j - 1).Fin? && Cell(i, j).v <= Cell(i - 1, j - 1).v + Gap(i, j)
    {
      CellFinite(i, j);
      CellFinite(i - 1, j - 1);
    }

    // ----- the backtrack -----

    predicate MatchTaken(i: nat, j: nat)
      requires i <= |source| && j <= |target|
    {
      i > 0 && j > 0
      && Near(Cell(i, j), Plus(Cell(i - 1, j - 1), Gap(i, j)))
      && sim(source[i - 1], target[j - 1]) > 0.0
    }

    predicate DeletionTaken(i: nat, j: nat) {
      i > 0 && Near(Cell(i, j), Plus(Cell(i - 1, j), 1.0))
    }

    /** The backtrack's choice at (i, j): a match needs evidence, a tie goes to
        the deletion, everything else is an insertion. */
    function MoveAt(i: nat, j: nat): Move
      requires i <= |source| && j <= |target|
    {
      if MatchTaken(i, j) then Match else if DeletionTaken(i, j) then Deletion else Insertion
    }

    function StepCost(i: nat, j: nat, move: Move): real
      requires i <= |source| && j <= |target| && (move.Match? ==> i > 0 && j > 0)
    {
      if move.Match? then Gap(i, j) else 1.0
    }

    /** Whatever the tie rule picks, the move stays in the corridor and above
        index 0, and pays for itself up to the tolerance. */
    lemma {:induction false} MoveSound(i: nat, j: nat)
      requires Valid() && In(i, j) && i + j > 0 && IsSimilarity(sim)
      ensures Pays(i, j, MoveAt(i, j))
    {
      hide Cell, Lo, Hi, Gap;
      if i == 0 || j == 0 {
        BorderMove(i, j);
      } else {
        CellFinite(i, j);
        CellFinite(i - 1, j);
        CellFinite(i - 1, j - 1);
        if MoveAt(i, j).Insertion? {
          InsertionForced(i, j);
        }
      }
    }

    ghost predicate Pays(i: nat, j: nat, move: Move)
      requires In(i, j)
    {
      var (pi, pj) := Before(i, j, move);
      && pi >= 0 && pj >= 0 && In(pi, pj)
      && Cell(i, j).Fin? && Cell(pi, pj).Fin?
      && AbsReal(Cell(i, j).v - (Cell(pi, pj).v + StepCost(i, j, move))) < TOLERANCE
    }

    lemma {:induction false} BorderMove(i: nat, j: nat)
      requires Valid() && In(i, j) && i + j > 0 && (i == 0 || j == 0)
      ensures Pays(i, j, MoveAt(i, j)) && !MoveAt(i, j).Match?
      ensures i == 0 ==> MoveAt(i, j).Insertion? && Cell(i, j) == Plus(Cell(i, j - 1), 1.0)
      ensures j == 0 ==> MoveAt(i, j).Deletion? && Cell(i, j) == Plus(Cell(i - 1, j), 1.0)
    {
      Corridor(i);
    }

    /** When no match and no deletion explains a cell, an insertion does,
        exactly: a match refused for lack of evidence costs two gaps, and the
        overlap of consecutive rows leaves room for both of them. */
    lemma {:induction false} InsertionForced(i: nat, j: nat)
      requires Valid() && i > 0 && j > 0 && In(i, j) && IsSimilarity(sim)
      requires !MatchTaken(i, j) && !DeletionTaken(i, j)
      ensures In(i, j - 1) && Cell(i, j) == Plus(Cell(i, j - 1), 1.0)
    {
      Corridor(i);
      CellFinite(i, j);
      CellFinite(i - 1, j);
      CellFinite(i, j - 1);
      CellFinite(i - 1, j - 1);
      if In(i - 1, j - 1) {
        TwoGaps(i, j);
      }
    }

    /** Next to a diagonal step there is always room for two gaps. */
    lemma {:induction false} TwoGaps(i: nat, j: nat)
      requires Valid() && i > 0 && j > 0 && In(i, j) && In(i - 1, j - 1)
      ensures In(i - 1, j) || In(i, j - 1)
      ensures Cell(i - 1, j - 1).Fin?
      ensures In(i - 1, j) ==> Cell(i - 1, j).Fin? && Cell(i - 1, j).v <= Cell(i - 1, j - 1).v + 1.0
      ensures In(i, j - 1) ==> Cell(i, j - 1).Fin? && Cell(i, j - 1).v <= Cell(i - 1, j - 1).v + 1.0
    {
      hide Cell, Lo, Hi;
      CellFinite(i - 1, j - 1);
      RowsOverlap(i, j);
      if In(i - 1, j) { CellLeft(i - 1, j); }
      if In(i, j - 1) { CellUp(i, j - 1); }
    }

    lemma {:induction false} RowsOverlap(i: nat, j: nat)
      requires Valid() && i > 0 && j > 0 && In(i, j) && In(i - 1, j - 1)
      ensures In(i - 1, j) || In(i, j - 1)
    {
      hide Cell, Lo, Hi;
      Corridor(i);
    }

    /** The pairs the backtrack lists for the prefixes of lengths i and j. */
    ghost function Trace(i: nat, j: nat): seq<AlignedPair>
      requires Valid() && In(i, j) && IsSimilarity(sim)
      decreases i + j
    {
      if i + j == 0 then []
      else
        MoveSound(i, j);
        var move := MoveAt(i, j);
        var (pi, pj) := Before(i, j, move);
        Trace(pi, pj) + [PairAt(i, j, move)]
    }

    function PairAt(i: nat, j: nat, move: Move): AlignedPair
      requires i <= |source| && j <= |target| && Before(i, j, move).0 >= 0 && Before(i, j, move).1 >= 0
    {
      match move
      case Match => AlignedPair(Some(i - 1), Some(j - 1), sim(source[i - 1], target[j - 1]))
      case Deletion => AlignedPair(Some(i - 1), None, 0.0)
      case Insertion => AlignedPair(None, Some(j - 1), 0.0)
    }

    /** Whether the walk back from (i, j) meets the corridor's edge, away from
        the first and last columns. */
    ghost predicate Touches(i: nat, j: nat)
      requires Valid() && In(i, j) && IsSimilarity(sim)
      decreases i + j
    {
      i + j > 0 &&
        (MoveSound(i, j);
         AtEdge(i, j) || var (pi, pj) := Before(i, j, MoveAt(i, j)); Touches(pi, pj))
    }

    predicate AtEdge(i: nat, j: nat) {
      (j <= Lo(i) || j >= Hi(i) - 1) && 0 < j < |target|
    }

    // ----- alignments in general -----

    /** `w` aligns the first i source tokens with the first j target tokens,
        one move after the other. */
    ghost predicate Aligns(w: seq<AlignedPair>, i: nat, j: nat)
      requires i <= |source| && j <= |target|
    {
      if w == [] then i == 0 && j == 0
      else
        var last := w[|w| - 1];
        var (pi, pj) := Before(i, j, Shape(last));
        pi >= 0 && pj >= 0 && last == PairAt(i, j, Shape(last)) && Aligns(w[..|w| - 1], pi, pj)
    }

    /** The walk of `w` stays inside the corridor. */
    ghost predicate Inside(w: seq<AlignedPair>, i: nat, j: nat)
      requires i <= |source| && j <= |target| && Aligns(w, i, j)
    {
      In(i, j) &&
      (w != [] ==> var (pi, pj) := Before(i, j, Shape(w[|w| - 1])); Inside(w[..|w| - 1], pi, pj))
    }

    /** The same thing without moves: no pair is empty, the source indices are
        0, 1, ..., i - 1 in order, the target ones 0, 1, ..., j - 1, a match
        carries the similarity of its tokens and a gap carries 0. */
    ghost predicate Lists(w: seq<AlignedPair>, i: nat, j: nat)
      requires i <= |source| && j <= |target|
    {
      && Sources(w) == Iota(i) && Targets(w) == Iota(j)
      && forall k | 0 <= k < |w| :: Rated(w[k])
    }

    ghost predicate Rated(p: AlignedPair) {
      match (p.source, p.target)
      case (Some(a), Some(b)) => a < |source| && b < |target| && p.similarity == sim(source[a], target[b])
      case (None, None) => false
      case _ => p.similarity == 0.0
    }

    /** The two readings of an alignment are one. */
    lemma {:induction false} AlignsIffLists(w: seq<AlignedPair>, i: nat, j: nat)
      requires i <= |source| && j <= |target|
      ensures Aligns(w, i, j) <==> Lists(w, i, j)
    {
      if Aligns(w, i, j) { AlignsLists(w, i, j); }
      if Lists(w, i, j) { ListsAligns(w, i, j); }
    }

    lemma {:induction false} AlignsLists(w: seq<AlignedPair>, i: nat, j: nat)
      requires i <= |source| && j <= |target| && Aligns(w, i, j)
      ensures Lists(w, i, j)
      decreases |w|
    {
      if w != [] {
        var last, front := w[|w| - 1], w[..|w| - 1];
        var (pi, pj) := Before(i, j, Shape(last));
        AlignsLists(front, pi, pj);
        if i > 0 { IotaSnoc(i - 1); }
        if j > 0 { IotaSnoc(j - 1); }
        forall k | 0 <= k < |w| ensures Rated(w[k]) {
          if k < |front| { assert w[k] == front[k]; }
        }
      }
    }

    lemma {:induction false} ListsAligns(w: seq<AlignedPair>, i: nat, j: nat)
      requires i <= |source| && j <= |target| && Lists(w, i, j)
      ensures Aligns(w, i, j)
      decreases |w|
    {
      if w == [] {
        assert |Iota(i)| == 0 && |Iota(j)| == 0;
      } else {
        ListsBackward(w, i, j);
        var (pi, pj) := Before(i, j, Shape(w[|w| - 1]));
        ListsAligns(w[..|w| - 1], pi, pj);
      }
    }

    lemma {:induction false} ListsBackward(w: seq<AlignedPair>, i: nat, j: nat)
      requires i <= |source| && j <= |target| && w != [] && Lists(w, i, j)
      ensures var (pi, pj) := Before(i, j, Shape(w[|w| - 1]));
        pi >= 0 && pj >= 0 && w[|w| - 1] == PairAt(i, j, Shape(w[|w| - 1])) && Lists(w[..|w| - 1], pi, pj)
    {
      var last, front := w[|w| - 1], w[..|w| - 1];
      assert Rated(last);
      assert forall k | 0 <= k < |front| :: front[k] == w[k];
      if last.source.Some? {
        assert Sources(w)[i - 1] == i - 1;
        assert Sources(front) == Sources(w)[..i - 1] == Iota(i - 1);
      }
      if last.target.Some? {
        assert Targets(w)[j - 1] == j - 1;
        assert Targets(front) == Targets(w)[..j - 1] == Iota(j - 1);
      }
    }

    // ----- what the table and the backtrack are worth -----

    /** No alignment inside the corridor is cheaper than the table says. */
    lemma {:induction false} CellIsLowerBound(w: seq<AlignedPair>, i: nat, j: nat)
      requires Valid() && i <= |source| && j <= |target| && Aligns(w, i, j) && Inside(w, i, j)
      ensures Cell(i, j).Fin? && Cell(i, j).v <= TotalCost(w)
      decreases |w|
    {
      CellFinite(i, j);
      if w != [] {
        var last, front := w[|w| - 1], w[..|w| - 1];
        var (pi, pj) := Before(i, j, Shape(last));
        CellIsLowerBound(front, pi, pj);
        match Shape(last) {
          case Match => CellDiagonal(i, j);
          case Deletion => CellUp(i, j);
          case Insertion => CellLeft(i, j);
        }
      }
    }

    /** Some alignment inside the corridor costs exactly what the table says. */
    lemma {:induction false} CellIsReached(i: nat, j: nat) returns (w: seq<AlignedPair>)
      requires Valid() && In(i, j)
      ensures Aligns(w, i, j) && Inside(w, i, j) && Cell(i, j) == Fin(TotalCost(w))
      decreases i + j
    {
      Corridor(i);
      CellFinite(i, j);
      if i + j == 0 { return []; }
      var move := ExactMove(i, j);
      var (pi, pj) := Before(i, j, move);
      var front := CellIsReached(pi, pj);
      Extend(front, pi, pj, i, j, move);
      w := front + [PairAt(i, j, move)];
    }

    lemma {:induction false} ExactMove(i: nat, j: nat) returns (move: Move)
      requires Valid() && In(i, j) && i + j > 0
      ensures var (pi, pj) := Before(i, j, move);
        pi >= 0 && pj >= 0 && In(pi, pj) && Cell(pi, pj).Fin?
        && Cell(i, j) == Plus(Cell(pi, pj), StepCost(i, j, move))
    {
      hide Cell, Lo, Hi, Gap, MoveAt;
      if i == 0 || j == 0 {
        BorderMove(i, j);
        move := MoveAt(i, j);
      } else {
        CellFinite(i, j);
        CellFinite(i - 1, j);
        CellFinite(i, j - 1);
        CellFinite(i - 1, j - 1);
        CellInside(i, j);
        move :=
          if Cell(i, j) == Plus(Cell(i - 1, j), 1.0) then Deletion
          else if Cell(i, j) == Plus(Cell(i, j - 1), 1.0) then Insertion
          else Match;
      }
    }

    lemma {:induction false} TraceStep(i: nat, j: nat) returns (pi: nat, pj: nat)
      requires Valid() && In(i, j) && IsSimilarity(sim) && i + j > 0
      ensures var move := MoveAt(i, j);
        && (pi, pj) == Before(i, j, move) && In(pi, pj) && pi + pj < i + j
        && Trace(i, j) == Trace(pi, pj) + [PairAt(i, j, move)]
        && (move.Match? ==> Gap(i, j) < 2.0)
        && Pays(i, j, move)
    {
      MoveSound(i, j);
      pi, pj := Before(i, j, MoveAt(i, j)).0, Before(i, j, MoveAt(i, j)).1;
    }

    /** One turn of the backtrack's loop. */
    lemma {:induction false} BackStep(i: nat, j: nat) returns (pi: nat, pj: nat)
      requires Valid() && In(i, j) && IsSimilarity(sim) && i + j > 0
      ensures var move := MoveAt(i, j);
        && (pi, pj) == Before(i, j, move) && In(pi, pj) && pi + pj < i + j
        && Trace(i, j) == Trace(pi, pj) + [PairAt(i, j, move)]
        && Touches(i, j) == (AtEdge(i, j) || Touches(pi, pj))
        && move.Match? == MatchTaken(i, j)
        && move.Deletion? == (!MatchTaken(i, j) && DeletionTaken(i, j))
    {
      pi, pj := TraceStep(i, j);
    }

    lemma {:induction false} TraceEnds()
      requires Valid() && In(0, 0) && IsSimilarity(sim)
      ensures Trace(0, 0) == [] && !Touches(0, 0)
    {
    }

    lemma {:induction false} InRange(w: seq<AlignedPair>, i: nat, j: nat)
      requires i <= |source| && j <= |target| && Aligns(w, i, j)
      ensures forall k | 0 <= k < |w| && w[k].source.Some? :: w[k].source.value < i
      ensures forall k | 0 <= k < |w| && w[k].target.Some? :: w[k].target.value < j
      decreases |w|
    {
      if w != [] {
        var front := w[..|w| - 1];
        var (pi, pj) := Before(i, j, Shape(w[|w| - 1]));
        InRange(front, pi, pj);
        assert forall k | 0 <= k < |front| :: w[k] == front[k];
      }
    }

    /** The backtrack lists an alignment inside the corridor, in at most i + j
        steps, and matches only on evidence. */
    lemma {:induction false} TraceIsAlignment(i: nat, j: nat)
      requires Valid() && In(i, j) && IsSimilarity(sim)
      ensures var w := Trace(i, j);
        |w| <= i + j && Aligns(w, i, j) && Inside(w, i, j) && Evidence(w)
      decreases i + j
    {
      hide Cell, Lo, Hi;
      if i + j > 0 {
        var pi, pj := TraceStep(i, j);
        TraceIsAlignment(pi, pj);
        Extend(Trace(pi, pj), pi, pj, i, j, MoveAt(i, j));
      }
    }

    /** Its cost drifts from the table by less than the tolerance a step. */
    lemma {:induction false} TraceCost(i: nat, j: nat)
      requires Valid() && In(i, j) && IsSimilarity(sim)
      ensures Cell(i, j).Fin? && AbsReal(TotalCost(Trace(i, j)) - Cell(i, j).v) <= Slack(|Trace(i, j)|)
      decreases i + j
    {
      hide Cell, Lo, Hi, Slack, MoveAt, Gap, Aligns, Inside;
      if i + j == 0 {
        OriginCost();
      } else {
        var pi, pj := TraceStep(i, j);
        TraceCost(pi, pj);
        var front, move := Trace(pi, pj), MoveAt(i, j);
        CostSnoc(front, PairAt(i, j, move));
        GapCost(i, j, move);
        SlackStep(|front|);
        Drift(Cell(i, j).v, Cell(pi, pj).v, StepCost(i, j, move), TotalCost(front), Slack(|front|));
      }
    }

    lemma {:induction false} OriginCost()
      requires Valid() && In(0, 0)
      ensures Cell(0, 0) == Fin(0.0) && Slack(0) == 0.0
    {
    }

    lemma {:induction false} GapCost(i: nat, j: nat, move: Move)
      requires i <= |source| && j <= |target| && Before(i, j, move).0 >= 0 && Before(i, j, move).1 >= 0
      ensures var p := PairAt(i, j, move);
        StepCost(i, j, move) == if Shape(p).Match? then 2.0 * (1.0 - p.similarity) else 1.0
    {
    }

    lemma {:induction false} Extend(front: seq<AlignedPair>, pi: nat, pj: nat, i: nat, j: nat, move: Move)
      requires i <= |source| && j <= |target| && (pi, pj) == Before(i, j, move)
      requires Aligns(front, pi, pj) && Inside(front, pi, pj) && In(i, j)
      ensures var w := front + [PairAt(i, j, move)];
        && Aligns(w, i, j) && Inside(w, i, j)
        && TotalCost(w) == TotalCost(front) + StepCost(i, j, move)
        && (Evidence(front) && (move.Match? ==> Gap(i, j) < 2.0) ==> Evidence(w))
    {
      var w := front + [PairAt(i, j, move)];
      assert w[..|w| - 1] == front && w[|w| - 1] == PairAt(i, j, move);
    }
  }

  function Shape(p: AlignedPair): Move {
    if p.source.Some? && p.target.Some? then Match else if p.source.Some? then Deletion else Insertion
  }

  function Sources(w: seq<AlignedPair>): seq<nat> {
    if w == [] then []
    else Sources(w[..|w| - 1]) + (if w[|w| - 1].source.Some? then [w[|w| - 1].source.value] else [])
  }

  function Targets(w: seq<AlignedPair>): seq<nat> {
    if w == [] then []
    else Targets(w[..|w| - 1]) + (if w[|w| - 1].target.Some? then [w[|w| - 1].target.value] else [])
  }

  /** Gaps cost one each, a match twice what its similarity lacks. */
  function TotalCost(w: seq<AlignedPair>): real {
    if w == [] then 0.0
    else TotalCost(w[..|w| - 1])
         + if Shape(w[|w| - 1]).Match? then 2.0 * (1.0 - w[|w| - 1].similarity) else 1.0
  }

  lemma {:induction false} CostSnoc(w: seq<AlignedPair>, p: AlignedPair)
    ensures TotalCost(w + [p])
         == TotalCost(w) + if Shape(p).Match? then 2.0 * (1.0 - p.similarity) else 1.0
  {
    assert (w + [p])[..|w + [p]| - 1] == w;
  }

  lemma {:induction false} Drift(cell: real, before: real, step: real, total: real, slack: real)
    requires AbsReal(cell - (before + step)) < TOLERANCE && AbsReal(total - before) <= slack
    ensures AbsReal(total + step - cell) <= slack + TOLERANCE
  {
  }

  /** No correspondence rides a zero-evidence match. */
  ghost predicate Evidence(w: seq<AlignedPair>) {
    forall k | 0 <= k < |w| && Shape(w[k]).Match? :: w[k].similarity > 0.0
  }

  // ----- filling the table -----

  ghost predicate RowHolds<T(!new)>(t: Task<T>, i: nat, row: seq<Cost>, upTo: int) {
    && |row| == t.Hi(i) - t.Lo(i)
    && forall j: nat | t.Lo(i) <= j < upTo && j < t.Hi(i) :: row[j - t.Lo(i)] == t.Cell(i, j)
  }

  /** `_fill_cost_band`: one row per source token, holding only the corridor. */
  method FillCostBand<T(!new)>(t: Task<T>) returns (cost: seq<seq<Cost>>, lo: seq<nat>, hi: seq<int>)
    requires t.Valid()
    ensures Filled(t, cost, lo, hi)
  {
    hide Task.Lo, Task.Hi, Task.Cell;
    var n, m := |t.source|, |t.target|;
    cost, lo, hi := [], [], [];
    for i := 0 to n + 1
      invariant |cost| == |lo| == |hi| == i
      invariant forall k | 0 <= k < i :: lo[k] == t.Lo(k) && hi[k] == t.Hi(k) && |cost[k]| == hi[k] - lo[k]
    {
      var (rowLo, rowHi) := BandedRange(i, n, m, t.band);
      RowBounds(t, i);
      rowLo, rowHi := Max(0, rowLo - 1), Min(m + 1, rowHi + 1);
      lo, hi := lo + [rowLo], hi + [rowHi];
      cost := cost + [seq(rowHi - rowLo, _ => Inf)];
    }
    var row, off := cost[0], lo[0];
    for j := off to hi[0]
      invariant RowHolds(t, 0, row, j)
    {
      CellAt(t, 0, j);
      row := row[j - off := Fin(j as real)];
    }
    cost := cost[0 := row];
    for i := 1 to n + 1
      invariant |cost| == n + 1
      invariant forall k | 0 <= k < i :: RowHolds(t, k, cost[k], t.Hi(k))
      invariant forall k | i <= k <= n :: |cost[k]| == hi[k] - lo[k]
    {
      var row' := FillRow(t, i, cost[i - 1], cost[i], lo, hi);
      cost := cost[i := row'];
    }
  }

  /** The inner loop of `_fill_cost_band`: one row from the row before it. */
  method FillRow<T(!new)>(t: Task<T>, i: nat, prev: seq<Cost>, blank: seq<Cost>, lo: seq<nat>, hi: seq<int>)
    returns (row: seq<Cost>)
    requires t.Valid() && 0 < i <= |t.source| && |lo| == |hi| == |t.source| + 1
    requires forall k | 0 <= k <= |t.source| :: lo[k] == t.Lo(k) && hi[k] == t.Hi(k)
    requires RowHolds(t, i - 1, prev, t.Hi(i - 1)) && |blank| == t.Hi(i) - t.Lo(i)
    ensures RowHolds(t, i, row, t.Hi(i))
  {
    hide Task.Lo, Task.Hi, Task.Cell;
    row := blank;
    var off, upper := lo[i], hi[i];
    var prevOff, prevHi := lo[i - 1], hi[i - 1];
    RowBounds(t, i);
    for j := off to upper
      invariant RowHolds(t, i, row, j)
    {
      CellAt(t, i, j);
      if j == 0 {
        row := row[0 - off := Fin(i as real)];
      } else {
        CellOutside(t, i - 1, j);
        CellOutside(t, i, j - 1);
        CellOutside(t, i - 1, j - 1);
        var best := Inf;
        if prevOff <= j < prevHi {
          best := Plus(prev[j - prevOff], 1.0);
        }
        if off <= j - 1 < upper {
          var left := Plus(row[j - 1 - off], 1.0);
          if Less(left, best) { best := left; }
        }
        if prevOff <= j - 1 < prevHi {
          var diag := prev[j - 1 - prevOff];
          if diag != Inf {
            diag := Plus(diag, 2.0 * (1.0 - t.sim(t.source[i - 1], t.target[j - 1])));
            if Less(diag, best) { best := diag; }
          }
        }
        row := row[j - off := best];
      }
    }
  }

  lemma {:induction false} RowBounds<T(!new)>(t: Task<T>, i: nat)
    requires t.Valid() && i <= |t.source|
    ensures t.Lo(i) < t.Hi(i) <= |t.target| + 1
    ensures t.Lo(i) == Max(0, BandedRange(i, |t.source|, |t.target|, t.band).0 - 1)
    ensures t.Hi(i) == Min(|t.target| + 1, BandedRange(i, |t.source|, |t.target|, t.band).1 + 1)
    ensures t.Lo(0) == 0
  {
    t.Corridor(i);
  }

  lemma {:induction false} CellAt<T(!new)>(t: Task<T>, i: nat, j: nat)
    requires t.Valid() && t.In(i, j)
    ensures i == 0 ==> t.Cell(i, j) == Fin(j as real)
    ensures j == 0 ==> t.Cell(i, j) == Fin(i as real)
    ensures i > 0 && j > 0 ==>
      t.Cell(i, j) == Best(Best(Plus(t.Cell(i - 1, j), 1.0), Plus(t.Cell(i, j - 1), 1.0)),
                           Plus(t.Cell(i - 1, j - 1), 2.0 * (1.0 - t.sim(t.source[i - 1], t.target[j - 1]))))
  {
  }

  lemma {:induction false} CellOutside<T(!new)>(t: Task<T>, i: nat, j: nat)
    requires t.Valid()
    ensures !t.In(i, j) ==> t.Cell(i, j) == Inf
  {
  }

  /** The backtrack's `get`: everything outside the corridor is unreachable. */
  function Get(cost: seq<seq<Cost>>, lo: seq<nat>, hi: seq<int>, i: nat, j: nat): Cost
    requires |cost| == |lo| == |hi| && i < |cost| && |cost[i]| == hi[i] - lo[i]
  {
    if j < lo[i] || j >= hi[i] then Inf else cost[i][j - lo[i]]
  }

  // ----- the whole alignment -----

  function MatchedSum(w: seq<AlignedPair>): real {
    if w == [] then 0.0
    else MatchedSum(w[..|w| - 1]) + if Shape(w[|w| - 1]).Match? then w[|w| - 1].similarity else 0.0
  }

  function Effective(n: nat, m: nat, band: Option<int>): nat {
    if band.Some? then Max(band.value, Abs(n - m)) else Max(n, m)
  }

  function TaskOf<T(!new)>(source: seq<T>, target: seq<T>, band: Option<int>, sim: (T, T) -> real): (t: Task<T>)
    ensures t.Valid()
  {
    Task(source, target, Effective(|source|, |target|, band), sim)
  }

  /** `align_tokens`. */
  method AlignTokens<T(!new)>(source: seq<T>, target: seq<T>, band: Option<int>, sim: (T, T) -> real)
    returns (pairs: seq<AlignedPair>, score: real, moveSuspected: bool, bandExhausted: bool)
    requires IsSimilarity(sim)
    ensures var t := TaskOf(source, target, band, sim); var n, m := |source|, |target|;
      && t.In(n, m)
      && pairs == t.Trace(n, m)
      && score == Score(pairs, n, m)
      && bandExhausted == (band.Some? && t.Touches(n, m))
      && moveSuspected == Suspect(t, pairs)
  {
    hide Task.Trace, Task.Touches, MatchedSum, Suspect;
    var n, m := |source|, |target|;
    var t := TaskOf(source, target, band, sim);
    var cost, lo, hi := FillCostBand(t);
    t.Corridor(n);
    pairs, bandExhausted := Backtrack(t, cost, lo, hi, band.Some?);
    score := MatchedSum(pairs) / Max(Max(n, m), 1) as real;
    t.TraceIsAlignment(n, m);
    t.InRange(pairs, n, m);
    moveSuspected := SuspectMove(t, pairs);
  }

  /** The backtrack of `align_tokens`, from the far corner to (0, 0). */
  method Backtrack<T(!new)>(t: Task<T>, cost: seq<seq<Cost>>, lo: seq<nat>, hi: seq<int>, banded: bool)
    returns (pairs: seq<AlignedPair>, bandExhausted: bool)
    requires t.Valid() && IsSimilarity(t.sim) && t.In(|t.source|, |t.target|) && t.In(0, 0)
    requires Filled(t, cost, lo, hi)
    ensures pairs == t.Trace(|t.source|, |t.target|)
    ensures bandExhausted == (banded && t.Touches(|t.source|, |t.target|))
  {
    hide Task.Lo, Task.Hi, Task.Cell, Task.Trace, Task.Touches, Task.MoveAt, Filled, Reverse;
    var n, m := |t.source|, |t.target|;
    t.TraceEnds();
    pairs, bandExhausted := [], false;
    var i: nat, j: nat := n, m;
    while i > 0 || j > 0
      invariant t.In(i, j)
      invariant t.Trace(n, m) == t.Trace(i, j) + Reverse(pairs)
      invariant (banded && t.Touches(n, m)) == (bandExhausted || (banded && t.Touches(i, j)))
      decreases i + j
    {
      GetsAre(t, cost, lo, hi, i, j);
      if banded && (j <= lo[i] || j >= hi[i] - 1) && 0 < j < m {
        bandExhausted := true;
      }
      var pi, pj := t.BackStep(i, j);
      ghost var before := t.Trace(pi, pj);
      var next;
      next, i, j := ChooseMove(t, cost, lo, hi, i, j);
      PairMoves(before, next, pairs);
      pairs := pairs + [next];
    }
    pairs := Reverse(pairs);
    assert [] + pairs == pairs;
  }

  /** One turn of the loop: prefer a match, then a deletion, then an insertion,
      except that a zero-similarity match never wins. */
  method ChooseMove<T(!new)>(t: Task<T>, cost: seq<seq<Cost>>, lo: seq<nat>, hi: seq<int>, i: nat, j: nat)
    returns (next: AlignedPair, i': nat, j': nat)
    requires t.Valid() && IsSimilarity(t.sim) && t.In(i, j) && i + j > 0
    requires Filled(t, cost, lo, hi)
    ensures (i', j') == Before(i, j, t.MoveAt(i, j)) && next == t.PairAt(i, j, t.MoveAt(i, j))
  {
    hide Task.Lo, Task.Hi, Task.Cell, Filled;
    var pi, pj := t.BackStep(i, j);
    GetsAre(t, cost, lo, hi, i, j);
    var here := Get(cost, lo, hi, i, j);
    if i > 0 && j > 0 {
      var similarity := t.sim(t.source[i - 1], t.target[j - 1]);
      var sub := Plus(Get(cost, lo, hi, i - 1, j - 1), 2.0 * (1.0 - similarity));
      if Near(here, sub) && similarity > 0.0 {
        return AlignedPair(Some(i - 1), Some(j - 1), similarity), i - 1, j - 1;
      }
    }
    if i > 0 && Near(here, Plus(Get(cost, lo, hi, i - 1, j), 1.0)) {
      return AlignedPair(Some(i - 1), None, 0.0), i - 1, j;
    }
    next, i', j' := AlignedPair(None, Some(j - 1), 0.0), i, j - 1;
  }

  ghost predicate Filled<T(!new)>(t: Task<T>, cost: seq<seq<Cost>>, lo: seq<nat>, hi: seq<int>) {
    && |cost| == |lo| == |hi| == |t.source| + 1
    && forall i | 0 <= i <= |t.source| :: lo[i] == t.Lo(i) && hi[i] == t.Hi(i) && RowHolds(t, i, cost[i], t.Hi(i))
  }

  lemma {:induction false} GetsAre<T(!new)>(t: Task<T>, cost: seq<seq<Cost>>, lo: seq<nat>, hi: seq<int>, i: nat, j: nat)
    requires t.Valid() && i <= |t.source| && j <= |t.target| && Filled(t, cost, lo, hi)
    ensures |cost| == |lo| == |hi| == |t.source| + 1
    ensures lo[i] == t.Lo(i) && hi[i] == t.Hi(i) && |cost[i]| == hi[i] - lo[i]
    ensures Get(cost, lo, hi, i, j) == t.Cell(i, j)
    ensures i > 0 ==> |cost[i - 1]| == hi[i - 1] - lo[i - 1] && Get(cost, lo, hi, i - 1, j) == t.Cell(i - 1, j)
    ensures i > 0 && j > 0 ==> Get(cost, lo, hi, i - 1, j - 1) == t.Cell(i - 1, j - 1)
  {
    hide Task.Lo, Task.Hi, Task.Cell;
    GetIsCell(t, cost, lo, hi, i, j);
    if i > 0 { GetIsCell(t, cost, lo, hi, i - 1, j); }
    if i > 0 && j > 0 { GetIsCell(t, cost, lo, hi, i - 1, j - 1); }
  }

  lemma {:induction false} ReverseSnoc<T>(s: seq<T>, x: T)
    ensures Reverse(s + [x]) == [x] + Reverse(s)
  {
  }

  /** What leaves the front of the trace goes to the back of the list. */
  lemma {:induction false} PairMoves<T>(before: seq<T>, next: T, s: seq<T>)
    ensures before + [next] + Reverse(s) == before + Reverse(s + [next])
  {
    hide Reverse;
    ReverseSnoc(s, next);
  }

  lemma {:induction false} GetIsCell<T(!new)>(t: Task<T>, cost: seq<seq<Cost>>, lo: seq<nat>, hi: seq<int>, i: nat, j: nat)
    requires t.Valid() && i <= |t.source| && Filled(t, cost, lo, hi)
    ensures |cost[i]| == hi[i] - lo[i] && Get(cost, lo, hi, i, j) == t.Cell(i, j)
  {
    hide Task.Lo, Task.Hi, Task.Cell;
    CellOutside(t, i, j);
  }

  // ----- the move flag -----

  /** A source token the alignment did not settle, with a near-identical twin
      at another target index inside the corridor. */
  ghost predicate Suspect<T(!new)>(t: Task<T>, pairs: seq<AlignedPair>) {
    exists k :: 0 <= k < |pairs| && Unsettled(t, pairs[k]) && exists j :: Twin(t, pairs[k], j)
  }

  predicate Unsettled<T(!new)>(t: Task<T>, p: AlignedPair) {
    p.source.Some? && p.source.value < |t.source| && !(p.target.Some? && p.similarity >= WEAK_MATCH)
  }

  ghost predicate Twin<T(!new)>(t: Task<T>, p: AlignedPair, j: int)
    requires Unsettled(t, p)
  {
    var (scanLo, scanHi) := BandedRange(p.source.value + 1, |t.source|, |t.target|, t.band);
    0 <= j < |t.target| && scanLo <= j < scanHi && p.target != Some(j)
    && t.sim(t.source[p.source.value], t.target[j]) >= MOVE_SIMILARITY
  }

  /** `_suspect_move`. */
  method SuspectMove<T(!new)>(t: Task<T>, pairs: seq<AlignedPair>) returns (found: bool)
    requires forall k | 0 <= k < |pairs| && pairs[k].source.Some? :: pairs[k].source.value < |t.source|
    ensures found == Suspect(t, pairs)
  {
    hide BandedRange;
    var n, m := |t.source|, |t.target|;
    for k := 0 to |pairs|
      invariant forall k' | 0 <= k' < k && Unsettled(t, pairs[k']) :: forall j :: !Twin(t, pairs[k'], j)
    {
      var p := pairs[k];
      if p.source.None? || (p.target.Some? && p.similarity >= WEAK_MATCH) {
        continue;
      }
      var (scanLo, scanHi) := BandedRange(p.source.value + 1, n, m, t.band);
      var from, to := Max(0, scanLo), Min(m, scanHi);
      var j := from;
      while j < to
        invariant from <= j
        invariant forall j' | from <= j' < j :: !Twin(t, p, j')
      {
        if p.target != Some(j) && t.sim(t.source[p.source.value], t.target[j]) >= MOVE_SIMILARITY {
          assert Twin(t, p, j);
          return true;
        }
        j := j + 1;
      }
      assert forall j' :: !Twin(t, p, j');
    }
    found := false;
  }

  // ----- main results -----

  /** A band at least as wide as both sequences leaves no cell out. */
  lemma {:induction false} FullCorridor<T(!new)>(t: Task<T>, i: nat)
    requires t.Valid() && t.band >= |t.source| && t.band >= |t.target| && i <= |t.source|
    ensures t.Lo(i) == 0 && t.Hi(i) == |t.target| + 1
  {
    t.CentreBound(i);
  }

  lemma {:induction false} FullInside<T(!new)>(t: Task<T>, w: seq<AlignedPair>, i: nat, j: nat)
    requires t.Valid() && t.band >= |t.source| && t.band >= |t.target|
    requires i <= |t.source| && j <= |t.target| && t.Aligns(w, i, j)
    ensures t.Inside(w, i, j)
    decreases |w|
  {
    FullCorridor(t, i);
    if w != [] {
      var (pi, pj) := Before(i, j, Shape(w[|w| - 1]));
      FullInside(t, w[..|w| - 1], pi, pj);
    }
  }

  /** Inside its corridor the backtrack is within the accumulated tolerance of
      the cheapest alignment. */
  lemma {:induction false} BestInsideTheBand<T(!new)>(t: Task<T>, w: seq<AlignedPair>)
    requires t.Valid() && IsSimilarity(t.sim) && t.In(|t.source|, |t.target|)
    requires t.Aligns(w, |t.source|, |t.target|) && t.Inside(w, |t.source|, |t.target|)
    ensures TotalCost(t.Trace(|t.source|, |t.target|)) <= TotalCost(w) + Slack(|t.source| + |t.target|)
  {
    hide t.Cell, t.Lo, t.Hi, t.Aligns, t.Inside, t.Trace, TotalCost, Slack;
    var n, m := |t.source|, |t.target|;
    t.CellIsLowerBound(w, n, m);
    t.TraceCost(n, m);
    t.TraceIsAlignment(n, m);
    SlackMonotone(|t.Trace(n, m)|, n + m);
  }

  lemma {:induction false} SlackMonotone(a: nat, b: nat)
    requires a <= b
    ensures Slack(a) <= Slack(b)
  {
  }

  /** Without a band, `align_tokens` lists every index exactly once in order
      and is optimal among ALL monotone alignments, up to 1e-9 a token. */
  lemma {:induction false} UnbandedIsOptimal<T(!new)>(source: seq<T>, target: seq<T>, sim: (T, T) -> real, w: seq<AlignedPair>)
    requires IsSimilarity(sim)
    ensures var t := TaskOf(source, target, None, sim); var n, m := |source|, |target|;
      && t.In(n, m)
      && t.Lists(t.Trace(n, m), n, m) && Evidence(t.Trace(n, m)) && |t.Trace(n, m)| <= n + m
      && (t.Lists(w, n, m) ==> TotalCost(t.Trace(n, m)) <= TotalCost(w) + Slack(n + m))
  {
    var t, n, m := TaskOf(source, target, None, sim), |source|, |target|;
    t.Corridor(n);
    t.TraceIsAlignment(n, m);
    t.AlignsIffLists(t.Trace(n, m), n, m);
    if t.Lists(w, n, m) {
      t.AlignsIffLists(w, n, m);
      FullInside(t, w, n, m);
      BestInsideTheBand(t, w);
    }
  }

  /** The unbanded table's corner is the minimum over all monotone alignments. */
  lemma {:induction false} CornerIsTheMinimum<T(!new)>(source: seq<T>, target: seq<T>, sim: (T, T) -> real)
    returns (best: seq<AlignedPair>)
    ensures var t := TaskOf(source, target, None, sim); var n, m := |source|, |target|;
      && t.Lists(best, n, m) && t.Cell(n, m) == Fin(TotalCost(best))
      && forall w | t.Lists(w, n, m) :: TotalCost(best) <= TotalCost(w)
  {
    var t, n, m := TaskOf(source, target, None, sim), |source|, |target|;
    t.Corridor(n);
    best := t.CellIsReached(n, m);
    t.AlignsIffLists(best, n, m);
    forall w | t.Lists(w, n, m) ensures TotalCost(best) <= TotalCost(w) {
      t.AlignsIffLists(w, n, m);
      FullInside(t, w, n, m);
      t.CellIsLowerBound(w, n, m);
    }
  }

  /** A band never invents a better reading: whatever it returns is a complete
      monotone alignment, hence costs at least the unbanded optimum. */
  lemma {:induction false} BandNeverBeatsTheOptimum<T(!new)>(source: seq<T>, target: seq<T>, band: int, sim: (T, T) -> real)
    requires IsSimilarity(sim)
    ensures var b, u := TaskOf(source, target, Some(band), sim), TaskOf(source, target, None, sim);
      var n, m := |source|, |target|;
      && b.In(n, m) && b.Lists(b.Trace(n, m), n, m) && |b.Trace(n, m)| <= n + m
      && u.Cell(n, m).Fin? && TotalCost(b.Trace(n, m)) >= u.Cell(n, m).v
  {
    var b, u := TaskOf(source, target, Some(band), sim), TaskOf(source, target, None, sim);
    var n, m := |source|, |target|;
    b.Corridor(n);
    b.TraceIsAlignment(n, m);
    var w := b.Trace(n, m);
    b.AlignsIffLists(w, n, m);
    assert u.Lists(w, n, m) by { ListsIgnoresBand(b, u, w, n, m); }
    u.AlignsIffLists(w, n, m);
    FullInside(u, w, n, m);
    u.CellIsLowerBound(w, n, m);
  }

  lemma {:induction false} ListsIgnoresBand<T(!new)>(t: Task<T>, u: Task<T>, w: seq<AlignedPair>, n: nat, m: nat)
    requires u == t.(band := u.band) && n <= |t.source| && m <= |t.target| && t.Lists(w, n, m)
    ensures u.Lists(w, n, m)
  {
    forall k | 0 <= k < |w| ensures u.Rated(w[k]) {
      assert t.Rated(w[k]);
    }
  }

  /** A band that covers both sequences changes nothing and never reports
      itself exhausted. */
  lemma {:induction false} WideBandIsExact<T(!new)>(source: seq<T>, target: seq<T>, band: int, sim: (T, T) -> real)
    requires IsSimilarity(sim) && band >= |source| && band >= |target|
    ensures var b, u := TaskOf(source, target, Some(band), sim), TaskOf(source, target, None, sim);
      var n, m := |source|, |target|;
      && b.In(n, m) && u.In(n, m)
      && b.Trace(n, m) == u.Trace(n, m) && !b.Touches(n, m)
      && (Suspect(b, b.Trace(n, m)) <==> Suspect(u, u.Trace(n, m)))
  {
    var b, u := TaskOf(source, target, Some(band), sim), TaskOf(source, target, None, sim);
    FullCorridor(b, |source|);
    FullCorridor(u, |source|);
    SameTrace(b, u, |source|, |target|);
    SameSuspect(b, u, b.Trace(|source|, |target|));
  }

  /** The twins of a token are looked for in the same columns. */
  lemma {:induction false} SameSuspect<T(!new)>(t: Task<T>, u: Task<T>, pairs: seq<AlignedPair>)
    requires Full(t) && Full(u) && u == t.(band := u.band)
    ensures Suspect(t, pairs) <==> Suspect(u, pairs)
  {
    hide BandedRange, Task.Valid;
    forall k, j: int | 0 <= k < |pairs| && Unsettled(t, pairs[k])
      ensures Unsettled(u, pairs[k]) && (Twin(t, pairs[k], j) <==> Twin(u, pairs[k], j))
    {
      FullRange(t, pairs[k].source.value + 1);
      FullRange(u, pairs[k].source.value + 1);
    }
    forall k | 0 <= k < |pairs| ensures Unsettled(t, pairs[k]) <==> Unsettled(u, pairs[k]) {}
    hide Twin, Unsettled;
  }

  lemma FullRange<T(!new)>(t: Task<T>, i: nat)
    requires Full(t) && i <= |t.source|
    ensures BandedRange(i, |t.source|, |t.target|, t.band) == (0, |t.target|)
  {
    FullCorridor(t, i);
    t.CentreBound(i);
  }

  ghost predicate Full<T(!new)>(t: Task<T>) {
    t.Valid() && t.band >= |t.source| && t.band >= |t.target|
  }

  lemma {:induction false} SameCell<T(!new)>(t: Task<T>, u: Task<T>, i: nat, j: nat)
    requires Full(t) && Full(u) && u == t.(band := u.band) && i <= |t.source| && j <= |t.target|
    ensures t.Cell(i, j) == u.Cell(i, j)
    decreases i, j
  {
    hide Task.Cell, Task.Lo, Task.Hi;
    FullCorridor(t, i);
    FullCorridor(u, i);
    assert t.In(i, j) && u.In(i, j);
    CellAt(t, i, j);
    CellAt(u, i, j);
    if i > 0 && j > 0 {
      SameCell(t, u, i - 1, j);
      SameCell(t, u, i, j - 1);
      SameCell(t, u, i - 1, j - 1);
      assert t.source[i - 1] == u.source[i - 1] && t.target[j - 1] == u.target[j - 1];
    }
  }

  lemma {:induction false} SameTrace<T(!new)>(t: Task<T>, u: Task<T>, i: nat, j: nat)
    requires Full(t) && Full(u) && u == t.(band := u.band) && IsSimilarity(t.sim)
    requires t.In(i, j) && u.In(i, j)
    ensures t.Trace(i, j) == u.Trace(i, j) && !t.Touches(i, j)
    decreases i + j
  {
    if i + j > 0 {
      SameMove(t, u, i, j);
      FullCorridor(t, i);
      hide Task.Cell, Task.Lo, Task.Hi, Task.MoveAt, Task.MatchTaken, Task.DeletionTaken, Task.Trace, Task.Touches;
      var pi, pj := t.BackStep(i, j);
      var qi, qj := u.BackStep(i, j);
      SameTrace(t, u, pi, pj);
    } else {
      t.TraceEnds();
      u.TraceEnds();
    }
  }

  lemma {:induction false} SameMove<T(!new)>(t: Task<T>, u: Task<T>, i: nat, j: nat)
    requires Full(t) && Full(u) && u == t.(band := u.band) && i <= |t.source| && j <= |t.target|
    ensures t.MoveAt(i, j) == u.MoveAt(i, j)
  {
    hide Task.Cell, Task.Lo, Task.Hi;
    SameCell(t, u, i, j);
    if i > 0 { SameCell(t, u, i - 1, j); }
    if i > 0 && j > 0 { SameCell(t, u, i - 1, j - 1); }
  }

  // ----- the score -----

  lemma {:induction false} MatchedSumBounds<T(!new)>(t: Task<T>, w: seq<AlignedPair>, i: nat, j: nat)
    requires IsSimilarity(t.sim) && i <= |t.source| && j <= |t.target| && t.Aligns(w, i, j)
    ensures 0.0 <= MatchedSum(w) <= Min(i, j) as real
    decreases |w|
  {
    if w != [] {
      var (pi, pj) := Before(i, j, Shape(w[|w| - 1]));
      MatchedSumBounds(t, w[..|w| - 1], pi, pj);
    }
  }

  lemma {:induction false} FullMatchIsEqual<T(!new)>(t: Task<T>, w: seq<AlignedPair>, i: nat, j: nat)
    requires IsSimilarity(t.sim) && i <= |t.source| && j <= |t.target| && t.Aligns(w, i, j)
    requires forall x, y :: t.sim(x, y) == 1.0 ==> x == y
    requires MatchedSum(w) == Max(i, j) as real
    ensures i == j && t.source[..i] == t.target[..j]
    decreases |w|
  {
    if w != [] {
      var last, front := w[|w| - 1], w[..|w| - 1];
      var (pi, pj) := Before(i, j, Shape(last));
      MatchedSumBounds(t, front, pi, pj);
      FullMatchIsEqual(t, front, pi, pj);
    }
  }

  lemma {:induction false} DiagonalIsFree<T(!new)>(t: Task<T>, k: nat)
    requires t.Valid() && IsSimilarity(t.sim) && t.source == t.target && k <= |t.source|
    requires forall x :: t.sim(x, x) == 1.0
    ensures t.In(k, k) && t.Cell(k, k) == Fin(0.0)
  {
    assert t.In(k, k);
    hide Task.Lo, Task.Hi, Task.Cell;
    if k == 0 {
      t.OriginCost();
    } else {
      var w := t.CellIsReached(k, k);
      CostNonNegative(t, w, k, k);
      DiagonalIsFree(t, k - 1);
      t.CellDiagonal(k, k);
    }
  }

  /** Every pair is an exact match. */
  ghost predicate AllExact(w: seq<AlignedPair>) {
    forall k | 0 <= k < |w| :: Shape(w[k]).Match? && w[k].similarity == 1.0
  }

  lemma {:induction false} EqualIsFullMatch<T(!new)>(t: Task<T>, k: nat)
    requires t.Valid() && IsSimilarity(t.sim) && t.source == t.target && k <= |t.source|
    requires forall x :: t.sim(x, x) == 1.0
    ensures t.In(k, k) && MatchedSum(t.Trace(k, k)) == k as real && AllExact(t.Trace(k, k))
  {
    hide Task.Cell, Task.Lo, Task.Hi;
    DiagonalIsFree(t, k);
    if k > 0 {
      DiagonalIsFree(t, k - 1);
      EqualIsFullMatch(t, k - 1);
      var pi, pj := t.BackStep(k, k);
      assert t.MatchTaken(k, k);
      var front := t.Trace(k - 1, k - 1);
      assert t.Trace(k, k)[..|front|] == front;
    }
  }

  /** Sequences that are equal align exactly, and nothing in them is taken for moved. */
  lemma {:induction false} EqualAlignsExactly<T(!new)>(tokens: seq<T>, sim: (T, T) -> real)
    requires IsSimilarity(sim) && forall x :: sim(x, x) == 1.0
    ensures var t := TaskOf(tokens, tokens, None, sim); var n := |tokens|;
      && t.In(n, n) && AllExact(t.Trace(n, n)) && !Suspect(t, t.Trace(n, n))
      && (tokens != [] ==> Score(t.Trace(n, n), n, n) == 1.0)
  {
    hide Task.Trace, Task.Lo, Task.Hi, AllExact, Suspect, MatchedSum;
    var t, n := TaskOf(tokens, tokens, None, sim), |tokens|;
    EqualIsFullMatch(t, n);
    ExactIsSettled(t, t.Trace(n, n));
  }

  lemma ExactIsSettled<T(!new)>(t: Task<T>, w: seq<AlignedPair>)
    requires AllExact(w)
    ensures !Suspect(t, w)
  {
  }

  lemma {:induction false} CostNonNegative<T(!new)>(t: Task<T>, w: seq<AlignedPair>, i: nat, j: nat)
    requires IsSimilarity(t.sim) && i <= |t.source| && j <= |t.target| && t.Aligns(w, i, j)
    ensures TotalCost(w) >= 0.0
    decreases |w|
  {
    if w != [] {
      var (pi, pj) := Before(i, j, Shape(w[|w| - 1]));
      CostNonNegative(t, w[..|w| - 1], pi, pj);
    }
  }

  function Score(w: seq<AlignedPair>, n: nat, m: nat): real {
    MatchedSum(w) / Max(Max(n, m), 1) as real
  }

  /** The aggregate score lies in [0, 1], and under a similarity that is 1 only
      on equal tokens it is 1 exactly on equal non-empty sequences; whatever
      the band. */
  lemma {:induction false} ScoreMeansEquality<T(!new)>(source: seq<T>, target: seq<T>, band: Option<int>, sim: (T, T) -> real)
    requires IsSimilarity(sim)
    ensures var t := TaskOf(source, target, band, sim); var n, m := |source|, |target|;
      && t.In(n, m)
      && 0.0 <= Score(t.Trace(n, m), n, m) <= 1.0
      && ((forall x, y :: sim(x, y) == 1.0 <==> x == y) ==>
          (Score(t.Trace(n, m), n, m) == 1.0 <==> source == target != []))
  {
    var t, n, m := TaskOf(source, target, band, sim), |source|, |target|;
    t.Corridor(n);
    t.TraceIsAlignment(n, m);
    var w := t.Trace(n, m);
    MatchedSumBounds(t, w, n, m);
    Ratio(MatchedSum(w), Max(Max(n, m), 1));
    if forall x, y :: sim(x, y) == 1.0 <==> x == y {
      if MatchedSum(w) == Max(n, m) as real {
        FullMatchIsEqual(t, w, n, m);
        assert source[..n] == source && target[..m] == target;
      }
      if source == target {
        EqualIsFullMatch(t, n);
      }
    }
  }

  lemma {:induction false} Ratio(a: real, d: int)
    requires 0.0 <= a <= d as real && d > 0
    ensures 0.0 <= a / d as real <= 1.0
    ensures a / d as real == 1.0 <==> a == d as real
  {
  }
}

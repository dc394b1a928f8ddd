/** What a page becomes once cut for a producer (`schemas/chunking.py`), the
    planner's bounds, and the order of granularities (`planner.py`). */
module Chunks {
  import opened Prelude
  import opened Manifest

  datatype Granularity = PageGrain | BlockGrain | WindowGrain | LineGrain

  const CHAIN: seq<Granularity> := [PageGrain, BlockGrain, WindowGrain, LineGrain]

  function Level(g: Granularity): (k: nat)
    ensures k < |CHAIN| && CHAIN[k] == g
  {
    match g case PageGrain => 0 case BlockGrain => 1 case WindowGrain => 2 case LineGrain => 3
  }

  /** `downgrade_granularity`: one step finer, and nothing below LINE. */
  function Downgrade(g: Granularity): (finer: Option<Granularity>)
    ensures finer.Some? ==> Level(finer.value) == Level(g) + 1
    ensures finer.None? <==> g.LineGrain?
  {
    if Level(g) + 1 < |CHAIN| then Some(CHAIN[Level(g) + 1]) else None
  }

  /** `ChunkPlannerConfig`; the overlap may reach the window size when a copied
      configuration escaped validation. */
  datatype Config = Config(maxChars: nat, maxLines: nat, windowSize: nat, overlap: nat, coalesce: bool) {
    ghost predicate Valid() {
      maxChars > 0 && maxLines > 0 && windowSize > 0
    }
  }

  /** A chunk over positions in its page: the lines sent and the lines owned. */
  datatype Chunk = Chunk(grain: Granularity, lines: seq<nat>, targets: seq<nat>)

  function TotalChars(lines: seq<Line>): nat {
    if lines == [] then 0 else TotalChars(lines[..|lines| - 1]) + |lines[|lines| - 1].ocr|
  }

  /** Every position of the page is a target of exactly one chunk, a chunk's
      targets are lines it sends, and each appears in it once. */
  ghost predicate Conserves(n: nat, chunks: seq<Chunk>) {
    && (forall p: nat | p < n :: Owned(chunks, p))
    && (forall c, p | 0 <= c < |chunks| && p in chunks[c].targets :: p in chunks[c].lines)
    && (forall c, p | 0 <= c < |chunks| && p in chunks[c].lines :: p < n)
    && (forall c, d, p | 0 <= c < |chunks| && 0 <= d < |chunks| && p in chunks[c].targets && p in chunks[d].targets :: c == d)
    && (forall c | 0 <= c < |chunks| :: Distinct(chunks[c].targets))
  }

  ghost predicate Owned(chunks: seq<Chunk>, p: nat) {
    exists c :: 0 <= c < |chunks| && p in chunks[c].targets
  }

  function LinesOf(chunks: seq<Chunk>): (ss: seq<seq<nat>>)
    ensures |ss| == |chunks| && forall k | 0 <= k < |ss| :: ss[k] == chunks[k].lines
  {
    seq(|chunks|, k requires 0 <= k < |chunks| => chunks[k].lines)
  }

  /** Chunks that target all they send conserve the page when they list each of
      its positions once. */
  lemma {:induction false} ListingConserves(n: nat, chunks: seq<Chunk>)
    requires forall c | 0 <= c < |chunks| :: chunks[c].targets == chunks[c].lines
    requires Distinct(Flatten(LinesOf(chunks))) && forall p: nat :: p in Flatten(LinesOf(chunks)) <==> p < n
    ensures Conserves(n, chunks)
  {
    hide Flatten;
    var ss := LinesOf(chunks);
    DistinctParts(ss);
    forall p: nat | p < n ensures Owned(chunks, p) {
      FlattenIn(ss, p);
      var c :| 0 <= c < |ss| && p in ss[c];
      assert p in chunks[c].targets;
    }
    forall c, p: nat | 0 <= c < |chunks| && p in chunks[c].lines ensures p < n {
      assert p in ss[c];
      FlattenIn(ss, p);
    }
    forall c, d, p | 0 <= c < |chunks| && 0 <= d < |chunks| && p in chunks[c].targets && p in chunks[d].targets ensures c == d {
      assert p in ss[c] && p in ss[d];
    }
    forall c | 0 <= c < |chunks| ensures Distinct(chunks[c].targets) {
      assert Distinct(ss[c]);
    }
  }

  lemma {:induction false} TotalCharsSnoc(lines: seq<Line>, from: nat, to: nat)
    requires from <= to < |lines|
    ensures TotalChars(lines[from..to + 1]) == TotalChars(lines[from..to]) + |lines[to].ocr|
  {
    assert lines[from..to + 1][..to - from] == lines[from..to];
  }

  lemma {:induction false} TotalCharsConcat(a: seq<Line>, b: seq<Line>)
    ensures TotalChars(a + b) == TotalChars(a) + TotalChars(b)
    decreases |b|
  {
    if b == [] {
      assert a + b == a;
    } else {
      TotalCharsConcat(a, b[..|b| - 1]);
      assert (a + b)[..|a + b| - 1] == a + b[..|b| - 1];
    }
  }

  // ----- the page's bare-id index -----

  /** `index_by_id`: the position of each line id on the page. */
  function IndexById(lines: seq<Line>): (m: map<string, nat>)
    ensures forall id | id in m :: m[id] < |lines| && lines[m[id]].ref.line == id
    ensures forall p | 0 <= p < |lines| :: lines[p].ref.line in m
  {
    if lines == [] then map[]
    else
      var m := IndexById(lines[..|lines| - 1]);
      m[lines[|lines| - 1].ref.line := |lines| - 1]
  }

  ghost predicate UniqueIds(lines: seq<Line>) {
    forall i, j | 0 <= i < j < |lines| :: lines[i].ref.line != lines[j].ref.line
  }

  /** Bare id of the forward partner, "" when there is none. */
  function PartnerId(l: Line): string {
    if ForwardPartner(l).Some? then ForwardPartner(l).value.line else ""
  }

  /** Where the page index finds the line this line's word continues onto. */
  function NextAt(lines: seq<Line>, p: nat): Option<nat>
    requires p < |lines|
  {
    var id := PartnerId(lines[p]);
    if id != "" && id in IndexById(lines) then Some(IndexById(lines)[id]) else None
  }
}

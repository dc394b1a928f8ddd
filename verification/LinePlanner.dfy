/** `_plan_line` (`planner.py`): chunks that follow the hyphen chains, and the
    links that have to be severed when a chain is longer than a chunk. */
module LinePlanner {
  import opened Prelude
  import opened Manifest
  import opened Chunks
  import P = Pairing
  import U = Units
  import W = WindowPlanner
  import D = Decide

  function Ids(lines: seq<Line>): (ids: seq<string>)
    ensures |ids| == |lines| && forall k | 0 <= k < |lines| :: ids[k] == lines[k].ref.line
  {
    seq(|lines|, k requires 0 <= k < |lines| => lines[k].ref.line)
  }

  /** Positions from .. to - 1. */
  function Span(from: nat, to: nat): (r: seq<nat>)
    requires from <= to
    ensures |r| == to - from && forall k | 0 <= k < |r| :: r[k] == from + k
  {
    seq(to - from, k requires 0 <= k => from + k)
  }

  // ----- what a linker-built page satisfies -----

  /** The word on line x of the page continues onto line y of it. */
  ghost predicate Linked(lines: seq<Line>, x: nat, y: nat) {
    x < |lines| && y < |lines| && ForwardPartner(lines[x]) == Some(lines[y].ref)
  }

  /** On-page links go forward and do not overlap. */
  ghost predicate Neat(lines: seq<Line>) {
    forall p: nat, q: nat | Linked(lines, p, q) :: p < q && forall x: nat, y: nat | p < x < q :: !Linked(lines, x, y)
  }

  /** No line continues onto another page's line that has the bare id of another
      line of this page. */
  ghost predicate Apart(lines: seq<Line>) {
    forall p: nat, q: nat | p < |lines| && q < |lines| && p != q && Leaves(lines[p]) ::
      ForwardPartner(lines[p]).value.line != lines[q].ref.line
  }

  /** The word continues onto another page. */
  predicate Leaves(l: Line) {
    ForwardPartner(l).Some? && ForwardPartner(l).value.page != l.ref.page
  }

  /** A page as the linkers leave it. */
  ghost predicate Linkable(lines: seq<Line>) {
    P.Named(lines) && P.Tidy(lines) && P.Answered(lines) && W.OnePage(lines) && Neat(lines)
  }

  ghost predicate LinkedPage(lines: seq<Line>) {
    Linkable(lines) && Apart(lines)
  }

  /** What the index finds, other than the line itself, is the line its word continues
      onto exactly when the word does not leave the page. */
  lemma {:induction false} NextIsLinked(ws: seq<Line>, p: nat)
    requires W.OnePage(ws) && p < |ws|
    ensures forall q: nat | Linked(ws, p, q) :: NextAt(ws, p) == Some(q)
    ensures forall q: nat | NextAt(ws, p) == Some(q) ::
      q < |ws| && ForwardPartner(ws[p]).Some? && ForwardPartner(ws[p]).value.line == ws[q].ref.line && (Linked(ws, p, q) <==> !Leaves(ws[p]))
  {
    hide IndexById;
    forall q: nat | Linked(ws, p, q) ensures NextAt(ws, p) == Some(q) {
      NextIsThePartner(ws, p, q);
    }
  }

  /** Where the page index finds a line's partner, when the partner is on the page. */
  lemma {:induction false} NextIsThePartner(ws: seq<Line>, p: nat, q: nat)
    requires W.OnePage(ws) && Linked(ws, p, q)
    ensures NextAt(ws, p) == Some(q)
  {
    NextHasTheId(ws, p, q);
  }

  /** ... or any line that has the partner's bare id. */
  lemma {:induction false} NextHasTheId(ws: seq<Line>, p: nat, q: nat)
    requires UniqueIds(ws) && p < |ws| && q < |ws|
    requires ForwardPartner(ws[p]).Some? && ForwardPartner(ws[p]).value.line == ws[q].ref.line
    ensures NextAt(ws, p) == Some(q)
  {
    PartnerHasAnId(ws[p]);
    hide ForwardPartner, IndexById;
    assert ws[q].ref.line in IndexById(ws);
  }

  lemma {:induction false} NextOnALinkedPage(ws: seq<Line>, p: nat)
    requires W.OnePage(ws) && Apart(ws) && p < |ws|
    ensures forall q: nat | NextAt(ws, p) == Some(q) && q != p :: Linked(ws, p, q)
  {
    hide ForwardPartner, NextAt;
    NextIsLinked(ws, p);
  }

  lemma PartnerHasAnId(l: Line)
    ensures ForwardPartner(l).Some? ==> ForwardPartner(l).value.line != ""
  {
  }

  // ----- the plan, as a function of the page -----

  /** The last line of the chunk that starts at `i` and has come to `j`. */
  function ChainEnd(lines: seq<Line>, cfg: Config, i: nat, j: nat): (e: nat)
    requires i <= j < |lines|
    ensures j <= e < |lines|
    decreases |lines| - j
  {
    var next := NextAt(lines, j);
    if next.None? || next.value <= j || next.value - i >= cfg.maxLines then j else ChainEnd(lines, cfg, i, next.value)
  }

  /** The line the chunk i .. j has to be cut from: where the index finds its last
      line's partner, unless the chunk holds a line of that id. */
  function CutAt(lines: seq<Line>, i: nat, j: nat): (at: Option<nat>)
    requires i <= j < |lines|
    ensures at.Some? ==> at == NextAt(lines, j) && at.value < |lines| && at.value != j
  {
    var next := NextAt(lines, j);
    assert Ids(lines[i..j + 1])[j - i] == lines[j].ref.line;
    if next.Some? && lines[next.value].ref.line !in Ids(lines[i..j + 1]) then next else None
  }

  function LineChunk(i: nat, j: nat): Chunk
    requires i <= j
  {
    Chunk(LineGrain, Span(i, j + 1), Span(i, j + 1))
  }

  function SplitOf(lines: seq<Line>, t: nat, h: nat): P.HyphenSplit
    requires t < |lines| && h < |lines|
  {
    P.HyphenSplit(lines[t].ref.page, lines[t].ref.line, lines[h].ref.line)
  }

  datatype Planned = Planned(chunks: seq<Chunk>, splits: seq<P.HyphenSplit>, lines: seq<Line>)

  /** The page once its first chunk's last link is severed, if it has to be. */
  function AfterCut(lines: seq<Line>, i: nat, j: nat): (r: seq<Line>)
    requires i <= j < |lines|
    ensures |r| == |lines|
  {
    if CutAt(lines, i, j).Some? then P.Sever(lines, j, CutAt(lines, i, j).value) else lines
  }

  function CutSplits(lines: seq<Line>, i: nat, j: nat): seq<P.HyphenSplit>
    requires i <= j < |lines|
  {
    if CutAt(lines, i, j).Some? then [SplitOf(lines, j, CutAt(lines, i, j).value)] else []
  }

  /** What is planned from line `i` on. */
  function LinePlan(lines: seq<Line>, cfg: Config, i: nat): (plan: Planned)
    requires i <= |lines|
    ensures |plan.lines| == |lines|
    decreases |lines| - i
  {
    if i == |lines| then Planned([], [], lines)
    else
      var j := ChainEnd(lines, cfg, i, i);
      var rest := LinePlan(AfterCut(lines, i, j), cfg, j + 1);
      Planned([LineChunk(i, j)] + rest.chunks, CutSplits(lines, i, j) + rest.splits, rest.lines)
  }

  /** Chunks and splits made already, then the rest of the plan. */
  function Onto(chunks: seq<Chunk>, splits: seq<P.HyphenSplit>, rest: Planned): Planned {
    Planned(chunks + rest.chunks, splits + rest.splits, rest.lines)
  }

  /** One chunk more. */
  lemma PlanStep(lines: seq<Line>, cfg: Config, i: nat, chunks: seq<Chunk>, splits: seq<P.HyphenSplit>)
    requires i < |lines|
    ensures var j := ChainEnd(lines, cfg, i, i);
      Onto(chunks, splits, LinePlan(lines, cfg, i))
      == Onto(chunks + [LineChunk(i, j)], splits + CutSplits(lines, i, j), LinePlan(AfterCut(lines, i, j), cfg, j + 1))
  {
    hide ChainEnd, AfterCut, CutSplits, LineChunk;
    var j := ChainEnd(lines, cfg, i, i);
    var rest := LinePlan(AfterCut(lines, i, j), cfg, j + 1);
    assert chunks + ([LineChunk(i, j)] + rest.chunks) == chunks + [LineChunk(i, j)] + rest.chunks;
    assert splits + (CutSplits(lines, i, j) + rest.splits) == splits + CutSplits(lines, i, j) + rest.splits;
  }

  // ----- one chain -----

  /** Links that leave a line before `end` land at or before `end`. */
  ghost predicate Inside(lines: seq<Line>, from: nat, end: nat) {
    forall x: nat, y: nat | from <= x < end && Linked(lines, x, y) :: y <= end
  }

  /** The inner loop: the last line of the chunk that starts at `i`. */
  method FollowChain(lines: seq<Line>, index: map<string, nat>, cfg: Config, i: nat) returns (j: nat, chainIds: seq<string>)
    requires cfg.Valid() && i < |lines| && index == IndexById(lines)
    ensures j == ChainEnd(lines, cfg, i, i) && i <= j < |lines| && chainIds == Ids(lines[i..j + 1])
    ensures j - i < cfg.maxLines
    ensures var next := NextAt(lines, j); next.Some? && next.value > j ==> next.value - i >= cfg.maxLines
  {
    hide IndexById, Ids;
    chainIds := Ids(lines[i..i + 1]);
    j := i;
    while true
      invariant i <= j < |lines| && j - i < cfg.maxLines && chainIds == Ids(lines[i..j + 1])
      invariant ChainEnd(lines, cfg, i, i) == ChainEnd(lines, cfg, i, j)
      decreases |lines| - j
    {
      var partner := PartnerId(lines[j]);
      if partner == "" { break; }
      if partner !in index || index[partner] <= j { break; }
      var at := index[partner];
      if |chainIds| + (at - j) > cfg.maxLines { break; }
      IdsConcat(lines, i, j + 1, at + 1);
      chainIds := chainIds + Ids(lines[j + 1..at + 1]);
      j := at;
    }
  }

  lemma {:induction false} IdsConcat(lines: seq<Line>, i: nat, j: nat, k: nat)
    requires i <= j <= k <= |lines|
    ensures Ids(lines[i..k]) == Ids(lines[i..j]) + Ids(lines[j..k])
  {
  }

  /** On a linked page a chunk holds every link that leaves one of its lines but the
      last. */
  lemma {:induction false} ChainHolds(lines: seq<Line>, cfg: Config, i: nat, j: nat)
    requires cfg.Valid() && i <= j < |lines| && LinkedPage(lines) && Inside(lines, i, j) && j - i < cfg.maxLines
    ensures var e := ChainEnd(lines, cfg, i, j);
      && Inside(lines, i, e) && e - i < cfg.maxLines
      && forall y: nat | Linked(lines, e, y) :: y - i >= cfg.maxLines
    decreases |lines| - j
  {
    hide NextAt, Linked, P.Named, P.Tidy, P.Answered, W.OnePage, Apart;
    NextIsLinked(lines, j);
    NextOnALinkedPage(lines, j);
    var next := NextAt(lines, j);
    if !(next.None? || next.value <= j || next.value - i >= cfg.maxLines) {
      assert Linked(lines, j, next.value);
      MoreInside(lines, i, j, next.value);
      ChainHolds(lines, cfg, i, next.value);
    } else {
      forall y: nat | Linked(lines, j, y) ensures y - i >= cfg.maxLines {}
    }
  }

  lemma {:induction false} MoreInside(lines: seq<Line>, i: nat, j: nat, at: nat)
    requires P.Named(lines) && i <= j < |lines| && Neat(lines) && Inside(lines, i, j) && Linked(lines, j, at)
    ensures Inside(lines, i, at)
  {
    forall x: nat, y: nat | i <= x < at && Linked(lines, x, y) ensures y <= at {
      assert j < x ==> !Linked(lines, x, y);
    }
  }

  // ----- what the plan keeps -----

  /** A recorded split is of a link between two lines of the page. */
  ghost predicate IsLink(lines: seq<Line>, s: P.HyphenSplit) {
    exists x: nat, y: nat :: Linked(lines, x, y) && s == SplitOf(lines, x, y)
  }

  ghost predicate OnlyLinks(lines: seq<Line>, splits: seq<P.HyphenSplit>) {
    forall s | s in splits :: IsLink(lines, s)
  }

  function Record(l: Line): P.HyphenSplit {
    P.HyphenSplit(l.ref.page, l.ref.line, PartnerId(l))
  }

  /** The forward links of `ws` are those of `vs` less the recorded ones, and
      every record is of a link that was there. */
  ghost predicate ExactlySevered(vs: seq<Line>, ws: seq<Line>, splits: seq<P.HyphenSplit>)
    requires |vs| == |ws|
  {
    (forall x | 0 <= x < |vs| :: Survives(vs, ws, splits, x)) && OnlyLinks(vs, splits)
  }

  ghost predicate Survives(vs: seq<Line>, ws: seq<Line>, splits: seq<P.HyphenSplit>, x: nat)
    requires |vs| == |ws| && x < |vs|
  {
    ForwardPartner(ws[x]) == if Record(vs[x]) in splits then None else ForwardPartner(vs[x])
  }

  /** A cut chunk could not have held the next line of its chain. */
  ghost predicate OnlyWhenFull(vs: seq<Line>, ws: seq<Line>, cfg: Config, chunks: seq<Chunk>)
    requires |vs| == |ws|
  {
    forall x: nat, y: nat | Linked(vs, x, y) && !Linked(ws, x, y) :: FullAt(cfg, chunks, x, y)
  }

  ghost predicate FullAt(cfg: Config, chunks: seq<Chunk>, x: nat, y: nat) {
    exists c :: 0 <= c < |chunks| && x in chunks[c].lines && chunks[c].lines != [] && y - chunks[c].lines[0] >= cfg.maxLines
  }

  /** Every link that is still there joins two lines of one chunk. */
  ghost predicate LinksInsideChunks(ws: seq<Line>, chunks: seq<Chunk>) {
    HeldSoFar(ws, chunks, |ws|)
  }

  ghost predicate HeldSoFar(ws: seq<Line>, chunks: seq<Chunk>, i: nat) {
    forall x: nat, y: nat | x < i && Linked(ws, x, y) :: Together(chunks, x, y)
  }

  ghost predicate Together(chunks: seq<Chunk>, x: nat, y: nat) {
    exists c :: 0 <= c < |chunks| && x in chunks[c].lines && y in chunks[c].lines
  }

  // ----- severing keeps a linked page -----

  /** The index depends on the ids alone. */
  lemma {:induction false} SameIndex(vs: seq<Line>, ws: seq<Line>)
    requires P.SameTexts(vs, ws)
    ensures IndexById(vs) == IndexById(ws)
  {
    hide P.SameText;
    if vs != [] {
      var n := |vs| - 1;
      P.SameTextRef(vs[n], ws[n]);
      SameIndex(vs[..n], ws[..n]);
    }
  }

  lemma {:induction false} SeverTexts(vs: seq<Line>, t: nat, h: nat)
    requires t < |vs| && h < |vs| && t != h
    ensures P.SameTexts(vs, P.Sever(vs, t, h))
  {
  }

  lemma {:induction false} SameTextsTransitive(us: seq<Line>, vs: seq<Line>, ws: seq<Line>)
    requires P.SameTexts(us, vs) && P.SameTexts(vs, ws)
    ensures P.SameTexts(us, ws)
  {
    forall k | 0 <= k < |us| ensures P.SameText(us[k], ws[k]) {
      assert P.SameText(us[k], vs[k]) && P.SameText(vs[k], ws[k]);
    }
  }

  /** Fewer links on the same lines. */
  ghost predicate Thinner(vs: seq<Line>, ws: seq<Line>) {
    && P.SameTexts(vs, ws)
    && forall x | 0 <= x < |vs| :: ForwardPartner(ws[x]) == None || ForwardPartner(ws[x]) == ForwardPartner(vs[x])
  }

  lemma {:induction false} ThinnerLinks(vs: seq<Line>, ws: seq<Line>)
    requires Thinner(vs, ws)
    ensures |ws| == |vs| && forall x | 0 <= x < |vs| :: ws[x].ref == vs[x].ref
    ensures forall x: nat, y: nat | Linked(ws, x, y) :: Linked(vs, x, y)
    ensures forall x: nat, y: nat | Linked(vs, x, y) :: Linked(ws, x, y) <==> ForwardPartner(ws[x]) == ForwardPartner(vs[x])
  {
    hide ForwardPartner, P.SameText;
    forall x | 0 <= x < |vs| ensures ws[x].ref == vs[x].ref { P.SameTextRef(vs[x], ws[x]); }
  }

  lemma {:induction false} ThinnerStaysLinked(vs: seq<Line>, ws: seq<Line>)
    requires Linkable(vs) && Thinner(vs, ws) && P.Tidy(ws) && P.Answered(ws)
    ensures Linkable(ws) && (Apart(vs) ==> Apart(ws))
  {
    hide ForwardPartner, P.Tidy, P.Answered, P.SameTexts, Linked;
    ThinnerLinks(vs, ws);
  }

  lemma {:induction false} CutKeepsLinked(ws: seq<Line>, t: nat, h: nat)
    requires Linkable(ws) && Linked(ws, t, h)
    ensures t != h
    ensures var zs := P.Sever(ws, t, h);
      && Linkable(zs) && (Apart(ws) ==> Apart(zs)) && Thinner(ws, zs)
      && forall x | 0 <= x < |ws| :: ForwardPartner(zs[x]) == if x == t then None else ForwardPartner(ws[x])
  {
    hide ForwardPartner, BackwardPartner, P.Sever, P.Answered, P.Tidy, P.Named, P.SameTexts;
    P.SplitRemovesOneLink(ws, t, h);
    ThinnerStaysLinked(ws, P.Sever(ws, t, h));
  }

  // ----- the chunks -----

  ghost predicate ChunksCover(cfg: Config, chunks: seq<Chunk>, i: nat) {
    && Flatten(LinesOf(chunks)) == Span(0, i)
    && forall c | 0 <= c < |chunks| ::
         && chunks[c].grain.LineGrain? && chunks[c].targets == chunks[c].lines
         && 1 <= |chunks[c].lines| <= cfg.maxLines
  }

  lemma {:induction false} NextChunk(cfg: Config, chunks: seq<Chunk>, i: nat, j: nat)
    requires ChunksCover(cfg, chunks, i) && i <= j && j - i < cfg.maxLines
    ensures ChunksCover(cfg, chunks + [LineChunk(i, j)], j + 1)
  {
    hide Flatten;
    var more := chunks + [LineChunk(i, j)];
    assert LinesOf(more) == LinesOf(chunks) + [Span(i, j + 1)];
    FlattenSnoc(LinesOf(chunks), Span(i, j + 1));
    SpansMeet(0, i, j + 1);
  }

  lemma SpansMeet(a: nat, b: nat, c: nat)
    requires a <= b <= c
    ensures Span(a, b) + Span(b, c) == Span(a, c)
  {
  }

  /** The chunks own each line of the page once. */
  lemma {:induction false} LineChunksConserve(cfg: Config, chunks: seq<Chunk>, n: nat)
    requires ChunksCover(cfg, chunks, n)
    ensures Conserves(n, chunks)
  {
    hide Flatten;
    forall p: nat ensures p in Span(0, n) <==> p < n { assert p < n ==> Span(0, n)[p] == p; }
    ListingConserves(n, chunks);
  }

  lemma {:induction false} ChainFits(lines: seq<Line>, cfg: Config, i: nat, j: nat)
    requires i <= j < |lines| && j - i < cfg.maxLines
    ensures ChainEnd(lines, cfg, i, j) - i < cfg.maxLines
    decreases |lines| - j
  {
    var next := NextAt(lines, j);
    if !(next.None? || next.value <= j || next.value - i >= cfg.maxLines) { ChainFits(lines, cfg, i, next.value); }
  }

  /** Whatever the plan severs, no line gains a link. */
  ghost predicate LinksKept(vs: seq<Line>, ws: seq<Line>) {
    |vs| == |ws| && forall k | 0 <= k < |vs| :: D.KeepsLinks(vs[k], ws[k])
  }

  lemma {:induction false} SeverKeepsLinks(us: seq<Line>, vs: seq<Line>, t: nat, h: nat)
    requires LinksKept(us, vs) && t < |vs| && h < |vs| && t != h
    ensures LinksKept(us, P.Sever(vs, t, h))
  {
    assert D.KeepsLinks(us[t], vs[t]) && D.KeepsLinks(us[h], vs[h]);
    assert D.KeepsLinks(us[t], P.SeverTail(vs[t])) && D.KeepsLinks(us[h], P.SeverHead(vs[h]));
    hide D.KeepsLinks, P.SeverTail, P.SeverHead;
  }

  lemma {:induction false} CutKeepsTexts(us: seq<Line>, ws: seq<Line>, i: nat, j: nat)
    requires i <= j < |ws| && P.SameTexts(us, ws) && LinksKept(us, ws)
    ensures P.SameTexts(us, AfterCut(ws, i, j)) && LinksKept(us, AfterCut(ws, i, j))
  {
    hide P.SameTexts, LinksKept, P.Sever, CutAt;
    if CutAt(ws, i, j).Some? {
      SeverTexts(ws, j, CutAt(ws, i, j).value);
      SameTextsTransitive(us, ws, AfterCut(ws, i, j));
      SeverKeepsLinks(us, ws, j, CutAt(ws, i, j).value);
    }
  }

  /** Whatever the links, the plan's chunks list the rest of the page in order, each
      within the cap; no text moves and no line gains a link. */
  lemma {:induction false} PlanCovers(us: seq<Line>, ws: seq<Line>, cfg: Config, chunks: seq<Chunk>, i: nat)
    requires cfg.Valid() && i <= |ws| && ChunksCover(cfg, chunks, i) && P.SameTexts(us, ws) && LinksKept(us, ws)
    ensures var plan := LinePlan(ws, cfg, i);
      ChunksCover(cfg, chunks + plan.chunks, |ws|) && P.SameTexts(us, plan.lines) && LinksKept(us, plan.lines)
    decreases |ws| - i
  {
    hide ChunksCover, P.SameTexts, LinksKept, LineChunk, CutSplits, AfterCut, ChainEnd;
    if i == |ws| {
      assert chunks + [] == chunks;
    } else {
      var j := ChainEnd(ws, cfg, i, i);
      ChainFits(ws, cfg, i, i);
      NextChunk(cfg, chunks, i, j);
      CutKeepsTexts(us, ws, i, j);
      PlanCovers(us, AfterCut(ws, i, j), cfg, chunks + [LineChunk(i, j)], j + 1);
      PlanStep(ws, cfg, i, chunks, []);
    }
  }

  // ----- on a linked page -----

  /** What holds before the chunk that starts at line `i`. */
  ghost predicate Progress(vs: seq<Line>, ws: seq<Line>, cfg: Config, chunks: seq<Chunk>, splits: seq<P.HyphenSplit>, i: nat) {
    && Thinner(vs, ws) && LinkedPage(ws) && ExactlySevered(vs, ws, splits) && OnlyWhenFull(vs, ws, cfg, chunks)
    && Untouched(vs, ws, splits, i) && HeldSoFar(ws, chunks, i)
  }

  ghost predicate Untouched(vs: seq<Line>, ws: seq<Line>, splits: seq<P.HyphenSplit>, i: nat)
    requires |vs| == |ws|
  {
    forall x | i <= x < |vs| :: ForwardPartner(ws[x]) == ForwardPartner(vs[x]) && Record(vs[x]) !in splits
  }

  lemma {:induction false} MoreTogether(chunks: seq<Chunk>, c: Chunk, x: nat, y: nat)
    requires Together(chunks, x, y) || (x in c.lines && y in c.lines)
    ensures Together(chunks + [c], x, y)
  {
    var more := chunks + [c];
    assert more[|chunks|] == c;
    if Together(chunks, x, y) {
      var k :| 0 <= k < |chunks| && x in chunks[k].lines && y in chunks[k].lines;
      assert more[k] == chunks[k];
    }
  }

  lemma {:induction false} InSpan(i: nat, j: nat, x: nat)
    requires i <= x <= j
    ensures x in LineChunk(i, j).lines && LineChunk(i, j).lines != [] && LineChunk(i, j).lines[0] == i
  {
    assert Span(i, j + 1)[x - i] == x;
  }

  /** The links that leave the new chunk's lines stay in it. */
  lemma {:induction false} NewChunkHolds(ws: seq<Line>, chunks: seq<Chunk>, i: nat, j: nat)
    requires i <= j < |ws| && Neat(ws) && Inside(ws, i, j) && forall y: nat :: !Linked(ws, j, y)
    requires HeldSoFar(ws, chunks, i)
    ensures HeldSoFar(ws, chunks + [LineChunk(i, j)], j + 1)
  {
    hide Linked, LineChunk, Together;
    forall x: nat, y: nat | x < j + 1 && Linked(ws, x, y)
      ensures Together(chunks + [LineChunk(i, j)], x, y)
    {
      if x >= i {
        InSpan(i, j, x);
        InSpan(i, j, y);
      }
      MoreTogether(chunks, LineChunk(i, j), x, y);
    }
  }

  lemma {:induction false} MoreFull(cfg: Config, chunks: seq<Chunk>, c: Chunk, x: nat, y: nat)
    requires FullAt(cfg, chunks, x, y) || (x in c.lines && y - c.lines[0] >= cfg.maxLines)
    ensures FullAt(cfg, chunks + [c], x, y)
  {
    var more := chunks + [c];
    assert more[|chunks|] == c;
    if FullAt(cfg, chunks, x, y) {
      var k :| 0 <= k < |chunks| && x in chunks[k].lines && chunks[k].lines != [] && y - chunks[k].lines[0] >= cfg.maxLines;
      assert more[k] == chunks[k];
    }
  }

  lemma {:induction false} ChunkDone(vs: seq<Line>, ws: seq<Line>, cfg: Config, chunks: seq<Chunk>, splits: seq<P.HyphenSplit>,
                                     i: nat, j: nat)
    requires Progress(vs, ws, cfg, chunks, splits, i) && i <= j < |ws| && Inside(ws, i, j) && forall y: nat :: !Linked(ws, j, y)
    ensures Progress(vs, ws, cfg, chunks + [LineChunk(i, j)], splits, j + 1)
  {
    hide Linked, Thinner, ExactlySevered, Inside, LineChunk, Together, FullAt, P.Named, P.Tidy, P.Answered, W.OnePage, Apart;
    NewChunkHolds(ws, chunks, i, j);
    forall x: nat, y: nat | Linked(vs, x, y) && !Linked(ws, x, y)
      ensures FullAt(cfg, chunks + [LineChunk(i, j)], x, y)
    {
      MoreFull(cfg, chunks, LineChunk(i, j), x, y);
    }
  }

  lemma {:induction false} CutRecords(vs: seq<Line>, ws: seq<Line>, zs: seq<Line>, splits: seq<P.HyphenSplit>, i: nat, j: nat, at: nat)
    requires |vs| == |ws| == |zs| && UniqueIds(vs) && ExactlySevered(vs, ws, splits)
    requires Linked(vs, j, at) && Untouched(vs, ws, splits, i) && i <= j
    requires forall x | 0 <= x < |vs| :: ForwardPartner(zs[x]) == if x == j then None else ForwardPartner(ws[x])
    ensures ExactlySevered(vs, zs, splits + [SplitOf(vs, j, at)])
    ensures Untouched(vs, zs, splits + [SplitOf(vs, j, at)], j + 1)
  {
    RecordIsSplit(vs, j, at);
    hide ForwardPartner, PartnerId;
    forall x | 0 <= x < |vs| ensures Survives(vs, zs, splits + [Record(vs[j])], x) {
      assert Survives(vs, ws, splits, x);
      assert vs[x].ref.line == vs[j].ref.line <==> x == j;
    }
    assert IsLink(vs, SplitOf(vs, j, at));
  }

  lemma RecordIsSplit(vs: seq<Line>, j: nat, at: nat)
    requires Linked(vs, j, at)
    ensures Record(vs[j]) == SplitOf(vs, j, at)
  {
  }

  lemma {:induction false} ChunkCut(vs: seq<Line>, ws: seq<Line>, cfg: Config, chunks: seq<Chunk>, splits: seq<P.HyphenSplit>,
                                    i: nat, j: nat, at: nat)
    requires Progress(vs, ws, cfg, chunks, splits, i) && i <= j < |ws| && Inside(ws, i, j) && Linked(ws, j, at)
    requires at != j && at - i >= cfg.maxLines
    ensures Progress(vs, P.Sever(ws, j, at), cfg, chunks + [LineChunk(i, j)], splits + [SplitOf(ws, j, at)], j + 1)
  {
    var zs := P.Sever(ws, j, at);
    hide Inside, P.Sever, LineChunk, Together, ExactlySevered, OnlyWhenFull, HeldSoFar, Untouched, Thinner, Linkable, Apart;
    CutKeepsLinked(ws, j, at);
    CutThinner(vs, ws, zs, j, at);
    CutRecords(vs, ws, zs, splits, i, j, at);
    CutTogether(ws, zs, chunks, i, j);
    CutFull(vs, ws, zs, cfg, chunks, i, j, at);
  }

  /** What a cut leaves of the original page. */
  lemma {:induction false} CutThinner(vs: seq<Line>, ws: seq<Line>, zs: seq<Line>, j: nat, at: nat)
    requires Thinner(vs, ws) && Thinner(ws, zs) && Linkable(ws) && Linked(ws, j, at)
    ensures Thinner(vs, zs) && UniqueIds(vs) && Linked(vs, j, at) && SplitOf(vs, j, at) == SplitOf(ws, j, at)
  {
    hide ForwardPartner, P.SameText, P.Named, P.Tidy, P.Answered, Neat;
    ThinnerLinks(vs, ws);
    SameTextsTransitive(vs, ws, zs);
  }

  lemma {:induction false} CutTogether(ws: seq<Line>, zs: seq<Line>, chunks: seq<Chunk>, i: nat, j: nat)
    requires Thinner(ws, zs) && Linkable(zs) && i <= j < |ws| == |zs| && Inside(ws, i, j) && ForwardPartner(zs[j]) == None
    requires HeldSoFar(ws, chunks, i)
    ensures HeldSoFar(zs, chunks + [LineChunk(i, j)], j + 1)
  {
    ThinnerLinks(ws, zs);
    assert forall y: nat :: !Linked(zs, j, y);
    hide Linked, LineChunk, Together, ForwardPartner, Thinner, P.Named, P.Tidy, P.Answered, W.OnePage;
    NewChunkHolds(zs, chunks, i, j);
  }

  lemma {:induction false} CutFull(vs: seq<Line>, ws: seq<Line>, zs: seq<Line>, cfg: Config, chunks: seq<Chunk>, i: nat, j: nat, at: nat)
    requires |vs| == |ws| == |zs| && OnlyWhenFull(vs, ws, cfg, chunks) && i <= j < |ws| && at - i >= cfg.maxLines
    requires Linked(vs, j, at) && P.Named(vs) && forall x | 0 <= x < |ws| :: zs[x].ref == ws[x].ref == vs[x].ref
    requires forall x | 0 <= x < |ws| && x != j :: ForwardPartner(zs[x]) == ForwardPartner(ws[x])
    ensures OnlyWhenFull(vs, zs, cfg, chunks + [LineChunk(i, j)])
  {
    hide LineChunk, FullAt, ForwardPartner;
    forall x: nat, y: nat | Linked(vs, x, y) && !Linked(zs, x, y)
      ensures FullAt(cfg, chunks + [LineChunk(i, j)], x, y)
    {
      InSpan(i, j, j);
      assert x == j ==> y == at;
      MoreFull(cfg, chunks, LineChunk(i, j), x, y);
    }
  }

  /** On a linked page a chunk is cut exactly from the line its last one links to. */
  lemma {:induction false} CutIsOfALink(ws: seq<Line>, i: nat, j: nat)
    requires LinkedPage(ws) && i <= j < |ws|
    ensures CutAt(ws, i, j).Some? ==> Linked(ws, j, CutAt(ws, i, j).value)
    ensures CutAt(ws, i, j).None? ==> forall y: nat :: !Linked(ws, j, y)
  {
    NextIsLinked(ws, j);
    NextOnALinkedPage(ws, j);
    hide NextAt, P.Named, P.Tidy, P.Answered, Apart, Ids, ForwardPartner;
    forall y: nat | Linked(ws, j, y) ensures ws[y].ref.line !in Ids(ws[i..j + 1]) { LinkLeavesChunk(ws, i, j, y); }
  }

  lemma {:induction false} LinkLeavesChunk(ws: seq<Line>, i: nat, j: nat, y: nat)
    requires Neat(ws) && W.OnePage(ws) && i <= j < |ws| && Linked(ws, j, y)
    ensures y < |ws| && ws[y].ref.line !in Ids(ws[i..j + 1])
  {
    hide ForwardPartner;
    var ids := Ids(ws[i..j + 1]);
    forall k | 0 <= k < |ids| ensures ids[k] != ws[y].ref.line {
      assert ids[k] == ws[i + k].ref.line;
    }
  }

  lemma {:induction false} ProgressStep(vs: seq<Line>, ws: seq<Line>, cfg: Config, chunks: seq<Chunk>, splits: seq<P.HyphenSplit>, i: nat)
    requires cfg.Valid() && i < |ws| && Progress(vs, ws, cfg, chunks, splits, i)
    ensures var j := ChainEnd(ws, cfg, i, i);
      Progress(vs, AfterCut(ws, i, j), cfg, chunks + [LineChunk(i, j)], splits + CutSplits(ws, i, j), j + 1)
  {
    hide Thinner, ExactlySevered, OnlyWhenFull, Untouched, HeldSoFar, CutAt, LineChunk, Linkable, Apart, P.Sever;
    var j := ChainEnd(ws, cfg, i, i);
    ChainHolds(ws, cfg, i, i);
    hide ChainEnd, Inside;
    CutIsOfALink(ws, i, j);
    hide Linked;
    if CutAt(ws, i, j).Some? {
      ChunkCut(vs, ws, cfg, chunks, splits, i, j, CutAt(ws, i, j).value);
    } else {
      assert splits + [] == splits;
      ChunkDone(vs, ws, cfg, chunks, splits, i, j);
    }
  }

  lemma {:induction false} PlanProgress(vs: seq<Line>, ws: seq<Line>, cfg: Config, chunks: seq<Chunk>, splits: seq<P.HyphenSplit>, i: nat)
    requires cfg.Valid() && i <= |ws| && Progress(vs, ws, cfg, chunks, splits, i)
    ensures var plan := LinePlan(ws, cfg, i);
      Progress(vs, plan.lines, cfg, chunks + plan.chunks, splits + plan.splits, |ws|)
    decreases |ws| - i
  {
    hide Progress, AfterCut, CutSplits, LineChunk, ChainEnd;
    if i == |ws| {
      assert chunks + [] == chunks && splits + [] == splits;
    } else {
      var j := ChainEnd(ws, cfg, i, i);
      ProgressStep(vs, ws, cfg, chunks, splits, i);
      PlanProgress(vs, AfterCut(ws, i, j), cfg, chunks + [LineChunk(i, j)], splits + CutSplits(ws, i, j), j + 1);
      PlanStep(ws, cfg, i, chunks, splits);
    }
  }

  /** On a linked page every link that is left lies inside one chunk, and the recorded
      splits are exactly the links that went, each one where the chunk was full. */
  lemma {:induction false} PlanSeversLinks(vs: seq<Line>, cfg: Config)
    requires cfg.Valid() && LinkedPage(vs)
    ensures var plan := LinePlan(vs, cfg, 0);
      && LinkedPage(plan.lines) && ExactlySevered(vs, plan.lines, plan.splits)
      && OnlyWhenFull(vs, plan.lines, cfg, plan.chunks) && LinksInsideChunks(plan.lines, plan.chunks)
  {
    hide LinkedPage, LinePlan, ForwardPartner;
    P.SameTextsReflexive(vs);
    PlanProgress(vs, vs, cfg, [], [], 0);
    var plan := LinePlan(vs, cfg, 0);
    assert [] + plan.chunks == plan.chunks && [] + plan.splits == plan.splits;
    assert |plan.lines| == |vs|;
  }

  // ----- `_plan_line` -----

  /** `_plan_line`: chunks, splits and lines are those of the plan, and the severing
      never refuses. */
  method PlanLine(page: array<Line>, cfg: Config) returns (chunks: seq<Chunk>, splits: seq<P.HyphenSplit>, refused: bool)
    requires cfg.Valid()
    modifies page
    ensures !refused && Planned(chunks, splits, page[..]) == LinePlan(old(page[..]), cfg, 0)
    ensures ChunksCover(cfg, chunks, page.Length)
    ensures P.SameTexts(old(page[..]), page[..]) && LinksKept(old(page[..]), page[..])
  {
    hide ChunksCover, LinksKept, P.SameTexts, IndexById, PartnerId, P.Sever, Ids, LinePlan, ChainEnd, CutAt, ForwardPartner, NextAt, LineChunk;
    ghost var vs := page[..];
    var index := IndexById(page[..]);
    chunks, splits, refused := [], [], false;
    var i := 0;
    P.SameTextsReflexive(vs);
    while i < page.Length
      invariant 0 <= i <= page.Length && !refused && P.SameTexts(vs, page[..])
      invariant LinePlan(vs, cfg, 0) == Onto(chunks, splits, LinePlan(page[..], cfg, i))
      decreases page.Length - i
    {
      ghost var ws := page[..];
      SameIndex(vs, ws);
      var j, chainIds := FollowChain(page[..], index, cfg, i);
      var partner := PartnerId(page[j]);
      PlanStep(ws, cfg, i, chunks, splits);
      CutIsFound(ws, i, j, chainIds);
      if partner != "" && partner !in chainIds && partner in index {
        var at := index[partner];
        SeverTexts(ws, j, at);
        SameTextsTransitive(vs, ws, P.Sever(ws, j, at));
        var split := P.SplitForwardLink(page, j, at);
        if split.None? { refused := true; return; }
        splits := splits + [split.value];
      } else {
        assert splits + [] == splits;
      }
      chunks := chunks + [LineChunk(i, j)];
      i := j + 1;
    }
    PlanEnds(page[..], cfg);
    assert chunks + [] == chunks && splits + [] == splits;
    PlanStarts(cfg, vs);
    PlanCovers(vs, vs, cfg, [], 0);
    assert [] + chunks == chunks;
  }

  lemma PlanEnds(ws: seq<Line>, cfg: Config)
    ensures LinePlan(ws, cfg, |ws|) == Planned([], [], ws)
  {
  }

  lemma PlanStarts(cfg: Config, vs: seq<Line>)
    ensures ChunksCover(cfg, [], 0) && P.SameTexts(vs, vs) && LinksKept(vs, vs)
  {
    assert Span(0, 0) == [];
  }

  /** What the method looks for at the end of a chain is what the plan cuts. */
  lemma {:induction false} CutIsFound(ws: seq<Line>, i: nat, j: nat, chainIds: seq<string>)
    requires i <= j < |ws| && chainIds == Ids(ws[i..j + 1])
    ensures var partner, index := PartnerId(ws[j]), IndexById(ws);
      if partner != "" && partner !in chainIds && partner in index
      then CutAt(ws, i, j) == Some(index[partner]) && ForwardPartner(ws[j]).Some?
           && P.ForwardPartnerId(ws[j]) == partner == ws[index[partner]].ref.line
      else CutAt(ws, i, j) == None
  {
    hide IndexById, ForwardPartner, Ids;
  }

  // ----- the linker provides such pages -----

  ghost predicate Increasing(s: seq<nat>) {
    forall i, j | 0 <= i < j < |s| :: s[i] < s[j]
  }

  lemma {:induction false} SubstantiveIncreases(vs: seq<Line>, lines: seq<nat>)
    requires P.Positions(vs, lines) && Increasing(lines)
    ensures Increasing(P.Substantive(vs, lines))
  {
    if lines != [] {
      var front := lines[..|lines| - 1];
      SubstantiveIncreases(vs, front);
      var rest := P.Substantive(vs, front);
      assert forall k | 0 <= k < |rest| :: rest[k] in rest;
    }
  }

  /** `link_hyphen_pairs` over one page's lines leaves the page a linked one. */
  lemma {:induction false} LinkerGivesALinkedPage(vs: seq<Line>, can: P.Policy)
    requires P.Named(vs) && W.OnePage(vs) && P.Positions(vs, Iota(|vs|))
    requires forall k | 0 <= k < |vs| :: P.Fresh(vs[k])
    ensures var sub := P.Substantive(vs, Iota(|vs|)); var ws := P.LinkUpTo(vs, sub, |sub|, can); LinkedPage(ws) && P.Symmetric(ws)
  {
    var sub := P.Substantive(vs, Iota(|vs|));
    SubstantiveIncreases(vs, Iota(|vs|));
    P.FreshIsAGraph(vs);
    P.LinkerIsSymmetric(vs, Iota(|vs|), can);
    WellLinkedIsLinked(vs, P.LinkUpTo(vs, sub, |sub|, can), sub);
  }

  lemma {:induction false} WellLinkedIsLinked(vs: seq<Line>, ws: seq<Line>, sub: seq<nat>)
    requires P.Named(vs) && W.OnePage(vs) && P.Positions(ws, sub) && Increasing(sub) && P.WellLinked(vs, ws, sub)
    requires forall k | 0 <= k < |vs| :: P.Fresh(vs[k])
    ensures LinkedPage(ws)
  {
    forall x: nat | x < |ws| ensures ForwardPartner(ws[x]).Some? ==> P.NextOf(ws, sub, x) {
      if x !in sub { P.NoLinks(vs[x]); }
    }
    P.SymmetricIsAnswered(ws);
    hide ForwardPartner, P.Answered, P.Symmetric, P.Tidy, P.Resolved, P.SameText, P.Fresh, P.OnlyConsecutive, P.FreeEnds;
    forall x | 0 <= x < |ws| ensures ws[x].ref == vs[x].ref { P.SameTextRef(vs[x], ws[x]); }
    ConsecutiveIsNeat(ws, sub);
  }

  lemma {:induction false} ConsecutiveIsNeat(ws: seq<Line>, sub: seq<nat>)
    requires P.Named(ws) && W.OnePage(ws) && P.Positions(ws, sub) && Increasing(sub)
    requires forall a: nat | a < |ws| && ForwardPartner(ws[a]).Some? :: P.NextOf(ws, sub, a)
    ensures Neat(ws) && Apart(ws)
  {
    hide ForwardPartner, P.NextOf;
    forall p: nat, q: nat | Linked(ws, p, q) ensures p < q && forall x: nat, y: nat | p < x < q :: !Linked(ws, x, y) {
      NextIsNeat(ws, sub, p, q);
    }
    forall p: nat | p < |ws| ensures !Leaves(ws[p]) { NextStaysHere(ws, sub, p); }
    hide Leaves;
  }

  lemma {:induction false} NextIsNeat(ws: seq<Line>, sub: seq<nat>, p: nat, q: nat)
    requires P.Named(ws) && P.Positions(ws, sub) && Increasing(sub) && Linked(ws, p, q)
    requires forall a: nat | a < |ws| && ForwardPartner(ws[a]).Some? :: P.NextOf(ws, sub, a)
    ensures p < q && forall x: nat, y: nat | p < x < q :: !Linked(ws, x, y)
  {
    hide ForwardPartner;
    var k: nat :| k + 1 < |sub| && sub[k] == p && ForwardPartner(ws[p]) == Some(ws[sub[k + 1]].ref);
    assert sub[k + 1] == q;
    hide P.NextOf;
    forall x: nat, y: nat | p < x < q ensures !Linked(ws, x, y) {
      if x < |ws| { NotBetween(ws, sub, k, x, y); }
    }
  }

  lemma NextStaysHere(ws: seq<Line>, sub: seq<nat>, p: nat)
    requires W.OnePage(ws) && P.Positions(ws, sub) && p < |ws|
    requires ForwardPartner(ws[p]).Some? ==> P.NextOf(ws, sub, p)
    ensures !Leaves(ws[p])
  {
    hide ForwardPartner;
  }

  lemma {:induction false} NotBetween(ws: seq<Line>, sub: seq<nat>, k: nat, x: nat, y: nat)
    requires P.Positions(ws, sub) && Increasing(sub)
    requires forall a: nat | a < |ws| && ForwardPartner(ws[a]).Some? :: P.NextOf(ws, sub, a)
    requires k + 1 < |sub| && x < |ws| && sub[k] < x < sub[k + 1]
    ensures !Linked(ws, x, y)
  {
    hide ForwardPartner;
    forall i | 0 <= i < |sub| ensures sub[i] != x {
      assert i <= k ==> sub[i] <= sub[k];
      assert i > k ==> sub[i] >= sub[k + 1];
    }
  }

  /** On a page no link of which was lost every pointer between two lines is the
      earlier one's forward link, which is what the window planner relies on. */
  lemma {:induction false} LinkedPageLinksForward(ws: seq<Line>)
    requires Linkable(ws) && P.Symmetric(ws)
    ensures W.LinksForward(ws)
  {
    hide NextAt, ForwardPartner, BackwardPartner, Pointers, P.TidyLine, ByRef;
    forall p, q | 0 <= p < q < |ws| && U.Pair(ByRef(ws), ws[p].ref, ws[q].ref) ensures NextAt(ws, p) == Some(q) {
      ByRefAt(ws, p);
      ByRefAt(ws, q);
      assert P.TidyLine(ws[p]) && P.TidyLine(ws[q]);
      PointersArePartners(ws[p], ws[q].ref);
      PointersArePartners(ws[q], ws[p].ref);
      assert P.Matched(ws, p, q) && P.Matched(ws, q, p);
      assert !Linked(ws, q, p);
      NextIsThePartner(ws, p, q);
    }
  }

  lemma {:induction false} ByRefAt(ws: seq<Line>, p: nat)
    requires W.OnePage(ws) && p < |ws|
    ensures ws[p].ref in ByRef(ws) && ByRef(ws)[ws[p].ref] == ws[p]
  {
    var n := |ws| - 1;
    if p < n {
      ByRefAt(ws[..n], p);
      assert ws[p].ref.line != ws[n].ref.line;
    }
  }

  lemma PointersArePartners(l: Line, r: LineRef)
    requires P.TidyLine(l)
    ensures r in Pointers(l) <==> ForwardPartner(l) == Some(r) || BackwardPartner(l) == Some(r)
  {
  }

  // ----- lines the plan leaves alone -----

  /** Neither its own forward link nor that of any other line finds a line of the page
      to cut it from. */
  ghost predicate LeftAlone(vs: seq<Line>, k: nat) {
    k < |vs| && NextAt(vs, k).None? && forall x: nat | x < |vs| :: NextAt(vs, x) != Some(k)
  }

  /** Such a line is as it was, whatever the plan severs. */
  lemma {:induction false} PlanLeavesAlone(vs: seq<Line>, cfg: Config, i: nat, k: nat)
    requires i <= |vs| && LeftAlone(vs, k)
    ensures LinePlan(vs, cfg, i).lines[k] == vs[k]
    decreases |vs| - i
  {
    hide ChainEnd, CutAt, NextAt, P.SeverTail, P.SeverHead;
    if i < |vs| {
      var j := ChainEnd(vs, cfg, i, i);
      if CutAt(vs, i, j).Some? { CutLeavesAlone(vs, i, j, k); }
      PlanLeavesAlone(AfterCut(vs, i, j), cfg, j + 1, k);
    }
  }

  lemma {:induction false} CutLeavesAlone(vs: seq<Line>, i: nat, j: nat, k: nat)
    requires i <= j < |vs| && LeftAlone(vs, k) && CutAt(vs, i, j).Some?
    ensures AfterCut(vs, i, j)[k] == vs[k] && LeftAlone(AfterCut(vs, i, j), k)
  {
    hide CutAt, P.Sever, LeftAlone, NextAt;
    SeverLeavesAlone(vs, j, CutAt(vs, i, j).value, k);
  }

  lemma {:induction false} SeverLeavesAlone(vs: seq<Line>, t: nat, h: nat, k: nat)
    requires t < |vs| && h < |vs| && t != h && LeftAlone(vs, k) && NextAt(vs, t) == Some(h)
    ensures P.Sever(vs, t, h)[k] == vs[k] && LeftAlone(P.Sever(vs, t, h), k)
  {
    hide IndexById, PartnerId, P.SeverTail, P.SeverHead, P.Sever, NextAt;
    var ws := P.Sever(vs, t, h);
    SeverTexts(vs, t, h);
    SameIndex(vs, ws);
    SeverChanges(vs, t, h);
    forall x: nat | x < |vs| ensures NextAt(ws, x).None? || NextAt(ws, x) == NextAt(vs, x) { LooksUpLess(vs, ws, x); }
    assert NextAt(vs, k).None? && NextAt(ws, k).None?;
  }

  lemma SeverChanges(vs: seq<Line>, t: nat, h: nat)
    requires t < |vs| && h < |vs| && t != h
    ensures forall x: nat | x < |vs| ::
      && (x != t && x != h ==> P.Sever(vs, t, h)[x] == vs[x])
      && (PartnerId(P.Sever(vs, t, h)[x]) == "" || PartnerId(P.Sever(vs, t, h)[x]) == PartnerId(vs[x]))
  {
    hide PartnerId, P.SeverTail, P.SeverHead;
    SeveredLooksUp(vs[t]);
    SeveredLooksUp(vs[h]);
  }

  lemma LooksUpLess(vs: seq<Line>, ws: seq<Line>, x: nat)
    requires |ws| == |vs| && x < |vs| && IndexById(vs) == IndexById(ws) && (PartnerId(ws[x]) == "" || PartnerId(ws[x]) == PartnerId(vs[x]))
    ensures NextAt(ws, x).None? || NextAt(ws, x) == NextAt(vs, x)
  {
    hide IndexById, PartnerId;
  }

  lemma SeveredLooksUp(l: Line)
    ensures PartnerId(P.SeverTail(l)) == ""
    ensures PartnerId(P.SeverHead(l)) == "" || PartnerId(P.SeverHead(l)) == PartnerId(l)
  {
  }

  /** No line gains a backward link. */
  lemma {:induction false} PlanAddsNoBackward(vs: seq<Line>, cfg: Config, i: nat, k: nat)
    requires i <= |vs| && k < |vs| && BackwardPartner(vs[k]).None?
    ensures BackwardPartner(LinePlan(vs, cfg, i).lines[k]).None?
    decreases |vs| - i
  {
    hide ChainEnd, CutAt, BackwardPartner, P.SeverTail, P.SeverHead;
    if i < |vs| {
      SeveredAddsNoBackward(vs[k]);
      PlanAddsNoBackward(AfterCut(vs, i, ChainEnd(vs, cfg, i, i)), cfg, ChainEnd(vs, cfg, i, i) + 1, k);
    }
  }

  lemma SeveredAddsNoBackward(l: Line)
    ensures BackwardPartner(l).None? ==> BackwardPartner(P.SeverTail(l)).None? && BackwardPartner(P.SeverHead(l)).None?
  {
  }

  // ----- exactly when the plan severs links only -----

  /** The word on the last line of i .. j leaves the page under the bare id of a line
      outside i .. j. */
  ghost predicate EndsFooled(vs: seq<Line>, i: nat, j: nat) {
    j < |vs| && Leaves(vs[j]) && exists q: nat :: q < |vs| && !(i <= q <= j) && ForwardPartner(vs[j]).value.line == vs[q].ref.line
  }

  /** Cutting the page from line `i` on where its chains end or are full, some piece is
      fooled at its end. */
  ghost predicate CutsNamesake(vs: seq<Line>, cfg: Config, i: nat)
    decreases |vs| - i
  {
    i < |vs| && var j := ChainEnd(vs, cfg, i, i); EndsFooled(vs, i, j) || CutsNamesake(vs, cfg, j + 1)
  }

  /** The lines from `i` on have the links they had. */
  ghost predicate SameFrom(vs: seq<Line>, ws: seq<Line>, i: nat) {
    P.SameTexts(vs, ws) && forall x | i <= x < |ws| :: ForwardPartner(ws[x]) == ForwardPartner(vs[x])
  }

  lemma SameFromRefs(vs: seq<Line>, ws: seq<Line>, i: nat)
    requires SameFrom(vs, ws, i)
    ensures |vs| == |ws| && (forall x | 0 <= x < |ws| :: ws[x].ref == vs[x].ref) && IndexById(vs) == IndexById(ws)
  {
    hide P.SameText, ForwardPartner;
    SameIndex(vs, ws);
    forall x | 0 <= x < |ws| ensures ws[x].ref == vs[x].ref { P.SameTextRef(vs[x], ws[x]); }
  }

  lemma {:induction false} SameChain(vs: seq<Line>, ws: seq<Line>, cfg: Config, i: nat, j: nat)
    requires SameFrom(vs, ws, i) && i <= j < |vs|
    ensures |ws| == |vs| && NextAt(ws, j) == NextAt(vs, j) && ChainEnd(ws, cfg, i, j) == ChainEnd(vs, cfg, i, j)
    decreases |vs| - j
  {
    hide P.SameTexts, ForwardPartner, IndexById;
    SameFromRefs(vs, ws, i);
    var next := NextAt(vs, j);
    if !(next.None? || next.value <= j || next.value - i >= cfg.maxLines) { SameChain(vs, ws, cfg, i, next.value); }
  }

  /** A piece that is fooled at its end is cut there, and what is recorded is no link. */
  lemma {:induction false} FooledIsCut(vs: seq<Line>, ws: seq<Line>, i: nat, j: nat)
    requires W.OnePage(vs) && SameFrom(vs, ws, i) && i <= j < |vs| && |ws| == |vs| && EndsFooled(vs, i, j)
    ensures exists s :: s in CutSplits(ws, i, j) && !IsLink(vs, s)
  {
    hide P.SameTexts, ForwardPartner, IndexById, NextAt, IsLink, CutAt, Leaves, W.OnePage;
    SameFromRefs(vs, ws, i);
    var q := FooledIsFound(vs, ws, i, j);
    NotALink(vs, j, q);
    assert SplitOf(ws, j, q) == SplitOf(vs, j, q);
    assert SplitOf(ws, j, q) in CutSplits(ws, i, j);
  }

  lemma {:induction false} FooledIsFound(vs: seq<Line>, ws: seq<Line>, i: nat, j: nat) returns (q: nat)
    requires W.OnePage(vs) && SameFrom(vs, ws, i) && i <= j < |vs| && |ws| == |vs| && EndsFooled(vs, i, j)
    ensures q < |vs| && q != j && CutAt(ws, i, j) == Some(q) && Leaves(vs[j]) && ForwardPartner(vs[j]).value.line == vs[q].ref.line
  {
    hide P.SameTexts, ForwardPartner, IndexById, NextAt, CutAt;
    SameFromRefs(vs, ws, i);
    q :| q < |vs| && !(i <= q <= j) && ForwardPartner(vs[j]).value.line == vs[q].ref.line;
    NextHasTheId(ws, j, q);
    forall k | i <= k <= j ensures ws[k].ref.line != ws[q].ref.line {}
    OutsideIsCut(ws, i, j, q);
  }

  lemma OutsideIsCut(ws: seq<Line>, i: nat, j: nat, q: nat)
    requires i <= j < |ws| && q < |ws| && NextAt(ws, j) == Some(q) && forall k | i <= k <= j :: ws[k].ref.line != ws[q].ref.line
    ensures CutAt(ws, i, j) == Some(q)
  {
    hide NextAt;
    var ids := Ids(ws[i..j + 1]);
    assert forall k | 0 <= k < |ids| :: ids[k] == ws[i + k].ref.line;
  }

  /** Any other piece is cut, if at all, through a link, and the lines after it keep
      theirs. */
  lemma {:induction false} HonestCut(vs: seq<Line>, ws: seq<Line>, i: nat, j: nat)
    requires Linkable(ws) && i <= j < |ws| && SameFrom(vs, ws, i) && !EndsFooled(vs, i, j)
    ensures Linkable(AfterCut(ws, i, j)) && SameFrom(vs, AfterCut(ws, i, j), j + 1)
    ensures OnlyLinks(vs, CutSplits(ws, i, j))
  {
    hide Linkable, P.Sever, ForwardPartner, NextAt, EndsFooled, CutAt, Linked, SplitOf, P.SameText;
    HonestSplits(vs, ws, i, j);
    var at := CutAt(ws, i, j);
    if at.Some? {
      CutIsALink(vs, ws, i, j);
      CutKeepsLinked(ws, j, at.value);
      SeverTexts(ws, j, at.value);
      hide P.SameTexts;
      SameTextsTransitive(vs, ws, AfterCut(ws, i, j));
    }
  }

  lemma {:induction false} HonestSplits(vs: seq<Line>, ws: seq<Line>, i: nat, j: nat)
    requires Linkable(ws) && i <= j < |ws| && SameFrom(vs, ws, i) && !EndsFooled(vs, i, j)
    ensures |vs| == |ws| && OnlyLinks(vs, CutSplits(ws, i, j))
  {
    hide Linkable, ForwardPartner, NextAt, P.SameTexts, EndsFooled, CutAt;
    SameFromRefs(vs, ws, i);
    if CutAt(ws, i, j).Some? {
      hide SameFrom;
      CutIsALink(vs, ws, i, j);
    }
  }

  lemma {:induction false} CutIsALink(vs: seq<Line>, ws: seq<Line>, i: nat, j: nat)
    requires Linkable(ws) && i <= j < |ws| && SameFrom(vs, ws, i) && |vs| == |ws| && !EndsFooled(vs, i, j) && CutAt(ws, i, j).Some?
    ensures var at := CutAt(ws, i, j).value;
      Linked(ws, j, at) && Linked(vs, j, at) && SplitOf(ws, j, at) == SplitOf(vs, j, at)
  {
    LinkableIsOnePage(ws);
    hide Linkable, ForwardPartner, NextAt, P.SameTexts, Leaves, UniqueIds;
    SameFromRefs(vs, ws, i);
    NextIsLinked(ws, j);
    CutIsOutside(ws, i, j);
    SameLeaves(vs[j], ws[j]);
  }

  lemma SameLeaves(l: Line, m: Line)
    requires l.ref == m.ref && ForwardPartner(l) == ForwardPartner(m)
    ensures Leaves(l) <==> Leaves(m)
  {
    hide ForwardPartner;
  }

  lemma CutIsOutside(ws: seq<Line>, i: nat, j: nat)
    requires i <= j < |ws| && CutAt(ws, i, j).Some?
    ensures !(i <= CutAt(ws, i, j).value <= j)
  {
    hide NextAt;
    var q := CutAt(ws, i, j).value;
    forall k | i <= k <= j ensures ws[k].ref.line in Ids(ws[i..j + 1]) { assert Ids(ws[i..j + 1])[k - i] == ws[k].ref.line; }
  }

  /** Under the given configuration, on a page as the linkers leave it, the plan severs
      links only exactly when no piece of the page is fooled at its end. */
  lemma {:induction false} PlanSeversOnlyLinksIff(vs: seq<Line>, cfg: Config)
    requires Linkable(vs)
    ensures OnlyLinks(vs, LinePlan(vs, cfg, 0).splits) <==> !CutsNamesake(vs, cfg, 0)
  {
    hide LinePlan, Linkable, ForwardPartner, P.SameText;
    LinkableIsOnePage(vs);
    P.SameTextsReflexive(vs);
    RestSeversOnlyLinksIff(vs, vs, cfg, 0);
  }

  lemma PlanSplits(ws: seq<Line>, cfg: Config, i: nat)
    requires i < |ws|
    ensures var j := ChainEnd(ws, cfg, i, i);
      LinePlan(ws, cfg, i).splits == CutSplits(ws, i, j) + LinePlan(AfterCut(ws, i, j), cfg, j + 1).splits
  {
    hide ChainEnd, AfterCut, CutSplits;
  }

  lemma NothingSplit(ws: seq<Line>, cfg: Config)
    ensures LinePlan(ws, cfg, |ws|).splits == []
  {
  }

  lemma {:induction false} RestSeversOnlyLinksIff(vs: seq<Line>, ws: seq<Line>, cfg: Config, i: nat)
    requires W.OnePage(vs) && Linkable(ws) && SameFrom(vs, ws, i) && i <= |vs|
    ensures |ws| == |vs| && (OnlyLinks(vs, LinePlan(ws, cfg, i).splits) <==> !CutsNamesake(vs, cfg, i))
    decreases |vs| - i
  {
    hide LinePlan, Linkable, ForwardPartner, P.SameTexts, EndsFooled, IsLink, AfterCut, CutSplits, SameFrom, W.OnePage, ChainEnd;
    SameFromRefs(vs, ws, i);
    if i == |vs| {
      NothingSplit(ws, cfg);
    } else {
      SameChain(vs, ws, cfg, i, i);
      var j := ChainEnd(vs, cfg, i, i);
      var cut, rest := CutSplits(ws, i, j), LinePlan(AfterCut(ws, i, j), cfg, j + 1).splits;
      PlanSplits(ws, cfg, i);
      if EndsFooled(vs, i, j) {
        FooledIsCut(vs, ws, i, j);
        var s :| s in cut && !IsLink(vs, s);
        assert s in cut + rest;
      } else {
        HonestCut(vs, ws, i, j);
        RestSeversOnlyLinksIff(vs, AfterCut(ws, i, j), cfg, j + 1);
      }
    }
  }

  lemma {:induction false} IndexFinds(ws: seq<Line>, p: nat, q: nat)
    requires UniqueIds(ws) && p < |ws| && q < |ws| && p != q
    requires ForwardPartner(ws[p]).Some? && ForwardPartner(ws[p]).value.line == ws[q].ref.line
    ensures CutAt(ws, p, p) == Some(q)
  {
    NextHasTheId(ws, p, q);
    hide ForwardPartner, NextAt;
    assert Ids(ws[p..p + 1]) == [ws[p].ref.line];
  }

  lemma {:induction false} NotALink(vs: seq<Line>, p: nat, q: nat)
    requires W.OnePage(vs) && p < |vs| && q < |vs| && Leaves(vs[p])
    ensures !IsLink(vs, SplitOf(vs, p, q))
  {
    hide ForwardPartner;
  }

  /** One line a chunk, every line whose word leaves the page under another's id is a
      piece fooled at its end. */
  lemma {:induction false} LineByLine(vs: seq<Line>, cfg: Config, i: nat, p: nat)
    requires cfg.maxLines == 1 && i <= p < |vs| && EndsFooled(vs, p, p)
    ensures CutsNamesake(vs, cfg, i)
    decreases p - i
  {
    hide EndsFooled, NextAt;
    assert ChainEnd(vs, cfg, i, i) == i;
    if i < p { LineByLine(vs, cfg, i + 1, p); }
  }

  lemma {:induction false} ApartCutsNone(vs: seq<Line>, cfg: Config, i: nat)
    requires Apart(vs)
    ensures !CutsNamesake(vs, cfg, i)
    decreases |vs| - i
  {
    hide ForwardPartner, ChainEnd, Leaves;
    if i < |vs| { ApartCutsNone(vs, cfg, ChainEnd(vs, cfg, i, i) + 1); }
  }

  /** ... and under every configuration exactly when no word leaves the page under the
      bare id of another of its lines. */
  lemma {:induction false} SeversOnlyLinksIff(vs: seq<Line>)
    requires Linkable(vs)
    ensures (forall cfg: Config | cfg.Valid() :: OnlyLinks(vs, LinePlan(vs, cfg, 0).splits)) <==> Apart(vs)
  {
    hide LinePlan, Linkable, ForwardPartner, CutsNamesake, OnlyLinks;
    if Apart(vs) {
      forall cfg: Config | cfg.Valid() ensures OnlyLinks(vs, LinePlan(vs, cfg, 0).splits) {
        PlanSeversOnlyLinksIff(vs, cfg);
        ApartCutsNone(vs, cfg, 0);
      }
    } else {
      var p: nat, q: nat :| p < |vs| && q < |vs| && p != q && Leaves(vs[p]) && ForwardPartner(vs[p]).value.line == vs[q].ref.line;
      var cfg := Config(1, 1, 1, 0, false);
      assert EndsFooled(vs, p, p);
      LineByLine(vs, cfg, 0, p);
      PlanSeversOnlyLinksIff(vs, cfg);
      assert cfg.Valid();
    }
  }

  lemma LinkableIsOnePage(vs: seq<Line>)
    requires Linkable(vs)
    ensures W.OnePage(vs)
  {
  }

  // ----- a page that fools the planner -----

  /** A page as the linkers leave it: a word over its first two lines, and a third
      line whose word continues onto the next page's line l2. */
  function NamesakePage(): seq<Line> {
    [P.Plain("p1", "l2", "inter-", Part1).(pairLine := "l3", pairPage := "p1"),
     P.Plain("p1", "l3", "national", Part2).(pairLine := "l2", pairPage := "p1"),
     P.Plain("p1", "l9", "re-", Part1).(pairLine := "l2", pairPage := "p2")]
  }

  /** What matters of it. */
  ghost predicate Namesakes(vs: seq<Line>) {
    && |vs| == 3 && vs[0].ref == LineRef("p1", "l2") && vs[1].ref == LineRef("p1", "l3") && vs[2].ref == LineRef("p1", "l9")
    && (forall k | 0 <= k < 3 :: P.TidyLine(vs[k]))
    && ForwardPartner(vs[0]) == Some(vs[1].ref) && ForwardPartner(vs[1]) == None && ForwardPartner(vs[2]) == Some(LineRef("p2", "l2"))
    && BackwardPartner(vs[0]) == None && BackwardPartner(vs[1]) == Some(vs[0].ref) && BackwardPartner(vs[2]) == None
    && ForwardPartner(SeverOut(vs)[0]) == None && BackwardPartner(SeverOut(vs)[1]) == Some(vs[0].ref)
    && SeverOut(vs)[0].ref == vs[0].ref && SeverOut(vs)[1].ref == vs[1].ref
  }

  ghost function SeverOut(vs: seq<Line>): (r: seq<Line>)
    requires |vs| == 3
    ensures |r| == 3
  {
    P.Sever(vs, 2, 0)
  }

  lemma PageIsNamesakes()
    ensures Namesakes(NamesakePage())
  {
  }

  lemma NamesakesAreLinkable(vs: seq<Line>)
    requires Namesakes(vs)
    ensures Linkable(vs) && Leaves(vs[2]) && !Apart(vs)
  {
    hide ForwardPartner, BackwardPartner, P.TidyLine, SeverOut;
    assert vs[0].ref.line == "l2" && vs[1].ref.line == "l3" && vs[2].ref.line == "l9";
    assert P.Symmetric(vs) by {
      forall a, b | 0 <= a < 3 && 0 <= b < 3 ensures P.Matched(vs, a, b) {}
    }
    P.SymmetricIsAnswered(vs);
    hide P.Symmetric, P.Answered;
    assert Neat(vs);
    assert ForwardPartner(vs[2]).value.line == vs[0].ref.line;
  }

  lemma NamesakesAreFound(vs: seq<Line>)
    requires Namesakes(vs)
    ensures UniqueIds(vs) && NextAt(vs, 0) == Some(1) && NextAt(vs, 1) == None && CutAt(vs, 2, 2) == Some(0)
  {
    hide ForwardPartner, BackwardPartner, P.TidyLine, SeverOut;
    assert vs[0].ref.line == "l2" && vs[1].ref.line == "l3" && vs[2].ref.line == "l9";
    hide NextAt, IndexById;
    NextHasTheId(vs, 0, 1);
    IndexFinds(vs, 2, 0);
    NoPartnerNoNext(vs, 1);
  }

  lemma NoPartnerNoNext(vs: seq<Line>, p: nat)
    requires p < |vs| && ForwardPartner(vs[p]) == None
    ensures NextAt(vs, p) == None
  {
  }

  lemma NamesakeChains(vs: seq<Line>, cfg: Config)
    requires cfg.Valid() && cfg.maxLines >= 2 && Namesakes(vs)
    ensures |vs| == 3 && ChainEnd(vs, cfg, 0, 0) == 1 && CutAt(vs, 0, 1) == None && ChainEnd(vs, cfg, 2, 2) == 2
  {
    NamesakesAreFound(vs);
    hide Namesakes, NextAt;
  }

  lemma NamesakePlan(vs: seq<Line>, cfg: Config)
    requires cfg.Valid() && cfg.maxLines >= 2 && Namesakes(vs)
    ensures LinePlan(vs, cfg, 0) == Planned([LineChunk(0, 1), LineChunk(2, 2)], [SplitOf(vs, 2, 0)], SeverOut(vs))
  {
    NamesakeChains(vs, cfg);
    NamesakesAreFound(vs);
    hide Namesakes, ForwardPartner, NextAt, P.Sever, ChainEnd, CutAt;
    assert |vs| == 3;
    assert LinePlan(SeverOut(vs), cfg, 3) == Planned([], [], SeverOut(vs));
    assert LinePlan(vs, cfg, 2) == Planned([LineChunk(2, 2)], [SplitOf(vs, 2, 0)], SeverOut(vs));
    assert [] + [SplitOf(vs, 2, 0)] == [SplitOf(vs, 2, 0)];
    assert [LineChunk(0, 1)] + [LineChunk(2, 2)] == [LineChunk(0, 1), LineChunk(2, 2)];
  }

  /** The plan takes the next page's l2 for this page's: it severs the word above it
      from one side, leaves the other side pointing back, and records a split of a
      link that never was. */
  lemma {:induction false} NamesakeIsSevered(cfg: Config)
    requires cfg.Valid() && cfg.maxLines >= 2
    ensures var vs := NamesakePage(); var plan := LinePlan(vs, cfg, 0);
      && Linkable(vs) && !Apart(vs)
      && plan.chunks == [LineChunk(0, 1), LineChunk(2, 2)]
      && plan.splits == [P.HyphenSplit("p1", "l9", "l2")] && !OnlyLinks(vs, plan.splits)
      && ForwardPartner(plan.lines[0]) == None && BackwardPartner(plan.lines[1]) == Some(plan.lines[0].ref)
      && !P.Symmetric(plan.lines)
  {
    PageIsNamesakes();
    var vs := NamesakePage();
    hide LinePlan, Linkable, Apart, NamesakePage, ForwardPartner, BackwardPartner, IsLink, SeverOut, P.TidyLine;
    NamesakesAreLinkable(vs);
    NamesakePlan(vs, cfg);
    LinkableIsOnePage(vs);
    NotALink(vs, 2, 0);
    var plan := LinePlan(vs, cfg, 0);
    assert plan.splits[0] == P.HyphenSplit("p1", "l9", "l2");
    assert !P.Matched(plan.lines, 0, 1);
  }
}

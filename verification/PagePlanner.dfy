/** `plan_page` (`planner.py`) and `_subpage_for_lines` (`reconcile.py`): one plan
    for a page, or for the part of a page that a finer attempt retries. */
module PagePlanner {
  import opened Prelude
  import opened Manifest
  import opened Chunks
  import C = Coalescing
  import B = BlockPlanner
  import W = WindowPlanner
  import L = LinePlanner
  import P = Pairing
  import D = Decide

  datatype Plan = Plan(chunks: seq<Chunk>, grain: Granularity, splits: seq<P.HyphenSplit>)

  /** `_try_page`. */
  function TryPage(lines: seq<Line>, cfg: Config): Option<Plan> {
    var all := Iota(|lines|);
    if C.Fits(lines, cfg, all) then Some(Plan([Chunk(PageGrain, all, all)], PageGrain, [])) else None
  }

  lemma {:induction false} PageConserves(lines: seq<Line>, cfg: Config)
    requires TryPage(lines, cfg).Some?
    ensures Conserves(|lines|, TryPage(lines, cfg).value.chunks)
  {
    var all := Iota(|lines|);
    assert all == [] + all;
    assert LinesOf([Chunk(PageGrain, all, all)]) == [all];
    FlattenSnoc([], all);
    assert [] + [all] == [all];
    forall p: nat ensures p in all <==> p < |lines| { assert p < |lines| ==> all[p] == p; }
    ListingConserves(|lines|, [Chunk(PageGrain, all, all)]);
  }

  /** A plan's chunks are all of its granularity and list no line twice. */
  ghost predicate OneGrain(plan: Plan) {
    forall c | 0 <= c < |plan.chunks| :: plan.chunks[c].grain == plan.grain && Distinct(plan.chunks[c].lines)
  }

  lemma OwnLinks(l: Line)
    ensures D.KeepsLinks(l, l)
  {
  }

  lemma LineChunksAreFine(cfg: Config, chunks: seq<Chunk>, splits: seq<P.HyphenSplit>, n: nat)
    requires L.ChunksCover(cfg, chunks, n) && Conserves(n, chunks)
    ensures OneGrain(Plan(chunks, LineGrain, splits))
  {
  }

  lemma BlockChunksAreFine(lines: seq<Line>, cfg: Config, blocks: seq<B.Block>, groups: seq<B.U.HyphenGroup>, root: map<string, string>,
                           roots: seq<string>, grouped: seq<C.Group>, out: seq<C.Group>, chunks: seq<Chunk>)
    requires B.PartitionedBy(lines, blocks) && B.Grouped(lines, blocks, groups, root, roots, grouped)
    requires B.ChunksFrom(lines, cfg, grouped, out, chunks)
    ensures OneGrain(Plan(chunks, BlockGrain, []))
  {
    hide C.Fits, B.Grouped, B.Coarsens, B.PartitionedBy;
    B.BlocksConserve(lines, blocks, cfg, groups, root, roots, grouped, out, chunks);
  }

  lemma WindowChunksAreFine(windows: seq<W.Window>, target: map<nat, nat>, chunks: seq<Chunk>)
    requires W.ChunksOf(windows, target, chunks)
    ensures OneGrain(Plan(chunks, WindowGrain, []))
  {
    hide W.Range, W.Filter;
  }

  // ----- which granularity -----

  ghost predicate BlockPlan(lines: seq<Line>, blocks: seq<B.Block>, cfg: Config, chunks: seq<Chunk>) {
    exists groups, root, roots, grouped, out :: BlockPlanFrom(lines, blocks, cfg, chunks, groups, root, roots, grouped, out)
  }

  ghost predicate BlockPlanFrom(lines: seq<Line>, blocks: seq<B.Block>, cfg: Config, chunks: seq<Chunk>, groups: seq<B.U.HyphenGroup>,
                                root: map<string, string>, roots: seq<string>, grouped: seq<C.Group>, out: seq<C.Group>) {
    && B.U.IsGrouping(ByRef(lines), groups) && B.Grouped(lines, blocks, groups, root, roots, grouped)
    && B.ChunksFrom(lines, cfg, grouped, out, chunks)
  }

  /** Some blocks that must stay together break a budget, or there is no block. */
  ghost predicate BlocksTooBig(lines: seq<Line>, blocks: seq<B.Block>, cfg: Config) {
    blocks == [] || exists groups, root, roots, grouped, k :: TooBigAt(lines, blocks, cfg, groups, root, roots, grouped, k)
  }

  ghost predicate TooBigAt(lines: seq<Line>, blocks: seq<B.Block>, cfg: Config, groups: seq<B.U.HyphenGroup>,
                           root: map<string, string>, roots: seq<string>, grouped: seq<C.Group>, k: int) {
    && B.U.IsGrouping(ByRef(lines), groups) && B.Grouped(lines, blocks, groups, root, roots, grouped)
    && 0 <= k < |grouped| && !C.Fits(lines, cfg, grouped[k].lines)
  }

  ghost predicate WindowPlan(lines: seq<Line>, cfg: Config, chunks: seq<Chunk>) {
    exists windows, target, groups :: WindowPlanFrom(lines, cfg, chunks, windows, target, groups)
  }

  ghost predicate WindowPlanFrom(lines: seq<Line>, cfg: Config, chunks: seq<Chunk>, windows: seq<W.Window>, target: map<nat, nat>,
                                 groups: seq<W.U.HyphenGroup>) {
    && W.Complete(lines, cfg, windows) && W.U.IsGrouping(ByRef(lines), groups)
    && W.Assigned(lines, windows, groups, target) && W.ChunksOf(windows, target, chunks)
  }

  /** The plan is of the coarsest granularity that is neither finer than asked nor
      above a budget, and is made as that granularity is. */
  ghost predicate Coarsest(lines: seq<Line>, blocks: seq<B.Block>, cfg: Config, force: Option<Granularity>, plan: Plan) {
    var auto := force.None? || force == Some(PageGrain);
    match plan.grain
    case PageGrain => auto && TryPage(lines, cfg) == Some(plan)
    case BlockGrain =>
      && (force == Some(BlockGrain) || (auto && TryPage(lines, cfg).None?))
      && BlockPlan(lines, blocks, cfg, plan.chunks)
    case WindowGrain =>
      && (force == Some(WindowGrain)
          || (BlocksTooBig(lines, blocks, cfg) && (force == Some(BlockGrain) || (auto && TryPage(lines, cfg).None?))))
      && WindowPlan(lines, cfg, plan.chunks)
    case LineGrain => force == Some(LineGrain) && L.ChunksCover(cfg, plan.chunks, |lines|)
  }

  lemma SomeTooBig(lines: seq<Line>, blocks: seq<B.Block>, cfg: Config, groups: seq<B.U.HyphenGroup>,
                   root: map<string, string>, roots: seq<string>, grouped: seq<C.Group>)
    requires B.U.IsGrouping(ByRef(lines), groups) && B.Grouped(lines, blocks, groups, root, roots, grouped)
    requires exists k :: 0 <= k < |grouped| && !C.Fits(lines, cfg, grouped[k].lines)
    ensures BlocksTooBig(lines, blocks, cfg)
  {
    hide C.Fits, B.Grouped, B.U.IsGrouping;
    var k :| 0 <= k < |grouped| && !C.Fits(lines, cfg, grouped[k].lines);
    assert TooBigAt(lines, blocks, cfg, groups, root, roots, grouped, k);
  }

  method BlockOrWindow(lines: seq<Line>, blocks: seq<B.Block>, cfg: Config) returns (plan: Plan)
    requires cfg.Valid() && W.OnePage(lines)
    ensures (plan.grain.BlockGrain? || plan.grain.WindowGrain?) && plan.splits == []
    ensures B.PartitionedBy(lines, blocks) || plan.grain.WindowGrain? ==> Conserves(|lines|, plan.chunks)
    ensures blocks == [] ==> plan.grain.WindowGrain?
    ensures B.PartitionedBy(lines, blocks) || plan.grain.WindowGrain? ==> OneGrain(plan)
    ensures plan.grain.BlockGrain? ==> BlockPlan(lines, blocks, cfg, plan.chunks)
    ensures plan.grain.WindowGrain? ==> BlocksTooBig(lines, blocks, cfg) && WindowPlan(lines, cfg, plan.chunks)
  {
    hide OneGrain, Conserves, B.PartitionedBy, B.Grouped, B.ChunksFrom, W.Complete, W.Assigned, C.Fits, W.OnePage, B.U.IsGrouping, WindowPlan;
    ghost var groups, root, roots, grouped, out;
    var chunks;
    chunks, groups, root, roots, grouped, out := B.TryBlock(lines, blocks, cfg);
    if chunks.Some? {
      plan := Plan(chunks.value, BlockGrain, []);
      assert BlockPlanFrom(lines, blocks, cfg, chunks.value, groups, root, roots, grouped, out);
      if B.PartitionedBy(lines, blocks) {
        B.BlocksConserve(lines, blocks, cfg, groups, root, roots, grouped, out, chunks.value);
        BlockChunksAreFine(lines, cfg, blocks, groups, root, roots, grouped, out, chunks.value);
      }
    } else {
      if blocks != [] { SomeTooBig(lines, blocks, cfg, groups, root, roots, grouped); }
      plan := Windows(lines, cfg);
    }
  }

  method Windows(lines: seq<Line>, cfg: Config) returns (plan: Plan)
    requires cfg.Valid() && W.OnePage(lines)
    ensures plan.grain.WindowGrain? && plan.splits == [] && Conserves(|lines|, plan.chunks) && OneGrain(plan)
    ensures WindowPlan(lines, cfg, plan.chunks)
  {
    hide *;
    ghost var windows, target, groups;
    var chunks;
    chunks, windows, target, groups := W.TryWindow(lines, cfg);
    WindowChunksAreFine(windows, target, chunks);
    WindowPlanIs(lines, cfg, chunks, windows, target, groups);
    plan := Plan(chunks, WindowGrain, []);
  }

  lemma WindowPlanIs(lines: seq<Line>, cfg: Config, chunks: seq<Chunk>, windows: seq<W.Window>, target: map<nat, nat>, groups: seq<W.U.HyphenGroup>)
    requires W.Complete(lines, cfg, windows) && W.U.IsGrouping(ByRef(lines), groups)
    requires W.Assigned(lines, windows, groups, target) && W.ChunksOf(windows, target, chunks)
    ensures WindowPlan(lines, cfg, chunks)
  {
    hide W.Complete, W.U.IsGrouping, W.Assigned, W.ChunksOf;
    assert WindowPlanFrom(lines, cfg, chunks, windows, target, groups);
  }

  lemma WholePageIsFine(lines: seq<Line>, cfg: Config)
    requires TryPage(lines, cfg).Some?
    ensures OneGrain(TryPage(lines, cfg).value)
  {
  }

  method Auto(lines: seq<Line>, blocks: seq<B.Block>, cfg: Config) returns (plan: Plan)
    requires cfg.Valid() && W.OnePage(lines)
    ensures !plan.grain.LineGrain? && plan.splits == []
    ensures Coarsest(lines, blocks, cfg, None, plan)
    ensures B.PartitionedBy(lines, blocks) || !plan.grain.BlockGrain? ==> Conserves(|lines|, plan.chunks) && OneGrain(plan)
  {
    hide OneGrain, Conserves, B.PartitionedBy, C.Fits, W.OnePage, BlockPlan, WindowPlan, BlocksTooBig;
    var whole := TryPage(lines, cfg);
    if whole.Some? {
      PageConserves(lines, cfg);
      WholePageIsFine(lines, cfg);
      return whole.value;
    }
    plan := BlockOrWindow(lines, blocks, cfg);
  }

  /** `plan_page`. A forced granularity is never coarsened, and is made finer only
      when a budget asks for it; a plan conserves the page at every granularity,
      and only the LINE plan touches the lines. */
  method PlanPage(page: array<Line>, blocks: seq<B.Block>, cfg: Config, force: Option<Granularity>) returns (plan: Plan)
    requires cfg.Valid() && W.OnePage(page[..])
    modifies page
    ensures B.PartitionedBy(old(page[..]), blocks) || !plan.grain.BlockGrain? ==> Conserves(page.Length, plan.chunks)
    ensures force.Some? ==> Level(plan.grain) >= Level(force.value)
    ensures plan.grain.LineGrain? <==> force == Some(LineGrain)
    ensures Coarsest(old(page[..]), blocks, cfg, force, plan)
    ensures !plan.grain.LineGrain? ==> page[..] == old(page[..]) && plan.splits == []
    ensures P.SameTexts(old(page[..]), page[..]) && L.LinksKept(old(page[..]), page[..])
    ensures B.PartitionedBy(old(page[..]), blocks) || !plan.grain.BlockGrain? ==> OneGrain(plan)
    ensures plan.grain.LineGrain? ==> L.Planned(plan.chunks, plan.splits, page[..]) == L.LinePlan(old(page[..]), cfg, 0)
  {
    hide Conserves, B.PartitionedBy, C.Fits, W.OnePage, P.SameText, L.LinePlan, L.ChunksCover, D.KeepsLinks, OneGrain, BlockPlan, WindowPlan, BlocksTooBig;
    if force == Some(LineGrain) {
      var chunks, splits, refused := L.PlanLine(page, cfg);
      L.LineChunksConserve(cfg, chunks, page.Length);
      LineChunksAreFine(cfg, chunks, splits, page.Length);
      return Plan(chunks, LineGrain, splits);
    }
    forall k | 0 <= k < page.Length ensures P.SameText(page[k], page[k]) { P.SameTextReflexive(page[k]); }
    forall k | 0 <= k < page.Length ensures D.KeepsLinks(page[k], page[k]) { OwnLinks(page[k]); }
    if force == Some(WindowGrain) {
      plan := Windows(page[..], cfg);
    } else if force == Some(BlockGrain) {
      plan := BlockOrWindow(page[..], blocks, cfg);
    } else {
      plan := Auto(page[..], blocks, cfg);
    }
  }

  // ----- retrying part of a page -----

  function KeptIds(ids: seq<string>, kept: set<string>): (r: seq<string>)
    ensures forall id :: id in r <==> id in ids && id in kept
    ensures Distinct(ids) ==> Distinct(r)
  {
    if ids == [] then []
    else
      var front, last := ids[..|ids| - 1], ids[|ids| - 1];
      assert ids == front + [last];
      if last in kept then KeptIds(front, kept) + [last] else KeptIds(front, kept)
  }

  /** The blocks of the synthetic page: each restricted to the kept lines, the
      emptied ones dropped. */
  function SubBlocks(blocks: seq<B.Block>, kept: set<string>): seq<B.Block> {
    if blocks == [] then []
    else
      var front, last := SubBlocks(blocks[..|blocks| - 1], kept), blocks[|blocks| - 1];
      var ids := KeptIds(last.lineIds, kept);
      if ids == [] then front else front + [B.Block(last.id, ids)]
  }

  ghost predicate From(blocks: seq<B.Block>, kept: set<string>, b: B.Block, k: nat) {
    k < |blocks| && b == B.Block(blocks[k].id, KeptIds(blocks[k].lineIds, kept))
  }

  /** Every block of the synthetic page comes from one of the page's, in order. */
  lemma {:induction false} SubBlocksFrom(blocks: seq<B.Block>, kept: set<string>) returns (from: seq<nat>)
    ensures var sub := SubBlocks(blocks, kept);
      && |from| == |sub| && (forall k | 0 <= k < |sub| :: From(blocks, kept, sub[k], from[k]))
      && (forall j, k | 0 <= j < k < |sub| :: from[j] < from[k])
      && (forall b | 0 <= b < |blocks| && KeptIds(blocks[b].lineIds, kept) != [] :: b in from)
  {
    from := [];
    if blocks != [] {
      var n := |blocks| - 1;
      from := SubBlocksFrom(blocks[..n], kept);
      var sub := SubBlocks(blocks[..n], kept);
      assert forall k | 0 <= k < |sub| :: From(blocks, kept, sub[k], from[k]) by {
        forall k | 0 <= k < |sub| ensures From(blocks, kept, sub[k], from[k]) {
          assert From(blocks[..n], kept, sub[k], from[k]);
        }
      }
      if KeptIds(blocks[n].lineIds, kept) != [] {
        from := from + [n];
        assert from[|from| - 1] == n;
      }
    }
  }

  /** A page whose blocks list every line once still does after any part of it is
      cut out, so every finer plan conserves that part. */
  lemma {:induction false} SubpageIsPartitioned(lines: seq<Line>, blocks: seq<B.Block>, sub: seq<Line>)
    requires B.PartitionedBy(lines, blocks) && UniqueIds(sub) && forall l | l in sub :: l in lines
    ensures B.PartitionedBy(sub, SubBlocks(blocks, set l | l in sub :: l.ref.line))
  {
    var kept := set l | l in sub :: l.ref.line;
    var from := SubBlocksFrom(blocks, kept);
    var parts := SubBlocks(blocks, kept);
    hide SubBlocks, KeptIds;
    forall j, k | 0 <= j < k < |parts|
      ensures B.BlockIds(parts)[j] != B.BlockIds(parts)[k]
      ensures forall id | id in parts[j].lineIds :: id !in parts[k].lineIds
    {
      assert From(blocks, kept, parts[j], from[j]) && From(blocks, kept, parts[k], from[k]);
      assert B.BlockIds(blocks)[from[j]] != B.BlockIds(blocks)[from[k]];
    }
    forall k | 0 <= k < |parts| ensures Distinct(parts[k].lineIds) {
      assert From(blocks, kept, parts[k], from[k]);
    }
    forall p | 0 <= p < |sub| ensures B.Listed(parts, sub[p].ref.line) {
      assert sub[p] in lines;
      var i :| 0 <= i < |lines| && lines[i] == sub[p];
      assert B.Listed(blocks, lines[i].ref.line);
      var b: nat :| b < |blocks| && lines[i].ref.line in blocks[b].lineIds;
      assert sub[p].ref.line in kept;
      var k :| 0 <= k < |from| && from[k] == b;
      assert From(blocks, kept, parts[k], from[k]);
    }
  }
}

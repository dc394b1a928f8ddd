/** `_try_block` (`planner.py`): one chunk per block, blocks joined by a hyphen
    unit going together. */
module BlockPlanner {
  import opened Prelude
  import opened Manifest
  import opened Chunks
  import opened Coalescing
  import U = Units
  import F = UnionFind

  /** A block of the page and the ids of its lines. */
  datatype Block = Block(id: string, lineIds: seq<string>)

  // ----- the lines of a block -----

  function Found(index: map<string, nat>, ids: seq<string>): seq<nat> {
    if ids == [] then []
    else
      var rest := Found(index, ids[..|ids| - 1]);
      if ids[|ids| - 1] in index then rest + [index[ids[|ids| - 1]]] else rest
  }

  /** `block_lines`: the last block of an id wins. */
  function BlockLines(index: map<string, nat>, blocks: seq<Block>): (m: map<string, seq<nat>>)
    ensures forall id :: id in m <==> id in BlockIds(blocks)
  {
    if blocks == [] then map[]
    else
      var last := blocks[|blocks| - 1];
      assert BlockIds(blocks) == BlockIds(blocks[..|blocks| - 1]) + [last.id];
      BlockLines(index, blocks[..|blocks| - 1])[last.id := Found(index, last.lineIds)]
  }

  function BlockIds(blocks: seq<Block>): (ids: seq<string>)
    ensures |ids| == |blocks| && forall k | 0 <= k < |ids| :: ids[k] == blocks[k].id
  {
    seq(|blocks|, k requires 0 <= k < |blocks| => blocks[k].id)
  }

  // ----- which blocks go together -----

  function Known(ids: seq<string>): set<string> {
    set b | b in ids
  }

  /** `linked`: the known blocks of a unit's on-page members, in order. */
  function LinkedBlocks(lines: seq<Line>, known: set<string>, members: seq<LineRef>): (r: seq<string>)
    ensures forall b | b in r :: b in known
  {
    if members == [] then []
    else
      var front, last := members[..|members| - 1], members[|members| - 1].line;
      var rest := LinkedBlocks(lines, known, front);
      if last in IndexById(lines) && lines[IndexById(lines)[last]].block in known
      then rest + [lines[IndexById(lines)[last]].block] else rest
  }

  ghost function Neighbours(s: seq<string>): set<(string, string)> {
    if |s| < 2 then {} else Neighbours(s[..|s| - 1]) + {(s[|s| - 1], s[|s| - 2])}
  }

  ghost function UnitEdges(lines: seq<Line>, known: set<string>, groups: seq<U.HyphenGroup>): set<(string, string)> {
    if groups == [] then {}
    else
      var last := groups[|groups| - 1];
      UnitEdges(lines, known, groups[..|groups| - 1]) + Neighbours(LinkedBlocks(lines, known, last.members))
  }

  /** All the blocks of one unit are connected. */
  lemma {:induction false} NeighboursConnect(s: seq<string>, edges: set<(string, string)>, j: nat, k: nat)
    requires Neighbours(s) <= edges && j <= k < |s|
    ensures F.Connected(edges, s[j], s[k])
    decreases k - j, |s|
  {
    if k + 1 < |s| {
      NeighboursConnect(s[..|s| - 1], edges, j, k);
    } else {
      F.ConnectedReflexive(edges, s[j]);
      if j < k {
        NeighboursConnect(s, edges, j, k - 1);
        F.ConnectedByEdge(edges, s[k], s[k - 1]);
        F.ConnectedSymmetric(edges, s[k], s[k - 1]);
        F.ConnectedTransitive(edges, s[j], s[k - 1], s[k]);
      }
    }
  }

  /** The blocks of one unit, joined pairwise. */
  method LinkUnit(linked: seq<string>, forest: F.Forest<string>, ghost edges: set<(string, string)>)
    requires forest.Valid() && forest.root.Keys == forest.parent.Keys && F.Decides(forest.root, edges)
    requires forall b | b in linked :: b in forest.parent
    modifies forest
    ensures forest.Valid() && forest.parent.Keys == forest.root.Keys == old(forest.parent.Keys)
    ensures F.Decides(forest.root, edges + Neighbours(linked))
  {
    hide F.Ranked, F.Decides, F.Merged;
    if |linked| < 2 { assert edges + Neighbours(linked) == edges; return; }
    assert Neighbours(linked[..1]) == {};
    assert edges + Neighbours(linked[..1]) == edges;
    for k := 1 to |linked|
      invariant forest.Valid() && forest.parent.Keys == forest.root.Keys == old(forest.parent.Keys)
      invariant F.Decides(forest.root, edges + Neighbours(linked[..k]))
    {
      OneNeighbourMore(linked, edges, k);
      F.MergeDecides(forest.root, edges + Neighbours(linked[..k]), linked[k], linked[k - 1]);
      forest.Union(linked[k], linked[k - 1]);
    }
    assert linked[..|linked|] == linked;
  }

  lemma {:induction false} OneNeighbourMore(linked: seq<string>, edges: set<(string, string)>, k: nat)
    requires 1 <= k < |linked|
    ensures edges + Neighbours(linked[..k + 1]) == edges + Neighbours(linked[..k]) + {(linked[k], linked[k - 1])}
  {
    assert linked[..k + 1][..k] == linked[..k];
  }

  /** The union-find over blocks: two blocks end up together exactly when units
      connect them. */
  method JoinBlocks(lines: seq<Line>, ids: seq<string>, groups: seq<U.HyphenGroup>) returns (forest: F.Forest<string>)
    ensures fresh(forest) && forest.Valid() && forest.parent.Keys == forest.root.Keys == Known(ids)
    ensures F.Decides(forest.root, UnitEdges(lines, Known(ids), groups))
  {
    hide F.Ranked, F.Decides, IndexById;
    var known := Known(ids);
    forest := new F.Forest(known);
    F.DecidesNothing(forest.root);
    for k := 0 to |groups|
      invariant fresh(forest) && forest.Valid() && forest.parent.Keys == forest.root.Keys == known
      invariant F.Decides(forest.root, UnitEdges(lines, known, groups[..k]))
    {
      assert groups[..k + 1][..k] == groups[..k];
      var linked := LinkedBlocks(lines, known, groups[k].members);
      LinkUnit(linked, forest, UnitEdges(lines, known, groups[..k]));
    }
    assert groups[..|groups|] == groups;
  }

  // ----- one group per class of blocks -----

  /** The blocks with one representative, in page order. */
  ghost function ClassIds(ids: seq<string>, root: map<string, string>, r: string): (c: seq<string>)
    ensures forall b :: b in c <==> b in ids && b in root && root[b] == r
    ensures Distinct(ids) ==> Distinct(c)
  {
    if ids == [] then []
    else
      var front, last := ids[..|ids| - 1], ids[|ids| - 1];
      assert ids == front + [last];
      var rest := ClassIds(front, root, r);
      if last in root && root[last] == r then rest + [last] else rest
  }

  ghost predicate RootsOf(ids: seq<string>, root: map<string, string>, roots: seq<string>) {
    && Distinct(roots)
    && (forall b | b in ids :: b in root && root[b] in roots)
    && forall r | r in roots :: exists b :: b in ids && b in root && root[b] == r
  }

  /** `seen_roots` and `groups`: the classes in the order their first blocks appear. */
  method GroupBlocks(ids: seq<string>, forest: F.Forest<string>) returns (roots: seq<string>, byRoot: map<string, seq<string>>)
    requires forest.Valid() && forest.parent.Keys == forest.root.Keys == Known(ids)
    modifies forest
    ensures forest.root == old(forest.root) && RootsOf(ids, forest.root, roots)
    ensures forall r :: r in byRoot <==> r in roots
    ensures forall r | r in roots :: byRoot[r] == ClassIds(ids, forest.root, r)
  {
    hide F.Ranked, ClassIds, Classed;
    roots, byRoot := [], map[];
    ghost var root := forest.root;
    NothingClassed(root);
    assert ids[..0] == [];
    for k := 0 to |ids|
      invariant forest.Valid() && forest.root == root && forest.parent.Keys == root.Keys == Known(ids)
      invariant Classed(ids[..k], root, roots, byRoot)
    {
      var r := forest.Find(ids[k]);
      ghost var before, byBefore := roots, byRoot;
      ClassedMore(ids, root, k, roots, byRoot);
      if r !in byRoot {
        roots := roots + [r];
        byRoot := byRoot[r := []];
      }
      byRoot := byRoot[r := byRoot[r] + [ids[k]]];
      assert byRoot == byBefore[r := (if r in byBefore then byBefore[r] else []) + [ids[k]]];
    }
    assert ids[..|ids|] == ids;
    ClassedIs(ids, root, roots, byRoot);
  }

  /** The classes of the ids seen, listed under their representatives. */
  ghost predicate Classed(ids: seq<string>, root: map<string, string>, roots: seq<string>, byRoot: map<string, seq<string>>) {
    && RootsOf(ids, root, roots) && (forall r :: r in byRoot <==> r in roots)
    && forall r | r in roots :: byRoot[r] == ClassIds(ids, root, r)
  }

  lemma NothingClassed(root: map<string, string>)
    ensures Classed([], root, [], map[])
  {
  }

  lemma ClassedIs(ids: seq<string>, root: map<string, string>, roots: seq<string>, byRoot: map<string, seq<string>>)
    requires Classed(ids, root, roots, byRoot)
    ensures RootsOf(ids, root, roots) && (forall r :: r in byRoot <==> r in roots)
    ensures forall r | r in roots :: byRoot[r] == ClassIds(ids, root, r)
  {
  }

  lemma {:induction false} ClassedMore(ids: seq<string>, root: map<string, string>, k: nat, roots: seq<string>, byRoot: map<string, seq<string>>)
    requires k < |ids| && ids[k] in root && Classed(ids[..k], root, roots, byRoot)
    ensures var r := root[ids[k]];
      Classed(ids[..k + 1], root, if r in byRoot then roots else roots + [r],
              byRoot[r := (if r in byRoot then byRoot[r] else []) + [ids[k]]])
  {
    var r := root[ids[k]];
    var more := if r in byRoot then roots else roots + [r];
    OneMoreRoot(ids, root, roots, k);
    MoreIn(roots, r);
    var front, now := ids[..k], ids[..k + 1];
    hide ClassIds, RootsOf;
    forall q | q in roots || q == r
      ensures ClassIds(now, root, q) == if q == r then (if q in byRoot then byRoot[q] else []) + [ids[k]] else byRoot[q]
    {
      ClassedAt(ids, root, k, roots, byRoot, q);
    }
    MoreClassed(now, root, roots, byRoot, r, more, ids[k]);
  }

  lemma MoreIn<T>(s: seq<T>, x: T)
    ensures forall y :: y in s + [x] <==> y in s || y == x
  {
  }

  lemma MoreClassed(ids: seq<string>, root: map<string, string>, roots: seq<string>, byRoot: map<string, seq<string>>, r: string,
                    more: seq<string>, id: string)
    requires (forall q :: q in byRoot <==> q in roots) && (forall q :: q in more <==> q in roots || q == r) && RootsOf(ids, root, more)
    requires forall q | q in roots || q == r :: ClassIds(ids, root, q) == if q == r then (if q in byRoot then byRoot[q] else []) + [id] else byRoot[q]
    ensures Classed(ids, root, more, byRoot[r := (if r in byRoot then byRoot[r] else []) + [id]])
  {
    hide ClassIds, RootsOf;
  }

  lemma {:induction false} ClassedAt(ids: seq<string>, root: map<string, string>, k: nat, roots: seq<string>, byRoot: map<string, seq<string>>, q: string)
    requires k < |ids| && ids[k] in root && Classed(ids[..k], root, roots, byRoot) && (q in roots || q == root[ids[k]])
    ensures q in roots || q == root[ids[k]]
    ensures q in byRoot <==> q in roots
    ensures ClassIds(ids[..k + 1], root, q) == if q == root[ids[k]] then (if q in byRoot then byRoot[q] else []) + [ids[k]] else byRoot[q]
  {
    ClassOfOneMore(ids, root, k, q);
    if q !in roots { NewRoot(ids[..k], root, roots, q); }
    hide ClassIds, RootsOf;
  }

  lemma {:induction false} NewRoot(ids: seq<string>, root: map<string, string>, roots: seq<string>, q: string)
    requires RootsOf(ids, root, roots) && q !in roots
    ensures ClassIds(ids, root, q) == []
  {
    hide ClassIds;
    NoneOfClass(ids, root, q);
  }

  lemma {:induction false} ClassOfOneMore(ids: seq<string>, root: map<string, string>, k: nat, q: string)
    requires k < |ids|
    ensures ClassIds(ids[..k + 1], root, q)
      == if ids[k] in root && root[ids[k]] == q then ClassIds(ids[..k], root, q) + [ids[k]] else ClassIds(ids[..k], root, q)
  {
    assert ids[..k + 1][..k] == ids[..k];
  }

  lemma {:induction false} NoneOfClass(ids: seq<string>, root: map<string, string>, q: string)
    requires forall b | b in ids :: b in root && root[b] != q
    ensures ClassIds(ids, root, q) == []
  {
    FirstIsIn(ClassIds(ids, root, q));
  }

  lemma {:induction false} OneMoreRoot(ids: seq<string>, root: map<string, string>, roots: seq<string>, k: nat)
    requires k < |ids| && ids[k] in root && RootsOf(ids[..k], root, roots)
    ensures RootsOf(ids[..k + 1], root, if root[ids[k]] in roots then roots else roots + [root[ids[k]]])
  {
    assert ids[..k + 1] == ids[..k] + [ids[k]];
    assert ids[k] in ids[..k + 1];
  }

  // ----- the plan -----

  function LinesOfIds(bl: map<string, seq<nat>>, ids: seq<string>): seq<nat> {
    if ids == [] then []
    else
      var last := ids[|ids| - 1];
      LinesOfIds(bl, ids[..|ids| - 1]) + (if last in bl then bl[last] else [])
  }

  ghost function GroupAt(lines: seq<Line>, blocks: seq<Block>, root: map<string, string>, r: string): Group {
    var cls := ClassIds(BlockIds(blocks), root, r);
    Group(cls, LinesOfIds(BlockLines(IndexById(lines), blocks), cls))
  }

  /** One group per class of unit-connected blocks, in page order. */
  ghost predicate Grouped(lines: seq<Line>, blocks: seq<Block>, groups: seq<U.HyphenGroup>,
                          root: map<string, string>, roots: seq<string>, grouped: seq<Group>) {
    && F.Decides(root, UnitEdges(lines, Known(BlockIds(blocks)), groups))
    && RootsOf(BlockIds(blocks), root, roots)
    && |grouped| == |roots| && forall k | 0 <= k < |grouped| :: grouped[k] == GroupAt(lines, blocks, root, roots[k])
  }

  /** Chunks made of consecutive groups; as few as the budgets allow when
      coalescing, one per group otherwise. */
  ghost predicate ChunksFrom(lines: seq<Line>, cfg: Config, grouped: seq<Group>, out: seq<Group>, chunks: seq<Chunk>) {
    && |chunks| == |out| && (forall k | 0 <= k < |out| :: chunks[k] == Chunk(BlockGrain, out[k].lines, out[k].lines))
    && (forall k | 0 <= k < |out| :: Fits(lines, cfg, out[k].lines))
    && exists runs :: Coarsens(lines, cfg, grouped, runs, out)
  }

  ghost predicate Coarsens(lines: seq<Line>, cfg: Config, grouped: seq<Group>, runs: seq<seq<Group>>, out: seq<Group>) {
    && Flatten(runs) == grouped && (forall k | 0 <= k < |runs| :: runs[k] != [])
    && |out| == |runs| && (forall k | 0 <= k < |out| :: out[k] == Merge(runs[k]))
    && if cfg.coalesce then Best(lines, cfg, grouped, runs) else forall k | 0 <= k < |runs| :: |runs[k]| == 1
  }

  /** The lines of each class, unless one breaks a budget. */
  method GroupsWithinBudget(lines: seq<Line>, cfg: Config, bl: map<string, seq<nat>>, roots: seq<string>,
                            byRoot: map<string, seq<string>>, ghost grouped: seq<Group>) returns (made: Option<seq<Group>>)
    requires |grouped| == |roots|
    requires forall k | 0 <= k < |roots| ::
      roots[k] in byRoot && grouped[k] == Group(byRoot[roots[k]], LinesOfIds(bl, byRoot[roots[k]]))
    ensures made.None? <==> exists k :: 0 <= k < |grouped| && !Fits(lines, cfg, grouped[k].lines)
    ensures made.Some? ==> made.value == grouped
  {
    hide Fits;
    var done: seq<Group> := [];
    for k := 0 to |roots|
      invariant done == grouped[..k] && forall j | 0 <= j < k :: Fits(lines, cfg, grouped[j].lines)
    {
      var g := Group(byRoot[roots[k]], LinesOfIds(bl, byRoot[roots[k]]));
      assert g == grouped[k];
      if !Fits(lines, cfg, g.lines) { return None; }
      done := done + [g];
    }
    assert done == grouped;
    made := Some(done);
  }

  /** One chunk per merged group. */
  method Package(out: seq<Group>) returns (chunks: seq<Chunk>)
    ensures |chunks| == |out| && forall k | 0 <= k < |out| :: chunks[k] == Chunk(BlockGrain, out[k].lines, out[k].lines)
  {
    chunks := [];
    for k := 0 to |out|
      invariant |chunks| == k && forall j | 0 <= j < k :: chunks[j] == Chunk(BlockGrain, out[j].lines, out[j].lines)
    {
      chunks := chunks + [Chunk(BlockGrain, out[k].lines, out[k].lines)];
    }
  }

  method MergeGroups(lines: seq<Line>, cfg: Config, grouped: seq<Group>) returns (out: seq<Group>)
    requires forall k | 0 <= k < |grouped| :: Fits(lines, cfg, grouped[k].lines)
    ensures forall k | 0 <= k < |out| :: Fits(lines, cfg, out[k].lines)
    ensures exists runs :: Coarsens(lines, cfg, grouped, runs, out)
  {
    hide Fits, Coarsens;
    if cfg.coalesce {
      ghost var runs;
      out, runs := Coalesce(lines, cfg, grouped);
      MergeCoarsens(lines, cfg, grouped, runs, out);
    } else {
      out := grouped;
      KeptApart(lines, cfg, grouped);
    }
  }

  /** `_try_block`: refuses exactly when there is no block or some class of
      unit-connected blocks breaks a budget. */
  method TryBlock(lines: seq<Line>, blocks: seq<Block>, cfg: Config)
    returns (plan: Option<seq<Chunk>>, ghost groups: seq<U.HyphenGroup>, ghost root: map<string, string>,
             ghost roots: seq<string>, ghost grouped: seq<Group>, ghost out: seq<Group>)
    ensures U.IsGrouping(ByRef(lines), groups) && Grouped(lines, blocks, groups, root, roots, grouped)
    ensures root.Keys == Known(BlockIds(blocks))
    ensures plan.None? <==> blocks == [] || exists k :: 0 <= k < |grouped| && !Fits(lines, cfg, grouped[k].lines)
    ensures plan.Some? ==> ChunksFrom(lines, cfg, grouped, out, plan.value) && plan.value != []
  {
    hide U.IsGrouping, Fits, F.Decides, F.Ranked, Coarsens, IndexById, BlockLines, RootsOf;
    var bl := BlockLines(IndexById(lines), blocks);
    var ids := BlockIds(blocks);
    var units := U.DeriveHyphenGroups(lines);
    var forest := JoinBlocks(lines, ids, units);
    var seen, byRoot := GroupBlocks(ids, forest);
    groups, root, roots, out := units, forest.root, seen, [];
    grouped := seq(|roots|, k requires 0 <= k < |roots| => GroupAt(lines, blocks, root, roots[k]));
    var made := GroupsWithinBudget(lines, cfg, bl, seen, byRoot, grouped);
    if made.None? { return None, groups, root, roots, grouped, out; }
    var merged := MergeGroups(lines, cfg, made.value);
    out := merged;
    var chunks := Package(merged);
    SomeChunks(lines, cfg, blocks, root, roots, grouped, merged);
    if chunks == [] { return None, groups, root, roots, grouped, out; }
    plan := Some(chunks);
  }

  lemma {:induction false} MergeCoarsens(lines: seq<Line>, cfg: Config, grouped: seq<Group>, runs: seq<seq<Group>>, out: seq<Group>)
    requires cfg.coalesce && IsMerge(lines, cfg, grouped, runs) && Best(lines, cfg, grouped, runs)
    requires |out| == |runs| && forall k | 0 <= k < |out| :: out[k] == Merge(runs[k])
    ensures Coarsens(lines, cfg, grouped, runs, out)
  {
  }

  lemma {:induction false} KeptApart(lines: seq<Line>, cfg: Config, grouped: seq<Group>)
    requires !cfg.coalesce
    ensures exists runs :: Coarsens(lines, cfg, grouped, runs, grouped)
  {
    var runs := seq(|grouped|, k requires 0 <= k < |grouped| => [grouped[k]]);
    Singletons(grouped, runs);
    forall k | 0 <= k < |grouped| ensures grouped[k] == Merge(runs[k]) { MergeOne(grouped[k]); }
    assert Coarsens(lines, cfg, grouped, runs, grouped);
  }

  lemma {:induction false} Singletons(grouped: seq<Group>, runs: seq<seq<Group>>)
    requires |runs| == |grouped| && forall k | 0 <= k < |runs| :: runs[k] == [grouped[k]]
    ensures Flatten(runs) == grouped
  {
    if runs != [] {
      Singletons(grouped[..|grouped| - 1], runs[..|runs| - 1]);
    }
  }

  /** A page with blocks has at least one chunk. */
  lemma {:induction false} SomeChunks(lines: seq<Line>, cfg: Config, blocks: seq<Block>, root: map<string, string>,
                                      roots: seq<string>, grouped: seq<Group>, out: seq<Group>)
    requires RootsOf(BlockIds(blocks), root, roots) && |grouped| == |roots|
    requires exists runs :: Coarsens(lines, cfg, grouped, runs, out)
    ensures out == [] <==> blocks == []
  {
    var runs :| Coarsens(lines, cfg, grouped, runs, out);
    if blocks != [] {
      assert BlockIds(blocks)[0] in BlockIds(blocks);
      assert root[BlockIds(blocks)[0]] in roots;
    } else {
      FirstIsIn(roots);
    }
  }

  // ----- what a plan keeps -----

  /** The blocks list every line of the page once. */
  ghost predicate PartitionedBy(lines: seq<Line>, blocks: seq<Block>) {
    && UniqueIds(lines) && Distinct(BlockIds(blocks))
    && (forall b | 0 <= b < |blocks| :: Distinct(blocks[b].lineIds))
    && (forall b, c, id | 0 <= b < c < |blocks| && id in blocks[b].lineIds :: id !in blocks[c].lineIds)
    && forall p | 0 <= p < |lines| :: Listed(blocks, lines[p].ref.line)
  }

  ghost predicate Listed(blocks: seq<Block>, id: string) {
    exists b :: 0 <= b < |blocks| && id in blocks[b].lineIds
  }

  lemma {:induction false} FoundFacts(lines: seq<Line>, ids: seq<string>, p: nat)
    requires UniqueIds(lines)
    ensures p in Found(IndexById(lines), ids) <==> p < |lines| && lines[p].ref.line in ids
    ensures Distinct(ids) ==> Distinct(Found(IndexById(lines), ids))
  {
    hide IndexById, UniqueIds;
    var index := IndexById(lines);
    if ids != [] {
      var front, last := ids[..|ids| - 1], ids[|ids| - 1];
      assert ids == front + [last];
      FoundFacts(lines, front, p);
      if p < |lines| { UniqueIndex(lines, p); }
      if last in index { FoundFacts(lines, front, index[last]); }
    }
  }

  lemma {:induction false} BlockLinesAt(index: map<string, nat>, blocks: seq<Block>, b: nat)
    requires Distinct(BlockIds(blocks)) && b < |blocks|
    ensures blocks[b].id in BlockLines(index, blocks)
    ensures BlockLines(index, blocks)[blocks[b].id] == Found(index, blocks[b].lineIds)
  {
    var n := |blocks| - 1;
    assert BlockIds(blocks)[..n] == BlockIds(blocks[..n]);
    if b < n {
      BlockLinesAt(index, blocks[..n], b);
      assert BlockIds(blocks)[b] != BlockIds(blocks)[n];
    }
  }

  /** The positions a map of blocks holds: each block's are distinct and no
      position is in two blocks. */
  ghost predicate Separate(bl: map<string, seq<nat>>) {
    && (forall b | b in bl :: Distinct(bl[b]))
    && forall b, c, p | b in bl && c in bl && p in bl[b] && p in bl[c] :: b == c
  }

  lemma {:induction false} BlockHas(lines: seq<Line>, blocks: seq<Block>, b: nat, p: nat)
    requires PartitionedBy(lines, blocks) && b < |blocks|
    ensures var bl := BlockLines(IndexById(lines), blocks);
      && blocks[b].id in bl && Distinct(bl[blocks[b].id])
      && (p in bl[blocks[b].id] <==> p < |lines| && lines[p].ref.line in blocks[b].lineIds)
  {
    hide IndexById, BlockLines, UniqueIds, Listed;
    BlockLinesAt(IndexById(lines), blocks, b);
    FoundFacts(lines, blocks[b].lineIds, p);
  }

  lemma {:induction false} BlockOf(blocks: seq<Block>, id: string) returns (b: nat)
    requires id in BlockIds(blocks)
    ensures b < |blocks| && blocks[b].id == id
  {
    b :| b < |blocks| && BlockIds(blocks)[b] == id;
  }

  lemma {:induction false} BlocksSeparate(lines: seq<Line>, blocks: seq<Block>)
    requires PartitionedBy(lines, blocks)
    ensures Separate(BlockLines(IndexById(lines), blocks))
  {
    hide IndexById, BlockLines;
    var bl := BlockLines(IndexById(lines), blocks);
    forall b | b in bl ensures Distinct(bl[b]) {
      var i := BlockOf(blocks, b);
      BlockHas(lines, blocks, i, 0);
    }
    forall b, c, p | b in bl && c in bl && p in bl[b] && p in bl[c] ensures b == c {
      OneBlock(lines, blocks, b, c, p);
    }
  }

  lemma {:induction false} OneBlock(lines: seq<Line>, blocks: seq<Block>, b: string, c: string, p: nat)
    requires PartitionedBy(lines, blocks)
    requires var bl := BlockLines(IndexById(lines), blocks); b in bl && c in bl && p in bl[b] && p in bl[c]
    ensures b == c
  {
    hide IndexById, BlockLines, UniqueIds, Listed;
    var i := BlockOf(blocks, b);
    var j := BlockOf(blocks, c);
    BlockHas(lines, blocks, i, p);
    BlockHas(lines, blocks, j, p);
  }

  lemma {:induction false} UniqueIndex(lines: seq<Line>, p: nat)
    requires UniqueIds(lines) && p < |lines|
    ensures lines[p].ref.line in IndexById(lines) && IndexById(lines)[lines[p].ref.line] == p
  {
    hide IndexById;
    assert lines[IndexById(lines)[lines[p].ref.line]].ref.line == lines[p].ref.line;
  }

  lemma {:induction false} LinesOfIdsFacts(bl: map<string, seq<nat>>, ids: seq<string>)
    requires Separate(bl) && Distinct(ids)
    ensures Distinct(LinesOfIds(bl, ids))
    ensures forall p :: p in LinesOfIds(bl, ids) <==> exists b :: b in ids && b in bl && p in bl[b]
  {
    if ids != [] {
      var front, last := ids[..|ids| - 1], ids[|ids| - 1];
      assert ids == front + [last];
      LinesOfIdsFacts(bl, front);
      DistinctConcat(LinesOfIds(bl, front), if last in bl then bl[last] else []);
    }
  }

  // ----- conservation -----

  function PlacesOf(gs: seq<Group>): (ss: seq<seq<nat>>)
    ensures |ss| == |gs| && forall k | 0 <= k < |ss| :: ss[k] == gs[k].lines
  {
    seq(|gs|, k requires 0 <= k < |gs| => gs[k].lines)
  }

  lemma {:induction false} MergeIsFlatten(gs: seq<Group>)
    ensures Merge(gs).lines == Flatten(PlacesOf(gs))
  {
    if gs != [] {
      MergeIsFlatten(gs[..|gs| - 1]);
      assert PlacesOf(gs)[..|gs| - 1] == PlacesOf(gs[..|gs| - 1]);
    }
  }

  /** A position is in the group of its block's class and in no other. */
  lemma {:induction false} InGroup(lines: seq<Line>, blocks: seq<Block>, root: map<string, string>, r: string, b: nat, p: nat)
    requires PartitionedBy(lines, blocks) && b < |blocks| && p < |lines| && lines[p].ref.line in blocks[b].lineIds
    requires blocks[b].id in root
    ensures p in GroupAt(lines, blocks, root, r).lines <==> root[blocks[b].id] == r
  {
    hide IndexById, BlockLines, UniqueIds, Listed, Separate, ClassIds, LinesOfIds;
    var bl := BlockLines(IndexById(lines), blocks);
    var cls := ClassIds(BlockIds(blocks), root, r);
    BlocksSeparate(lines, blocks);
    LinesOfIdsFacts(bl, cls);
    BlockHas(lines, blocks, b, p);
    assert blocks[b].id in BlockIds(blocks) by { assert BlockIds(blocks)[b] == blocks[b].id; }
    if p in LinesOfIds(bl, cls) {
      var c :| c in cls && c in bl && p in bl[c];
      OneBlock(lines, blocks, blocks[b].id, c, p);
    }
  }

  /** Whatever the units, the groups list each line of the page once. */
  lemma {:induction false} GroupsListThePage(lines: seq<Line>, blocks: seq<Block>, groups: seq<U.HyphenGroup>,
                                             root: map<string, string>, roots: seq<string>, grouped: seq<Group>)
    requires PartitionedBy(lines, blocks) && Grouped(lines, blocks, groups, root, roots, grouped)
    ensures Distinct(Merge(grouped).lines) && forall p: nat :: p in Merge(grouped).lines <==> p < |lines|
  {
    hide IndexById, BlockLines, UniqueIds, Separate, ClassIds, LinesOfIds, Merge, Flatten, F.Decides, PartitionedBy, GroupAt;
    var ss := PlacesOf(grouped);
    MergeIsFlatten(grouped);
    forall k | 0 <= k < |ss| ensures Distinct(ss[k]) && forall p | p in ss[k] :: p < |lines| {
      GroupInPage(lines, blocks, root, roots[k]);
    }
    forall j, k, p | 0 <= j < k < |ss| && p in ss[j] ensures p !in ss[k] {
      var b := HolderOf(lines, blocks, root, roots, p);
      InGroup(lines, blocks, root, roots[j], b, p);
      InGroup(lines, blocks, root, roots[k], b, p);
    }
    FlattenDistinct(ss);
    forall p: nat ensures p in Merge(grouped).lines <==> p < |lines| {
      FlattenIn(ss, p);
      if p < |lines| {
        var b := HolderOf(lines, blocks, root, roots, p);
        var k :| 0 <= k < |roots| && roots[k] == root[blocks[b].id];
        InGroup(lines, blocks, root, roots[k], b, p);
        assert p in ss[k];
      }
    }
  }

  lemma {:induction false} GroupInPage(lines: seq<Line>, blocks: seq<Block>, root: map<string, string>, r: string)
    requires PartitionedBy(lines, blocks)
    ensures Distinct(GroupAt(lines, blocks, root, r).lines)
    ensures forall p | p in GroupAt(lines, blocks, root, r).lines :: p < |lines|
  {
    hide IndexById, BlockLines, UniqueIds, Listed, Separate, ClassIds, LinesOfIds;
    var bl := BlockLines(IndexById(lines), blocks);
    var cls := ClassIds(BlockIds(blocks), root, r);
    BlocksSeparate(lines, blocks);
    LinesOfIdsFacts(bl, cls);
    forall p | p in LinesOfIds(bl, cls) ensures p < |lines| {
      var c :| c in cls && c in bl && p in bl[c];
      var i := BlockOf(blocks, c);
      BlockHas(lines, blocks, i, p);
    }
  }

  lemma {:induction false} HolderOf(lines: seq<Line>, blocks: seq<Block>, root: map<string, string>, roots: seq<string>, p: nat)
    returns (b: nat)
    requires PartitionedBy(lines, blocks) && RootsOf(BlockIds(blocks), root, roots) && p < |lines|
    ensures b < |blocks| && lines[p].ref.line in blocks[b].lineIds && blocks[b].id in root && root[blocks[b].id] in roots
  {
    assert Listed(blocks, lines[p].ref.line);
    b :| b < |blocks| && lines[p].ref.line in blocks[b].lineIds;
    assert BlockIds(blocks)[b] in BlockIds(blocks);
  }

  /** BLOCK plans conserve: when the blocks partition the page, every line is a
      target of exactly one chunk, coalesced or not. */
  lemma {:induction false} BlocksConserve(lines: seq<Line>, blocks: seq<Block>, cfg: Config, groups: seq<U.HyphenGroup>,
                                          root: map<string, string>, roots: seq<string>, grouped: seq<Group>, out: seq<Group>,
                                          chunks: seq<Chunk>)
    requires PartitionedBy(lines, blocks) && Grouped(lines, blocks, groups, root, roots, grouped)
    requires ChunksFrom(lines, cfg, grouped, out, chunks)
    ensures Conserves(|lines|, chunks)
  {
    hide PartitionedBy, Grouped, Merge, Flatten, Fits, Best;
    GroupsListThePage(lines, blocks, groups, root, roots, grouped);
    var runs :| Coarsens(lines, cfg, grouped, runs, out);
    MergeOfMerges(runs, out);
    MergeIsFlatten(out);
    assert LinesOf(chunks) == PlacesOf(out);
    ListingConserves(|lines|, chunks);
  }

  // ----- units -----

  /** A listed line names the block that lists it. */
  ghost predicate Labelled(lines: seq<Line>, blocks: seq<Block>) {
    forall b, p | 0 <= b < |blocks| && 0 <= p < |lines| && lines[p].ref.line in blocks[b].lineIds :: lines[p].block == blocks[b].id
  }

  lemma {:induction false} LinkedHas(lines: seq<Line>, known: set<string>, members: seq<LineRef>, p: nat)
    requires UniqueIds(lines) && p < |lines| && lines[p].ref in members && lines[p].block in known
    ensures lines[p].block in LinkedBlocks(lines, known, members)
  {
    hide IndexById;
    UniqueIndex(lines, p);
    var front, last := members[..|members| - 1], members[|members| - 1];
    assert members == front + [last];
    if last != lines[p].ref { LinkedHas(lines, known, front, p); }
  }

  lemma {:induction false} UnitEdgesOf(lines: seq<Line>, known: set<string>, groups: seq<U.HyphenGroup>, g: U.HyphenGroup)
    requires g in groups
    ensures Neighbours(LinkedBlocks(lines, known, g.members)) <= UnitEdges(lines, known, groups)
  {
    hide LinkedBlocks, Neighbours;
    var front, last := groups[..|groups| - 1], groups[|groups| - 1];
    assert groups == front + [last];
    if g != last { UnitEdgesOf(lines, known, front, g); }
  }

  lemma {:induction false} UnitConnects(lines: seq<Line>, known: set<string>, groups: seq<U.HyphenGroup>, g: U.HyphenGroup,
                                        root: map<string, string>, p: nat, q: nat)
    requires UniqueIds(lines) && p < |lines| && q < |lines| && g in groups
    requires lines[p].ref in g.members && lines[q].ref in g.members && lines[p].block in known && lines[q].block in known
    requires F.Decides(root, UnitEdges(lines, known, groups)) && root.Keys == known
    ensures root[lines[p].block] == root[lines[q].block]
  {
    hide UniqueIds, LinkedBlocks, Neighbours, UnitEdges;
    var linked, edges := LinkedBlocks(lines, known, g.members), UnitEdges(lines, known, groups);
    LinkedHas(lines, known, g.members, p);
    LinkedHas(lines, known, g.members, q);
    UnitEdgesOf(lines, known, groups, g);
    var i: nat :| i < |linked| && linked[i] == lines[p].block;
    var j: nat :| j < |linked| && linked[j] == lines[q].block;
    if i <= j {
      NeighboursConnect(linked, edges, i, j);
    } else {
      NeighboursConnect(linked, edges, j, i);
    }
  }

  /** The lines of one unit are in one group ... */
  lemma {:induction false} UnitInOneGroup(lines: seq<Line>, blocks: seq<Block>, groups: seq<U.HyphenGroup>, g: U.HyphenGroup,
                                          root: map<string, string>, roots: seq<string>, grouped: seq<Group>, p: nat, q: nat)
    returns (k: nat)
    requires PartitionedBy(lines, blocks) && Labelled(lines, blocks) && root.Keys == Known(BlockIds(blocks))
    requires Grouped(lines, blocks, groups, root, roots, grouped) && g in groups
    requires p < |lines| && q < |lines| && lines[p].ref in g.members && lines[q].ref in g.members
    ensures k < |grouped| && p in grouped[k].lines && q in grouped[k].lines
  {
    hide PartitionedBy, Labelled, F.Decides, GroupAt, UnitEdges;
    var b := HolderOf(lines, blocks, root, roots, p);
    var c := HolderOf(lines, blocks, root, roots, q);
    LabelOf(lines, blocks, b, p);
    LabelOf(lines, blocks, c, q);
    UnitConnects(lines, Known(BlockIds(blocks)), groups, g, root, p, q);
    k :| 0 <= k < |roots| && roots[k] == root[blocks[b].id];
    InGroup(lines, blocks, root, roots[k], b, p);
    InGroup(lines, blocks, root, roots[k], c, q);
  }

  lemma LabelOf(lines: seq<Line>, blocks: seq<Block>, b: nat, p: nat)
    requires PartitionedBy(lines, blocks) && Labelled(lines, blocks) && b < |blocks| && p < |lines|
    requires lines[p].ref.line in blocks[b].lineIds
    ensures lines[p].block == blocks[b].id && UniqueIds(lines)
  {
  }

  /** ... and so in one chunk: no BLOCK plan splits a unit between requests. */
  lemma {:induction false} UnitInOneChunk(lines: seq<Line>, blocks: seq<Block>, cfg: Config, groups: seq<U.HyphenGroup>,
                                          g: U.HyphenGroup, root: map<string, string>, roots: seq<string>, grouped: seq<Group>,
                                          out: seq<Group>, chunks: seq<Chunk>, p: nat, q: nat) returns (c: nat)
    requires PartitionedBy(lines, blocks) && Labelled(lines, blocks) && root.Keys == Known(BlockIds(blocks))
    requires Grouped(lines, blocks, groups, root, roots, grouped) && g in groups && ChunksFrom(lines, cfg, grouped, out, chunks)
    requires p < |lines| && q < |lines| && lines[p].ref in g.members && lines[q].ref in g.members
    ensures c < |chunks| && p in chunks[c].targets && q in chunks[c].targets
  {
    hide PartitionedBy, Labelled, Grouped, Merge, Flatten, Fits, Best;
    var k := UnitInOneGroup(lines, blocks, groups, g, root, roots, grouped, p, q);
    var runs :| Coarsens(lines, cfg, grouped, runs, out);
    assert grouped[k] in Flatten(runs);
    FlattenIn(runs, grouped[k]);
    c :| 0 <= c < |runs| && grouped[k] in runs[c];
    MergeHas(runs[c], grouped[k], p);
    MergeHas(runs[c], grouped[k], q);
  }

  lemma {:induction false} MergeHas(run: seq<Group>, g: Group, p: nat)
    requires g in run && p in g.lines
    ensures p in Merge(run).lines
  {
    var front, last := run[..|run| - 1], run[|run| - 1];
    assert run == front + [last];
    if g != last { MergeHas(front, g, p); }
  }
}

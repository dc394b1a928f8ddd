/** `_try_window`, `_unit_reach` and `_assign_window_targets` (`planner.py`). */
module WindowPlanner {
  import opened Prelude
  import opened Manifest
  import opened Chunks
  import U = Units
  import F = UnionFind

  function Max(x: int, y: int): int { if x >= y then x else y }
  function Min(x: int, y: int): int { if x <= y then x else y }

  /** Lines [start, end), of which [start, core) were taken by size and budget. */
  datatype Window = Window(start: nat, core: nat, end: nat)

  predicate Holds(w: Window, p: nat) {
    w.start <= p < w.end
  }

  // ----- one window -----

  ghost predicate Leaves(lines: seq<Line>, start: nat, end: nat, p: nat, reach: nat)
    requires end <= |lines|
  {
    start <= p < end && NextAt(lines, p).Some? && NextAt(lines, p).value == reach && reach >= end
  }

  /** `_unit_reach`: the end a window needs to hold every link that leaves it. */
  method UnitReach(lines: seq<Line>, index: map<string, nat>, start: nat, end: nat) returns (reach: nat)
    requires start <= end <= |lines| && index == IndexById(lines)
    ensures end <= reach <= |lines|
    ensures forall p: nat, q: nat | Leaves(lines, start, end, p, q) :: q < reach
    ensures reach > end ==> exists p: nat, q: nat :: Leaves(lines, start, end, p, q) && reach == q + 1
  {
    hide IndexById;
    reach := end;
    for position := start to end
      invariant end <= reach <= |lines|
      invariant forall p: nat, q: nat | Leaves(lines, start, end, p, q) && p < position :: q < reach
      invariant reach > end ==> exists p: nat, q: nat :: Leaves(lines, start, end, p, q) && reach == q + 1
    {
      var partner := PartnerId(lines[position]);
      if partner == "" { continue; }
      if partner !in index || index[partner] < end { continue; }
      var at := index[partner];
      assert Leaves(lines, start, end, position, at);
      reach := if reach >= at + 1 then reach else at + 1;
    }
  }

  /** How far hyphen units may stretch a window. */
  function Limit(n: nat, cfg: Config, start: nat, core: nat): nat
    requires start <= core
  {
    Min(n, start + Max(cfg.maxLines, core - start + 10))
  }

  ghost predicate SumFits(lines: seq<Line>, cfg: Config, start: nat, core: nat)
    requires start <= core <= |lines|
  {
    core == start + 1 || TotalChars(lines[start..core]) <= cfg.maxChars
  }

  /** The size of the core is forced: the next line would break a bound. */
  ghost predicate CoreIsMaximal(lines: seq<Line>, cfg: Config, start: nat, core: nat)
    requires start <= core <= |lines|
  {
    core == Min(start + cfg.windowSize, |lines|)
    || (core < |lines| && TotalChars(lines[start..core]) + |lines[core].ocr| > cfg.maxChars)
  }

  ghost predicate SomeLeaves(lines: seq<Line>, start: nat, end: nat)
    requires end <= |lines|
  {
    exists p: nat, q: nat :: Leaves(lines, start, end, p, q)
  }

  /** A window goes no further than its links ask: wherever short of its end it
      could have stopped, a link leaves it. */
  ghost predicate NoFurther(lines: seq<Line>, start: nat, core: nat, end: nat) {
    forall e: nat | core <= e < end && e <= |lines| :: SomeLeaves(lines, start, e)
  }

  ghost predicate WindowOk(lines: seq<Line>, cfg: Config, w: Window) {
    && w.start < w.core <= w.end <= |lines|
    && w.core <= w.start + cfg.windowSize
    && SumFits(lines, cfg, w.start, w.core) && CoreIsMaximal(lines, cfg, w.start, w.core)
    && w.end <= Limit(|lines|, cfg, w.start, w.core)
    && (w.end == Limit(|lines|, cfg, w.start, w.core) || !SomeLeaves(lines, w.start, w.end))
    && NoFurther(lines, w.start, w.core, w.end)
  }

  lemma NoChars(lines: seq<Line>)
    requires lines == []
    ensures TotalChars(lines) == 0
  {
  }

  method Core(lines: seq<Line>, cfg: Config, start: nat) returns (core: nat)
    requires cfg.Valid() && start < |lines|
    ensures start < core <= |lines| && core <= start + cfg.windowSize
    ensures SumFits(lines, cfg, start, core) && CoreIsMaximal(lines, cfg, start, core)
  {
    hide TotalChars;
    var chars := |lines[start].ocr|;
    core := start + 1;
    TotalCharsSnoc(lines, start, start);
    assert TotalChars(lines[start..start]) == 0 by { NoChars(lines[start..start]); }
    while core < Min(start + cfg.windowSize, |lines|)
      invariant start < core <= Min(start + cfg.windowSize, |lines|)
      invariant chars == TotalChars(lines[start..core]) && SumFits(lines, cfg, start, core)
    {
      var c := |lines[core].ocr|;
      if chars + c > cfg.maxChars { break; }
      TotalCharsSnoc(lines, start, core);
      chars := chars + c;
      core := core + 1;
    }
  }

  /** The extension loop of `_try_window`. */
  method Extend(lines: seq<Line>, index: map<string, nat>, cfg: Config, start: nat, core: nat) returns (end: nat)
    requires index == IndexById(lines) && start < core <= |lines|
    ensures core <= end <= Limit(|lines|, cfg, start, core)
    ensures end == Limit(|lines|, cfg, start, core) || !SomeLeaves(lines, start, end)
    ensures NoFurther(lines, start, core, end)
  {
    hide IndexById;
    end := core;
    var maxEnd := Limit(|lines|, cfg, start, core);
    while end < maxEnd
      invariant core <= end <= maxEnd && NoFurther(lines, start, core, end)
    {
      var reach := UnitReach(lines, index, start, end);
      if reach <= end {
        assert !SomeLeaves(lines, start, end);
        break;
      }
      StillLeaves(lines, start, core, end, reach);
      end := Min(reach, maxEnd);
    }
  }

  lemma {:induction false} StillLeaves(lines: seq<Line>, start: nat, core: nat, end: nat, reach: nat)
    requires end < reach <= |lines| && NoFurther(lines, start, core, end)
    requires exists p: nat, q: nat :: Leaves(lines, start, end, p, q) && reach == q + 1
    ensures NoFurther(lines, start, core, reach)
  {
    var p: nat, q: nat :| Leaves(lines, start, end, p, q) && reach == q + 1;
    forall e: nat | core <= e < reach ensures SomeLeaves(lines, start, e) {
      if e >= end { assert Leaves(lines, start, e, p, q); }
    }
  }

  /** The next window starts after this one and not past its core. */
  function NextStart(n: nat, cfg: Config, start: nat, core: nat): int {
    var next := if core < Min(start + cfg.windowSize, n)
                then Max(start + 1, core - cfg.overlap)
                else start + (cfg.windowSize - cfg.overlap);
    if next <= start then start + 1 else next
  }

  /** The windows step through the page: the first at 0, each next one where
      `NextStart` says, the last one's successor past the end. */
  ghost predicate Chain(lines: seq<Line>, cfg: Config, windows: seq<Window>, from: int) {
    if windows == [] then from == 0
    else
      var last := windows[|windows| - 1];
      && WindowOk(lines, cfg, last)
      && from == NextStart(|lines|, cfg, last.start, last.core)
      && Chain(lines, cfg, windows[..|windows| - 1], last.start)
  }

  ghost predicate Complete(lines: seq<Line>, cfg: Config, windows: seq<Window>) {
    exists from :: from >= |lines| && Chain(lines, cfg, windows, from)
  }

  /** The loop of `_try_window`: it terminates whatever the overlap. */
  method CutWindows(lines: seq<Line>, cfg: Config) returns (windows: seq<Window>)
    requires cfg.Valid()
    ensures Complete(lines, cfg, windows)
  {
    hide WindowOk, SumFits, CoreIsMaximal, IndexById;
    var index := IndexById(lines);
    windows := [];
    var start: int := 0;
    while start < |lines|
      invariant start >= 0 && Chain(lines, cfg, windows, start)
      decreases |lines| - start
    {
      var core := Core(lines, cfg, start);
      var end := Extend(lines, index, cfg, start, core);
      assert WindowOk(lines, cfg, Window(start, core, end)) by { Ok(lines, cfg, Window(start, core, end)); }
      var budgetBound := core < Min(start + cfg.windowSize, |lines|);
      var nextStart;
      if budgetBound {
        nextStart := Max(start + 1, core - cfg.overlap);
      } else {
        nextStart := start + (cfg.windowSize - cfg.overlap);
      }
      if nextStart <= start {
        nextStart := start + 1;
      }
      assert (windows + [Window(start, core, end)])[..|windows|] == windows;
      windows := windows + [Window(start, core, end)];
      start := nextStart;
    }
  }

  lemma {:induction false} Ok(lines: seq<Line>, cfg: Config, w: Window)
    requires w.start < w.core <= w.end <= |lines| && w.core <= w.start + cfg.windowSize
    requires SumFits(lines, cfg, w.start, w.core) && CoreIsMaximal(lines, cfg, w.start, w.core)
    requires w.end <= Limit(|lines|, cfg, w.start, w.core)
    requires w.end == Limit(|lines|, cfg, w.start, w.core) || !SomeLeaves(lines, w.start, w.end)
    requires NoFurther(lines, w.start, w.core, w.end)
    ensures WindowOk(lines, cfg, w)
  {
  }

  // ----- the windows cover the page -----

  lemma {:induction false} NextStartBound(lines: seq<Line>, cfg: Config, w: Window)
    requires cfg.Valid() && WindowOk(lines, cfg, w)
    ensures w.start < NextStart(|lines|, cfg, w.start, w.core)
    ensures NextStart(|lines|, cfg, w.start, w.core) <= w.core || w.core == |lines|
  {
  }

  /** Some window's core holds p; it is the last one that starts at or before p. */
  lemma {:induction false} CoreHolds(lines: seq<Line>, cfg: Config, windows: seq<Window>, from: int, p: nat) returns (k: nat)
    requires cfg.Valid() && Chain(lines, cfg, windows, from) && p < from && p < |lines|
    ensures k < |windows| && WindowOk(lines, cfg, windows[k]) && windows[k].start <= p < windows[k].core
    decreases |windows|
  {
    var last := windows[|windows| - 1];
    NextStartBound(lines, cfg, last);
    if last.start <= p {
      k := |windows| - 1;
    } else {
      k := CoreHolds(lines, cfg, windows[..|windows| - 1], last.start, p);
    }
  }

  /** Starts increase along the list. */
  lemma {:induction false} StartsIncrease(lines: seq<Line>, cfg: Config, windows: seq<Window>, from: int)
    requires cfg.Valid() && Chain(lines, cfg, windows, from)
    ensures forall k | 0 <= k < |windows| :: windows[k].start < from && WindowOk(lines, cfg, windows[k])
    ensures forall i, j | 0 <= i < j < |windows| :: windows[i].start < windows[j].start
    decreases |windows|
  {
    hide WindowOk, NextStart;
    if windows != [] {
      var last, front := windows[|windows| - 1], windows[..|windows| - 1];
      NextStartBound(lines, cfg, last);
      StartsIncrease(lines, cfg, front, last.start);
      assert forall k | 0 <= k < |front| :: windows[k] == front[k];
    }
  }

  /** Each window is bounded by the larger of the two documented limits. */
  lemma {:induction false} WindowSizeBound(lines: seq<Line>, cfg: Config, w: Window)
    requires WindowOk(lines, cfg, w)
    ensures w.end - w.start <= Max(cfg.maxLines, cfg.windowSize + 10)
  {
  }

  // ----- which window owns a line -----

  /** The windows that hold every one of `ps`. */
  function Common(windows: seq<Window>, ps: set<nat>): set<nat> {
    set k: nat | k < |windows| && forall p | p in ps :: Holds(windows[k], p)
  }

  ghost predicate LastCommon(windows: seq<Window>, ps: set<nat>, k: nat) {
    k in Common(windows, ps) && forall j | j in Common(windows, ps) :: j <= k
  }

  /** The page positions of a unit. */
  function Spots(lines: seq<Line>, g: U.HyphenGroup): set<nat> {
    set r | r in g.members && r.line in IndexById(lines) :: IndexById(lines)[r.line]
  }

  /** A unit held by some window belongs, whole, to the last such window; any
      other line to the last window holding it. */
  ghost predicate Owner(lines: seq<Line>, windows: seq<Window>, groups: seq<U.HyphenGroup>, p: nat, k: nat) {
    (exists g :: g in groups && p in Spots(lines, g) && LastCommon(windows, Spots(lines, g), k))
    || (LastCommon(windows, {p}, k)
        && forall g | g in groups && p in Spots(lines, g) :: Common(windows, Spots(lines, g)) == {})
  }

  ghost predicate Assigned(lines: seq<Line>, windows: seq<Window>, groups: seq<U.HyphenGroup>, target: map<nat, nat>) {
    && (forall p: nat :: p in target <==> p < |lines|)
    && forall p | p in target :: Owner(lines, windows, groups, p, target[p])
  }

  ghost predicate Disjoint(lines: seq<Line>, groups: seq<U.HyphenGroup>) {
    forall i, j | 0 <= i < j < |groups| :: Spots(lines, groups[i]) !! Spots(lines, groups[j])
  }

  /** `max` of a non-empty set. */
  method MaxOf(s: set<nat>) returns (m: nat)
    requires s != {}
    ensures m in s && forall x | x in s :: x <= m
  {
    m :| m in s;
    var rest := s - {m};
    while rest != {}
      invariant rest <= s && m in s
      invariant forall x | x in s && x !in rest :: x <= m
      decreases rest
    {
      var x :| x in rest;
      if x > m { m := x; }
      rest := rest - {x};
    }
  }

  /** `_assign_window_targets`: last window first, then unit by unit. */
  method AssignTargets(lines: seq<Line>, windows: seq<Window>, groups: seq<U.HyphenGroup>) returns (target: map<nat, nat>)
    requires Disjoint(lines, groups)
    requires forall p: nat | p < |lines| :: Common(windows, {p}) != {}
    ensures Assigned(lines, windows, groups, target)
  {
    hide Common, Spots, IndexById;
    target := LastWindows(|lines|, windows);
    for a := 0 to |groups|
      invariant Assigned(lines, windows, groups[..a], target)
    {
      var spots := Spots(lines, groups[a]);
      var common := Common(windows, spots);
      assert groups[..a + 1] == groups[..a] + [groups[a]];
      ghost var before := target;
      if common != {} {
        var win := MaxOf(common);
        SpotsInPage(lines, groups[a]);
        target := target + map p | p in spots :: win;
      }
      forall p | p in target ensures Owner(lines, windows, groups[..a + 1], p, target[p]) {
        OneMoreGroup(lines, windows, groups, a, p, before[p], target[p]);
      }
    }
    assert groups[..|groups|] == groups;
  }

  method LastWindows(n: nat, windows: seq<Window>) returns (target: map<nat, nat>)
    requires forall p: nat | p < n :: Common(windows, {p}) != {}
    ensures forall p: nat :: p in target <==> p < n
    ensures forall p | p in target :: LastCommon(windows, {p}, target[p])
  {
    hide Common;
    target := map[];
    for p := 0 to n
      invariant forall q: nat :: q in target <==> q < p
      invariant forall q | q in target :: LastCommon(windows, {q}, target[q])
    {
      var k := MaxOf(Common(windows, {p}));
      target := target[p := k];
    }
  }

  lemma {:induction false} SpotsInPage(lines: seq<Line>, g: U.HyphenGroup)
    ensures forall p | p in Spots(lines, g) :: p < |lines|
  {
  }

  lemma {:induction false} OneMoreGroup(lines: seq<Line>, windows: seq<Window>, groups: seq<U.HyphenGroup>, a: nat,
                                        p: nat, before: nat, after: nat)
    requires a < |groups| && Disjoint(lines, groups) && Owner(lines, windows, groups[..a], p, before)
    requires Common(windows, Spots(lines, groups[a])) != {} && p in Spots(lines, groups[a])
      ==> LastCommon(windows, Spots(lines, groups[a]), after)
    requires Common(windows, Spots(lines, groups[a])) == {} || p !in Spots(lines, groups[a]) ==> after == before
    ensures Owner(lines, windows, groups[..a + 1], p, after)
  {
    hide Common, Spots;
    var g := groups[a];
    assert groups[..a + 1] == groups[..a] + [g];
    assert g in groups[..a + 1];
    if p in Spots(lines, g) {
      forall h | h in groups[..a] ensures p !in Spots(lines, h) {
        var i :| 0 <= i < a && groups[i] == h;
        assert Spots(lines, groups[i]) !! Spots(lines, groups[a]);
      }
    }
  }

  // ----- the whole planner -----

  ghost predicate OnePage(lines: seq<Line>) {
    && UniqueIds(lines)
    && forall i, j | 0 <= i < |lines| && 0 <= j < |lines| :: lines[i].ref.page == lines[j].ref.page
  }

  /** `_try_window`: windows that cover the page, each line owned by one. */
  method TryWindow(lines: seq<Line>, cfg: Config) returns (chunks: seq<Chunk>, windows: seq<Window>, ghost target: map<nat, nat>,
                                                           ghost groups: seq<U.HyphenGroup>)
    requires cfg.Valid() && OnePage(lines)
    ensures Complete(lines, cfg, windows)
    ensures U.IsGrouping(ByRef(lines), groups) && Assigned(lines, windows, groups, target)
    ensures ChunksOf(windows, target, chunks)
    ensures Conserves(|lines|, chunks)
  {
    hide U.IsGrouping, Assigned, Complete;
    windows := CutWindows(lines, cfg);
    var derived := U.DeriveHyphenGroups(lines);
    groups := derived;
    GroupsApart(lines, derived);
    forall p: nat | p < |lines| ensures Common(windows, {p}) != {} {
      Covered(lines, cfg, windows, p);
    }
    var owners := AssignTargets(lines, windows, derived);
    target := owners;
    chunks := [];
    for k := 0 to |windows|
      invariant |chunks| == k
      invariant forall j | 0 <= j < k :: chunks[j] == ChunkOf(windows[j], j, target)
    {
      var targets := OwnedBy(windows[k], k, owners);
      chunks := chunks + [Chunk(WindowGrain, Range(windows[k].start, windows[k].end), targets)];
    }
    WindowsConserve(lines, cfg, windows, groups, target, chunks);
  }

  ghost predicate ChunksOf(windows: seq<Window>, target: map<nat, nat>, chunks: seq<Chunk>) {
    |chunks| == |windows| && forall k | 0 <= k < |chunks| :: chunks[k] == ChunkOf(windows[k], k, target)
  }

  /** Whatever the overlap and the units, every line of the page is a target of
      exactly one window, and that window contains it. */
  lemma {:induction false} WindowsConserve(lines: seq<Line>, cfg: Config, windows: seq<Window>, groups: seq<U.HyphenGroup>,
                                           target: map<nat, nat>, chunks: seq<Chunk>)
    requires cfg.Valid() && OnePage(lines) && Complete(lines, cfg, windows)
    requires U.IsGrouping(ByRef(lines), groups) && Assigned(lines, windows, groups, target) && ChunksOf(windows, target, chunks)
    ensures Conserves(|lines|, chunks)
  {
    hide Complete, U.IsGrouping, Spots, WindowOk;
    forall p: nat | p < |lines| ensures target[p] < |windows| && Holds(windows[target[p]], p) && Owned(chunks, p) {
      OwnerHolds(lines, windows, groups, p, target[p]);
      assert p in chunks[target[p]].targets;
    }
    assert forall c | 0 <= c < |chunks| :: windows[c].end <= |lines| by {
      AllWindowsOk(lines, cfg, windows);
    }
  }

  lemma {:induction false} AllWindowsOk(lines: seq<Line>, cfg: Config, windows: seq<Window>)
    requires cfg.Valid() && Complete(lines, cfg, windows)
    ensures forall k | 0 <= k < |windows| :: WindowOk(lines, cfg, windows[k]) && windows[k].end <= |lines|
  {
    var from :| from >= |lines| && Chain(lines, cfg, windows, from);
    StartsIncrease(lines, cfg, windows, from);
  }

  lemma {:induction false} OwnerHolds(lines: seq<Line>, windows: seq<Window>, groups: seq<U.HyphenGroup>, p: nat, k: nat)
    requires Owner(lines, windows, groups, p, k)
    ensures k < |windows| && Holds(windows[k], p)
  {
    hide Spots;
  }

  // ----- a short unit stays in one window -----

  /** Every pointer between two lines of the page is the forward link of the
      earlier one, as the linker draws them. */
  ghost predicate LinksForward(lines: seq<Line>) {
    forall p, q | 0 <= p < q < |lines| && U.Pair(ByRef(lines), lines[p].ref, lines[q].ref) :: NextAt(lines, p) == Some(q)
  }

  /** A link that crosses the position `end` from inside a unit. */
  lemma {:induction false} CrossingLink(lines: seq<Line>, x: nat, y: nat, end: nat) returns (u: nat, v: nat)
    requires OnePage(lines) && x < end <= y < |lines| && U.SameUnit(ByRef(lines), lines[x].ref, lines[y].ref)
    ensures u < end <= v < |lines| && U.Pair(ByRef(lines), lines[u].ref, lines[v].ref)
    ensures U.SameUnit(ByRef(lines), lines[x].ref, lines[u].ref)
  {
    var m := ByRef(lines);
    var before := set p: nat | p < end && U.SameUnit(m, lines[x].ref, lines[p].ref) :: lines[p].ref;
    U.SameUnitIsAnEquivalence(m, lines[x].ref, lines[x].ref, lines[x].ref);
    assert lines[y].ref !in before;
    if forall e | e in U.Links(m) :: e.0 in before <==> e.1 in before {
      F.ConnectedKeeps(U.Links(m), lines[x].ref, lines[y].ref, before);
    }
    var e :| e in U.Links(m) && !(e.0 in before <==> e.1 in before);
    ByRefKeys(lines);
    var inside, outside := if e.0 in before then e.0 else e.1, if e.0 in before then e.1 else e.0;
    u :| 0 <= u < end && U.SameUnit(m, lines[x].ref, lines[u].ref) && lines[u].ref == inside;
    F.ConnectedByEdge(U.Links(m), inside, outside);
    U.SameUnitIsAnEquivalence(m, lines[x].ref, inside, outside);
    v := PositionOf(lines, outside);
  }

  lemma {:induction false} PositionOf(lines: seq<Line>, r: LineRef) returns (v: nat)
    requires r in RefsOf(lines)
    ensures v < |lines| && lines[v].ref == r
  {
    var l :| l in lines && l.ref == r;
    v :| 0 <= v < |lines| && lines[v] == l;
  }

  /** A unit whose lines all lie within eleven consecutive lines of the page is
      held by some window, whatever the budgets. */
  lemma {:induction false} ShortUnitFitsAWindow(lines: seq<Line>, cfg: Config, windows: seq<Window>, g: U.HyphenGroup,
                                                groups: seq<U.HyphenGroup>, first: nat, last: nat)
    requires cfg.Valid() && OnePage(lines) && LinksForward(lines) && Complete(lines, cfg, windows)
    requires U.IsGrouping(ByRef(lines), groups) && g in groups && Bounds(lines, g, first, last) && last <= first + 10
    ensures Common(windows, Spots(lines, g)) != {}
  {
    hide U.IsGrouping, Spots, WindowOk, OnePage, LinksForward, Common;
    ShortIsBridged(lines, groups, g, first, last);
    BridgedIsHeld(lines, cfg, windows, g, first, first, last);
  }

  /** The unit's first and last line. */
  ghost predicate Bounds(lines: seq<Line>, g: U.HyphenGroup, first: nat, last: nat) {
    first in Spots(lines, g) && last in Spots(lines, g) && forall p | p in Spots(lines, g) :: first <= p <= last
  }

  /** From line `s` on, no further than eleven lines, a forward link crosses every
      position up to the line `last`. */
  ghost predicate Bridge(lines: seq<Line>, s: nat, first: nat, last: nat) {
    s <= first && last <= s + 10 && last < |lines| && forall e: nat | s < e <= last :: SomeLeaves(lines, s, e)
  }

  ghost predicate Bridged(lines: seq<Line>, first: nat, last: nat) {
    exists s: nat :: Bridge(lines, s, first, last)
  }

  lemma {:induction false} ShortIsBridged(lines: seq<Line>, groups: seq<U.HyphenGroup>, g: U.HyphenGroup, first: nat, last: nat)
    requires OnePage(lines) && LinksForward(lines) && U.IsGrouping(ByRef(lines), groups) && g in groups
    requires Bounds(lines, g, first, last) && last <= first + 10
    ensures Bridge(lines, first, first, last)
  {
    hide U.IsGrouping, Spots, U.SameUnit, OnePage, LinksForward, Leaves;
    OneUnit(lines, groups, g, first, last);
    forall u: nat | u < |lines| && U.SameUnit(ByRef(lines), lines[first].ref, lines[u].ref) ensures first <= u {
      OneUnitBack(lines, groups, g, first, u);
    }
    forall e: nat | first < e <= last ensures SomeLeaves(lines, first, e) {
      var u, v := LinkLeaves(lines, first, last, first, e);
    }
  }

  /** A bridge to a unit's last line from its first one or before it keeps the unit in
      one window, whatever the configuration. */
  lemma {:induction false} BridgedIsHeld(lines: seq<Line>, cfg: Config, windows: seq<Window>, g: U.HyphenGroup, s: nat, first: nat, last: nat)
    requires cfg.Valid() && Complete(lines, cfg, windows) && Bounds(lines, g, first, last) && Bridge(lines, s, first, last)
    ensures Common(windows, Spots(lines, g)) != {}
  {
    hide Spots, WindowOk, Chain, Bridge, SomeLeaves;
    BridgeEnds(lines, s, first, last);
    var from :| from >= |lines| && Chain(lines, cfg, windows, from);
    var k := CoreHolds(lines, cfg, windows, from, s);
    WindowReaches(lines, cfg, windows[k], s, first, last);
    assert k in Common(windows, Spots(lines, g));
  }

  lemma BridgeEnds(lines: seq<Line>, s: nat, first: nat, last: nat)
    requires Bridge(lines, s, first, last)
    ensures s <= first && last < |lines| && (first <= last ==> s < |lines|)
  {
  }

  /** A window whose core holds the start of a bridge reaches its end. */
  lemma {:induction false} WindowReaches(lines: seq<Line>, cfg: Config, w: Window, s: nat, first: nat, last: nat)
    requires WindowOk(lines, cfg, w) && w.start <= s < w.core && Bridge(lines, s, first, last)
    ensures last < w.end
  {
    hide NextAt, SumFits, CoreIsMaximal;
    if last >= w.end {
      assert SomeLeaves(lines, s, w.end);
      WiderLeaves(lines, w.start, s, w.end);
    }
  }

  lemma WiderLeaves(lines: seq<Line>, start: nat, s: nat, end: nat)
    requires start <= s && end <= |lines| && SomeLeaves(lines, s, end)
    ensures SomeLeaves(lines, start, end)
  {
    hide NextAt;
    var p: nat, q: nat :| Leaves(lines, s, end, p, q);
    assert Leaves(lines, start, end, p, q);
  }

  lemma {:induction false} LinkLeaves(lines: seq<Line>, first: nat, last: nat, start: nat, end: nat) returns (u: nat, v: nat)
    requires OnePage(lines) && LinksForward(lines) && start <= first < end <= last < |lines|
    requires U.SameUnit(ByRef(lines), lines[first].ref, lines[last].ref)
    requires forall u: nat | u < |lines| && U.SameUnit(ByRef(lines), lines[first].ref, lines[u].ref) :: first <= u
    ensures Leaves(lines, start, end, u, v)
  {
    hide U.SameUnit, U.Pair, NextAt, OnePage;
    u, v := CrossingLink(lines, first, last, end);
    assert NextAt(lines, u) == Some(v);
  }

  lemma {:induction false} OneUnit(lines: seq<Line>, groups: seq<U.HyphenGroup>, g: U.HyphenGroup, p: nat, q: nat)
    requires OnePage(lines) && U.IsGrouping(ByRef(lines), groups) && g in groups
    requires p in Spots(lines, g) && q in Spots(lines, g)
    ensures p < |lines| && q < |lines| && U.SameUnit(ByRef(lines), lines[p].ref, lines[q].ref)
  {
    SpotsAreMembers(lines, groups, g, p);
    SpotsAreMembers(lines, groups, g, q);
    assert U.IsUnit(ByRef(lines), g);
  }

  lemma {:induction false} OneUnitBack(lines: seq<Line>, groups: seq<U.HyphenGroup>, g: U.HyphenGroup, p: nat, q: nat)
    requires OnePage(lines) && U.IsGrouping(ByRef(lines), groups) && g in groups
    requires p in Spots(lines, g) && p < |lines| && q < |lines| && U.SameUnit(ByRef(lines), lines[p].ref, lines[q].ref)
    ensures q in Spots(lines, g)
  {
    SpotsAreMembers(lines, groups, g, p);
    SpotsAreMembers(lines, groups, g, q);
    assert U.IsUnit(ByRef(lines), g);
    ByRefKeys(lines);
    assert lines[q] in lines;
  }

  /** ... so all its lines are targets of one and the same chunk. */
  lemma {:induction false} ShortUnitIsTargetedTogether(lines: seq<Line>, cfg: Config, windows: seq<Window>, g: U.HyphenGroup,
                                                       groups: seq<U.HyphenGroup>, target: map<nat, nat>, p: nat, q: nat,
                                                       first: nat, last: nat)
    requires cfg.Valid() && OnePage(lines) && LinksForward(lines) && Complete(lines, cfg, windows)
    requires U.IsGrouping(ByRef(lines), groups) && Assigned(lines, windows, groups, target) && g in groups
    requires Bounds(lines, g, first, last) && last <= first + 10
    requires p in Spots(lines, g) && q in Spots(lines, g)
    ensures p in target && q in target && target[p] == target[q]
  {
    ShortUnitFitsAWindow(lines, cfg, windows, g, groups, first, last);
    OwnedWithItsUnit(lines, windows, groups, g, target, p);
    OwnedWithItsUnit(lines, windows, groups, g, target, q);
  }

  // ----- exactly when a unit is targeted together -----

  ghost predicate Together(lines: seq<Line>, g: U.HyphenGroup, target: map<nat, nat>) {
    forall p, q | p in Spots(lines, g) && q in Spots(lines, g) :: p in target && q in target && target[p] == target[q]
  }

  /** Windows of one line each, before their links stretch them. */
  const TIGHT: Config := Config(1, 1, 1, 0, false)

  /** Where the extension of such a window stops. */
  ghost function TightEnd(lines: seq<Line>, s: nat, e: nat): (end: nat)
    requires s < e <= Min(|lines|, s + 11)
    ensures e <= end <= Min(|lines|, s + 11)
    ensures end == Min(|lines|, s + 11) || !SomeLeaves(lines, s, end)
    ensures forall x: nat | e <= x < end :: SomeLeaves(lines, s, x)
    decreases |lines| - e
  {
    if e == Min(|lines|, s + 11) || !SomeLeaves(lines, s, e) then e else TightEnd(lines, s, e + 1)
  }

  ghost function TightWindows(lines: seq<Line>, n: nat): (windows: seq<Window>)
    requires n <= |lines|
    ensures |windows| == n && forall s: nat | s < n :: windows[s] == Window(s, s + 1, TightEnd(lines, s, s + 1))
  {
    seq(n, s requires 0 <= s < n => Window(s, s + 1, TightEnd(lines, s, s + 1)))
  }

  lemma {:induction false} TightAreOk(lines: seq<Line>, n: nat)
    requires n <= |lines|
    ensures Chain(lines, TIGHT, TightWindows(lines, n), n)
  {
    hide TightEnd, SomeLeaves;
    if n > 0 {
      TightAreOk(lines, n - 1);
      assert TightWindows(lines, n)[..n - 1] == TightWindows(lines, n - 1);
    }
  }

  /** Without a bridge, no such window holds the unit. */
  lemma {:induction false} TightHoldsNone(lines: seq<Line>, g: U.HyphenGroup, first: nat, last: nat)
    requires Bounds(lines, g, first, last) && !Bridged(lines, first, last)
    ensures Common(TightWindows(lines, |lines|), Spots(lines, g)) == {}
  {
    hide Spots, SomeLeaves;
    var windows := TightWindows(lines, |lines|);
    forall k | k in Common(windows, Spots(lines, g)) ensures Bridge(lines, k, first, last) {
      assert Holds(windows[k], first) && Holds(windows[k], last);
    }
  }

  lemma {:induction false} LastOf(s: set<nat>) returns (m: nat)
    requires s != {}
    ensures m in s && forall x | x in s :: x <= m
  {
    var some :| some in s;
    m := some;
    if s - {some} != {} {
      var other := LastOf(s - {some});
      m := if other > some then other else some;
    }
    forall x | x in s ensures x <= m { assert x == some || x in s - {some}; }
  }

  lemma {:induction false} OwnerExists(lines: seq<Line>, windows: seq<Window>, groups: seq<U.HyphenGroup>, p: nat) returns (k: nat)
    requires Common(windows, {p}) != {}
    ensures Owner(lines, windows, groups, p, k)
  {
    hide Common, Spots;
    if g :| g in groups && p in Spots(lines, g) && Common(windows, Spots(lines, g)) != {} {
      k := LastOf(Common(windows, Spots(lines, g)));
    } else {
      k := LastOf(Common(windows, {p}));
    }
  }

  lemma {:induction false} OwnersExist(lines: seq<Line>, windows: seq<Window>, groups: seq<U.HyphenGroup>, n: nat) returns (target: map<nat, nat>)
    requires forall p: nat | p < n :: Common(windows, {p}) != {}
    ensures (forall p: nat :: p in target <==> p < n) && forall p | p in target :: Owner(lines, windows, groups, p, target[p])
  {
    hide Common, Owner;
    if n == 0 {
      target := map[];
    } else {
      target := OwnersExist(lines, windows, groups, n - 1);
      var k := OwnerExists(lines, windows, groups, n - 1);
      target := target[n - 1 := k];
    }
  }

  /** Without a bridge some configuration targets the unit's lines in different windows. */
  lemma {:induction false} UnbridgedIsSplit(lines: seq<Line>, groups: seq<U.HyphenGroup>, g: U.HyphenGroup, first: nat, last: nat)
    returns (windows: seq<Window>, target: map<nat, nat>)
    requires Bounds(lines, g, first, last) && !Bridged(lines, first, last)
    ensures TIGHT.Valid() && Complete(lines, TIGHT, windows) && Assigned(lines, windows, groups, target) && !Together(lines, g, target)
  {
    hide Spots, Common, Owner, TightEnd, Bridged, Chain;
    windows := TightWindows(lines, |lines|);
    TightAreOk(lines, |lines|);
    assert Complete(lines, TIGHT, windows);
    forall p: nat | p < |lines| ensures Common(windows, {p}) != {} { Covered(lines, TIGHT, windows, p); }
    target := OwnersExist(lines, windows, groups, |lines|);
    TightHoldsNone(lines, g, first, last);
    if Together(lines, g, target) { TogetherIsHeld(lines, windows, groups, g, target, first); }
  }

  lemma {:induction false} TogetherIsHeld(lines: seq<Line>, windows: seq<Window>, groups: seq<U.HyphenGroup>, g: U.HyphenGroup,
                                          target: map<nat, nat>, first: nat)
    requires Assigned(lines, windows, groups, target) && Together(lines, g, target) && first in Spots(lines, g)
    ensures Common(windows, Spots(lines, g)) != {}
  {
    hide Spots, Owner;
    var k := target[first];
    forall p | p in Spots(lines, g) ensures k < |windows| && Holds(windows[k], p) { OwnerHolds(lines, windows, groups, p, target[p]); }
    assert k in Common(windows, Spots(lines, g));
  }

  /** A unit of a page, whatever its links, is targeted in one window under every
      configuration exactly when forward links bridge the page from its first line, or
      one before it, to its last without a gap and within eleven lines. */
  lemma {:induction false} TargetedTogetherIff(lines: seq<Line>, groups: seq<U.HyphenGroup>, g: U.HyphenGroup, first: nat, last: nat)
    requires OnePage(lines) && U.IsGrouping(ByRef(lines), groups) && g in groups && Bounds(lines, g, first, last)
    ensures (forall cfg: Config, windows, target |
               cfg.Valid() && Complete(lines, cfg, windows) && Assigned(lines, windows, groups, target) :: Together(lines, g, target))
       <==> Bridged(lines, first, last)
  {
    hide U.IsGrouping, Spots, Common, Assigned, Complete, OnePage, Bounds, Bridge;
    if Bridged(lines, first, last) {
      var s: nat :| Bridge(lines, s, first, last);
      forall cfg: Config, windows, target | cfg.Valid() && Complete(lines, cfg, windows) && Assigned(lines, windows, groups, target)
        ensures Together(lines, g, target)
      {
        BridgedIsHeld(lines, cfg, windows, g, s, first, last);
        forall p | p in Spots(lines, g) ensures p in target && LastCommon(windows, Spots(lines, g), target[p]) {
          OwnedWithItsUnit(lines, windows, groups, g, target, p);
        }
      }
    } else {
      var windows, target := UnbridgedIsSplit(lines, groups, g, first, last);
    }
  }

  lemma {:induction false} OwnedWithItsUnit(lines: seq<Line>, windows: seq<Window>, groups: seq<U.HyphenGroup>, g: U.HyphenGroup,
                                            target: map<nat, nat>, p: nat)
    requires OnePage(lines) && U.IsGrouping(ByRef(lines), groups) && Assigned(lines, windows, groups, target) && g in groups
    requires p in Spots(lines, g) && Common(windows, Spots(lines, g)) != {}
    ensures p in target && LastCommon(windows, Spots(lines, g), target[p])
  {
    hide Spots, Common, U.IsGrouping, OnePage;
    SpotsAreMembers(lines, groups, g, p);
    GroupsApart(lines, groups);
    OnlyGroup(lines, groups, g, p);
    assert Owner(lines, windows, groups, p, target[p]);
  }

  lemma {:induction false} OnlyGroup(lines: seq<Line>, groups: seq<U.HyphenGroup>, g: U.HyphenGroup, p: nat)
    requires Disjoint(lines, groups) && g in groups && p in Spots(lines, g)
    ensures forall h | h in groups && p in Spots(lines, h) :: h == g
  {
    hide Spots;
    forall h | h in groups && p in Spots(lines, h) ensures h == g {
      var i :| 0 <= i < |groups| && groups[i] == g;
      var j :| 0 <= j < |groups| && groups[j] == h;
    }
  }

  function Range(from: nat, to: nat): (r: seq<nat>)
    ensures forall p: nat :: p in r <==> from <= p < to
    ensures Distinct(r)
  {
    if from >= to then [] else assert to - 1 !in Range(from, to - 1); Range(from, to - 1) + [to - 1]
  }

  function ChunkOf(w: Window, k: nat, target: map<nat, nat>): Chunk {
    Chunk(WindowGrain, Range(w.start, w.end), Filter(Range(w.start, w.end), k, target))
  }

  function Filter(ps: seq<nat>, k: nat, target: map<nat, nat>): (r: seq<nat>)
    ensures forall p :: p in r <==> p in ps && p in target && target[p] == k
    ensures Distinct(ps) ==> Distinct(r)
  {
    if ps == [] then []
    else
      var front, last := ps[..|ps| - 1], ps[|ps| - 1];
      assert ps == front + [last];
      var rest := Filter(front, k, target);
      if last in target && target[last] == k then rest + [last] else rest
  }

  method OwnedBy(w: Window, k: nat, target: map<nat, nat>) returns (targets: seq<nat>)
    ensures targets == Filter(Range(w.start, w.end), k, target)
  {
    targets := [];
    var ps := Range(w.start, w.end);
    for i := 0 to |ps|
      invariant targets == Filter(ps[..i], k, target)
    {
      assert ps[..i + 1][..i] == ps[..i];
      if ps[i] in target && target[ps[i]] == k { targets := targets + [ps[i]]; }
    }
    assert ps[..|ps|] == ps;
  }

  lemma {:induction false} Covered(lines: seq<Line>, cfg: Config, windows: seq<Window>, p: nat)
    requires cfg.Valid() && Complete(lines, cfg, windows) && p < |lines|
    ensures Common(windows, {p}) != {}
  {
    var from :| from >= |lines| && Chain(lines, cfg, windows, from);
    var k := CoreHolds(lines, cfg, windows, from, p);
    assert k in Common(windows, {p});
  }

  lemma {:induction false} GroupsApart(lines: seq<Line>, groups: seq<U.HyphenGroup>)
    requires OnePage(lines) && U.IsGrouping(ByRef(lines), groups)
    ensures Disjoint(lines, groups)
  {
    hide Spots;
    forall i, j | 0 <= i < j < |groups| ensures Spots(lines, groups[i]) !! Spots(lines, groups[j]) {
      forall p ensures !(p in Spots(lines, groups[i]) && p in Spots(lines, groups[j])) {
        SpotsAreMembers(lines, groups, groups[i], p);
        SpotsAreMembers(lines, groups, groups[j], p);
      }
    }
  }

  /** A unit's spots are exactly the positions of its members. */
  lemma {:induction false} SpotsAreMembers(lines: seq<Line>, groups: seq<U.HyphenGroup>, g: U.HyphenGroup, p: nat)
    requires OnePage(lines) && U.IsGrouping(ByRef(lines), groups) && g in groups
    ensures p in Spots(lines, g) <==> p < |lines| && lines[p].ref in g.members
  {
    ByRefKeys(lines);
    assert U.IsUnit(ByRef(lines), g);
    hide U.IsUnit, U.IsGrouping, ByRef;
    if p in Spots(lines, g) {
      var r :| r in g.members && r.line in IndexById(lines) && IndexById(lines)[r.line] == p;
      OnItsPage(lines, r);
    }
    if p < |lines| && lines[p].ref in g.members {
      var id := lines[p].ref.line;
      assert IndexById(lines)[id] == p;
    }
  }

  lemma {:induction false} OnItsPage(lines: seq<Line>, r: LineRef)
    requires OnePage(lines) && r in RefsOf(lines) && r.line in IndexById(lines)
    ensures lines[IndexById(lines)[r.line]].ref == r
  {
    var l :| l in lines && l.ref == r;
    var i :| 0 <= i < |lines| && lines[i] == l;
    assert lines[IndexById(lines)[r.line]].ref.line == lines[i].ref.line;
  }
}

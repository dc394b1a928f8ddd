/** `routing.py` and `batching.py`: which lines reach which producer, and how a
    request is cut below a producer's image cap. */
module Routing {
  import opened Prelude
  import opened Manifest
  import opened Chunks
  import U = Units
  import W = WindowPlanner
  import L = LinePlanner
  import P = Pairing
  import F = UnionFind

  datatype Tier = Primary | Skip | Escalate

  /** A chunk for a producer: the escalation one or the primary one. */
  datatype Item = Item(chunk: Chunk, escalated: bool)

  // ----- units by position (`_page_local_units`, `_units_visible_on_page`) -----

  ghost predicate Selected(g: U.HyphenGroup, onlyComplete: bool) {
    onlyComplete ==> g.complete && !g.spansPages
  }

  /** Each line's unit, for the selected groups. */
  ghost predicate MapsUnits(lines: seq<Line>, groups: seq<U.HyphenGroup>, onlyComplete: bool, units: map<nat, set<nat>>) {
    && (forall p: nat | p in units :: exists g :: Owning(lines, groups, onlyComplete, g, p) && units[p] == W.Spots(lines, g))
    && forall g, p: nat | Owning(lines, groups, onlyComplete, g, p) :: p in units && units[p] == W.Spots(lines, g)
  }

  ghost predicate Owning(lines: seq<Line>, groups: seq<U.HyphenGroup>, onlyComplete: bool, g: U.HyphenGroup, p: nat) {
    g in groups && Selected(g, onlyComplete) && p in W.Spots(lines, g)
  }

  /** `_page_local_units` and `_units_visible_on_page`. */
  method UnitMap(lines: seq<Line>, groups: seq<U.HyphenGroup>, onlyComplete: bool) returns (units: map<nat, set<nat>>)
    requires W.Disjoint(lines, groups)
    ensures MapsUnits(lines, groups, onlyComplete, units)
  {
    hide W.Spots, MapsUnits;
    units := map[];
    NoUnits(lines, onlyComplete);
    for k := 0 to |groups|
      invariant MapsUnits(lines, groups[..k], onlyComplete, units)
    {
      var g := groups[k];
      OneUnitMore(lines, groups, k, onlyComplete, units);
      if onlyComplete && (!g.complete || g.spansPages) { continue; }
      var members := W.Spots(lines, g);
      units := units + map p | p in members :: members;
    }
    assert groups[..|groups|] == groups;
  }

  lemma NoUnits(lines: seq<Line>, onlyComplete: bool)
    ensures MapsUnits(lines, [], onlyComplete, map[])
  {
  }

  lemma {:induction false} OneUnitMore(lines: seq<Line>, groups: seq<U.HyphenGroup>, k: nat, onlyComplete: bool, units: map<nat, set<nat>>)
    requires W.Disjoint(lines, groups) && k < |groups| && MapsUnits(lines, groups[..k], onlyComplete, units)
    ensures MapsUnits(lines, groups[..k + 1], onlyComplete,
                      if Selected(groups[k], onlyComplete)
                      then units + map p | p in W.Spots(lines, groups[k]) :: W.Spots(lines, groups[k]) else units)
  {
    hide W.Spots;
    var g, more := groups[k], groups[..k + 1];
    assert more == groups[..k] + [g];
    assert forall h :: h in more <==> h in groups[..k] || h == g;
    forall h, p: nat | h in groups[..k] && p in W.Spots(lines, h) ensures p !in W.Spots(lines, g) {
      var i :| 0 <= i < k && groups[i] == h;
      assert W.Spots(lines, groups[i]) !! W.Spots(lines, groups[k]);
    }
    var next := if Selected(g, onlyComplete) then units + map p | p in W.Spots(lines, g) :: W.Spots(lines, g) else units;
    forall p: nat | p in next ensures exists h :: Owning(lines, more, onlyComplete, h, p) && next[p] == W.Spots(lines, h) {
      if p in W.Spots(lines, g) && Selected(g, onlyComplete) {
        assert Owning(lines, more, onlyComplete, g, p);
      } else {
        var h :| Owning(lines, groups[..k], onlyComplete, h, p) && units[p] == W.Spots(lines, h);
        assert Owning(lines, more, onlyComplete, h, p);
      }
    }
    forall h, p: nat | Owning(lines, more, onlyComplete, h, p) ensures p in next && next[p] == W.Spots(lines, h) {
      if h in groups[..k] { assert Owning(lines, groups[..k], onlyComplete, h, p); }
    }
  }

  // ----- `_score_page_into_tiers` -----

  /** A line goes up on its own account, or with a unit one of whose members does. */
  ghost predicate GoesUp(lines: seq<Line>, tiers: seq<Tier>, units: map<nat, set<nat>>, p: nat) {
    exists q: nat :: Raises(lines, tiers, units, q, p)
  }

  ghost predicate Raises(lines: seq<Line>, tiers: seq<Tier>, units: map<nat, set<nat>>, q: nat, p: nat) {
    && q < |lines| && q < |tiers| && tiers[q].Escalate?
    && if lines[q].role.NoRole? then p == q else q in units && p in units[q]
  }

  lemma {:induction false} OneMoreRaises(lines: seq<Line>, tiers: seq<Tier>, units: map<nat, set<nat>>, k: nat)
    ensures forall p: nat ::
      RaisedBefore(lines, tiers, units, k + 1, p) <==> RaisedBefore(lines, tiers, units, k, p) || Raises(lines, tiers, units, k, p)
  {
    hide Raises;
  }

  ghost predicate RaisedBefore(lines: seq<Line>, tiers: seq<Tier>, units: map<nat, set<nat>>, k: nat, p: nat) {
    exists q: nat :: q < k && Raises(lines, tiers, units, q, p)
  }

  /** `_score_page_into_tiers`, from the tier each line scores. */
  method ScoreTiers(lines: seq<Line>, tiers: seq<Tier>, units: map<nat, set<nat>>, canEscalate: bool)
    returns (skip: set<nat>, escalate: set<nat>)
    requires |tiers| == |lines|
    ensures forall p: nat :: p in skip <==> p < |lines| && lines[p].role.NoRole? && tiers[p].Skip?
    ensures forall p: nat :: p in escalate <==> canEscalate && GoesUp(lines, tiers, units, p)
  {
    skip, escalate := {}, {};
    for k := 0 to |lines|
      invariant forall p: nat :: p in skip <==> p < k && lines[p].role.NoRole? && tiers[p].Skip?
      invariant forall p: nat :: p in escalate <==> canEscalate && RaisedBefore(lines, tiers, units, k, p)
    {
      ghost var before := escalate;
      OneMoreRaises(lines, tiers, units, k);
      if !lines[k].role.NoRole? {
        if tiers[k].Escalate? && canEscalate && k in units {
          escalate := escalate + units[k];
        }
      } else if tiers[k].Skip? {
        skip := skip + {k};
      } else if tiers[k].Escalate? && canEscalate {
        escalate := escalate + {k};
      }
      forall p: nat ensures p in escalate <==> canEscalate && RaisedBefore(lines, tiers, units, k + 1, p) {
        assert p in escalate <==> p in before || (canEscalate && Raises(lines, tiers, units, k, p));
      }
    }
  }

  /** Every member of a unit has a hyphen role. */
  ghost predicate RolesKept(lines: seq<Line>, groups: seq<U.HyphenGroup>) {
    forall g, p: nat | g in groups && p in W.Spots(lines, g) && p < |lines| :: !lines[p].role.NoRole?
  }

  /** A unit wholly on the page goes up whole or not at all, and one that is
      not stays down whole; no member of a unit is skipped. */
  lemma {:induction false} UnitsMoveWhole(lines: seq<Line>, tiers: seq<Tier>, groups: seq<U.HyphenGroup>, units: map<nat, set<nat>>,
                                          g: U.HyphenGroup, p: nat, q: nat)
    requires |tiers| == |lines| && W.Disjoint(lines, groups) && RolesKept(lines, groups)
    requires MapsUnits(lines, groups, true, units)
    requires g in groups && p in W.Spots(lines, g) && q in W.Spots(lines, g)
    ensures GoesUp(lines, tiers, units, p) <==> GoesUp(lines, tiers, units, q)
    ensures !Selected(g, true) ==> !GoesUp(lines, tiers, units, p)
    ensures p < |lines| ==> !(lines[p].role.NoRole? && tiers[p].Skip?)
  {
    hide W.Spots, W.Disjoint;
    if GoesUp(lines, tiers, units, p) { RaisedTogether(lines, tiers, groups, units, g, p, q); }
    if GoesUp(lines, tiers, units, q) { RaisedTogether(lines, tiers, groups, units, g, q, p); }
  }

  lemma {:induction false} RaisedTogether(lines: seq<Line>, tiers: seq<Tier>, groups: seq<U.HyphenGroup>, units: map<nat, set<nat>>,
                                          g: U.HyphenGroup, p: nat, q: nat)
    requires |tiers| == |lines| && W.Disjoint(lines, groups) && RolesKept(lines, groups)
    requires MapsUnits(lines, groups, true, units) && g in groups && p in W.Spots(lines, g) && q in W.Spots(lines, g)
    requires GoesUp(lines, tiers, units, p)
    ensures GoesUp(lines, tiers, units, q) && Selected(g, true)
  {
    hide W.Spots, W.Disjoint;
    var r: nat :| Raises(lines, tiers, units, r, p);
    assert r == p ==> !lines[r].role.NoRole?;
    var h :| Owning(lines, groups, true, h, r) && units[r] == W.Spots(lines, h);
    W.OnlyGroup(lines, groups, g, p);
    assert Raises(lines, tiers, units, r, q);
  }

  // ----- each target once -----

  /** The lists name each wanted position once, and nothing else. */
  ghost predicate Once(ts: seq<seq<nat>>, wanted: set<nat>) {
    Disjoint(ts) && forall p: nat :: InSome(ts, p) <==> p in wanted
  }

  function Elements(s: seq<nat>): set<nat> {
    set p | p in s
  }

  lemma {:induction false} OneListMore(ts: seq<seq<nat>>, wanted: set<nat>, s: seq<nat>)
    requires Once(ts, wanted) && Distinct(s) && Elements(s) !! wanted
    ensures Once(ts + [s], wanted + Elements(s))
  {
    var more := ts + [s];
    assert forall k | 0 <= k < |ts| :: more[k] == ts[k];
    assert more[|ts|] == s;
    forall j, k, p: nat | 0 <= j < k < |more| && p in more[j] ensures p !in more[k] {
      if k == |ts| { assert InSome(ts, p); }
    }
    forall p: nat ensures InSome(more, p) <==> p in wanted + Elements(s) {
      if InSome(ts, p) { var k :| 0 <= k < |ts| && p in ts[k]; assert p in more[k]; }
      if p in s { assert p in more[|ts|]; }
    }
  }

  function TargetsOf(chunks: seq<Chunk>): (ts: seq<seq<nat>>)
    ensures |ts| == |chunks| && forall k | 0 <= k < |ts| :: ts[k] == chunks[k].targets
  {
    seq(|chunks|, k requires 0 <= k < |chunks| => chunks[k].targets)
  }

  function ItemTargets(items: seq<Item>): (ts: seq<seq<nat>>)
    ensures |ts| == |items| && forall k | 0 <= k < |ts| :: ts[k] == items[k].chunk.targets
  {
    seq(|items|, k requires 0 <= k < |items| => items[k].chunk.targets)
  }

  lemma {:induction false} PlanTargetsOnce(n: nat, chunks: seq<Chunk>)
    requires Conserves(n, chunks)
    ensures Once(TargetsOf(chunks), Elements(Iota(n)))
  {
    var ts := TargetsOf(chunks);
    forall p: nat ensures InSome(ts, p) <==> p in Elements(Iota(n)) {
      assert p < n ==> Iota(n)[p] == p;
      if p < n { assert Owned(chunks, p); var c :| 0 <= c < |chunks| && p in chunks[c].targets; assert p in ts[c]; }
    }
  }

  /** An item that serves part of a chunk. */
  ghost predicate ServesPart(item: Item, c: Chunk, escalate: set<nat>) {
    && item.chunk.lines == c.lines && item.chunk.targets != []
    && (forall p | p in item.chunk.targets :: p in c.targets && (p in escalate <==> item.escalated))
  }

  function Pick(ps: seq<nat>, kept: set<nat>): (r: seq<nat>)
    ensures forall p :: p in r <==> p in ps && p in kept
    ensures Distinct(ps) ==> Distinct(r)
  {
    if ps == [] then []
    else
      var front, last := ps[..|ps| - 1], ps[|ps| - 1];
      assert ps == front + [last];
      if last in kept then Pick(front, kept) + [last] else Pick(front, kept)
  }

  function Omit(ps: seq<nat>, dropped: set<nat>): (r: seq<nat>)
    ensures forall p :: p in r <==> p in ps && p !in dropped
    ensures Distinct(ps) ==> Distinct(r)
  {
    if ps == [] then []
    else
      var front, last := ps[..|ps| - 1], ps[|ps| - 1];
      assert ps == front + [last];
      if last !in dropped then Omit(front, dropped) + [last] else Omit(front, dropped)
  }

  /** `_work_items`: every target that is not skipped is served exactly once, by
      the escalation producer exactly when it escalates. */
  method WorkItems(chunks: seq<Chunk>, skip: set<nat>, escalate: set<nat>, ghost wanted: set<nat>) returns (items: seq<Item>)
    requires Once(TargetsOf(chunks), wanted)
    ensures Once(ItemTargets(items), wanted - skip)
    ensures forall k | 0 <= k < |items| :: ServesSome(items[k], chunks, escalate)
  {
    hide Once, ServesPart, Pick, Omit, Served, Elements;
    items := [];
    ghost var seen: set<nat> := {};
    NoLists();
    assert {} - skip == {};
    assert chunks[..0] == [];
    for k := 0 to |chunks|
      invariant Once(TargetsOf(chunks[..k]), seen) && Once(ItemTargets(items), seen - skip)
      invariant forall j | 0 <= j < |items| :: ServesSome(items[j], chunks, escalate)
    {
      var c := chunks[k];
      ChunkApart(chunks, wanted, k, seen);
      SkipApart(seen, Elements(c.targets), skip);
      var mine := ServeChunk(c, skip, escalate);
      ServedOnce(ItemTargets(items), seen - skip, c, skip, escalate, mine);
      forall j | 0 <= j < |mine| ensures ServesSome(mine[j], chunks, escalate) { assert ServesPart(mine[j], c, escalate); }
      assert ItemTargets(items + mine) == ItemTargets(items) + ItemTargets(mine);
      items := items + mine;
      seen := seen + Elements(c.targets);
    }
    assert chunks[..|chunks|] == chunks;
    SameWanted(TargetsOf(chunks), wanted, seen);
  }

  lemma SameWanted(ts: seq<seq<nat>>, wanted: set<nat>, seen: set<nat>)
    requires Once(ts, wanted) && Once(ts, seen)
    ensures wanted == seen
  {
    forall p: nat ensures p in wanted <==> p in seen { assert InSome(ts, p) <==> p in wanted; }
  }

  ghost predicate ServesSome(item: Item, chunks: seq<Chunk>, escalate: set<nat>) {
    exists c :: c in chunks && ServesPart(item, c, escalate)
  }

  /** The work items of one chunk: the targets left to the primary producer, then
      the escalated ones, neither when empty. */
  method ServeChunk(c: Chunk, skip: set<nat>, escalate: set<nat>) returns (mine: seq<Item>)
    ensures mine == Served(c, skip, escalate)
    ensures forall k | 0 <= k < |mine| :: ServesPart(mine[k], c, escalate)
    ensures Distinct(c.targets) ==> Once(ItemTargets(mine), Elements(c.targets) - skip)
  {
    hide Once, ServesPart;
    ServedMeans(c, skip, escalate);
    var targets := Omit(c.targets, skip);
    if targets == [] {
      FirstIsIn(Omit(targets, escalate));
      FirstIsIn(Pick(targets, escalate));
      return [];
    }
    var primary := Omit(targets, escalate);
    var up := Pick(targets, escalate);
    mine := [];
    if primary != [] {
      mine := mine + [Item(Chunk(c.grain, c.lines, primary), false)];
    }
    if up != [] {
      mine := mine + [Item(Chunk(c.grain, c.lines, up), true)];
    }
  }

  function Served(c: Chunk, skip: set<nat>, escalate: set<nat>): seq<Item> {
    var primary, up := Omit(Omit(c.targets, skip), escalate), Pick(Omit(c.targets, skip), escalate);
    (if primary != [] then [Item(Chunk(c.grain, c.lines, primary), false)] else [])
    + (if up != [] then [Item(Chunk(c.grain, c.lines, up), true)] else [])
  }

  lemma {:induction false} ServedOnce(ts: seq<seq<nat>>, wanted: set<nat>, c: Chunk, skip: set<nat>, escalate: set<nat>, mine: seq<Item>)
    requires Once(ts, wanted) && Distinct(c.targets) && Elements(c.targets) !! wanted && mine == Served(c, skip, escalate)
    ensures Once(ts + ItemTargets(mine), wanted + (Elements(c.targets) - skip))
    ensures forall k | 0 <= k < |mine| :: ServesPart(mine[k], c, escalate)
  {
    hide Once, Pick, Omit;
    var targets := Omit(c.targets, skip);
    var primary, up := Omit(targets, escalate), Pick(targets, escalate);
    var first := Extended(ts, primary);
    OneListMaybe(ts, wanted, primary);
    OneListMaybe(first, wanted + Elements(primary), up);
    assert ts + ItemTargets(mine) == Extended(first, up);
    assert wanted + (Elements(c.targets) - skip) == wanted + Elements(primary) + Elements(up);
  }

  /** One chunk's items serve its targets but the skipped ones, each once, each by the
      producer its tier asks for. */
  lemma {:induction false} ServedMeans(c: Chunk, skip: set<nat>, escalate: set<nat>)
    ensures forall k | 0 <= k < |Served(c, skip, escalate)| :: ServesPart(Served(c, skip, escalate)[k], c, escalate)
    ensures Distinct(c.targets) ==> Once(ItemTargets(Served(c, skip, escalate)), Elements(c.targets) - skip)
  {
    hide Once, Pick, Omit;
    if Distinct(c.targets) {
      NoLists();
      ServedOnce([], {}, c, skip, escalate, Served(c, skip, escalate));
      assert [] + ItemTargets(Served(c, skip, escalate)) == ItemTargets(Served(c, skip, escalate));
      assert ItemTargets([]) == [];
      assert {} + (Elements(c.targets) - skip) == Elements(c.targets) - skip;
    }
  }

  ghost function Extended(ts: seq<seq<nat>>, s: seq<nat>): seq<seq<nat>> {
    if s == [] then ts else ts + [s]
  }

  lemma {:induction false} OneListMaybe(ts: seq<seq<nat>>, wanted: set<nat>, s: seq<nat>)
    requires Once(ts, wanted) && Distinct(s) && Elements(s) !! wanted
    ensures Once(Extended(ts, s), wanted + Elements(s))
  {
    hide Once;
    if s == [] { assert wanted + Elements(s) == wanted; } else { OneListMore(ts, wanted, s); }
  }

  lemma SkipApart(seen: set<nat>, more: set<nat>, skip: set<nat>)
    requires more !! seen
    ensures more !! seen - skip && seen + more - skip == seen - skip + (more - skip)
  {
  }

  lemma NoLists()
    ensures Once(TargetsOf([]), {}) && Once(ItemTargets([]), {})
  {
  }

  lemma {:induction false} ChunkApart(chunks: seq<Chunk>, wanted: set<nat>, k: nat, seen: set<nat>)
    requires Once(TargetsOf(chunks), wanted) && k < |chunks| && Once(TargetsOf(chunks[..k]), seen)
    ensures Distinct(chunks[k].targets) && Elements(chunks[k].targets) !! seen
    ensures Once(TargetsOf(chunks[..k + 1]), seen + Elements(chunks[k].targets))
  {
    var ts := TargetsOf(chunks);
    assert TargetsOf(chunks[..k]) == ts[..k] && TargetsOf(chunks[..k + 1]) == ts[..k] + [ts[k]];
    forall p: nat | p in seen ensures p !in ts[k] {
      assert InSome(ts[..k], p);
      var j: nat :| j < k && p in ts[j];
    }
    OneListMore(ts[..k], seen, ts[k]);
  }

  // ----- members of units have roles -----

  /** Where every line at either end of a pointer has a role, so has every member of a
      unit, and no unit is ever half skipped or half escalated. */
  lemma {:induction false} MembersHaveRoles(lines: seq<Line>, groups: seq<U.HyphenGroup>)
    requires P.Roled(lines) && W.OnePage(lines) && U.IsGrouping(ByRef(lines), groups)
    ensures RolesKept(lines, groups)
  {
    hide P.Roled, U.IsGrouping, W.Spots, W.OnePage;
    forall g, p: nat | g in groups && p in W.Spots(lines, g) && p < |lines| ensures !lines[p].role.NoRole? {
      var other := AnotherMember(lines, groups, g, p);
      MemberHasRole(lines, p, other);
    }
  }

  lemma {:induction false} AnotherMember(lines: seq<Line>, groups: seq<U.HyphenGroup>, g: U.HyphenGroup, p: nat)
    returns (other: LineRef)
    requires W.OnePage(lines) && U.IsGrouping(ByRef(lines), groups) && g in groups && p in W.Spots(lines, g)
    ensures p < |lines| && other != lines[p].ref && U.SameUnit(ByRef(lines), lines[p].ref, other)
  {
    W.SpotsAreMembers(lines, groups, g, p);
    assert U.IsUnit(ByRef(lines), g);
    hide U.SameUnit, U.IsUnit, U.IsGrouping, W.Spots;
    UnitFacts(ByRef(lines), g);
    other := if g.members[0] != lines[p].ref then g.members[0] else g.members[1];
  }

  lemma UnitFacts(m: map<LineRef, Line>, g: U.HyphenGroup)
    requires U.IsUnit(m, g)
    ensures |g.members| >= 2 && g.members[0] != g.members[1]
    ensures forall x, y | x in g.members && y in g.members :: U.SameUnit(m, x, y)
  {
  }

  lemma {:induction false} MemberHasRole(lines: seq<Line>, p: nat, other: LineRef)
    requires P.Roled(lines) && W.OnePage(lines) && p < |lines|
    requires other != lines[p].ref && U.SameUnit(ByRef(lines), lines[p].ref, other)
    ensures !lines[p].role.NoRole?
  {
    hide Pointers, ByRef, W.OnePage;
    var m, me := ByRef(lines), lines[p].ref;
    if forall e | e in U.Links(m) :: e.0 in {me} <==> e.1 in {me} {
      F.ConnectedKeeps(U.Links(m), me, other, {me});
    }
    var e :| e in U.Links(m) && !(e.0 in {me} <==> e.1 in {me});
    ByRefKeys(lines);
    var x := W.PositionOf(lines, e.0);
    var y := W.PositionOf(lines, e.1);
    L.ByRefAt(lines, p);
    L.ByRefAt(lines, x);
    L.ByRefAt(lines, y);
    assert P.RoledPair(lines[x], lines[y]);
  }
}

/** `batching.py`: cutting a chunk so that no call exceeds the producer's image
    cap, without ever separating the members of a hyphen unit. */
module Batching {
  import opened Prelude
  import opened Manifest
  import opened Chunks
  import R = Routing
  import U = Units
  import W = WindowPlanner

  /** The lines that must share a call with x. */
  function UnitSet(lines: seq<Line>, units: map<nat, set<nat>>, x: nat): set<nat> {
    if x < |lines| && !lines[x].role.NoRole? && x in units then units[x] else {x}
  }

  /** Units are classes: sharing a call is symmetric and transitive. */
  ghost predicate Classes(lines: seq<Line>, units: map<nat, set<nat>>) {
    forall x: nat, y: nat | y in UnitSet(lines, units, x) :: UnitSet(lines, units, y) == UnitSet(lines, units, x)
  }

  lemma InOwnUnit(lines: seq<Line>, units: map<nat, set<nat>>, x: nat)
    requires forall p: nat | p in units :: p in units[p]
    ensures x in UnitSet(lines, units, x)
  {
  }

  /** The units of a page whose unit members all have a hyphen role are classes. */
  lemma {:induction false} PageUnitsAreClasses(lines: seq<Line>, groups: seq<U.HyphenGroup>, units: map<nat, set<nat>>)
    requires W.Disjoint(lines, groups) && R.RolesKept(lines, groups) && R.MapsUnits(lines, groups, false, units)
    ensures Classes(lines, units)
  {
    hide W.Spots, W.Disjoint;
    forall x: nat, y: nat | y in UnitSet(lines, units, x) ensures UnitSet(lines, units, y) == UnitSet(lines, units, x) {
      if x < |lines| && !lines[x].role.NoRole? && x in units {
        var g :| R.Owning(lines, groups, false, g, x) && units[x] == W.Spots(lines, g);
        assert R.Owning(lines, groups, false, g, y);
        W.SpotsInPage(lines, g);
      }
    }
  }

  lemma {:induction false} InMappedUnit(lines: seq<Line>, groups: seq<U.HyphenGroup>, units: map<nat, set<nat>>)
    requires R.MapsUnits(lines, groups, false, units)
    ensures forall p: nat | p in units :: p in units[p]
  {
    hide W.Spots;
    forall p: nat | p in units ensures p in units[p] {
      var g :| R.Owning(lines, groups, false, g, p) && units[p] == W.Spots(lines, g);
    }
  }

  // ----- one chunk -----

  ghost predicate TooBig(lines: seq<Line>, units: map<nat, set<nat>>, c: Chunk, cap: nat, x: nat) {
    x in c.targets && x in c.lines && |R.Pick(c.lines, UnitSet(lines, units, x))| > cap
  }

  ghost predicate SomeTooBig(lines: seq<Line>, units: map<nat, set<nat>>, c: Chunk, cap: nat) {
    exists x: nat :: TooBig(lines, units, c, cap, x)
  }

  /** A batch is whole: with a line it holds every member of its unit that the
      chunk sends. */
  ghost predicate Whole(lines: seq<Line>, units: map<nat, set<nat>>, sent: seq<nat>, batch: seq<nat>) {
    forall x: nat, y: nat | x in batch && y in UnitSet(lines, units, x) && y in sent :: y in batch
  }

  ghost predicate BatchOk(lines: seq<Line>, units: map<nat, set<nat>>, c: Chunk, cap: nat, batch: seq<nat>) {
    && 1 <= |batch| <= cap && Distinct(batch) && (forall x | x in batch :: x in c.lines)
    && (Classes(lines, units) ==> Whole(lines, units, c.lines, batch))
    && exists x :: x in batch && x in c.targets
  }

  /** The batches place every target of the chunk, each line once. */
  ghost predicate Places(batches: seq<seq<nat>>, c: Chunk) {
    exists all :: R.Once(batches, all) && Holds(all, c)
  }

  ghost predicate Holds(all: set<nat>, c: Chunk) {
    forall x | x in c.lines && x in c.targets :: x in all
  }

  lemma {:induction false} PickSame(ps: seq<nat>, a: set<nat>, b: set<nat>)
    requires forall p: nat | p in ps :: p in a <==> p in b
    ensures R.Pick(ps, a) == R.Pick(ps, b)
  {
    if ps != [] {
      assert ps == ps[..|ps| - 1] + [ps[|ps| - 1]];
      PickSame(ps[..|ps| - 1], a, b);
    }
  }

  /** Every line already placed came with its whole unit. */
  ghost predicate Closed(lines: seq<Line>, units: map<nat, set<nat>>, c: Chunk, placed: set<nat>) {
    forall x: nat, y: nat | x in placed && y in UnitSet(lines, units, x) && y in c.lines :: y in placed
  }

  /** What `members` is for a line not yet placed: some of its unit, none of it placed. */
  lemma {:induction false} MembersOf(lines: seq<Line>, units: map<nat, set<nat>>, c: Chunk, placed: set<nat>, x: nat, unit: set<nat>)
    requires (forall p: nat | p in units :: p in units[p]) && x in c.lines && x !in placed && Distinct(c.lines)
    requires forall y: nat | y in c.lines :: y in unit <==> y in UnitSet(lines, units, x) && y !in placed
    ensures var members := R.Pick(c.lines, unit);
      && Distinct(members) && x in members && x in R.Elements(members) && R.Elements(members) !! placed
      && (forall y | y in members :: y in c.lines)
      && |members| <= |R.Pick(c.lines, UnitSet(lines, units, x))|
  {
    InOwnUnit(lines, units, x);
    hide UnitSet;
    PickFewer(c.lines, unit, UnitSet(lines, units, x));
    hide R.Pick;
  }

  lemma {:induction false} PickFewer(ps: seq<nat>, a: set<nat>, b: set<nat>)
    requires forall p: nat | p in ps && p in a :: p in b
    ensures |R.Pick(ps, a)| <= |R.Pick(ps, b)|
  {
    if ps != [] {
      assert ps == ps[..|ps| - 1] + [ps[|ps| - 1]];
      PickFewer(ps[..|ps| - 1], a, b);
    }
  }

  /** Where units are classes it is the whole unit, untouched. */
  lemma {:induction false} MembersAreWhole(lines: seq<Line>, units: map<nat, set<nat>>, c: Chunk, placed: set<nat>, x: nat, unit: set<nat>)
    requires Classes(lines, units) && (forall p: nat | p in units :: p in units[p])
    requires Closed(lines, units, c, placed) && x in c.lines && x !in placed
    requires forall y: nat | y in c.lines :: y in unit <==> y in UnitSet(lines, units, x) && y !in placed
    ensures var members := R.Pick(c.lines, unit);
      && members == R.Pick(c.lines, UnitSet(lines, units, x))
      && Whole(lines, units, c.lines, members) && Closed(lines, units, c, placed + R.Elements(members))
  {
    InOwnUnit(lines, units, x);
    hide UnitSet, R.Pick;
    forall y: nat | y in UnitSet(lines, units, x) && y in c.lines ensures y !in placed {
      assert x in UnitSet(lines, units, y);
    }
    PickSame(c.lines, unit, UnitSet(lines, units, x));
  }

  /** What is known of the lines placed, where units are classes. */
  ghost predicate PlacedWhole(lines: seq<Line>, units: map<nat, set<nat>>, c: Chunk, cap: nat, placed: set<nat>) {
    Classes(lines, units) ==> Closed(lines, units, c, placed) && forall x | x in placed :: !TooBig(lines, units, c, cap, x)
  }

  lemma {:induction false} PlacedMore(lines: seq<Line>, units: map<nat, set<nat>>, c: Chunk, cap: nat, placed: set<nat>, x: nat, unit: set<nat>)
    requires (forall p: nat | p in units :: p in units[p]) && PlacedWhole(lines, units, c, cap, placed) && x in c.lines && x !in placed
    requires forall y: nat | y in c.lines :: y in unit <==> y in UnitSet(lines, units, x) && y !in placed
    requires |R.Pick(c.lines, unit)| <= cap
    ensures var members := R.Pick(c.lines, unit);
      && PlacedWhole(lines, units, c, cap, placed + R.Elements(members))
      && (Classes(lines, units) ==> Whole(lines, units, c.lines, members))
  {
    hide Closed, UnitSet, R.Pick, TooBig, Classes, Whole;
    if Classes(lines, units) {
      MembersAreWhole(lines, units, c, placed, x, unit);
      MembersFit(lines, units, c, cap, x, R.Pick(c.lines, unit));
    }
  }

  /** The inner loop of `_split_for_image_cap`: it refuses only when some unit needs
      more images than one call takes, and, where units are classes, exactly then. */
  method SplitChunk(lines: seq<Line>, units: map<nat, set<nat>>, c: Chunk, cap: nat) returns (batches: Option<seq<seq<nat>>>)
    requires (forall p: nat | p in units :: p in units[p]) && Distinct(c.lines)
    ensures batches.None? ==> SomeTooBig(lines, units, c, cap)
    ensures Classes(lines, units) ==> (batches.None? <==> SomeTooBig(lines, units, c, cap))
    ensures batches.Some? ==> forall k | 0 <= k < |batches.value| :: BatchOk(lines, units, c, cap, batches.value[k])
    ensures batches.Some? ==> Places(batches.value, c)
  {
    hide R.Once, BatchOk, PlacedWhole, R.Pick, R.Elements, Classes, TooBig, UnitSet;
    var done: seq<seq<nat>> := [];
    var current: seq<nat> := [];
    var placed: set<nat> := {};
    Nothing(lines, units, c, cap);
    for i := 0 to |c.lines|
      invariant PlacedWhole(lines, units, c, cap, placed)
      invariant R.Once(R.Extended(done, current), placed)
      invariant current != [] ==> BatchOk(lines, units, c, cap, current)
      invariant forall k | 0 <= k < |done| :: BatchOk(lines, units, c, cap, done[k])
      invariant forall j | 0 <= j < i && c.lines[j] in c.targets :: c.lines[j] in placed
    {
      var x := c.lines[i];
      if x in placed || x !in c.targets { continue; }
      var unit: set<nat> := {x};
      if x < |lines| && !lines[x].role.NoRole? && x in units {
        unit := (set y | y in units[x] && y in c.lines) - placed;
      }
      assert forall y: nat | y in c.lines :: y in unit <==> y in UnitSet(lines, units, x) && y !in placed by { UnitIs(lines, units, x); }
      MembersOf(lines, units, c, placed, x, unit);
      var members := R.Pick(c.lines, unit);
      if |members| > cap { Refused(lines, units, c, cap, x); return None; }
      PlacedMore(lines, units, c, cap, placed, x, unit);
      R.OneListMore(R.Extended(done, current), placed, members);
      if current != [] && |current| + |members| > cap {
        done := done + [current];
        current := [];
      }
      Joined(lines, units, c, cap, done, current, members, placed + R.Elements(members), x);
      current := current + members;
      placed := placed + R.Elements(members);
    }
    Finished(lines, units, c, cap, placed);
    if current != [] { done := done + [current]; }
    batches := Some(done);
  }

  lemma UnitIs(lines: seq<Line>, units: map<nat, set<nat>>, x: nat)
    ensures UnitSet(lines, units, x) == if x < |lines| && !lines[x].role.NoRole? && x in units then units[x] else {x}
  {
  }

  lemma Nothing(lines: seq<Line>, units: map<nat, set<nat>>, c: Chunk, cap: nat)
    ensures PlacedWhole(lines, units, c, cap, {}) && R.Once(R.Extended([], []), {})
  {
  }

  lemma {:induction false} Refused(lines: seq<Line>, units: map<nat, set<nat>>, c: Chunk, cap: nat, x: nat)
    requires x in c.targets && x in c.lines && |R.Pick(c.lines, UnitSet(lines, units, x))| > cap
    ensures TooBig(lines, units, c, cap, x)
  {
  }

  lemma {:induction false} MembersFit(lines: seq<Line>, units: map<nat, set<nat>>, c: Chunk, cap: nat, x: nat, members: seq<nat>)
    requires Classes(lines, units) && members == R.Pick(c.lines, UnitSet(lines, units, x)) && |members| <= cap
    ensures forall y: nat | y in R.Elements(members) :: !TooBig(lines, units, c, cap, y)
  {
    hide UnitSet;
  }

  /** Members added to a batch with room, or to a new one. */
  lemma {:induction false} Joined(lines: seq<Line>, units: map<nat, set<nat>>, c: Chunk, cap: nat, done: seq<seq<nat>>,
                                  current: seq<nat>, members: seq<nat>, placed: set<nat>, x: nat)
    requires current == [] || BatchOk(lines, units, c, cap, current)
    requires 1 <= |members| && |current| + |members| <= cap && (Classes(lines, units) ==> Whole(lines, units, c.lines, members))
    requires (forall y | y in members :: y in c.lines) && x in members && x in c.targets
    requires R.Once(R.Extended(done, current) + [members], placed)
    ensures BatchOk(lines, units, c, cap, current + members)
    ensures R.Once(R.Extended(done, current + members), placed)
  {
    hide UnitSet, R.Once;
    assert x in current + members;
    if current == [] {
      assert current + members == members;
    } else {
      FuseLast(done, current, members, placed);
    }
    LastIsDistinct(done, current + members, placed);
  }

  lemma LastIsDistinct(done: seq<seq<nat>>, last: seq<nat>, placed: set<nat>)
    requires R.Once(done + [last], placed)
    ensures Distinct(last)
  {
    assert (done + [last])[|done|] == last;
  }

  lemma {:induction false} FuseLast(done: seq<seq<nat>>, a: seq<nat>, b: seq<nat>, placed: set<nat>)
    requires R.Once(done + [a] + [b], placed)
    ensures R.Once(done + [a + b], placed)
  {
    var ts, us := done + [a] + [b], done + [a + b];
    var n := |done|;
    assert ts[n] == a && ts[n + 1] == b && us[n] == a + b;
    assert forall k | 0 <= k < n :: ts[k] == done[k] == us[k];
    DistinctConcat(a, b);
    forall j, k, p: nat | 0 <= j < k < |us| && p in us[j] ensures p !in us[k] {
      assert p in ts[j] && p !in ts[n + 1];
    }
    forall p: nat ensures InSome(us, p) <==> p in placed {
      assert InSome(ts, p) <==> p in placed;
      if InSome(ts, p) {
        var k :| 0 <= k < |ts| && p in ts[k];
        assert p in us[if k <= n then k else n];
      }
      if InSome(us, p) {
        var k :| 0 <= k < |us| && p in us[k];
        assert p in ts[k] || p in ts[n + 1];
      }
    }
  }

  lemma {:induction false} Finished(lines: seq<Line>, units: map<nat, set<nat>>, c: Chunk, cap: nat, placed: set<nat>)
    requires forall j | 0 <= j < |c.lines| && c.lines[j] in c.targets :: c.lines[j] in placed
    requires PlacedWhole(lines, units, c, cap, placed)
    ensures Holds(placed, c)
    ensures Classes(lines, units) ==> !SomeTooBig(lines, units, c, cap)
  {
    hide Classes, Closed;
  }

  // ----- all the chunks -----

  function CapOf(item: R.Item, primary: Option<nat>, up: Option<nat>): Option<nat> {
    if item.escalated then up else primary
  }

  predicate OverCap(item: R.Item, primary: Option<nat>, up: Option<nat>) {
    var cap := CapOf(item, primary, up);
    cap.Some? && |item.chunk.lines| > cap.value
  }

  function PickEach(batches: seq<seq<nat>>, kept: set<nat>): (ts: seq<seq<nat>>)
    ensures |ts| == |batches| && forall k | 0 <= k < |ts| :: ts[k] == R.Pick(batches[k], kept)
  {
    seq(|batches|, k requires 0 <= k < |batches| => R.Pick(batches[k], kept))
  }

  /** Of the batches' lines, the chunk's own targets. */
  lemma {:induction false} PickedOnce(batches: seq<seq<nat>>, all: set<nat>, kept: set<nat>)
    requires R.Once(batches, all) && kept <= all
    ensures R.Once(PickEach(batches, kept), kept)
  {
    hide R.Pick;
    var ts := PickEach(batches, kept);
    forall j, k, p: nat | 0 <= j < k < |ts| && p in ts[j] ensures p !in ts[k] {
      assert p in batches[j];
    }
    forall p: nat ensures InSome(ts, p) <==> p in kept {
      assert InSome(batches, p) <==> p in all;
      if p in kept { var k :| 0 <= k < |batches| && p in batches[k]; assert p in ts[k]; }
    }
  }

  lemma {:induction false} OnceConcat(ts: seq<seq<nat>>, us: seq<seq<nat>>, a: set<nat>, b: set<nat>)
    requires R.Once(ts, a) && R.Once(us, b) && a !! b
    ensures R.Once(ts + us, a + b)
  {
    var all := ts + us;
    assert forall k | 0 <= k < |ts| :: all[k] == ts[k];
    assert forall k | |ts| <= k < |all| :: all[k] == us[k - |ts|];
    forall j, k, p: nat | 0 <= j < k < |all| && p in all[j] ensures p !in all[k] {
      if j < |ts| <= k {
        assert InSome(ts, p);
        assert !InSome(us, p);
        assert all[k] == us[k - |ts|];
      }
    }
    forall p: nat ensures InSome(all, p) <==> p in a + b {
      if InSome(ts, p) { var k :| 0 <= k < |ts| && p in ts[k]; assert p in all[k]; }
      if InSome(us, p) { var k :| 0 <= k < |us| && p in us[k]; assert p in all[|ts| + k]; }
      if InSome(all, p) {
        var k :| 0 <= k < |all| && p in all[k];
        assert InSome(ts, p) || InSome(us, p) by { assert if k < |ts| then p in ts[k] else p in us[k - |ts|]; }
      }
    }
  }

  /** One chunk's calls: itself when it fits, its batches otherwise. */
  ghost predicate CallsOf(lines: seq<Line>, units: map<nat, set<nat>>, item: R.Item, primary: Option<nat>, up: Option<nat>,
                          calls: seq<R.Item>) {
    if !OverCap(item, primary, up) then calls == [item]
    else
      var cap := CapOf(item, primary, up).value;
      forall k | 0 <= k < |calls| ::
        && calls[k].escalated == item.escalated && calls[k].chunk.targets != [] && Wellformed(calls[k])
        && BatchOk(lines, units, item.chunk, cap, calls[k].chunk.lines)
  }

  method CallsFor(lines: seq<Line>, units: map<nat, set<nat>>, item: R.Item, primary: Option<nat>, up: Option<nat>)
    returns (calls: Option<seq<R.Item>>)
    requires forall p: nat | p in units :: p in units[p]
    requires Distinct(item.chunk.lines) && Distinct(item.chunk.targets) && forall p | p in item.chunk.targets :: p in item.chunk.lines
    ensures calls.None? ==> Refusal(lines, units, item, primary, up)
    ensures Classes(lines, units) ==> (calls.None? <==> Refusal(lines, units, item, primary, up))
    ensures calls.Some? ==> CallsOf(lines, units, item, primary, up, calls.value)
    ensures calls.Some? ==> R.Once(R.ItemTargets(calls.value), R.Elements(item.chunk.targets))
  {
    hide Classes, BatchOk, TooBig, R.Pick, R.Once, UnitSet;
    if !OverCap(item, primary, up) {
      OneItem(item);
      return Some([item]);
    }
    var c := item.chunk;
    var batches := SplitChunk(lines, units, c, CapOf(item, primary, up).value);
    if batches.None? { return None; }
    var targets := set t | t in c.targets;
    var out: seq<R.Item> := [];
    for k := 0 to |batches.value|
      invariant |out| == k
      invariant forall j | 0 <= j < k :: out[j] == R.Item(Chunk(c.grain, batches.value[j], R.Pick(batches.value[j], targets)), item.escalated)
    {
      out := out + [R.Item(Chunk(c.grain, batches.value[k], R.Pick(batches.value[k], targets)), item.escalated)];
    }
    ghost var all :| R.Once(batches.value, all) && Holds(all, c);
    PickedOnce(batches.value, all, targets);
    assert R.ItemTargets(out) == PickEach(batches.value, targets);
    assert targets == R.Elements(c.targets);
    forall k | 0 <= k < |out| ensures out[k].chunk.targets != [] && Wellformed(out[k]) {
      BatchIsDistinct(lines, units, c, CapOf(item, primary, up).value, batches.value[k]);
      TargetInBatch(lines, units, c, CapOf(item, primary, up).value, batches.value[k], targets);
    }
    calls := Some(out);
  }

  lemma BatchIsDistinct(lines: seq<Line>, units: map<nat, set<nat>>, c: Chunk, cap: nat, batch: seq<nat>)
    requires BatchOk(lines, units, c, cap, batch)
    ensures Distinct(batch)
  {
  }

  lemma TargetInBatch(lines: seq<Line>, units: map<nat, set<nat>>, c: Chunk, cap: nat, batch: seq<nat>, targets: set<nat>)
    requires BatchOk(lines, units, c, cap, batch) && forall t | t in c.targets :: t in targets
    ensures R.Pick(batch, targets) != []
  {
    var x :| x in batch && x in c.targets;
    assert x in R.Pick(batch, targets);
  }

  lemma OneItem(item: R.Item)
    requires Distinct(item.chunk.targets)
    ensures R.Once(R.ItemTargets([item]), R.Elements(item.chunk.targets))
  {
    R.NoLists();
    R.OneListMore([], {}, item.chunk.targets);
    assert R.ItemTargets([]) == [];
    assert [] + [item.chunk.targets] == R.ItemTargets([item]);
    assert {} + R.Elements(item.chunk.targets) == R.Elements(item.chunk.targets);
  }

  ghost predicate Wellformed(item: R.Item) {
    Distinct(item.chunk.lines) && Distinct(item.chunk.targets) && forall p | p in item.chunk.targets :: p in item.chunk.lines
  }

  ghost predicate Refusal(lines: seq<Line>, units: map<nat, set<nat>>, item: R.Item, primary: Option<nat>, up: Option<nat>) {
    OverCap(item, primary, up) && SomeTooBig(lines, units, item.chunk, CapOf(item, primary, up).value)
  }

  ghost predicate SomeRefusal(lines: seq<Line>, units: map<nat, set<nat>>, items: seq<R.Item>, primary: Option<nat>, up: Option<nat>) {
    exists k :: 0 <= k < |items| && Refusal(lines, units, items[k], primary, up)
  }

  ghost predicate Call(lines: seq<Line>, units: map<nat, set<nat>>, items: seq<R.Item>, primary: Option<nat>, up: Option<nat>, call: R.Item) {
    exists item, calls :: item in items && call in calls && CallsOf(lines, units, item, primary, up, calls)
  }

  /** `_split_for_image_cap`: every target is still served once and no call is above
      its producer's cap; it refuses only when some unit of an over-full chunk needs
      more than one call. Where units are classes it refuses exactly then, and every
      call of a cut chunk is whole. */
  method SplitForImageCap(lines: seq<Line>, units: map<nat, set<nat>>, items: seq<R.Item>, primary: Option<nat>, up: Option<nat>,
                          ghost wanted: set<nat>) returns (out: Option<seq<R.Item>>)
    requires forall p: nat | p in units :: p in units[p]
    requires R.Once(R.ItemTargets(items), wanted) && forall k | 0 <= k < |items| :: Wellformed(items[k])
    ensures out.None? ==> SomeRefusal(lines, units, items, primary, up)
    ensures Classes(lines, units) ==> (out.None? <==> SomeRefusal(lines, units, items, primary, up))
    ensures out.Some? ==> R.Once(R.ItemTargets(out.value), wanted)
    ensures out.Some? ==> forall k | 0 <= k < |out.value| ::
      !OverCap(out.value[k], primary, up) && Call(lines, units, items, primary, up, out.value[k])
  {
    hide Classes, TooBig, CallsOf, OverCap, CapOf, R.Once, R.Elements, UnitSet, Call;
    var calls: seq<R.Item> := [];
    ghost var seen: set<nat> := {};
    R.NoLists();
    for k := 0 to |items|
      invariant R.Once(R.ItemTargets(items[..k]), seen) && R.Once(R.ItemTargets(calls), seen)
      invariant Classes(lines, units) ==> forall j | 0 <= j < k :: !Refusal(lines, units, items[j], primary, up)
      invariant forall j | 0 <= j < |calls| :: !OverCap(calls[j], primary, up) && Call(lines, units, items, primary, up, calls[j])
    {
      var mine := CallsFor(lines, units, items[k], primary, up);
      if mine.None? { return None; }
      ItemApart(items, wanted, k, seen);
      OnceConcat(R.ItemTargets(calls), R.ItemTargets(mine.value), seen, R.Elements(items[k].chunk.targets));
      assert R.ItemTargets(calls + mine.value) == R.ItemTargets(calls) + R.ItemTargets(mine.value);
      CallsFit(lines, units, items, items[k], primary, up, mine.value);
      calls := calls + mine.value;
      seen := seen + R.Elements(items[k].chunk.targets);
    }
    assert items[..|items|] == items;
    R.SameWanted(R.ItemTargets(items), wanted, seen);
    out := Some(calls);
  }

  lemma {:induction false} CallsFit(lines: seq<Line>, units: map<nat, set<nat>>, items: seq<R.Item>, item: R.Item,
                                    primary: Option<nat>, up: Option<nat>, calls: seq<R.Item>)
    requires item in items && CallsOf(lines, units, item, primary, up, calls)
    ensures forall k | 0 <= k < |calls| :: !OverCap(calls[k], primary, up) && Call(lines, units, items, primary, up, calls[k])
  {
  }

  lemma {:induction false} ItemApart(items: seq<R.Item>, wanted: set<nat>, k: nat, seen: set<nat>)
    requires R.Once(R.ItemTargets(items), wanted) && k < |items| && R.Once(R.ItemTargets(items[..k]), seen)
    ensures seen !! R.Elements(items[k].chunk.targets)
    ensures R.Once(R.ItemTargets(items[..k + 1]), seen + R.Elements(items[k].chunk.targets))
  {
    var ts := R.ItemTargets(items);
    assert R.ItemTargets(items[..k]) == ts[..k] && R.ItemTargets(items[..k + 1]) == ts[..k] + [ts[k]];
    forall p: nat | p in seen ensures p !in ts[k] {
      assert InSome(ts[..k], p);
      var j: nat :| j < k && p in ts[j];
    }
    R.OneListMore(ts[..k], seen, ts[k]);
  }

  // ----- `PageRouter.route` -----

  /** A chunk lists no line twice. */
  ghost predicate Listable(chunks: seq<Chunk>) {
    forall c | 0 <= c < |chunks| :: Distinct(chunks[c].lines)
  }

  /** Routing a page: a line is either confirmed as it stands or served by exactly
      one call, within every cap; only the cap can refuse. */
  method Route(lines: seq<Line>, chunks: seq<Chunk>, enabled: bool, tiers: seq<R.Tier>, canEscalate: bool,
               primary: Option<nat>, up: Option<nat>) returns (skip: set<nat>, out: Option<seq<R.Item>>)
    requires W.OnePage(lines) && |tiers| == |lines|
    requires Conserves(|lines|, chunks) && Listable(chunks)
    ensures forall p: nat :: p in skip <==> enabled && p < |lines| && lines[p].role.NoRole? && tiers[p].Skip?
    ensures out.Some? ==> R.Once(R.ItemTargets(out.value), R.Elements(Iota(|lines|)) - skip)
    ensures out.Some? ==> forall k | 0 <= k < |out.value| :: !OverCap(out.value[k], primary, up)
    ensures primary.None? && up.None? ==> out.Some?
    ensures out.Some? ==> forall k | 0 <= k < |out.value| :: Wellformed(out.value[k]) && InPage(|lines|, out.value[k])
  {
    hide *;
    var groups := U.DeriveHyphenGroups(lines);
    W.GroupsApart(lines, groups);
    R.PlanTargetsOnce(|lines|, chunks);
    ghost var all := R.Elements(Iota(|lines|));
    var items: seq<R.Item>;
    skip := {};
    if enabled {
      var complete := R.UnitMap(lines, groups, true);
      var escalate;
      skip, escalate := R.ScoreTiers(lines, tiers, complete, canEscalate);
      items := R.WorkItems(chunks, skip, escalate, all);
      ServedAreWellformed(|lines|, chunks, items, escalate, all - skip);
    } else {
      items := AllPrimary(chunks);
      assert R.ItemTargets(items) == R.TargetsOf(chunks);
      assert all - {} == all;
      PlainAreWellformed(|lines|, chunks, items);
    }
    var visible := R.UnitMap(lines, groups, false);
    InMappedUnit(lines, groups, visible);
    out := SplitForImageCap(lines, visible, items, primary, up, all - skip);
    NoCapNoRefusal(lines, visible, items, primary, up);
    if out.Some? { CallsAreWellformed(lines, visible, items, primary, up, out.value); }
  }

  ghost predicate InPage(n: nat, item: R.Item) {
    forall p | p in item.chunk.lines :: p < n
  }

  lemma {:induction false} CallsAreWellformed(lines: seq<Line>, units: map<nat, set<nat>>, items: seq<R.Item>, primary: Option<nat>,
                                              up: Option<nat>, out: seq<R.Item>)
    requires forall k | 0 <= k < |items| :: Wellformed(items[k]) && InPage(|lines|, items[k])
    requires forall k | 0 <= k < |out| :: Call(lines, units, items, primary, up, out[k])
    ensures forall k | 0 <= k < |out| :: Wellformed(out[k]) && InPage(|lines|, out[k])
  {
    hide UnitSet;
    forall k | 0 <= k < |out| ensures Wellformed(out[k]) && InPage(|lines|, out[k]) {
      var item, calls :| item in items && out[k] in calls && CallsOf(lines, units, item, primary, up, calls);
      var i :| 0 <= i < |calls| && calls[i] == out[k];
    }
  }

  method AllPrimary(chunks: seq<Chunk>) returns (items: seq<R.Item>)
    ensures |items| == |chunks| && forall k | 0 <= k < |items| :: items[k] == R.Item(chunks[k], false)
  {
    items := seq(|chunks|, k requires 0 <= k < |chunks| => R.Item(chunks[k], false));
  }

  lemma {:induction false} PlainAreWellformed(n: nat, chunks: seq<Chunk>, items: seq<R.Item>)
    requires Conserves(n, chunks) && Listable(chunks)
    requires |items| == |chunks| && forall k | 0 <= k < |items| :: items[k] == R.Item(chunks[k], false)
    ensures forall k | 0 <= k < |items| :: Wellformed(items[k]) && InPage(n, items[k])
  {
  }

  lemma {:induction false} ServedAreWellformed(n: nat, chunks: seq<Chunk>, items: seq<R.Item>, escalate: set<nat>, wanted: set<nat>)
    requires Conserves(n, chunks) && Listable(chunks) && R.Once(R.ItemTargets(items), wanted)
    requires forall k | 0 <= k < |items| :: R.ServesSome(items[k], chunks, escalate)
    ensures forall k | 0 <= k < |items| :: Wellformed(items[k]) && InPage(n, items[k])
  {
    forall k | 0 <= k < |items| ensures Wellformed(items[k]) && InPage(n, items[k]) {
      var c :| c in chunks && R.ServesPart(items[k], c, escalate);
      var i :| 0 <= i < |chunks| && chunks[i] == c;
      assert Distinct(R.ItemTargets(items)[k]);
    }
  }

  lemma NoCapNoRefusal(lines: seq<Line>, units: map<nat, set<nat>>, items: seq<R.Item>, primary: Option<nat>, up: Option<nat>)
    ensures primary.None? && up.None? ==> !SomeRefusal(lines, units, items, primary, up)
  {
  }
}

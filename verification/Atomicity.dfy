/** When a broken word is decided as one: what a chunk's answer, and a chunk's
    failure, leave of a hyphen unit (`reconcile.py`, `acceptance.py`, `outcome.py`). */
module Atomicity {
  import opened Prelude
  import opened Manifest
  import opened Decide
  import opened Reconcile
  import opened Acceptance
  import C = Chunks
  import F = UnionFind
  import L = LinePlanner
  import P = Pairing
  import U = Units
  import V = Reverts

  // ----- a unit a chunk owns -----

  ghost predicate In(vs: seq<Line>, g: U.HyphenGroup, p: nat) {
    p < |vs| && vs[p].ref in g.members
  }

  ghost predicate OwnedPending(vs: seq<Line>, targets: seq<nat>, r: LineRef) {
    exists p: nat :: p in targets && p < |vs| && vs[p].ref == r && vs[p].status.Pending?
  }

  ghost predicate Pool(vs: seq<Line>, w: Workspace) {
    Spots(vs, w.Pool())
  }

  ghost function PoolMap(vs: seq<Line>, w: Workspace): map<LineRef, Line>
    requires Pool(vs, w)
  {
    ByRef(LinesAt(vs, w.Pool()))
  }

  /** A run's state, a chunk of the page, and a whole unit of still undecided lines
      among those the chunk owns. */
  ghost predicate Holds(vs: seq<Line>, w: Workspace, targets: seq<nat>, g: U.HyphenGroup) {
    && Ready(vs, w) && Targets(w, targets) && Spots(vs, targets) && Pool(vs, w)
    && U.IsUnit(PoolMap(vs, w), g) && forall r | r in g.members :: OwnedPending(vs, targets, r)
  }

  /** One of the unit's lines continues onto another. */
  ghost predicate Continues(vs: seq<Line>, g: U.HyphenGroup) {
    exists x: nat, y: nat :: In(vs, g, x) && In(vs, g, y) && ForwardPartner(vs[x]) == Some(vs[y].ref)
  }

  /** All of the unit is at its source text, or none of it fell. */
  ghost predicate AsOne(ws: seq<Line>, g: U.HyphenGroup) {
    (forall p: nat | In(ws, g, p) :: ws[p].status.Fallback?) || (forall p: nat | In(ws, g, p) :: !ws[p].status.Fallback?)
  }

  /** An answer has a text for every line the chunk owns. */
  ghost predicate Covers(vs: seq<Line>, targets: seq<nat>, texts: map<string, string>)
    requires Spots(vs, targets)
  {
    forall k | 0 <= k < |targets| :: vs[targets[k]].ref.line in texts
  }

  lemma HoldsFacts(vs: seq<Line>, w: Workspace, targets: seq<nat>, g: U.HyphenGroup)
    requires Holds(vs, w, targets, g)
    ensures Spots(vs, targets) && Pool(vs, w) && AllSound(vs) && DistinctRefs(vs) && NoSelfLinks(vs) && Located(vs, w)
    ensures Targets(w, targets) && Distinct(targets) && forall p | p in targets :: p in w.lines
    ensures |g.members| >= 2 && Distinct(g.members) && U.IsComponent(PoolMap(vs, w), g.members)
    ensures forall r | r in g.members :: OwnedPending(vs, targets, r)
  {
  }

  lemma TargetsAreSpots(vs: seq<Line>, w: Workspace, targets: seq<nat>, g: U.HyphenGroup)
    requires Holds(vs, w, targets, g)
    ensures Spots(vs, targets) && Pool(vs, w)
  {
  }

  lemma UnitHasTwo(vs: seq<Line>, w: Workspace, targets: seq<nat>, g: U.HyphenGroup)
    requires Holds(vs, w, targets, g)
    ensures |g.members| >= 2 && Distinct(g.members)
  {
  }

  lemma {:induction false} MemberFacts(vs: seq<Line>, w: Workspace, targets: seq<nat>, g: U.HyphenGroup, p: nat)
    requires Holds(vs, w, targets, g) && In(vs, g, p)
    ensures p < |vs| && p in targets && p in w.lines && vs[p].status.Pending? && vs[p].corrected.None? && vs[p].ref.page == w.page
    ensures Lookup(w, Some(vs[p].ref)) == Some(p)
    ensures vs[p].ref in PoolMap(vs, w) && PoolMap(vs, w)[vs[p].ref] == vs[p]
  {
    hide U.IsUnit, ByRef, NoSelfLinks;
    assert OwnedPending(vs, targets, vs[p].ref);
    assert Sound(vs[p]);
    PoolPlaces(vs, w);
    PoolLine(vs, w.Pool(), p);
  }

  lemma InIsPlace(vs: seq<Line>, g: U.HyphenGroup, p: nat)
    requires In(vs, g, p)
    ensures p < |vs|
  {
  }

  lemma PlaceOf(vs: seq<Line>, w: Workspace, targets: seq<nat>, g: U.HyphenGroup, r: LineRef) returns (p: nat)
    requires Holds(vs, w, targets, g) && r in g.members
    ensures In(vs, g, p) && vs[p].ref == r
  {
    hide U.IsUnit, Ready;
    assert OwnedPending(vs, targets, r);
    p :| p in targets && p < |vs| && vs[p].ref == r && vs[p].status.Pending?;
  }

  /** A pointer between two lines of the pool keeps inside, or outside, the unit. */
  lemma {:induction false} LinkKeepsIn(vs: seq<Line>, w: Workspace, targets: seq<nat>, g: U.HyphenGroup, p: nat, q: nat)
    requires Holds(vs, w, targets, g) && p < |vs| && q < |vs| && Reach(w, p) && Reach(w, q)
    requires vs[q].ref in Pointers(vs[p]) || vs[p].ref in Pointers(vs[q])
    ensures In(vs, g, p) <==> In(vs, g, q)
  {
    hide U.SameUnit, ByRef, NoSelfLinks, Pointers, Located;
    PoolPlaces(vs, w);
    PoolLine(vs, w.Pool(), p);
    PoolLine(vs, w.Pool(), q);
    PointerIsAPair(PoolMap(vs, w), vs[p].ref, vs[q].ref);
    U.SameUnitIsAnEquivalence(PoolMap(vs, w), vs[p].ref, vs[q].ref, vs[p].ref);
    assert U.IsComponent(PoolMap(vs, w), g.members);
  }

  // ----- the joins of a walk -----

  /** What a claimed join is: on the page its tail's forward link, across pages its
      head's backward one. */
  lemma {:induction false} ClaimIs(vs: seq<Line>, w: Workspace, targets: seq<nat>, j: Join)
    requires Located(vs, w) && Spots(vs, targets) && (forall p | p in targets :: p in w.lines) && Claims(vs, w, targets, j)
    ensures j.tail < |vs| && j.head < |vs|
    ensures vs[j.tail].ref.page == w.page ==> ForwardPartner(vs[j.tail]) == Some(vs[j.head].ref)
  {
    var k :| 0 <= k < |targets| && (OutClaim(vs, w, targets[k]) == Some(j) || InClaim(vs, w, targets[k]) == Some(j));
    assert targets[k] in targets;
    ClaimInRange(vs, w, targets, k, j);
    LookupFinds(vs, w, ForwardPartner(vs[targets[k]]));
    LookupFinds(vs, w, BackwardPartner(vs[targets[k]]));
    assert vs[targets[k]].ref.page == w.page;
    hide ForwardPartner, BackwardPartner, Lookup, Located;
  }

  lemma {:induction false} WalkIsOfClaims(vs: seq<Line>, w: Workspace, targets: seq<nat>, joins: map<LineRef, Join>, order: seq<Join>, k: nat)
    requires Located(vs, w) && Spots(vs, targets) && ChunkWalk(vs, w, targets, joins, order) && k < |order|
    ensures Claims(vs, w, targets, order[k])
  {
    hide Claims, Located, OutClaim, InClaim, WalksClaims;
    var heads, visited :| Walked(joins, order, heads, visited, vs) && joins.Keys <= visited;
  }

  lemma WalkInRange(vs: seq<Line>, w: Workspace, targets: seq<nat>, joins: map<LineRef, Join>, order: seq<Join>)
    requires Located(vs, w) && Spots(vs, targets) && ChunkWalk(vs, w, targets, joins, order)
    ensures InRange(|vs|, order)
  {
    hide WalksClaims;
  }

  /** A walk's joins lie inside the unit or out of it. */
  lemma {:induction false} JoinKeepsIn(vs: seq<Line>, w: Workspace, targets: seq<nat>, g: U.HyphenGroup, joins: map<LineRef, Join>,
                                       order: seq<Join>, k: nat)
    requires Holds(vs, w, targets, g) && Located(vs, w) && ChunkWalk(vs, w, targets, joins, order) && k < |order|
    ensures In(vs, g, order[k].tail) <==> In(vs, g, order[k].head)
  {
    hide ChunkWalk, Located, U.IsUnit, Claims, DistinctRefs, NoSelfLinks, AllSound, Reach;
    WalkIsOfClaims(vs, w, targets, joins, order, k);
    ClaimIsALink(vs, w, targets, order[k]);
    TargetsReach(w, targets);
    ClaimsStayInReach(vs, w, targets, order[k]);
    LinkKeepsIn(vs, w, targets, g, order[k].tail, order[k].head);
  }

  ghost predicate SidesKept(vs: seq<Line>, order: seq<Join>, g: U.HyphenGroup)
    requires InRange(|vs|, order)
  {
    forall k | 0 <= k < |order| :: In(vs, g, order[k].tail) <==> In(vs, g, order[k].head)
  }

  lemma {:induction false} WalkKeepsSides(vs: seq<Line>, w: Workspace, targets: seq<nat>, g: U.HyphenGroup, joins: map<LineRef, Join>,
                                          order: seq<Join>)
    requires Holds(vs, w, targets, g) && Located(vs, w) && ChunkWalk(vs, w, targets, joins, order)
    ensures InRange(|vs|, order) && SidesKept(vs, order, g)
  {
    hide ChunkWalk, Located, Holds, In;
    HoldsFacts(vs, w, targets, g);
    WalkInRange(vs, w, targets, joins, order);
    forall k | 0 <= k < |order| ensures In(vs, g, order[k].tail) <==> In(vs, g, order[k].head) {
      JoinKeepsIn(vs, w, targets, g, joins, order, k);
    }
  }

  lemma SideOf(vs: seq<Line>, order: seq<Join>, g: U.HyphenGroup, k: nat)
    requires InRange(|vs|, order) && SidesKept(vs, order, g) && k < |order|
    ensures In(vs, g, order[k].tail) <==> In(vs, g, order[k].head)
  {
  }

  lemma SidesOfFront(vs: seq<Line>, order: seq<Join>, g: U.HyphenGroup, i: nat)
    requires InRange(|vs|, order) && SidesKept(vs, order, g) && i <= |order|
    ensures InRange(|vs|, order[..i]) && SidesKept(vs, order[..i], g)
  {
    hide In;
    assert forall k | 0 <= k < i :: order[..i][k] == order[k];
  }

  /** A join walked inside the unit is one of its lines' forward link. */
  lemma {:induction false} JoinedContinues(vs: seq<Line>, w: Workspace, targets: seq<nat>, g: U.HyphenGroup, joins: map<LineRef, Join>,
                                           order: seq<Join>, p: nat)
    requires Holds(vs, w, targets, g) && Located(vs, w) && ChunkWalk(vs, w, targets, joins, order) && In(vs, g, p) && IsEnd(order, p)
    ensures Continues(vs, g)
  {
    hide Located, Holds, ChunkWalk, Claims, ForwardPartner;
    HoldsFacts(vs, w, targets, g);
    var k :| 0 <= k < |order| && (order[k].tail == p || order[k].head == p);
    JoinKeepsIn(vs, w, targets, g, joins, order, k);
    WalkIsOfClaims(vs, w, targets, joins, order, k);
    ClaimIs(vs, w, targets, order[k]);
    MemberFacts(vs, w, targets, g, order[k].tail);
  }

  /** The join held under a member's name is its own link. */
  lemma {:induction false} HeldIsTheLink(vs: seq<Line>, w: Workspace, targets: seq<nat>, g: U.HyphenGroup, joins: map<LineRef, Join>,
                                         order: seq<Join>, x: nat, y: nat)
    requires Holds(vs, w, targets, g) && Located(vs, w) && ChunkWalk(vs, w, targets, joins, order)
    requires In(vs, g, x) && In(vs, g, y) && ForwardPartner(vs[x]) == Some(vs[y].ref)
    ensures vs[x].ref in joins && joins[vs[x].ref].head == y
  {
    hide ForwardPartner, BackwardPartner, Lookup, Located, U.IsUnit, Claims, NoSelfLinks, AllSound, WalkedAll, InClaim, WalksClaims;
    MemberFacts(vs, w, targets, g, x);
    MemberFacts(vs, w, targets, g, y);
    var i :| 0 <= i < |targets| && targets[i] == x;
    assert OutClaim(vs, w, x) == Some(Join(x, y, vs[x].role.Both?));
    assert Held(joins, vs, OutClaim(vs, w, targets[i]));
    ClaimIs(vs, w, targets, joins[vs[x].ref]);
  }

  lemma {:induction false} HeadIsWalked(vs: seq<Line>, w: Workspace, targets: seq<nat>, joins: map<LineRef, Join>, order: seq<Join>,
                                        r: LineRef) returns (k: nat)
    requires Located(vs, w) && Spots(vs, targets) && ChunkWalk(vs, w, targets, joins, order) && r in joins
    ensures k < |order| && order[k].head == joins[r].head
  {
    hide Claims, Located, Held, WalksClaims;
    var heads, visited :| Walked(joins, order, heads, visited, vs) && joins.Keys <= visited;
    assert joins[r].head in HeadsOf(order);
    k :| 0 <= k < |order| && order[k].head == joins[r].head;
  }

  // ----- what a walk makes of a unit -----

  /** Two lines joined to each other alone stay together. */
  lemma {:induction false} PairStays(vs: seq<Line>, order: seq<Join>, texts: map<string, string>, judge: Judge, g: U.HyphenGroup, a: nat, b: nat)
    requires AllSound(vs) && InRange(|vs|, order) && SidesKept(vs, order, g) && a < |vs| && b < |vs|
    requires forall p: nat :: In(vs, g, p) <==> p == a || p == b
    requires !vs[a].status.Fallback? && !vs[b].status.Fallback?
    ensures var us := ReconcileAll(vs, order, texts, judge); us[a].status.Fallback? <==> us[b].status.Fallback?
  {
    hide Decided, ReconcileAll, Sound, In;
    if order == [] {
      ReconcileNone(vs, texts, judge);
    } else {
      var n := |order| - 1;
      var front, j := order[..n], order[n];
      assert SidesKept(vs, front, g) by { assert forall k | 0 <= k < n :: front[k] == order[k]; }
      PairStays(vs, front, texts, judge, g, a, b);
      ReconcileAllKeeps(vs, front, texts, judge);
      var before := ReconcileAll(vs, front, texts, judge);
      assert Reconciled(vs[j.tail], before[j.tail], IsEnd(front, j.tail)) && Reconciled(vs[j.head], before[j.head], IsEnd(front, j.head));
      PairIsDecidedAsOne(before[j.tail], before[j.head], texts, judge, j.forward);
      LastStep(vs, order, texts, judge);
      assert In(vs, g, j.tail) <==> In(vs, g, j.head);
    }
  }

  lemma ReconcileNone(vs: seq<Line>, texts: map<string, string>, judge: Judge)
    ensures ReconcileAll(vs, [], texts, judge) == vs
  {
  }

  // ----- judging and reverting after the walk -----

  /** Judging leaves every decided line, and every pointer, as it found them. */
  lemma {:induction false} JudgingKeeps(us: seq<Line>, w: Workspace, targets: seq<nat>, texts: map<string, string>, guards: Guards, p: nat)
    requires p < |us|
    ensures var l := JudgedAll(us, w, targets, texts, guards)[p];
      l.ref == us[p].ref && Pointers(l) == Pointers(us[p]) && (us[p].corrected.Some? ==> l == us[p])
  {
    hide Judged, Pointers;
    if targets != [] {
      var front, q := targets[..|targets| - 1], targets[|targets| - 1];
      JudgingKeeps(us, w, front, texts, guards, p);
      var before := JudgedAll(us, w, front, texts, guards);
      if q == p && before[p].ref.line in texts { JudgedIsItself(before, w, before[p], texts[before[p].ref.line], guards); }
    }
  }

  lemma JudgedIsItself(vs: seq<Line>, w: Workspace, l: Line, text: string, guards: Guards)
    ensures var r := Judged(vs, w, l, text, guards); r.ref == l.ref && Pointers(r) == Pointers(l)
  {
    hide DropsItsBreak, PartnerFell, FallenBack, Accepted, Pointers, OrRejected;
    VerbsKeepPointers(l);
  }

  lemma VerbsKeepPointers(l: Line)
    ensures forall reason: string :: FallenBack(l, reason).ref == l.ref && Pointers(FallenBack(l, reason)) == Pointers(l)
    ensures forall text: string :: Accepted(l, text).ref == l.ref && Pointers(Accepted(l, text)) == Pointers(l)
  {
  }

  lemma SamePlaces(vs: seq<Line>, ws: seq<Line>, g: U.HyphenGroup)
    requires |ws| == |vs| && forall p | 0 <= p < |vs| :: ws[p].ref == vs[p].ref
    ensures forall p: nat :: In(ws, g, p) <==> In(vs, g, p)
  {
  }

  /** Reverts come to whole units, so they keep a unit as one. */
  lemma {:induction false} RevertsKeepAsOne(js: seq<Line>, w: Workspace, g: U.HyphenGroup, reverts: map<LineRef, string>, all: map<LineRef, string>)
    requires DistinctRefs(js) && Pool(js, w) && U.IsComponent(PoolMap(js, w), g.members) && AsOne(js, g)
    requires V.Pulls(PoolMap(js, w), reverts, UNIT, all)
    ensures AsOne(Fell(js, InPool(js, w, all)), g)
  {
    hide ByRef, U.Closure, U.SameUnit;
    var m, ws, named := PoolMap(js, w), Fell(js, InPool(js, w, all)), InPool(js, w, all);
    ByRefKeys(LinesAt(js, w.Pool()));
    SamePlaces(js, ws, g);
    U.ClosureIsClosed(m, reverts.Keys);
    assert forall r | r in g.members :: r in named <==> r in all;
    if r :| r in g.members && r in all {
      forall q | q in g.members ensures q in named { assert U.SameUnit(m, r, q); }
      assert forall p: nat | In(ws, g, p) :: ws[p].status.Fallback?;
    } else {
      assert forall p: nat | In(ws, g, p) :: ws[p] == js[p];
    }
  }

  lemma {:induction false} ComponentStays(vs: seq<Line>, js: seq<Line>, w: Workspace, members: seq<LineRef>)
    requires Pool(vs, w) && |js| == |vs| && U.IsComponent(PoolMap(vs, w), members)
    requires forall p | 0 <= p < |vs| :: js[p].ref == vs[p].ref && Pointers(js[p]) == Pointers(vs[p])
    ensures Pool(js, w) && U.IsComponent(PoolMap(js, w), members)
  {
    hide Pointers, ByRef, U.Links;
    U.SamePointers(LinesAt(vs, w.Pool()), LinesAt(js, w.Pool()));
    U.SamePointersSameUnits(LinesAt(vs, w.Pool()), LinesAt(js, w.Pool()));
  }

  lemma LinksAreKept(a: Line, b: Line)
    requires SameLinks(a, b) && Evolves(a, b)
    ensures b.ref == a.ref && Pointers(b) == Pointers(a)
  {
  }

  /** What the walk and the judging keep of the pool's units. */
  lemma {:induction false} UnitAfterTheWalk(vs: seq<Line>, w: Workspace, order: seq<Join>, targets: seq<nat>, texts: map<string, string>,
                                            guards: Guards, members: seq<LineRef>)
    requires AllSound(vs) && DistinctRefs(vs) && Pool(vs, w) && U.IsComponent(PoolMap(vs, w), members) && InRange(|vs|, order)
    ensures var us := ReconcileAll(vs, order, texts, guards.judge);
      var js := JudgedAll(us, w, targets, texts, guards);
      && DistinctRefs(js) && Pool(js, w) && U.IsComponent(PoolMap(js, w), members)
      && forall p | 0 <= p < |vs| :: us[p].ref == vs[p].ref && js[p].ref == vs[p].ref && (us[p].corrected.Some? ==> js[p] == us[p])
  {
    hide ReconcileAll, JudgedAll, ByRef, Pointers, U.IsComponent, Sound, Evolves, SameLinks;
    var us := ReconcileAll(vs, order, texts, guards.judge);
    var js := JudgedAll(us, w, targets, texts, guards);
    ReconcileAllKeeps(vs, order, texts, guards.judge);
    forall p | 0 <= p < |vs|
      ensures us[p].ref == vs[p].ref && js[p].ref == vs[p].ref && Pointers(js[p]) == Pointers(vs[p])
      ensures us[p].corrected.Some? ==> js[p] == us[p]
    {
      assert Reconciled(vs[p], us[p], IsEnd(order, p));
      LinksAreKept(vs[p], us[p]);
      JudgingKeeps(us, w, targets, texts, guards, p);
    }
    ComponentStays(vs, js, w, members);
  }

  /** An end of the walk is settled before the judging, another line as it was. */
  lemma {:induction false} EndIsSettled(vs: seq<Line>, order: seq<Join>, texts: map<string, string>, judge: Judge, p: nat)
    requires AllSound(vs) && InRange(|vs|, order) && p < |vs|
    ensures var l := ReconcileAll(vs, order, texts, judge)[p]; if IsEnd(order, p) then l.corrected.Some? else l == vs[p]
  {
    hide ReconcileAll, Evolves, SameLinks, IsEnd;
    ReconcileAllKeeps(vs, order, texts, judge);
    assert Reconciled(vs[p], ReconcileAll(vs, order, texts, judge)[p], IsEnd(order, p));
  }

  // ----- two members, one of which continues onto the other -----

  /** A two-member unit whose one line continues onto the other is decided as one,
      whatever the producer, the guards and the rest of the chunk. */
  lemma {:induction false} TwoAreDecidedAsOne(vs: seq<Line>, ws: seq<Line>, w: Workspace, targets: seq<nat>, texts: map<string, string>,
                                              guards: Guards, g: U.HyphenGroup)
    requires Holds(vs, w, targets, g) && |g.members| == 2 && Continues(vs, g)
    requires Located(vs, w) && Finished(vs, ws, w, targets, texts, guards)
    ensures |ws| == |vs| && AsOne(ws, g)
  {
    hide ReconcileAll, JudgedAll, ChunkWalk, Located, Detaches, V.Pulls, Fell, InPool, In, U.IsComponent, ByRef, Holds, Continues, AsOne, IsEnd;
    hide NoSelfLinks, DistinctRefs, NewlyDecided, AllSound;
    HoldsFacts(vs, w, targets, g);
    var joins, order, reverts, all :| FinishedBy(vs, ws, w, targets, texts, guards, joins, order, reverts, all);
    WalkInRange(vs, w, targets, joins, order);
    var us := ReconcileAll(vs, order, texts, guards.judge);
    var js := JudgedAll(us, w, targets, texts, guards);
    UnitAfterTheWalk(vs, w, order, targets, texts, guards, g.members);
    TwoStayTogether(vs, w, targets, g, joins, order, texts, guards.judge);
    TwoAreEnds(vs, w, targets, g, joins, order);
    forall p: nat | In(vs, g, p) ensures p < |vs| && js[p] == us[p] {
      InIsPlace(vs, g, p);
      EndIsSettled(vs, order, texts, guards.judge, p);
    }
    StillAsOne(vs, us, js, g);
    RevertsKeepAsOne(js, w, g, reverts, all);
  }

  lemma StillAsOne(vs: seq<Line>, us: seq<Line>, js: seq<Line>, g: U.HyphenGroup)
    requires |us| == |js| == |vs| && forall p | 0 <= p < |vs| :: us[p].ref == vs[p].ref && js[p].ref == vs[p].ref
    requires AsOne(us, g) && forall p: nat | In(vs, g, p) :: p < |vs| && js[p] == us[p]
    ensures AsOne(js, g)
  {
    SamePlaces(vs, us, g);
    SamePlaces(vs, js, g);
    hide In;
  }

  lemma {:induction false} TwoStayTogether(vs: seq<Line>, w: Workspace, targets: seq<nat>, g: U.HyphenGroup, joins: map<LineRef, Join>,
                                           order: seq<Join>, texts: map<string, string>, judge: Judge)
    requires Holds(vs, w, targets, g) && |g.members| == 2 && Located(vs, w) && ChunkWalk(vs, w, targets, joins, order)
    ensures InRange(|vs|, order) && AsOne(ReconcileAll(vs, order, texts, judge), g)
  {
    hide ReconcileAll, ChunkWalk, Located, ByRef, NoSelfLinks, In, SidesKept, DistinctRefs, Holds, InRange;
    HoldsFacts(vs, w, targets, g);
    WalkKeepsSides(vs, w, targets, g, joins, order);
    var a, b := TwoPlaces(vs, w, targets, g);
    PairStays(vs, order, texts, judge, g, a, b);
    SameSourcesAfter(vs, order, texts, judge);
    SamePlaces(vs, ReconcileAll(vs, order, texts, judge), g);
  }

  lemma {:induction false} TwoPlaces(vs: seq<Line>, w: Workspace, targets: seq<nat>, g: U.HyphenGroup) returns (a: nat, b: nat)
    requires Holds(vs, w, targets, g) && |g.members| == 2
    ensures a < |vs| && b < |vs| && vs[a].status.Pending? && vs[b].status.Pending?
    ensures forall p: nat :: In(vs, g, p) <==> p == a || p == b
  {
    hide Holds, PoolMap;
    a := PlaceOf(vs, w, targets, g, g.members[0]);
    b := PlaceOf(vs, w, targets, g, g.members[1]);
    MemberFacts(vs, w, targets, g, a);
    MemberFacts(vs, w, targets, g, b);
    forall p: nat | In(vs, g, p) ensures p == a || p == b { OnePlace(vs, w, targets, g, p, if vs[p].ref == g.members[0] then a else b); }
  }

  lemma OnePlace(vs: seq<Line>, w: Workspace, targets: seq<nat>, g: U.HyphenGroup, p: nat, q: nat)
    requires Holds(vs, w, targets, g) && p < |vs| && q < |vs| && vs[p].ref == vs[q].ref
    ensures p == q
  {
    hide Located, NoSelfLinks, U.IsUnit, OwnedPending;
  }

  /** The walk settles both lines. */
  lemma {:induction false} TwoAreEnds(vs: seq<Line>, w: Workspace, targets: seq<nat>, g: U.HyphenGroup, joins: map<LineRef, Join>, order: seq<Join>)
    requires Holds(vs, w, targets, g) && |g.members| == 2 && Continues(vs, g) && Located(vs, w) && ChunkWalk(vs, w, targets, joins, order)
    ensures forall p: nat | In(vs, g, p) :: IsEnd(order, p)
  {
    hide ChunkWalk, Located, Holds, ForwardPartner, PoolMap;
    var x: nat, y: nat :| In(vs, g, x) && In(vs, g, y) && ForwardPartner(vs[x]) == Some(vs[y].ref);
    hide In;
    InIsPlace(vs, g, x);
    TargetsAreSpots(vs, w, targets, g);
    HeldIsTheLink(vs, w, targets, g, joins, order, x, y);
    var k := HeadIsWalked(vs, w, targets, joins, order, vs[x].ref);
    WalkInRange(vs, w, targets, joins, order);
    JoinKeepsIn(vs, w, targets, g, joins, order, k);
    var a, b := TwoPlaces(vs, w, targets, g);
    assert order[k].tail != order[k].head;
  }

  // ----- what judging makes of a line left to it -----

  ghost predicate Refuses(guards: Guards, r: LineRef) {
    forall text: string :: guards.check(r, text).Err?
  }

  /** A line that reaches the judging and whose every text is refused falls. */
  lemma {:induction false} JudgedFalls(us: seq<Line>, w: Workspace, targets: seq<nat>, texts: map<string, string>, guards: Guards, p: nat)
    requires p in targets && p < |us| && us[p].corrected.None? && us[p].ref.line in texts && Refuses(guards, us[p].ref)
    ensures JudgedAll(us, w, targets, texts, guards)[p].status.Fallback?
  {
    hide Judged;
    var front, q := targets[..|targets| - 1], targets[|targets| - 1];
    assert targets == front + [q];
    var before := JudgedAll(us, w, front, texts, guards);
    if p in front { JudgedFalls(us, w, front, texts, guards, p); }
    JudgingKeeps(us, w, front, texts, guards, p);
    if q == p && before[p].corrected.None? { RefusedIsJudged(before, w, before[p], texts[before[p].ref.line], guards); }
  }

  lemma RefusedIsJudged(vs: seq<Line>, w: Workspace, l: Line, text: string, guards: Guards)
    requires Refuses(guards, l.ref)
    ensures Judged(vs, w, l, text, guards).status.Fallback?
  {
    hide DropsItsBreak, PartnerFell, OrRejected;
    assert guards.check(l.ref, text).Err?;
  }

  /** A line decided after some of the targets stays so to the end. */
  lemma {:induction false} JudgedForGood(us: seq<Line>, w: Workspace, targets: seq<nat>, texts: map<string, string>, guards: Guards, k: nat, p: nat)
    requires k <= |targets| && p < |us| && JudgedAll(us, w, targets[..k], texts, guards)[p].corrected.Some?
    ensures JudgedAll(us, w, targets, texts, guards)[p] == JudgedAll(us, w, targets[..k], texts, guards)[p]
  {
    hide Judged;
    if k == |targets| {
      assert targets[..k] == targets;
    } else {
      var n := |targets| - 1;
      assert targets[..n][..k] == targets[..k];
      JudgedForGood(us, w, targets[..n], texts, guards, k, p);
    }
  }

  /** The partners of a unit's line are of the unit, so none fell as long as none of
      the unit did. */
  lemma {:induction false} NoPartnerFell(vs: seq<Line>, w: Workspace, targets: seq<nat>, g: U.HyphenGroup, now: seq<Line>, p: nat)
    requires Holds(vs, w, targets, g) && In(vs, g, p) && |now| == |vs| && forall q: nat | In(vs, g, q) :: now[q] == vs[q]
    ensures !PartnerFell(now, w, vs[p])
  {
    hide Holds, Located, In, Lookup;
    HoldsFacts(vs, w, targets, g);
    InIsPlace(vs, g, p);
    NotFallen(vs, w, targets, g, now, p, PairRef(vs[p]));
    NotFallen(vs, w, targets, g, now, p, ForwardRef(vs[p]));
  }

  lemma {:induction false} NotFallen(vs: seq<Line>, w: Workspace, targets: seq<nat>, g: U.HyphenGroup, now: seq<Line>, p: nat, r: Option<LineRef>)
    requires Holds(vs, w, targets, g) && In(vs, g, p) && |now| == |vs| && forall q: nat | In(vs, g, q) :: now[q] == vs[q]
    requires r.Some? ==> r.value in Pointers(vs[p])
    ensures !FellAt(now, Lookup(w, r))
  {
    hide Holds, Located, In, Lookup, Pointers;
    HoldsFacts(vs, w, targets, g);
    InIsPlace(vs, g, p);
    MemberFacts(vs, w, targets, g, p);
    LookupFinds(vs, w, r);
    FoundIsInReach(vs, w, r);
    if Lookup(w, r).Some? {
      var q := Lookup(w, r).value;
      LinkKeepsIn(vs, w, targets, g, p, q);
      MemberFacts(vs, w, targets, g, q);
    }
  }

  /** Every line's own source as its proposal. */
  ghost function Sources(vs: seq<Line>, w: Workspace): (texts: map<string, string>)
    requires Located(vs, w)
  {
    map id | id in w.byId :: vs[w.byId[id]].ocr
  }

  lemma {:induction false} SourcesCover(vs: seq<Line>, w: Workspace, targets: seq<nat>)
    requires Located(vs, w) && Targets(w, targets) && Spots(vs, targets)
    ensures Covers(vs, targets, Sources(vs, w))
  {
    forall k | 0 <= k < |targets| ensures vs[targets[k]].ref.line in w.byId { assert targets[k] in w.lines; }
  }

  /** The first of a unit's lines that comes to the judging undecided, with its source
      for a text, stands when the guards take it. */
  lemma {:induction false} FirstIsTaken(vs: seq<Line>, w: Workspace, targets: seq<nat>, g: U.HyphenGroup, us: seq<Line>, guards: Guards, k: nat)
    requires Holds(vs, w, targets, g) && Located(vs, w) && |us| == |vs| && forall q: nat | In(vs, g, q) :: us[q] == vs[q]
    requires k < |targets| && In(vs, g, targets[k]) && forall i | 0 <= i < k :: !In(vs, g, targets[i])
    requires forall text: string :: guards.check(vs[targets[k]].ref, text) == Ok(text)
    ensures JudgedAll(us, w, targets, Sources(vs, w), guards)[targets[k]].status.Corrected?
  {
    hide Holds, Located, In, JudgedAll, Sources, NoSelfLinks, DistinctRefs, AllSound, U.IsComponent, OwnedPending, Targets, Judged, PoolMap, DropsItsBreak, PartnerFell;
    var p, texts, upTo := targets[k], Sources(vs, w), targets[..k + 1];
    HoldsFacts(vs, w, targets, g);
    InIsPlace(vs, g, p);
    MemberFacts(vs, w, targets, g, p);
    assert upTo[..k] == targets[..k] && upTo[k] == p;
    var before := JudgedAll(us, w, targets[..k], texts, guards);
    forall q: nat | In(vs, g, q) ensures q < |vs| && before[q] == vs[q] {
      InIsPlace(vs, g, q);
      assert q !in targets[..k];
    }
    NoPartnerFell(vs, w, targets, g, before, p);
    OwnSource(vs, w, p);
    TakenIsJudged(before, w, vs[p], vs[p].ocr, guards);
    LastJudged(us, w, upTo, texts, guards);
    JudgedForGood(us, w, targets, texts, guards, k + 1, p);
  }

  lemma TakenIsJudged(now: seq<Line>, w: Workspace, l: Line, text: string, guards: Guards)
    requires !DropsItsBreak(l, text) && !PartnerFell(now, w, l) && guards.check(l.ref, text) == Ok(text)
    ensures Judged(now, w, l, text, guards).status.Corrected? && Judged(now, w, l, text, guards).corrected.Some?
  {
    hide DropsItsBreak, PartnerFell;
  }

  lemma LastJudged(us: seq<Line>, w: Workspace, targets: seq<nat>, texts: map<string, string>, guards: Guards)
    requires targets != []
    ensures var before, p := JudgedAll(us, w, targets[..|targets| - 1], texts, guards), targets[|targets| - 1];
      JudgedAll(us, w, targets, texts, guards) ==
        if p < |us| && before[p].corrected.None? && before[p].ref.line in texts
        then before[p := Judged(before, w, before[p], texts[before[p].ref.line], guards)] else before
  {
    hide Judged;
  }

  lemma OwnSource(vs: seq<Line>, w: Workspace, p: nat)
    requires Located(vs, w) && p < |vs| && p in w.lines
    ensures vs[p].ref.line in Sources(vs, w) && Sources(vs, w)[vs[p].ref.line] == vs[p].ocr && !DropsItsBreak(vs[p], vs[p].ocr)
  {
  }

  // ----- three members or more -----

  /** Guards that refuse one join and keep every other. */
  function RefusesOnly(t: LineRef, h: LineRef): Judge {
    (tail: Line, head: Line, c1: string, c2: string, forward: bool) => if tail.ref == t && head.ref == h then Refused else Kept("")
  }

  /** A changed text for every line of the page. */
  ghost function Changed(vs: seq<Line>, w: Workspace): (texts: map<string, string>)
    requires Located(vs, w)
  {
    map id | id in w.byId :: vs[w.byId[id]].ocr + "!"
  }

  lemma KeptIsAccepted(tail: Line, head: Line, texts: map<string, string>, judge: Judge, forward: bool)
    requires !tail.status.Fallback? && !head.status.Fallback?
    requires judge(tail, head, Proposal1(texts, tail), TextOf(texts, head), forward).Kept?
    ensures var (t, h) := Decided(tail, head, texts, judge, forward); !t.status.Fallback? && !h.status.Fallback?
  {
    hide Proposal1, TextOf;
  }

  lemma RefusedFalls(tail: Line, head: Line, texts: map<string, string>, judge: Judge, forward: bool)
    requires judge(tail, head, Proposal1(texts, tail), TextOf(texts, head), forward).Refused? && TextOf(texts, head) != head.ocr
    ensures var (t, h) := Decided(tail, head, texts, judge, forward); t.status.Fallback? && h.status.Fallback?
  {
    hide Proposal1, TextOf;
  }

  /** The judge keeps every join of this tail. */
  ghost predicate KeepsFrom(judge: Judge, t: LineRef) {
    forall tail: Line, head: Line, c1, c2, forward | tail.ref == t :: judge(tail, head, c1, c2, forward).Kept?
  }

  /** As long as no join of the unit is refused, none of it falls. */
  lemma {:induction false} NoneFallsYet(vs: seq<Line>, order: seq<Join>, texts: map<string, string>, judge: Judge, g: U.HyphenGroup, p: nat)
    requires AllSound(vs) && InRange(|vs|, order) && SidesKept(vs, order, g)
    requires forall q: nat | In(vs, g, q) :: q < |vs| && !vs[q].status.Fallback?
    requires forall k | 0 <= k < |order| :: KeepsFrom(judge, vs[order[k].tail].ref)
    requires p < |vs| && In(vs, g, p)
    ensures !ReconcileAll(vs, order, texts, judge)[p].status.Fallback?
  {
    hide Decided, ReconcileAll, Sound, In;
    if order == [] {
      ReconcileNone(vs, texts, judge);
    } else {
      var n := |order| - 1;
      var front, j := order[..n], order[n];
      assert SidesKept(vs, front, g) by { assert forall k | 0 <= k < n :: front[k] == order[k]; }
      NoneFallsYet(vs, front, texts, judge, g, p);
      LastStep(vs, order, texts, judge);
      var before := ReconcileAll(vs, front, texts, judge);
      if p == j.tail || p == j.head {
        assert In(vs, g, j.tail) <==> In(vs, g, j.head);
        NoneFallsYet(vs, front, texts, judge, g, j.tail);
        NoneFallsYet(vs, front, texts, judge, g, j.head);
        SameSourcesAfter(vs, front, texts, judge);
        KeptIsAccepted(before[j.tail], before[j.head], texts, judge, j.forward);
      }
    }
  }

  /** A line no later join ends at stays as it was. */
  lemma {:induction false} RestUntouched(vs: seq<Line>, order: seq<Join>, i: nat, texts: map<string, string>, judge: Judge, p: nat)
    requires InRange(|vs|, order) && i <= |order| && p < |vs|
    requires forall k | i <= k < |order| :: order[k].tail != p && order[k].head != p
    ensures ReconcileAll(vs, order, texts, judge)[p] == ReconcileAll(vs, order[..i], texts, judge)[p]
  {
    hide Decided, ReconcileAll;
    var n := |order|;
    if i == n {
      assert order[..i] == order;
    } else {
      LastStep(vs, order, texts, judge);
      RestUntouched(vs, order[..n - 1], i, texts, judge, p);
      assert order[..n - 1][..i] == order[..i];
    }
  }

  /** The last join inside the unit. */
  lemma {:induction false} LastInside(vs: seq<Line>, order: seq<Join>, g: U.HyphenGroup) returns (i: nat)
    requires exists k :: 0 <= k < |order| && In(vs, g, order[k].tail)
    ensures i < |order| && In(vs, g, order[i].tail) && forall k | i < k < |order| :: !In(vs, g, order[k].tail)
  {
    hide In;
    i := |order| - 1;
    if !In(vs, g, order[i].tail) {
      var front := order[..i];
      var k :| 0 <= k < |order| && In(vs, g, order[k].tail);
      assert front[k] == order[k];
      i := LastInside(vs, front, g);
      forall k | i < k < |order| ensures !In(vs, g, order[k].tail) {
        if k < |front| { assert front[k] == order[k]; }
      }
    }
  }

  lemma {:induction false} TailsApart(vs: seq<Line>, w: Workspace, targets: seq<nat>, joins: map<LineRef, Join>, order: seq<Join>, i: nat)
    requires DistinctRefs(vs) && Located(vs, w) && Spots(vs, targets) && ChunkWalk(vs, w, targets, joins, order) && i < |order|
    ensures InRange(|vs|, order) && forall k | 0 <= k < i :: vs[order[k].tail].ref != vs[order[i].tail].ref
  {
    hide Claims, Located, OutClaim, InClaim, Held, WalksClaims;
    var heads, visited :| Walked(joins, order, heads, visited, vs) && joins.Keys <= visited;
  }

  /** The text proposed for a member is not its own. */
  lemma {:induction false} ChangedIsChanged(vs: seq<Line>, w: Workspace, targets: seq<nat>, g: U.HyphenGroup, p: nat, l: Line)
    requires Holds(vs, w, targets, g) && Located(vs, w) && In(vs, g, p) && l.ref == vs[p].ref && l.ocr == vs[p].ocr
    ensures TextOf(Changed(vs, w), l) != l.ocr
  {
    MemberFacts(vs, w, targets, g, p);
    hide Holds, Located;
    assert |TextOf(Changed(vs, w), l)| == |l.ocr| + 1;
  }

  lemma {:induction false} ChangedCovers(vs: seq<Line>, w: Workspace, targets: seq<nat>)
    requires Located(vs, w) && Targets(w, targets) && Spots(vs, targets)
    ensures Covers(vs, targets, Changed(vs, w))
  {
    forall k | 0 <= k < |targets| ensures vs[targets[k]].ref.line in w.byId { assert targets[k] in w.lines; }
  }

  lemma {:induction false} SomeInside(vs: seq<Line>, w: Workspace, targets: seq<nat>, g: U.HyphenGroup, joins: map<LineRef, Join>, order: seq<Join>)
    returns (k: nat)
    requires Holds(vs, w, targets, g) && Located(vs, w) && ChunkWalk(vs, w, targets, joins, order)
    requires forall p: nat | In(vs, g, p) :: IsEnd(order, p)
    ensures k < |order| && In(vs, g, order[k].tail)
  {
    hide ChunkWalk, Located, Holds, In;
    HoldsFacts(vs, w, targets, g);
    var p := PlaceOf(vs, w, targets, g, g.members[0]);
    k :| 0 <= k < |order| && (order[k].tail == p || order[k].head == p);
    JoinKeepsIn(vs, w, targets, g, joins, order, k);
  }

  /** Refuse the last join of the unit and no other: its two lines fall, and no other
      member does. */
  lemma {:induction false} LastRefused(vs: seq<Line>, w: Workspace, targets: seq<nat>, g: U.HyphenGroup, joins: map<LineRef, Join>,
                                       order: seq<Join>) returns (t: nat, h: nat)
    requires Holds(vs, w, targets, g) && Located(vs, w) && ChunkWalk(vs, w, targets, joins, order)
    requires forall p: nat | In(vs, g, p) :: IsEnd(order, p)
    ensures InRange(|vs|, order) && In(vs, g, t) && In(vs, g, h)
    ensures var us := ReconcileAll(vs, order, Changed(vs, w), RefusesOnly(vs[t].ref, vs[h].ref));
      forall p: nat | In(vs, g, p) :: us[p].status.Fallback? <==> p == t || p == h
  {
    hide ChunkWalk, Located, In, Holds, SidesKept, ReconcileAll, Decided, RefusesOnly, Changed, IsEnd, KeepsFrom;
    HoldsFacts(vs, w, targets, g);
    WalkKeepsSides(vs, w, targets, g, joins, order);
    var k := SomeInside(vs, w, targets, g, joins, order);
    var i := LastInside(vs, order, g);
    t, h := order[i].tail, order[i].head;
    SideOf(vs, order, g, i);
    TailsApart(vs, w, targets, joins, order, i);
    var texts, judge := Changed(vs, w), RefusesOnly(vs[t].ref, vs[h].ref);
    RefusesOnlyFacts(vs[t].ref, vs[h].ref);
    BeforeTheLast(vs, w, targets, g, order, i, texts, judge);
    forall p: nat | In(vs, g, p) ensures p < |vs| && (ReconcileAll(vs, order, texts, judge)[p].status.Fallback? <==> p == t || p == h) {
      InIsPlace(vs, g, p);
      forall k | i + 1 <= k < |order| ensures order[k].tail != p && order[k].head != p { SideOf(vs, order, g, k); }
      RestUntouched(vs, order, i + 1, texts, judge, p);
    }
  }

  lemma RefusesOnlyFacts(t: LineRef, h: LineRef)
    ensures forall r | r != t :: KeepsFrom(RefusesOnly(t, h), r)
    ensures forall tail: Line, head: Line, c1, c2, forward | tail.ref == t && head.ref == h ::
      RefusesOnly(t, h)(tail, head, c1, c2, forward).Refused?
  {
  }

  /** The state just after the last join of the unit. */
  lemma {:induction false} BeforeTheLast(vs: seq<Line>, w: Workspace, targets: seq<nat>, g: U.HyphenGroup, order: seq<Join>, i: nat,
                                         texts: map<string, string>, judge: Judge)
    requires Holds(vs, w, targets, g) && Located(vs, w) && InRange(|vs|, order) && SidesKept(vs, order, g) && i < |order|
    requires In(vs, g, order[i].tail) && texts == Changed(vs, w)
    requires forall k | 0 <= k < i :: vs[order[k].tail].ref != vs[order[i].tail].ref
    requires forall r | r != vs[order[i].tail].ref :: KeepsFrom(judge, r)
    requires forall tail: Line, head: Line, c1, c2, forward | tail.ref == vs[order[i].tail].ref && head.ref == vs[order[i].head].ref ::
      judge(tail, head, c1, c2, forward).Refused?
    ensures InRange(|vs|, order[..i + 1])
    ensures forall p: nat | In(vs, g, p) ::
      p < |vs| && (ReconcileAll(vs, order[..i + 1], texts, judge)[p].status.Fallback? <==> p == order[i].tail || p == order[i].head)
  {
    hide Located, Holds, ReconcileAll, Decided, Changed, In, SidesKept, KeepsFrom;
    HoldsFacts(vs, w, targets, g);
    var front, upTo, j := order[..i], order[..i + 1], order[i];
    assert upTo[..i] == front;
    SideOf(vs, order, g, i);
    SidesOfFront(vs, order, g, i);
    forall q: nat | In(vs, g, q) ensures q < |vs| && !vs[q].status.Fallback? {
      InIsPlace(vs, g, q);
      MemberFacts(vs, w, targets, g, q);
    }
    LastStep(vs, upTo, texts, judge);
    var before := ReconcileAll(vs, front, texts, judge);
    SameSourcesAfter(vs, front, texts, judge);
    ChangedIsChanged(vs, w, targets, g, j.head, before[j.head]);
    RefusedFalls(before[j.tail], before[j.head], texts, judge, j.forward);
    forall p: nat | In(vs, g, p)
      ensures p < |vs| && (ReconcileAll(vs, upTo, texts, judge)[p].status.Fallback? <==> p == j.tail || p == j.head)
    {
      InIsPlace(vs, g, p);
      NoneFallsYet(vs, front, texts, judge, g, p);
    }
  }

  lemma {:induction false} SameSourcesAfter(vs: seq<Line>, order: seq<Join>, texts: map<string, string>, judge: Judge)
    requires AllSound(vs) && InRange(|vs|, order)
    ensures forall p | 0 <= p < |vs| ::
      ReconcileAll(vs, order, texts, judge)[p].ref == vs[p].ref && ReconcileAll(vs, order, texts, judge)[p].ocr == vs[p].ocr
  {
    hide ReconcileAll, SameLinks, Sound;
    ReconcileAllKeeps(vs, order, texts, judge);
    forall p | 0 <= p < |vs|
      ensures ReconcileAll(vs, order, texts, judge)[p].ref == vs[p].ref && ReconcileAll(vs, order, texts, judge)[p].ocr == vs[p].ocr
    {
      assert Reconciled(vs[p], ReconcileAll(vs, order, texts, judge)[p], IsEnd(order, p));
    }
  }

  // ----- every chunk has a walk -----

  lemma {:induction false} WalkExists(vs: seq<Line>, w: Workspace, targets: seq<nat>) returns (joins: map<LineRef, Join>, order: seq<Join>)
    requires DistinctRefs(vs) && NoSelfLinks(vs) && Located(vs, w) && Spots(vs, targets) && Distinct(targets)
    ensures ChunkWalk(vs, w, targets, joins, order)
  {
    hide OutClaim, InClaim, Claims, Located, NoSelfLinks, Pointers, Held, ClaimsOf, JoinsOk, WalkOf, MembersOf, U.IsGrouping, ByRef;
    ClaimsAreJoins(vs, w, targets, |targets|);
    joins := ClaimsOf(vs, w, targets, |targets|).0;
    var pool := ClaimsOf(vs, w, targets, |targets|).1;
    JoinsAreLinked(vs, w, targets, joins, pool);
    OnlyClaims(vs, w, targets, joins, pool);
    LinkedTails(vs, joins, pool);
    var groups := U.GroupingExists(ByRef(LinesAt(vs, pool)));
    order := WalkOf(joins, MembersOf(groups));
    AllTailsMet(vs, joins, pool, groups);
    WalkedInRange(joins, order, vs);
  }

  lemma WalkedInRange(joins: map<LineRef, Join>, order: seq<Join>, vs: seq<Line>)
    requires WalkedAll(joins, order, vs)
    ensures InRange(|vs|, order)
  {
  }

  // ----- the exact condition -----

  /** Guards that accept every text by itself. */
  function Lenient(judge: Judge): Guards {
    Guards(judge, (r: LineRef, text: string) => Ok(text), (r: LineRef, text: string) => None)
  }

  /** Guards that keep every pair and refuse every line but one. */
  function Choosy(only: LineRef): Guards {
    Guards((tail: Line, head: Line, c1: string, c2: string, forward: bool) => Kept(""),
           (r: LineRef, text: string) => if r == only then Ok(text) else Err("refused"), (r: LineRef, text: string) => None)
  }

  ghost predicate NeverDetaches(guards: Guards) {
    forall r: LineRef, text: string :: guards.attach(r, text).None?
  }

  lemma LenientFacts(judge: Judge)
    ensures Lenient(judge).judge == judge && NeverDetaches(Lenient(judge))
  {
  }

  lemma ChoosyFacts(only: LineRef)
    ensures NeverDetaches(Choosy(only)) && (forall r :: KeepsFrom(Choosy(only).judge, r))
    ensures (forall r | r != only :: Refuses(Choosy(only), r)) && forall text: string :: Choosy(only).check(only, text) == Ok(text)
  {
  }

  lemma {:induction false} NothingReverts(vs: seq<Line>, us: seq<Line>, w: Workspace, targets: seq<nat>, texts: map<string, string>, guards: Guards,
                                          joins: map<LineRef, Join>, order: seq<Join>)
    requires Located(vs, w) && Spots(vs, targets) && Pool(vs, w) && ChunkWalk(vs, w, targets, joins, order) && NeverDetaches(guards)
    requires us == ReconcileAll(vs, order, texts, guards.judge)
    ensures FinishedBy(vs, JudgedAll(us, w, targets, texts, guards), w, targets, texts, guards, joins, order, map[], map[])
  {
    hide Located, ChunkWalk, ReconcileAll, JudgedAll, ByRef, V.Pulls, Fell;
    var js := JudgedAll(us, w, targets, texts, guards);
    NothingReverted(js, w);
    forall k | 0 <= k < |targets| ensures Detached(us[targets[k]], guards, NewlyDecided(vs, us, targets)) == None {}
  }

  /** Some answer and some guards leave the unit corrected on one line and fallen on
      another, when the chunk's joins are walked in this order. */
  ghost predicate MixedBy(vs: seq<Line>, ws: seq<Line>, w: Workspace, targets: seq<nat>, g: U.HyphenGroup, joins: map<LineRef, Join>,
                          order: seq<Join>, texts: map<string, string>, guards: Guards)
    requires Located(vs, w) && Spots(vs, targets) && Pool(vs, w)
  {
    Covers(vs, targets, texts) && FinishedBy(vs, ws, w, targets, texts, guards, joins, order, map[], map[]) && !AsOne(ws, g)
  }

  lemma MixedIs(vs: seq<Line>, ws: seq<Line>, g: U.HyphenGroup, x: nat, y: nat)
    requires |ws| == |vs| && (forall p | 0 <= p < |vs| :: ws[p].ref == vs[p].ref) && In(vs, g, x) && In(vs, g, y)
    requires ws[x].status.Fallback? && !ws[y].status.Fallback?
    ensures !AsOne(ws, g)
  {
    assert In(ws, g, x) && In(ws, g, y);
  }

  /** The walk settles some of the unit's lines and leaves another to the judging: keep
      the joins, refuse the other. */
  lemma {:induction false} SomeUnjoined(vs: seq<Line>, w: Workspace, targets: seq<nat>, g: U.HyphenGroup, joins: map<LineRef, Join>,
                                        order: seq<Join>, e: nat, n: nat) returns (texts: map<string, string>, guards: Guards, ws: seq<Line>)
    requires Holds(vs, w, targets, g) && Located(vs, w) && ChunkWalk(vs, w, targets, joins, order)
    requires In(vs, g, e) && In(vs, g, n) && IsEnd(order, e) && !IsEnd(order, n)
    ensures Spots(vs, targets) && Pool(vs, w) && MixedBy(vs, ws, w, targets, g, joins, order, texts, guards)
  {
    hide Holds, Located, ChunkWalk, In, IsEnd, AsOne, JudgedAll, ReconcileAll, Sources, Choosy, SidesKept, Covers, FinishedBy, NoSelfLinks,
         DistinctRefs, AllSound, U.IsComponent, KeepsFrom, NeverDetaches, Refuses;
    HoldsFacts(vs, w, targets, g);
    WalkKeepsSides(vs, w, targets, g, joins, order);
    MemberFacts(vs, w, targets, g, e);
    MemberFacts(vs, w, targets, g, n);
    texts, guards := Sources(vs, w), Choosy(vs[e].ref);
    ChoosyFacts(vs[e].ref);
    var us := ReconcileAll(vs, order, texts, guards.judge);
    ws := JudgedAll(us, w, targets, texts, guards);
    SourcesCover(vs, w, targets);
    NothingReverts(vs, us, w, targets, texts, guards, joins, order);
    UnitAfterTheWalk(vs, w, order, targets, texts, guards, g.members);
    MembersStart(vs, w, targets, g);
    NoneFallsYet(vs, order, texts, guards.judge, g, e);
    EndIsSettled(vs, order, texts, guards.judge, e);
    EndIsSettled(vs, order, texts, guards.judge, n);
    OwnSource(vs, w, n);
    RefsDiffer(vs, e, n);
    JudgedFalls(us, w, targets, texts, guards, n);
    MixedIs(vs, ws, g, n, e);
  }

  lemma MembersStart(vs: seq<Line>, w: Workspace, targets: seq<nat>, g: U.HyphenGroup)
    requires Holds(vs, w, targets, g)
    ensures forall q: nat | In(vs, g, q) :: q < |vs| && !vs[q].status.Fallback?
  {
    hide Holds, In;
    forall q: nat | In(vs, g, q) ensures q < |vs| && !vs[q].status.Fallback? { MemberFacts(vs, w, targets, g, q); }
  }

  lemma RefsDiffer(vs: seq<Line>, x: nat, y: nat)
    requires DistinctRefs(vs) && x < |vs| && y < |vs| && x != y
    ensures vs[x].ref != vs[y].ref
  {
  }

  /** The walk settles none of the unit's lines: the guards take the first one judged and
      refuse the others. */
  lemma {:induction false} NoneJoined(vs: seq<Line>, w: Workspace, targets: seq<nat>, g: U.HyphenGroup, joins: map<LineRef, Join>,
                                      order: seq<Join>) returns (texts: map<string, string>, guards: Guards, ws: seq<Line>)
    requires Holds(vs, w, targets, g) && Located(vs, w) && ChunkWalk(vs, w, targets, joins, order)
    requires forall p: nat | In(vs, g, p) :: !IsEnd(order, p)
    ensures Spots(vs, targets) && Pool(vs, w) && MixedBy(vs, ws, w, targets, g, joins, order, texts, guards)
  {
    hide Holds, Located, ChunkWalk, In, IsEnd, AsOne, JudgedAll, ReconcileAll, Sources, Choosy, SidesKept, Covers, FinishedBy, NoSelfLinks,
         DistinctRefs, AllSound, U.IsComponent, KeepsFrom, NeverDetaches, Refuses;
    HoldsFacts(vs, w, targets, g);
    WalkInRange(vs, w, targets, joins, order);
    var k := FirstTarget(vs, w, targets, g);
    var p := targets[k];
    MemberFacts(vs, w, targets, g, p);
    var q := OtherMember(vs, w, targets, g, p);
    MemberFacts(vs, w, targets, g, q);
    texts, guards := Sources(vs, w), Choosy(vs[p].ref);
    ChoosyFacts(vs[p].ref);
    var us := ReconcileAll(vs, order, texts, guards.judge);
    ws := JudgedAll(us, w, targets, texts, guards);
    SourcesCover(vs, w, targets);
    NothingReverts(vs, us, w, targets, texts, guards, joins, order);
    UnitAfterTheWalk(vs, w, order, targets, texts, guards, g.members);
    forall x: nat | In(vs, g, x) ensures x < |vs| && us[x] == vs[x] {
      InIsPlace(vs, g, x);
      EndIsSettled(vs, order, texts, guards.judge, x);
    }
    FirstIsTaken(vs, w, targets, g, us, guards, k);
    OwnSource(vs, w, q);
    RefsDiffer(vs, p, q);
    JudgedFalls(us, w, targets, texts, guards, q);
    MixedIs(vs, ws, g, q, p);
  }

  lemma {:induction false} OtherMember(vs: seq<Line>, w: Workspace, targets: seq<nat>, g: U.HyphenGroup, p: nat) returns (q: nat)
    requires Holds(vs, w, targets, g) && In(vs, g, p)
    ensures In(vs, g, q) && q != p
  {
    hide Holds;
    UnitHasTwo(vs, w, targets, g);
    var r := if g.members[0] != vs[p].ref then g.members[0] else g.members[1];
    assert r in g.members && r != vs[p].ref;
    q := PlaceOf(vs, w, targets, g, r);
  }

  /** The first target that is of the unit. */
  lemma {:induction false} FirstTarget(vs: seq<Line>, w: Workspace, targets: seq<nat>, g: U.HyphenGroup) returns (k: nat)
    requires Holds(vs, w, targets, g)
    ensures k < |targets| && In(vs, g, targets[k]) && forall i | 0 <= i < k :: !In(vs, g, targets[i])
  {
    hide Holds, In, PoolMap;
    UnitHasTwo(vs, w, targets, g);
    var p := PlaceOf(vs, w, targets, g, g.members[0]);
    MemberFacts(vs, w, targets, g, p);
    k :| 0 <= k < |targets| && targets[k] == p;
    while exists i :: 0 <= i < k && In(vs, g, targets[i])
      invariant k < |targets| && In(vs, g, targets[k])
      decreases k
    {
      var i :| 0 <= i < k && In(vs, g, targets[i]);
      k := i;
    }
  }

  /** The walk settles three of the unit's lines or more: refuse its last join alone. */
  lemma {:induction false} AllJoined(vs: seq<Line>, w: Workspace, targets: seq<nat>, g: U.HyphenGroup, joins: map<LineRef, Join>,
                                     order: seq<Join>) returns (texts: map<string, string>, guards: Guards, ws: seq<Line>)
    requires Holds(vs, w, targets, g) && Located(vs, w) && ChunkWalk(vs, w, targets, joins, order) && |g.members| >= 3
    requires forall p: nat | In(vs, g, p) :: IsEnd(order, p)
    ensures Spots(vs, targets) && Pool(vs, w) && MixedBy(vs, ws, w, targets, g, joins, order, texts, guards)
  {
    hide Holds, Located, ChunkWalk, In, IsEnd, AsOne, JudgedAll, ReconcileAll, Changed, Lenient, RefusesOnly, Covers, FinishedBy, NoSelfLinks,
         DistinctRefs, AllSound, U.IsComponent, NeverDetaches;
    HoldsFacts(vs, w, targets, g);
    var t, h := LastRefused(vs, w, targets, g, joins, order);
    InIsPlace(vs, g, t);
    InIsPlace(vs, g, h);
    var judge := RefusesOnly(vs[t].ref, vs[h].ref);
    texts, guards := Changed(vs, w), Lenient(judge);
    LenientFacts(judge);
    ChangedCovers(vs, w, targets);
    var us := ReconcileAll(vs, order, texts, judge);
    ws := JudgedAll(us, w, targets, texts, guards);
    NothingReverts(vs, us, w, targets, texts, guards, joins, order);
    UnitAfterTheWalk(vs, w, order, targets, texts, guards, g.members);
    var z := ThirdMember(vs, w, targets, g, t, h);
    InIsPlace(vs, g, z);
    EndIsSettled(vs, order, texts, judge, t);
    EndIsSettled(vs, order, texts, judge, z);
    MixedIs(vs, ws, g, t, z);
  }

  lemma {:induction false} ThirdMember(vs: seq<Line>, w: Workspace, targets: seq<nat>, g: U.HyphenGroup, t: nat, h: nat) returns (z: nat)
    requires Holds(vs, w, targets, g) && |g.members| >= 3 && t < |vs| && h < |vs|
    ensures In(vs, g, z) && z != t && z != h
  {
    hide Holds;
    UnitHasTwo(vs, w, targets, g);
    var r := if g.members[0] != vs[t].ref && g.members[0] != vs[h].ref then g.members[0]
             else if g.members[1] != vs[t].ref && g.members[1] != vs[h].ref then g.members[1] else g.members[2];
    assert r in g.members && r != vs[t].ref && r != vs[h].ref;
    z := PlaceOf(vs, w, targets, g, r);
  }

  /** A unit of three lines or more, or one none of whose lines continues onto another,
      can end corrected on one line and fallen on another, whichever way its chunk's
      joins are walked. */
  lemma {:induction false} OthersCanEndMixed(vs: seq<Line>, w: Workspace, targets: seq<nat>, g: U.HyphenGroup, joins: map<LineRef, Join>,
                                             order: seq<Join>) returns (texts: map<string, string>, guards: Guards, ws: seq<Line>)
    requires Holds(vs, w, targets, g) && !(|g.members| == 2 && Continues(vs, g))
    requires Located(vs, w) && ChunkWalk(vs, w, targets, joins, order)
    ensures Spots(vs, targets) && Pool(vs, w) && MixedBy(vs, ws, w, targets, g, joins, order, texts, guards)
  {
    hide Holds, Located, ChunkWalk, In, IsEnd, Continues, MixedBy, U.IsComponent, AllSound, DistinctRefs, NoSelfLinks;
    HoldsFacts(vs, w, targets, g);
    if forall p: nat | In(vs, g, p) :: !IsEnd(order, p) {
      texts, guards, ws := NoneJoined(vs, w, targets, g, joins, order);
    } else {
      var e: nat :| In(vs, g, e) && IsEnd(order, e);
      JoinedContinues(vs, w, targets, g, joins, order, e);
      if n: nat :| In(vs, g, n) && !IsEnd(order, n) {
        texts, guards, ws := SomeUnjoined(vs, w, targets, g, joins, order, e, n);
      } else {
        texts, guards, ws := AllJoined(vs, w, targets, g, joins, order);
      }
    }
  }

  /** The answers and guards under which a walk leaves the unit as one: all of them. */
  ghost predicate AlwaysAsOne(vs: seq<Line>, w: Workspace, targets: seq<nat>, g: U.HyphenGroup, joins: map<LineRef, Join>, order: seq<Join>)
    requires Located(vs, w) && Spots(vs, targets) && Pool(vs, w)
  {
    forall texts, guards, ws, reverts, all |
      Covers(vs, targets, texts) && FinishedBy(vs, ws, w, targets, texts, guards, joins, order, reverts, all) :: AsOne(ws, g)
  }

  /** Whichever way the chunk's joins are walked. */
  lemma {:induction false} WalkDecidesAsOneIff(vs: seq<Line>, w: Workspace, targets: seq<nat>, g: U.HyphenGroup, joins: map<LineRef, Join>,
                                               order: seq<Join>)
    requires Holds(vs, w, targets, g) && Located(vs, w) && Spots(vs, targets) && Pool(vs, w) && ChunkWalk(vs, w, targets, joins, order)
    ensures AlwaysAsOne(vs, w, targets, g, joins, order) <==> |g.members| == 2 && Continues(vs, g)
  {
    hide Holds, Located, Covers, AsOne, ChunkWalk, Continues, FinishedBy;
    if |g.members| == 2 && Continues(vs, g) {
      forall texts, guards, ws, reverts, all |
        Covers(vs, targets, texts) && FinishedBy(vs, ws, w, targets, texts, guards, joins, order, reverts, all) ensures AsOne(ws, g)
      {
        assert Finished(vs, ws, w, targets, texts, guards);
        TwoAreDecidedAsOne(vs, ws, w, targets, texts, guards, g);
      }
    } else {
      var texts, guards, ws := OthersCanEndMixed(vs, w, targets, g, joins, order);
    }
  }

  /** A unit whose lines the chunk owns, none decided yet, is decided as one whatever the
      producer answers and whatever the guards say exactly when it has two lines and one
      of them continues onto the other. */
  lemma {:induction false} DecidedAsOneIff(vs: seq<Line>, w: Workspace, targets: seq<nat>, g: U.HyphenGroup)
    requires Holds(vs, w, targets, g) && Located(vs, w)
    ensures Spots(vs, targets) && Pool(vs, w)
    ensures (forall texts, guards, ws | Covers(vs, targets, texts) && Finished(vs, ws, w, targets, texts, guards) :: AsOne(ws, g))
       <==> |g.members| == 2 && Continues(vs, g)
  {
    hide Located, Holds, Covers, AsOne, ChunkWalk, Continues, FinishedBy, Finished, NoSelfLinks, DistinctRefs, AllSound, U.IsComponent;
    HoldsFacts(vs, w, targets, g);
    if |g.members| == 2 && Continues(vs, g) {
      forall texts, guards, ws | Covers(vs, targets, texts) && Finished(vs, ws, w, targets, texts, guards) ensures AsOne(ws, g) {
        TwoAreDecidedAsOne(vs, ws, w, targets, texts, guards, g);
      }
    } else {
      var texts, guards, ws := SomeRunEndsMixed(vs, w, targets, g);
    }
  }

  lemma {:induction false} SomeRunEndsMixed(vs: seq<Line>, w: Workspace, targets: seq<nat>, g: U.HyphenGroup)
    returns (texts: map<string, string>, guards: Guards, ws: seq<Line>)
    requires Holds(vs, w, targets, g) && !(|g.members| == 2 && Continues(vs, g)) && Located(vs, w)
    ensures Spots(vs, targets) && Pool(vs, w)
    ensures Covers(vs, targets, texts) && Finished(vs, ws, w, targets, texts, guards) && !AsOne(ws, g)
  {
    hide Located, Holds, Covers, AsOne, ChunkWalk, Continues, FinishedBy, NoSelfLinks, DistinctRefs, AllSound, U.IsComponent;
    HoldsFacts(vs, w, targets, g);
    var joins, order := WalkExists(vs, w, targets);
    texts, guards, ws := OthersCanEndMixed(vs, w, targets, g, joins, order);
    assert Finished(vs, ws, w, targets, texts, guards);
  }

  // ----- a word over three lines -----

  const L1: LineRef := LineRef("p", "l1")

  const L2: LineRef := LineRef("p", "l2")

  const L3: LineRef := LineRef("p", "l3")

  /** Three lines of one page, linked as the linker links them. */
  function ThreeLines(): seq<Line> {
    [P.Plain("p", "l1", "in-", Part1).(pairLine := "l2", pairPage := "p"),
     P.Plain("p", "l2", "terna-", Both).(order := 1, pairLine := "l1", pairPage := "p", fwdLine := "l3", fwdPage := "p"),
     P.Plain("p", "l3", "tion", Part2).(order := 2, pairLine := "l2", pairPage := "p")]
  }

  function ThreeScope(): Workspace {
    Workspace("p", [0, 1, 2], map["l1" := 0, "l2" := 1, "l3" := 2], [], map[])
  }

  function ThreeUnit(): U.HyphenGroup {
    U.HyphenGroup([L1, L2, L3], false, false, true)
  }

  /** What matters of them. */
  ghost predicate Chain(vs: seq<Line>) {
    && |vs| == 3 && vs[0].ref == L1 && vs[1].ref == L2 && vs[2].ref == L3
    && vs[0].order < vs[1].order < vs[2].order && !LinksExplicit(vs[0])
    && (forall k | 0 <= k < 3 :: Sound(vs[k]) && vs[k].status.Pending?)
    && Pointers(vs[0]) == [L2] && Pointers(vs[1]) == [L1, L3] && Pointers(vs[2]) == [L2]
  }

  lemma ThreeAreAChain()
    ensures Chain(ThreeLines())
  {
  }

  lemma ChainMap(vs: seq<Line>)
    requires Chain(vs)
    ensures Pool(vs, ThreeScope()) && PoolMap(vs, ThreeScope()) == map[L1 := vs[0], L2 := vs[1], L3 := vs[2]]
  {
    hide Pointers, LinksExplicit, Sound, ByRef;
    assert LinesAt(vs, ThreeScope().Pool()) == vs;
    ThreeByRef(vs);
  }

  lemma ThreeByRef(vs: seq<Line>)
    requires |vs| == 3 && DistinctRefs(vs)
    ensures ByRef(vs) == map[vs[0].ref := vs[0], vs[1].ref := vs[1], vs[2].ref := vs[2]]
  {
    assert vs[..2][..1] == vs[..1] && vs[..1][..0] == [] && vs[..3] == vs;
    assert ByRef(vs[..1]) == map[vs[0].ref := vs[0]];
    assert ByRef(vs[..2]) == map[vs[0].ref := vs[0], vs[1].ref := vs[1]];
  }

  lemma {:induction false} ChainIsTogether(m: map<LineRef, Line>)
    requires m.Keys == {L1, L2, L3} && L1 in Pointers(m[L2]) && L3 in Pointers(m[L2])
    ensures forall x, y | x in m && y in m :: U.SameUnit(m, x, y)
  {
    hide Pointers, U.SameUnit;
    PointerIsAPair(m, L1, L2);
    PointerIsAPair(m, L2, L3);
    U.SameUnitIsAnEquivalence(m, L1, L2, L3);
    U.SameUnitIsAnEquivalence(m, L2, L3, L2);
    U.SameUnitIsAnEquivalence(m, L1, L3, L1);
    U.SameUnitIsAnEquivalence(m, L3, L3, L3);
  }

  lemma {:induction false} ChainIsAUnit(vs: seq<Line>)
    requires Chain(vs)
    ensures Pool(vs, ThreeScope()) && U.IsUnit(PoolMap(vs, ThreeScope()), ThreeUnit())
  {
    ChainMap(vs);
    hide PoolMap, Pointers, U.IsUnit, LinksExplicit, Sound;
    ChainUnit(PoolMap(vs, ThreeScope()));
  }

  lemma {:induction false} ChainUnit(m: map<LineRef, Line>)
    requires m.Keys == {L1, L2, L3} && m[L1].order < m[L2].order < m[L3].order && !LinksExplicit(m[L1])
    requires Pointers(m[L1]) == [L2] && Pointers(m[L2]) == [L1, L3] && Pointers(m[L3]) == [L2]
    ensures U.IsUnit(m, ThreeUnit())
  {
    hide Pointers, U.SameUnit, LinksExplicit;
    ChainIsTogether(m);
    var g := ThreeUnit();
    assert g.members[0] == L1 && g.members[1] == L2 && g.members[2] == L3;
    assert U.IsComponent(m, g.members);
    hide U.IsComponent, ThreeUnit;
    assert SortedBy(g.members, r => U.Order(m, r));
    hide SortedBy;
    assert forall x | x in g.members :: x == L1 || x == L2 || x == L3;
  }

  lemma ChainIsReady(vs: seq<Line>)
    requires Chain(vs)
    ensures Ready(vs, ThreeScope()) && Targets(ThreeScope(), [0, 1, 2])
  {
    hide Pointers, LinksExplicit, Sound;
    assert forall k | 0 <= k < 3 :: ThreeScope().lines[k] == k;
  }

  lemma {:induction false} ChainHolds(vs: seq<Line>)
    requires Chain(vs)
    ensures Holds(vs, ThreeScope(), [0, 1, 2], ThreeUnit())
  {
    ChainIsAUnit(vs);
    ChainIsReady(vs);
    hide U.IsUnit, Ready, Targets, PoolMap;
    ChainIsOwned(vs);
    hide OwnedPending, Chain;
  }

  lemma ChainIsOwned(vs: seq<Line>)
    requires Chain(vs)
    ensures forall r | r in ThreeUnit().members :: OwnedPending(vs, [0, 1, 2], r)
    ensures Spots(vs, [0, 1, 2])
  {
    hide Pointers, LinksExplicit, Sound;
    assert OwnedPending(vs, [0, 1, 2], vs[0].ref) && OwnedPending(vs, [0, 1, 2], vs[1].ref) && OwnedPending(vs, [0, 1, 2], vs[2].ref);
  }

  /** A word over three lines, all of them in one chunk: some answer and some guards
      leave it corrected on one line and at its source on another. */
  lemma {:induction false} ChainCanEndMixed() returns (texts: map<string, string>, guards: Guards, ws: seq<Line>)
    ensures var vs, w := ThreeLines(), ThreeScope();
      && Located(vs, w) && Spots(vs, [0, 1, 2]) && Spots(vs, w.Pool())
      && Covers(vs, [0, 1, 2], texts) && Finished(vs, ws, w, [0, 1, 2], texts, guards) && !AsOne(ws, ThreeUnit())
  {
    hide Finished, Holds, AsOne, ThreeLines, ThreeScope, Located, Chain, Covers, Continues;
    ThreeAreAChain();
    ChainHolds(ThreeLines());
    HoldsFacts(ThreeLines(), ThreeScope(), [0, 1, 2], ThreeUnit());
    assert |ThreeUnit().members| == 3;
    texts, guards, ws := SomeRunEndsMixed(ThreeLines(), ThreeScope(), [0, 1, 2], ThreeUnit());
  }

  // ----- a word linked from one side only -----

  const H2: LineRef := LineRef("p1", "l2")

  const H3: LineRef := LineRef("p1", "l3")

  function HalfScope(): Workspace {
    Workspace("p1", [0, 1, 2], map["l2" := 0, "l3" := 1, "l9" := 2], [], map[])
  }

  /** What the LINE plan leaves of a page a namesake fools: the second line points back
      at a first one that no longer continues onto it. */
  ghost predicate Halved(vs: seq<Line>) {
    && |vs| == 3 && vs[0].ref == H2 && vs[1].ref == H3 && vs[2].ref == LineRef("p1", "l9")
    && (forall k | 0 <= k < 3 :: Sound(vs[k]) && vs[k].status.Pending?)
    && Pointers(vs[0]) == [] && Pointers(vs[1]) == [H2] && Pointers(vs[2]) == []
    && ForwardPartner(vs[0]) == None && ForwardPartner(vs[1]) == None
  }

  lemma PlanHalves(cfg: C.Config)
    requires cfg.Valid() && cfg.maxLines >= 2
    ensures var plan := L.LinePlan(L.NamesakePage(), cfg, 0);
      |plan.chunks| == 2 && plan.chunks[0].lines == [0, 1] && plan.chunks[0].targets == [0, 1] && Halved(plan.lines)
  {
    var vs := L.NamesakePage();
    SeverHalves();
    L.PageIsNamesakes();
    hide L.LinePlan, L.NamesakePage, Halved, L.Namesakes, L.SeverOut;
    L.NamesakePlan(vs, cfg);
    assert L.Span(0, 2) == [0, 1];
  }

  lemma SeverHalves()
    ensures Halved(L.SeverOut(L.NamesakePage()))
  {
  }

  lemma {:induction false} HalfComponent(vs: seq<Line>)
    requires Halved(vs)
    ensures Pool(vs, HalfScope()) && U.IsComponent(PoolMap(vs, HalfScope()), [H2, H3])
  {
    assert LinesAt(vs, HalfScope().Pool()) == vs;
    HalfMap(vs);
    hide Pointers, ForwardPartner, Sound, ByRef, PoolMap, U.IsComponent;
    TwoTogether(PoolMap(vs, HalfScope()));
  }

  lemma HalfMap(vs: seq<Line>)
    requires Halved(vs)
    ensures Pool(vs, HalfScope()) && PoolMap(vs, HalfScope()) == map[vs[0].ref := vs[0], vs[1].ref := vs[1], vs[2].ref := vs[2]]
  {
    hide Pointers, ForwardPartner, Sound, ByRef;
    assert LinesAt(vs, HalfScope().Pool()) == vs;
    ThreeByRef(vs);
  }

  lemma {:induction false} TwoTogether(m: map<LineRef, Line>)
    requires m.Keys == {H2, H3, LineRef("p1", "l9")}
    requires Pointers(m[H2]) == [] && Pointers(m[H3]) == [H2] && Pointers(m[LineRef("p1", "l9")]) == []
    ensures U.IsComponent(m, [H2, H3])
  {
    hide Pointers;
    PointerIsAPair(m, H2, H3);
    U.SameUnitIsAnEquivalence(m, H2, H3, H2);
    U.SameUnitIsAnEquivalence(m, H3, H3, H3);
    assert forall e | e in U.Links(m) :: e.0 in {H2, H3} <==> e.1 in {H2, H3};
    forall x, y | x in [H2, H3] && y in m ensures y in [H2, H3] <==> U.SameUnit(m, x, y) {
      if U.SameUnit(m, x, y) { F.ConnectedKeeps(U.Links(m), x, y, {H2, H3}); }
    }
  }

  lemma {:induction false} HalfHolds(vs: seq<Line>, g: U.HyphenGroup)
    requires Halved(vs) && Pool(vs, HalfScope()) && U.IsUnit(PoolMap(vs, HalfScope()), g) && forall r :: r in g.members <==> r == H2 || r == H3
    ensures Holds(vs, HalfScope(), [0, 1], g) && !Continues(vs, g)
  {
    hide U.IsUnit, PoolMap, Ready, HalfScope, Targets, Pointers, Sound, ForwardPartner;
    HalfIsReady(vs);
    assert OwnedPending(vs, [0, 1], vs[0].ref) && OwnedPending(vs, [0, 1], vs[1].ref);
    assert forall p: nat | In(vs, g, p) :: p == 0 || p == 1;
    hide OwnedPending;
  }

  lemma HalfIsReady(vs: seq<Line>)
    requires Halved(vs)
    ensures Ready(vs, HalfScope()) && Targets(HalfScope(), [0, 1]) && Spots(vs, [0, 1])
  {
    hide Pointers, ForwardPartner, Sound;
    HalfIsLocated(vs);
    assert NoSelfLinks(vs);
    hide Halved, HalfScope;
  }

  lemma HalfIsLocated(vs: seq<Line>)
    requires Halved(vs)
    ensures Located(vs, HalfScope()) && Targets(HalfScope(), [0, 1]) && Spots(vs, [0, 1]) && DistinctRefs(vs) && AllSound(vs)
  {
    hide Pointers, ForwardPartner, Sound;
    assert forall k | 0 <= k < 3 :: HalfScope().lines[k] == k;
  }

  /** A word over two lines that the LINE plan has just left linked from one side only:
      some answer and some guards leave it corrected on one and at its source on the
      other. */
  lemma {:induction false} HalfLinkCanEndMixed(cfg: C.Config) returns (texts: map<string, string>, guards: Guards, ws: seq<Line>)
    requires cfg.Valid() && cfg.maxLines >= 2
    ensures var plan, w := L.LinePlan(L.NamesakePage(), cfg, 0), HalfScope();
      var vs := plan.lines;
      && |vs| == 3 && |plan.chunks| == 2 && plan.chunks[0].targets == [0, 1]
      && Located(vs, w) && Spots(vs, [0, 1]) && Spots(vs, w.Pool()) && Covers(vs, [0, 1], texts)
      && Finished(vs, ws, w, [0, 1], texts, guards) && |ws| == 3 && (ws[0].status.Fallback? <==> !ws[1].status.Fallback?)
  {
    PlanHalves(cfg);
    var vs := L.LinePlan(L.NamesakePage(), cfg, 0).lines;
    hide L.LinePlan, L.NamesakePage;
    texts, guards, ws := HalvedCanEndMixed(vs);
  }

  lemma {:induction false} HalvedCanEndMixed(vs: seq<Line>) returns (texts: map<string, string>, guards: Guards, ws: seq<Line>)
    requires Halved(vs)
    ensures var w := HalfScope();
      && Located(vs, w) && Spots(vs, [0, 1]) && Spots(vs, w.Pool()) && Covers(vs, [0, 1], texts)
      && Finished(vs, ws, w, [0, 1], texts, guards) && |ws| == 3 && (ws[0].status.Fallback? <==> !ws[1].status.Fallback?)
  {
    hide Finished, Holds, AsOne, HalfScope, Located, Halved, Covers, Continues, PoolMap, U.IsComponent, U.IsUnit, U.UnitFrom, AllSound,
         DistinctRefs, NoSelfLinks, OwnedPending, Targets;
    HalfComponent(vs);
    var m := PoolMap(vs, HalfScope());
    var g := U.UnitFrom(m, [H2, H3]);
    U.UnitFromIsUnit(m, [H2, H3]);
    HalfHolds(vs, g);
    HoldsFacts(vs, HalfScope(), [0, 1], g);
    HalvedIsThree(vs);
    texts, guards, ws := SomeRunEndsMixed(vs, HalfScope(), [0, 1], g);
    FinishKeepsRefs(vs, ws, HalfScope(), [0, 1], texts, guards);
    HalvedApart(vs, ws, g);
  }

  lemma HalvedIsThree(vs: seq<Line>)
    requires Halved(vs)
    ensures |vs| == 3 && Distinct([H2, H3])
  {
  }

  lemma {:induction false} FinishKeepsRefs(vs: seq<Line>, ws: seq<Line>, w: Workspace, targets: seq<nat>, texts: map<string, string>, guards: Guards)
    requires Located(vs, w) && Spots(vs, targets) && Pool(vs, w) && Finished(vs, ws, w, targets, texts, guards) && AllSound(vs) && DistinctRefs(vs)
    ensures |ws| == |vs| && forall p | 0 <= p < |vs| :: ws[p].ref == vs[p].ref
  {
    hide Located, ChunkWalk, ReconcileAll, JudgedAll, Detaches, V.Pulls, InPool, ByRef, NewlyDecided, Sound, DistinctRefs;
    var joins, order, reverts, all :| FinishedBy(vs, ws, w, targets, texts, guards, joins, order, reverts, all);
    WalkInRange(vs, w, targets, joins, order);
    var us := ReconcileAll(vs, order, texts, guards.judge);
    SameSourcesAfter(vs, order, texts, guards.judge);
    forall p | 0 <= p < |vs| ensures ws[p].ref == vs[p].ref { JudgingKeeps(us, w, targets, texts, guards, p); }
  }

  lemma HalvedApart(vs: seq<Line>, ws: seq<Line>, g: U.HyphenGroup)
    requires Halved(vs) && |ws| == |vs| && (forall p | 0 <= p < |vs| :: ws[p].ref == vs[p].ref) && !AsOne(ws, g)
    requires forall r :: r in g.members <==> r == H2 || r == H3
    ensures ws[0].status.Fallback? <==> !ws[1].status.Fallback?
  {
    hide Pointers, ForwardPartner, Sound;
    assert forall p: nat :: In(ws, g, p) <==> p == 0 || p == 1;
  }

  // ----- a failed chunk and a namesake -----

  const X1: LineRef := LineRef("p1", "x")

  const X2: LineRef := LineRef("p2", "x")

  /** A word broken over a page end, both of its lines named x. */
  function Twins(): seq<Line> {
    [P.Plain("p1", "x", "inter-", Part1).(pairLine := "x", pairPage := "p2"),
     P.Plain("p2", "x", "national", Part2).(pairLine := "x", pairPage := "p1")]
  }

  function FirstScope(): Workspace {
    Workspace("p1", [0], map["x" := 0], [1], map[X2 := 1])
  }

  function SecondScope(): Workspace {
    Workspace("p2", [1], map["x" := 1], [0], map[X1 := 0])
  }

  const ANSWER: map<string, string> := map["x" := "Inter-"]

  lemma TwinsNoJoin()
    ensures Located(Twins(), FirstScope()) && Spots(Twins(), [0]) && Pool(Twins(), FirstScope())
    ensures ChunkWalk(Twins(), FirstScope(), [0], map[], [])
  {
    TwinsApart();
    hide OutClaim, InClaim, Twins, FirstScope, Located;
    TwinsWalk(Twins(), FirstScope());
  }

  lemma TwinsApart()
    ensures Located(Twins(), FirstScope()) && Spots(Twins(), [0]) && Pool(Twins(), FirstScope()) && |Twins()| == 2
    ensures OutClaim(Twins(), FirstScope(), 0) == None && InClaim(Twins(), FirstScope(), 0) == None
  {
  }

  lemma TwinsWalk(vs: seq<Line>, w: Workspace)
    requires Located(vs, w) && |vs| == 2 && OutClaim(vs, w, 0) == None && InClaim(vs, w, 0) == None
    ensures Spots(vs, [0]) && ChunkWalk(vs, w, [0], map[], [])
  {
    hide OutClaim, InClaim, Located, U.IsGrouping, ByRef, Claims;
    assert Walked(map[], [], {}, {}, vs);
    assert ClaimsOf(vs, w, [0], 0) == (map[], [0]) && ClaimsOf(vs, w, [0], 1) == (map[], [0]);
    LoneLine(vs, 0);
    assert WalkOf(map[], MembersOf([])) == [];
  }

  /** One line alone has no units. */
  lemma LoneLine(vs: seq<Line>, p: nat)
    requires p < |vs|
    ensures U.IsGrouping(ByRef(LinesAt(vs, [p])), [])
  {
    hide U.SameUnit;
    var ls := LinesAt(vs, [p]);
    assert ls[..0] == [] && ByRef(ls) == map[vs[p].ref := vs[p]];
  }

  lemma FirstIsAccepted(judge: Judge)
    ensures JudgedAll(Twins(), FirstScope(), [0], ANSWER, Lenient(judge)) == Twins()[0 := Accepted(Twins()[0], "Inter-")]
  {
    var vs, w := Twins(), FirstScope();
    assert [0][..0] == [];
    assert JudgedAll(vs, w, [], ANSWER, Lenient(judge)) == vs;
    assert !DropsItsBreak(vs[0], "Inter-");
    assert Lookup(w, PairRef(vs[0])) == Some(1) && Lookup(w, ForwardRef(vs[0])) == None;
  }

  lemma TwinsTogether(vs: seq<Line>)
    requires |vs| == 2 && vs[0].ref == X1 && vs[1].ref == X2 && Pointers(vs[0]) == [X2]
    ensures Spots(vs, [1]) && Pool(vs, SecondScope())
    ensures InTheirUnits(vs, SecondScope(), [1], 0) && InTheirUnits(vs, SecondScope(), [1], 1)
  {
    hide Pointers;
    var w := SecondScope();
    assert 0 in w.Pool() && 1 in w.Pool();
    PoolLine(vs, w.Pool(), 0);
    PoolLine(vs, w.Pool(), 1);
    hide U.SameUnit, ByRef;
    PointerIsAPair(PoolMap(vs, w), X1, X2);
    U.SameUnitIsAnEquivalence(PoolMap(vs, w), X1, X2, X1);
    assert RefsAt(vs, [1]) == {X2};
  }

  /** The first page's line is accepted; then the second page's chunk fails. The
      source leaves the first line alone for its bare id, and the word ends corrected
      on one side of the page break and at its source on the other. */
  lemma {:induction false} TwinStandsAlone(judge: Judge, reason: string) returns (mid: seq<Line>, ws: seq<Line>)
    ensures var w1, w2 := FirstScope(), SecondScope();
      && Located(Twins(), w1) && Spots(Twins(), [0]) && Spots(Twins(), w1.Pool())
      && Finished(Twins(), mid, w1, [0], ANSWER, Lenient(judge))
      && Located(mid, w2) && Spots(mid, [1]) && Spots(mid, w2.Pool())
      && ChunkFell(mid, ws, w2, [1], reason) && InTheirUnits(mid, w2, [1], 0)
      && |ws| == 2 && ws[0].status.Corrected? && ws[0].corrected == Some("Inter-") && Down(ws[1])
  {
    hide ChunkWalk, JudgedAll, Finished, FinishedBy, NeverDetaches, Lenient, Located, InTheirUnits;
    TwinsNoJoin();
    ReconcileNone(Twins(), ANSWER, judge);
    LenientFacts(judge);
    NothingReverts(Twins(), Twins(), FirstScope(), [0], ANSWER, Lenient(judge), map[], []);
    FirstIsAccepted(judge);
    mid := Twins()[0 := Accepted(Twins()[0], "Inter-")];
    FinishedIsBy(Twins(), mid, FirstScope(), [0], ANSWER, Lenient(judge), map[], [], map[], map[]);
    ws := SecondFails(mid, reason);
  }

  lemma FinishedIsBy(vs: seq<Line>, ws: seq<Line>, w: Workspace, targets: seq<nat>, texts: map<string, string>, guards: Guards,
                     joins: map<LineRef, Join>, order: seq<Join>, reverts: map<LineRef, string>, all: map<LineRef, string>)
    requires Located(vs, w) && Spots(vs, targets) && Pool(vs, w)
    requires FinishedBy(vs, ws, w, targets, texts, guards, joins, order, reverts, all)
    ensures Finished(vs, ws, w, targets, texts, guards)
  {
    hide FinishedBy, Located;
  }

  lemma {:induction false} SecondFails(mid: seq<Line>, reason: string) returns (ws: seq<Line>)
    requires mid == Twins()[0 := Accepted(Twins()[0], "Inter-")]
    ensures var w2 := SecondScope();
      && Located(mid, w2) && Spots(mid, [1]) && Spots(mid, w2.Pool())
      && ChunkFell(mid, ws, w2, [1], reason) && InTheirUnits(mid, w2, [1], 0)
      && |ws| == 2 && ws[0] == mid[0] && Down(ws[1])
  {
    MidFacts(mid);
    hide Twins, Accepted, Pointers, Located;
    TwinsTogether(mid);
    ws := TwinFall(mid, reason);
  }

  lemma MidFacts(mid: seq<Line>)
    requires mid == Twins()[0 := Accepted(Twins()[0], "Inter-")]
    ensures |mid| == 2 && mid[0].ref == X1 && mid[1].ref == X2 && Pointers(mid[0]) == [X2]
    ensures DistinctRefs(mid) && Located(mid, SecondScope())
  {
  }

  lemma {:induction false} TwinFall(mid: seq<Line>, reason: string) returns (ws: seq<Line>)
    requires |mid| == 2 && DistinctRefs(mid) && mid[0].ref == X1 && mid[1].ref == X2
    requires Spots(mid, [1]) && Spots(mid, SecondScope().Pool())
    requires InTheirUnits(mid, SecondScope(), [1], 0) && InTheirUnits(mid, SecondScope(), [1], 1)
    ensures ChunkFell(mid, ws, SecondScope(), [1], reason) && |ws| == 2 && ws[0] == mid[0] && Down(ws[1])
  {
    hide InTheirUnits, Fell, DraggedDown, InPool, SecondScope;
    var w2 := SecondScope();
    var us := FallenAt(mid, [1], reason);
    ws := Fell(us, InPool(us, w2, DraggedDown(us, w2, [1])));
    assert [1][0] == 1;
    assert Namesake(mid, w2, [1], 0) && !Namesake(mid, w2, [1], 1);
    MemberAfterTheFall(mid, ws, w2, [1], reason, 0);
    MemberAfterTheFall(mid, ws, w2, [1], reason, 1);
  }
}

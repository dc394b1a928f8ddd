/** A word broken over a page break: what processing one of its two pages does to it
    (`driver.py`, `outcome.py`, `reconcile.py`). */
module CrossPage {
  import opened Prelude
  import opened Manifest
  import opened Chunks
  import opened Decide
  import opened Reconcile
  import opened Acceptance
  import opened Proposals
  import opened Driver
  import A = Atomicity
  import L = LinePlanner
  import U = Units
  import V = Reverts

  // ----- the word -----

  /** On the head's page no line has the tail's bare id, and none points at the head's. */
  ghost predicate OwnIds(vs: seq<Line>, t: nat, h: nat)
    requires t < |vs| && h < |vs|
  {
    forall x: nat | x < |vs| && vs[x].ref.page == vs[h].ref.page ::
      vs[x].ref.line != vs[t].ref.line && NoneNamed(Pointers(vs[x]), vs[h].ref.line)
  }

  predicate NoneNamed(refs: seq<LineRef>, id: string) {
    forall r | r in refs :: r.line != id
  }

  ghost predicate NoThird(vs: seq<Line>, t: nat, h: nat)
    requires t < |vs| && h < |vs|
  {
    forall x: nat | x < |vs| && x != t && x != h :: vs[t].ref !in Pointers(vs[x]) && vs[h].ref !in Pointers(vs[x])
  }

  /** A word of two lines on two pages: the head names the tail, no third line names
      either. The tail may have lost, or never had, its own link. */
  ghost predicate Bound(vs: seq<Line>, t: nat, h: nat) {
    && t < |vs| && h < |vs| && vs[t].ref.page != vs[h].ref.page
    && Pointers(vs[h]) == [vs[t].ref] && BackwardPartner(vs[h]) == Some(vs[t].ref)
    && (forall r | r in Pointers(vs[t]) :: r == vs[h].ref) && BackwardPartner(vs[t]).None?
    && NoThird(vs, t, h) && OwnIds(vs, t, h)
  }

  /** While the first page is processed: the head is undecided, unless both fell. */
  ghost predicate Waits(vs: seq<Line>, t: nat, h: nat)
    requires t < |vs| && h < |vs|
  {
    vs[h].status.Pending? || (vs[t].status.Fallback? && vs[h].status.Fallback?)
  }

  /** Once the first page is done: the tail is decided, and if the head is so is it
      that both fell or neither did. */
  ghost predicate Fair(vs: seq<Line>, t: nat, h: nat)
    requires t < |vs| && h < |vs|
  {
    !vs[t].status.Pending? && (vs[h].status.Pending? || (vs[t].status.Fallback? <==> vs[h].status.Fallback?))
  }

  ghost predicate AtTail(w: Workspace, t: nat, h: nat) {
    t in w.lines && h !in w.lines
  }

  /** The page of the head, which was lent the tail. */
  ghost predicate AtHead(vs: seq<Line>, w: Workspace, t: nat, h: nat)
    requires t < |vs|
  {
    h in w.lines && t in w.others && Lookup(w, Some(vs[t].ref)) == Some(t)
  }

  ghost predicate Even(vs: seq<Line>, w: Workspace, t: nat, h: nat)
    requires t < |vs| && h < |vs|
  {
    (AtTail(w, t, h) && Waits(vs, t, h)) || (AtHead(vs, w, t, h) && Fair(vs, t, h))
  }

  ghost predicate Kept(vs: seq<Line>, w: Workspace, t: nat, h: nat) {
    Bound(vs, t, h) && Even(vs, w, t, h)
  }

  // ----- the word stays a word -----

  lemma SameLinksSame(a: Line, b: Line)
    requires SameLinks(a, b) && a.ref == b.ref
    ensures Pointers(b) == Pointers(a) && ForwardPartner(b) == ForwardPartner(a) && BackwardPartner(b) == BackwardPartner(a)
  {
  }

  lemma FewerNames(a: Line, b: Line, id: string)
    requires Evolves(a, b) && NoneNamed(Pointers(a), id)
    ensures NoneNamed(Pointers(b), id)
  {
  }

  lemma {:induction false} BoundStays(vs: seq<Line>, ws: seq<Line>, t: nat, h: nat)
    requires Bound(vs, t, h) && Evolved(vs, ws) && SameLinks(vs[h], ws[h]) && BackwardPartner(ws[t]).None?
    ensures Bound(ws, t, h) && ws[t].ref == vs[t].ref && ws[h].ref == vs[h].ref
  {
    var id := vs[h].ref.line;
    forall x: nat | x < |vs|
      ensures ws[x].ref == vs[x].ref && (forall r | r in Pointers(ws[x]) :: r in Pointers(vs[x]))
      ensures NoneNamed(Pointers(vs[x]), id) ==> NoneNamed(Pointers(ws[x]), id)
    {
      assert Evolves(vs[x], ws[x]);
      LinksOnlyGo(vs[x], ws[x]);
      if NoneNamed(Pointers(vs[x]), id) { FewerNames(vs[x], ws[x], id); }
    }
    SameLinksSame(vs[h], ws[h]);
    hide Evolves, Pointers, SameLinks, BackwardPartner, NoneNamed;
  }

  lemma {:induction false} LinkedStays(vs: seq<Line>, ws: seq<Line>, t: nat, h: nat)
    requires Bound(vs, t, h) && Evolved(vs, ws) && SameLinks(vs[t], ws[t]) && SameLinks(vs[h], ws[h])
    ensures Bound(ws, t, h) && ws[t].ref == vs[t].ref && ws[h].ref == vs[h].ref
  {
    hide OwnIds, NoThird, Pointers;
    assert Evolves(vs[t], ws[t]);
    SameLinksSame(vs[t], ws[t]);
    hide Bound, Evolved, SameLinks;
    BoundStays(vs, ws, t, h);
  }

  lemma BoundFacts(vs: seq<Line>, t: nat, h: nat)
    requires Bound(vs, t, h)
    ensures t < |vs| && h < |vs| && vs[t].ref.page != vs[h].ref.page && vs[t].ref in Pointers(vs[h])
    ensures BackwardPartner(vs[h]) == Some(vs[t].ref) && BackwardPartner(vs[t]).None? && OwnIds(vs, t, h) && !vs[h].role.NoRole?
  {
    hide OwnIds, NoThird;
  }

  // ----- falling with the unit -----

  /** Both lines of the word are in a union of units, or neither is. */
  lemma {:induction false} BothOrNeither(vs: seq<Line>, w: Workspace, t: nat, h: nat, seeds: set<LineRef>)
    requires DistinctRefs(vs) && Spots(vs, w.Pool()) && Bound(vs, t, h) && t in w.Pool() && h in w.Pool()
    ensures var all := U.Closure(ByRef(LinesAt(vs, w.Pool())), seeds); vs[t].ref in all <==> vs[h].ref in all
  {
    hide Bound, Pointers, ByRef, U.SameUnit, U.Closure;
    var m := ByRef(LinesAt(vs, w.Pool()));
    BoundFacts(vs, t, h);
    PoolLine(vs, w.Pool(), t);
    PoolLine(vs, w.Pool(), h);
    PointerIsAPair(m, vs[h].ref, vs[t].ref);
    U.SameUnitIsAnEquivalence(m, vs[h].ref, vs[t].ref, vs[h].ref);
    U.ClosureIsClosed(m, seeds);
  }

  /** The two lines as they were, or both fallen; where the head is a line of another
      page, whatever became of the tail as long as the head is as it was. */
  ghost predicate Spared(vs: seq<Line>, ws: seq<Line>, w: Workspace, t: nat, h: nat)
    requires |ws| == |vs| && t < |vs| && h < |vs|
  {
    && SameLinks(vs[t], ws[t]) && SameLinks(vs[h], ws[h])
    && ((ws[t] == vs[t] && ws[h] == vs[h]) || (ws[t].status.Fallback? && ws[h].status.Fallback?) || (h !in w.lines && ws[h] == vs[h]))
  }

  lemma {:induction false} FallTogether(vs: seq<Line>, w: Workspace, t: nat, h: nat, seeds: set<LineRef>, reasons: map<LineRef, string>)
    requires DistinctRefs(vs) && Spots(vs, w.Pool()) && Bound(vs, t, h) && (h in w.lines ==> t in w.others) && (h in w.others ==> t in w.lines)
    requires reasons.Keys == U.Closure(ByRef(LinesAt(vs, w.Pool())), seeds)
    ensures t < |vs| && h < |vs| && Spared(vs, Fell(vs, InPool(vs, w, reasons)), w, t, h)
  {
    hide Bound, ByRef, U.Closure, Pointers, SameLinks;
    BoundFacts(vs, t, h);
    if h in w.Pool() { BothOrNeither(vs, w, t, h, seeds); }
    PoolRefs(vs, w.Pool());
    FellLinks(vs, InPool(vs, w, reasons), t);
    FellLinks(vs, InPool(vs, w, reasons), h);
  }

  lemma FellLinks(vs: seq<Line>, reasons: map<LineRef, string>, p: nat)
    requires p < |vs|
    ensures SameLinks(vs[p], Fell(vs, reasons)[p])
  {
  }

  lemma FellRef(vs: seq<Line>, reasons: map<LineRef, string>, p: nat)
    requires p < |vs|
    ensures Fell(vs, reasons)[p].ref == vs[p].ref && (vs[p].status.Fallback? ==> Fell(vs, reasons)[p].status.Fallback?)
  {
  }

  lemma {:induction false} SparedIsEven(vs: seq<Line>, ws: seq<Line>, w: Workspace, t: nat, h: nat)
    requires |ws| == |vs| && t < |vs| && h < |vs| && Spared(vs, ws, w, t, h) && Even(vs, w, t, h)
    requires ws[t].ref == vs[t].ref && (vs[t].status.Fallback? ==> ws[t].status.Fallback?)
    ensures Even(ws, w, t, h) && SameLinks(vs[t], ws[t]) && SameLinks(vs[h], ws[h])
  {
    hide Lookup, SameLinks;
  }

  // ----- a part of the page is planned again -----

  /** On its page the head's part finds no line for the head, nor the head for one. */
  lemma {:induction false} PartLeavesAlone(vs: seq<Line>, ps: seq<nat>, t: nat, h: nat, k: nat)
    requires Bound(vs, t, h) && Spots(vs, ps) && k < |ps| && ps[k] == h
    requires forall i | 0 <= i < |ps| :: vs[ps[i]].ref.page == vs[h].ref.page
    ensures L.LeftAlone(LinesAt(vs, ps), k)
  {
    WordPartners(vs, t, h);
    hide IndexById, ForwardPartner, BackwardPartner, Pointers, NoThird;
    var part := LinesAt(vs, ps);
    forall x: nat | x < |part| ensures NextAt(part, x) != Some(k) {
      PartnersArePointers(part[x]);
      assert part[x] == vs[ps[x]];
      assert NoneNamed(Pointers(vs[ps[x]]), vs[h].ref.line);
    }
  }

  lemma WordPartners(vs: seq<Line>, t: nat, h: nat)
    requires Bound(vs, t, h)
    ensures t < |vs| && h < |vs| && ForwardPartner(vs[h]).None?
  {
    hide OwnIds, NoThird;
  }

  /** Planning again leaves the head as it was, and the tail with no backward link. */
  lemma {:induction false} ReplannedKeeps(vs: seq<Line>, ws: seq<Line>, w: Workspace, cfg: Config, ps: seq<nat>, t: nat, h: nat)
    requires Bound(vs, t, h) && Located(vs, w) && Replanned(vs, ws, w, cfg, ps)
    ensures |ws| == |vs| && t < |vs| && h < |vs| && ws[h] == vs[h] && BackwardPartner(ws[t]).None? && (t !in w.lines ==> ws[t] == vs[t])
  {
    hide Pointers, L.LinePlan, BackwardPartner, OwnIds, NoThird;
    BoundFacts(vs, t, h);
    PlannedPlaces(vs, w, ps);
    hide Bound, Located;
    var part := LinesAt(vs, ps);
    if h in ps {
      var k :| 0 <= k < |ps| && ps[k] == h;
      PartLeavesAlone(vs, ps, t, h, k);
      L.PlanLeavesAlone(part, cfg, 0, k);
      assert LinesAt(ws, ps)[k] == ws[h];
    }
    if t in ps {
      var k :| 0 <= k < |ps| && ps[k] == t;
      assert part[k] == vs[t];
      L.PlanAddsNoBackward(part, cfg, 0, k);
      assert LinesAt(ws, ps)[k] == ws[t];
    }
  }

  lemma PlannedPlaces(vs: seq<Line>, w: Workspace, ps: seq<nat>)
    requires Located(vs, w) && Targets(w, ps) && Spots(vs, ps)
    ensures forall i | 0 <= i < |ps| :: ps[i] in w.lines && vs[ps[i]].ref.page == w.page
    ensures forall p | p in ps :: p in w.lines
  {
    forall i | 0 <= i < |ps| ensures ps[i] in w.lines { assert ps[i] in ps; }
  }

  // ----- a chunk falls -----

  /** No other target of the page has its bare id: on either page for the tail, on its
      own for the head. */
  lemma {:induction false} NoNamesake(vs: seq<Line>, w: Workspace, targets: seq<nat>, t: nat, h: nat)
    requires Bound(vs, t, h) && DistinctRefs(vs) && Located(vs, w) && Targets(w, targets)
    requires Spots(vs, targets) && Spots(vs, w.Pool()) && (t in w.lines || h in w.lines)
    ensures !Namesake(vs, w, targets, t) && (h in w.lines ==> !Namesake(vs, w, targets, h))
  {
    hide InTheirUnits, Pointers, BackwardPartner, NoThird, NoneNamed;
    forall k | 0 <= k < |targets| ensures vs[targets[k]].ref.page == w.page { assert targets[k] in targets; }
    if h in w.lines {
      assert forall k | 0 <= k < |targets| :: vs[targets[k]].ref.line != vs[t].ref.line;
      assert forall k | 0 <= k < |targets| && vs[targets[k]].ref.line == vs[h].ref.line :: targets[k] == h;
    } else {
      assert forall k | 0 <= k < |targets| && vs[targets[k]].ref.line == vs[t].ref.line :: targets[k] == t;
    }
  }

  lemma {:induction false} FailingSpares(vs: seq<Line>, ws: seq<Line>, w: Workspace, targets: seq<nat>, reason: string, t: nat, h: nat)
    requires Bound(vs, t, h) && (t in w.lines || h in w.lines) && (h in w.lines ==> t in w.others) && (h in w.others ==> t in w.lines)
    requires DistinctRefs(vs) && Located(vs, w) && Targets(w, targets) && Spots(vs, targets) && Spots(vs, w.Pool())
    requires ChunkFell(vs, ws, w, targets, reason)
    ensures |ws| == |vs| && t < |vs| && h < |vs| && Spared(vs, ws, w, t, h)
  {
    hide Bound, Namesake, ByRef, U.Closure, ChunkFell, Located, SameLinks, DistinctRefs, Targets;
    BoundFacts(vs, t, h);
    NoNamesake(vs, w, targets, t, h);
    FallenLinks(vs, ws, w, targets, reason, t);
    FallenLinks(vs, ws, w, targets, reason, h);
    if h in w.Pool() && InTheirUnits(vs, w, targets, h) {
      BothOrNeither(vs, w, t, h, RefsAt(vs, targets));
      MemberAfterTheFall(vs, ws, w, targets, reason, t);
      MemberAfterTheFall(vs, ws, w, targets, reason, h);
    } else {
      OthersAfterTheFall(vs, ws, w, targets, reason, h);
      if h in w.Pool() {
        BothOrNeither(vs, w, t, h, RefsAt(vs, targets));
        OthersAfterTheFall(vs, ws, w, targets, reason, t);
      }
    }
  }

  lemma {:induction false} FallenLinks(vs: seq<Line>, ws: seq<Line>, w: Workspace, targets: seq<nat>, reason: string, p: nat)
    requires Spots(vs, targets) && Spots(vs, w.Pool()) && ChunkFell(vs, ws, w, targets, reason) && p < |vs|
    ensures |ws| == |vs| && SameLinks(vs[p], ws[p])
  {
    hide InPool, DraggedDown, FallenBack, SameLinks;
    var us := FallenAt(vs, targets, reason);
    var named := InPool(us, w, DraggedDown(us, w, targets));
    FellKeepsLinks(vs[p], reason);
    FellKeepsLinks(us[p], if us[p].ref in named then named[us[p].ref] else "");
    LinksThrough(vs[p], us[p], ws[p]);
  }

  lemma LinksThrough(a: Line, b: Line, c: Line)
    ensures SameLinks(a, b) && SameLinks(b, c) ==> SameLinks(a, c)
  {
  }

  /** A line outside the targets' units is as it was. */
  lemma {:induction false} OthersAfterTheFall(vs: seq<Line>, ws: seq<Line>, w: Workspace, targets: seq<nat>, reason: string, p: nat)
    requires DistinctRefs(vs) && Located(vs, w) && Targets(w, targets) && Spots(vs, targets) && Spots(vs, w.Pool()) && ChunkFell(vs, ws, w, targets, reason)
    requires p < |vs| && !InTheirUnits(vs, w, targets, p)
    ensures |ws| == |vs| && ws[p] == vs[p]
  {
    hide ByRef, U.Closure, FallenBack, Located, DraggedDown, Fell, FallenAt;
    NoTarget(vs, w, targets, p);
    NotDragged(vs, w, targets, reason, p);
  }

  lemma {:induction false} NoTarget(vs: seq<Line>, w: Workspace, targets: seq<nat>, p: nat)
    requires Located(vs, w) && Targets(w, targets) && Spots(vs, targets) && Spots(vs, w.Pool())
    requires p < |vs| && !InTheirUnits(vs, w, targets, p)
    ensures p !in targets
  {
    hide ByRef, U.Closure, Located;
    U.ClosureIsExtensive(ByRef(LinesAt(vs, w.Pool())), RefsAt(vs, targets));
    TargetRefs(vs, targets);
  }

  lemma {:induction false} NotDragged(vs: seq<Line>, w: Workspace, targets: seq<nat>, reason: string, p: nat)
    requires DistinctRefs(vs) && Spots(vs, targets) && Spots(vs, w.Pool()) && p < |vs| && !InTheirUnits(vs, w, targets, p)
    ensures var us := FallenAt(vs, targets, reason);
      && Spots(us, targets) && Spots(us, w.Pool()) && us[p].ref == vs[p].ref && us[p].ref !in InPool(us, w, DraggedDown(us, w, targets))
  {
    hide ByRef, U.Closure;
    var us := FallenAt(vs, targets, reason);
    SameUnitsAfterTheFall(vs, w, targets, reason);
    assert forall k | 0 <= k < |us| :: us[k].ref == vs[k].ref;
    PoolRefs(us, w.Pool());
  }

  lemma TargetRefs(vs: seq<Line>, targets: seq<nat>)
    requires Spots(vs, targets)
    ensures forall p | p in targets :: p < |vs| && vs[p].ref in RefsAt(vs, targets)
  {
  }

  // ----- a chunk is answered: the walk -----

  /** The only join a chunk can claim at either line is the word's own, and the chunk of
      the head claims it. */
  lemma {:induction false} ClaimOfWord(vs: seq<Line>, w: Workspace, targets: seq<nat>, j: Join, t: nat, h: nat)
    requires Bound(vs, t, h) && DistinctRefs(vs) && Located(vs, w) && Spots(vs, targets) && Claims(vs, w, targets, j)
    requires j.tail == t || j.head == t || j.tail == h || j.head == h
    ensures j.tail == t && j.head == h && h in targets
  {
    var k :| 0 <= k < |targets| && (OutClaim(vs, w, targets[k]) == Some(j) || InClaim(vs, w, targets[k]) == Some(j));
    assert targets[k] in targets;
    ClaimInRange(vs, w, targets, k, j);
    OneClaimIsALink(vs, w, targets[k], j);
    WordEnds(vs, j, t, h);
    hide Bound, Lookup, Pointers, Located;
    BoundFacts(vs, t, h);
    WordPartners(vs, t, h);
    LookupFinds(vs, w, ForwardPartner(vs[targets[k]]));
    LookupFinds(vs, w, BackwardPartner(vs[targets[k]]));
  }

  /** A link with one end on the word is the word. */
  lemma WordEnds(vs: seq<Line>, j: Join, t: nat, h: nat)
    requires Bound(vs, t, h) && DistinctRefs(vs) && j.tail < |vs| && j.head < |vs|
    requires vs[j.head].ref in Pointers(vs[j.tail]) || vs[j.tail].ref in Pointers(vs[j.head])
    requires j.tail == t || j.head == t || j.tail == h || j.head == h
    ensures (j.tail == t && j.head == h) || (j.tail == h && j.head == t)
  {
    hide Pointers, OwnIds, ForwardPartner, BackwardPartner;
  }

  ghost predicate Touches(j: Join, t: nat, h: nat) {
    j.tail == t || j.head == t || j.tail == h || j.head == h
  }

  /** Every join of the walk that touches the word is the word's own. */
  ghost predicate OnlyTheirs(order: seq<Join>, t: nat, h: nat) {
    forall k | 0 <= k < |order| && Touches(order[k], t, h) :: order[k].tail == t && order[k].head == h
  }

  ghost predicate Met(order: seq<Join>, h: nat) {
    exists k :: 0 <= k < |order| && order[k].head == h
  }

  /** A walk makes of the word what deciding the pair does, and nothing if it does not
      come to it. */
  lemma {:induction false} WalkSettles(vs: seq<Line>, order: seq<Join>, texts: map<string, string>, judge: Judge, t: nat, h: nat)
    requires AllSound(vs) && InRange(|vs|, order) && OnlyTheirs(order, t, h) && t < |vs| && h < |vs| && t != h
    ensures var us := ReconcileAll(vs, order, texts, judge);
      && SameLinks(vs[t], us[t]) && SameLinks(vs[h], us[h])
      && if Met(order, h) then !us[t].status.Pending? && !us[h].status.Pending? && (us[t].status.Fallback? <==> us[h].status.Fallback?)
         else us[t] == vs[t] && us[h] == vs[h]
  {
    hide Decided, ReconcileAll, Sound, SameLinks, Touches;
    if order == [] {
      A.ReconcileNone(vs, texts, judge);
      FellKeepsLinks(vs[t], "");
      FellKeepsLinks(vs[h], "");
    } else {
      var n := |order| - 1;
      var front, j := order[..n], order[n];
      assert order == front + [j];
      OnlyTheirsSplits(front, j, t, h);
      MetSplits(front, j, h);
      WalkSettles(vs, front, texts, judge, t, h);
      var before := ReconcileAll(vs, front, texts, judge);
      ReconcileAllKeeps(vs, front, texts, judge);
      assert Reconciled(vs[j.tail], before[j.tail], IsEnd(front, j.tail)) && Reconciled(vs[j.head], before[j.head], IsEnd(front, j.head));
      PairIsDecidedAsOne(before[j.tail], before[j.head], texts, judge, j.forward);
      LastStep(vs, order, texts, judge);
      var us := ReconcileAll(vs, order, texts, judge);
      LinksThrough(vs[t], before[t], us[t]);
      LinksThrough(vs[h], before[h], us[h]);
      FellKeepsLinks(before[t], "");
      FellKeepsLinks(before[h], "");
    }
  }

  lemma OnlyTheirsSplits(front: seq<Join>, j: Join, t: nat, h: nat)
    requires OnlyTheirs(front + [j], t, h)
    ensures OnlyTheirs(front, t, h)
    ensures (j.tail == t && j.head == h) || (j.tail != t && j.head != t && j.tail != h && j.head != h)
  {
    var order := front + [j];
    assert order[|front|] == j && forall k | 0 <= k < |front| :: order[k] == front[k];
  }

  lemma MetSplits(front: seq<Join>, j: Join, h: nat)
    ensures Met(front + [j], h) <==> Met(front, h) || j.head == h
  {
    var order := front + [j];
    assert order[|front|] == j && forall k | 0 <= k < |front| :: order[k] == front[k];
    if Met(front, h) { var k :| 0 <= k < |front| && front[k].head == h; assert order[k].head == h; }
  }

  lemma {:induction false} WalkIsTheirs(vs: seq<Line>, w: Workspace, targets: seq<nat>, joins: map<LineRef, Join>, order: seq<Join>, t: nat, h: nat)
    requires Bound(vs, t, h) && DistinctRefs(vs) && Located(vs, w) && Spots(vs, targets) && ChunkWalk(vs, w, targets, joins, order)
    ensures InRange(|vs|, order) && OnlyTheirs(order, t, h) && (h !in targets ==> !Met(order, h))
  {
    hide Bound, Located, ChunkWalk, Claims;
    A.WalkInRange(vs, w, targets, joins, order);
    forall k | 0 <= k < |order| && Touches(order[k], t, h) ensures order[k].tail == t && order[k].head == h && h in targets {
      A.WalkIsOfClaims(vs, w, targets, joins, order, k);
      ClaimOfWord(vs, w, targets, order[k], t, h);
    }
  }

  /** The chunk of the head comes to the word. */
  lemma {:induction false} HeadIsMet(vs: seq<Line>, w: Workspace, targets: seq<nat>, joins: map<LineRef, Join>, order: seq<Join>, t: nat, h: nat)
    requires Bound(vs, t, h) && DistinctRefs(vs) && Located(vs, w) && Spots(vs, targets) && ChunkWalk(vs, w, targets, joins, order)
    requires h in targets && t < |vs| && Lookup(w, Some(vs[t].ref)) == Some(t)
    ensures Met(order, h)
  {
    hide Bound, Located, Lookup, ForwardPartner, BackwardPartner, Claims, WalkedAll, WalksClaims;
    BoundFacts(vs, t, h);
    var i :| 0 <= i < |targets| && targets[i] == h;
    assert InClaim(vs, w, h) == Some(Join(t, h, vs[t].role.Both?));
    assert Held(joins, vs, InClaim(vs, w, targets[i]));
    ClaimOfWord(vs, w, targets, joins[vs[t].ref], t, h);
    var k := A.HeadIsWalked(vs, w, targets, joins, order, vs[t].ref);
  }

  // ----- a chunk is answered: the judging -----

  lemma {:induction false} JudgingKeepsLinks(us: seq<Line>, w: Workspace, targets: seq<nat>, texts: map<string, string>, guards: Guards, p: nat)
    requires p < |us|
    ensures SameLinks(us[p], JudgedAll(us, w, targets, texts, guards)[p])
  {
    hide Judged, SameLinks;
    FellKeepsLinks(us[p], "");
    if targets != [] {
      var front, q := targets[..|targets| - 1], targets[|targets| - 1];
      JudgingKeepsLinks(us, w, front, texts, guards, p);
      var before := JudgedAll(us, w, front, texts, guards);
      if q == p && before[p].ref.line in texts {
        JudgedLinks(before, w, before[p], texts[before[p].ref.line], guards);
        LinksThrough(us[p], before[p], Judged(before, w, before[p], texts[before[p].ref.line], guards));
      }
    }
  }

  lemma JudgedLinks(vs: seq<Line>, w: Workspace, l: Line, text: string, guards: Guards)
    ensures SameLinks(l, Judged(vs, w, l, text, guards))
  {
    hide DropsItsBreak, PartnerFell, OrRejected, FallenBack, Accepted, SameLinks;
    VerbsKeepLinks(l);
  }

  lemma VerbsKeepLinks(l: Line)
    ensures forall reason: string :: SameLinks(l, FallenBack(l, reason))
    ensures forall text: string :: SameLinks(l, Accepted(l, text))
  {
  }

  /** Even before its reverts the answer leaves the word even. */
  lemma {:induction false} JudgedIsEven(vs: seq<Line>, w: Workspace, targets: seq<nat>, texts: map<string, string>, guards: Guards,
                                        joins: map<LineRef, Join>, order: seq<Join>, t: nat, h: nat)
    requires Kept(vs, w, t, h) && Ready(vs, w) && Targets(w, targets) && Located(vs, w) && Spots(vs, targets) && ChunkWalk(vs, w, targets, joins, order)
    ensures InRange(|vs|, order) && t < |vs| && h < |vs|
    ensures var js := JudgedAll(ReconcileAll(vs, order, texts, guards.judge), w, targets, texts, guards);
      Even(js, w, t, h) && SameLinks(vs[t], js[t]) && SameLinks(vs[h], js[h])
  {
    hide Bound, Located, ChunkWalk, NoSelfLinks, ReconcileAll, JudgedAll, SameLinks, Lookup, Sound, Targets;
    BoundFacts(vs, t, h);
    WalkIsTheirs(vs, w, targets, joins, order, t, h);
    WalkSettles(vs, order, texts, guards.judge, t, h);
    var us := ReconcileAll(vs, order, texts, guards.judge);
    var js := JudgedAll(us, w, targets, texts, guards);
    ReconcileAllKeeps(vs, order, texts, guards.judge);
    assert Reconciled(vs[t], us[t], IsEnd(order, t)) && Reconciled(vs[h], us[h], IsEnd(order, h));
    JudgingKeepsLinks(us, w, targets, texts, guards, t);
    JudgingKeepsLinks(us, w, targets, texts, guards, h);
    LinksThrough(vs[t], us[t], js[t]);
    LinksThrough(vs[h], us[h], js[h]);
    A.JudgingKeeps(us, w, targets, texts, guards, t);
    A.JudgingKeeps(us, w, targets, texts, guards, h);
    SoundFacts(us[t]);
    SoundFacts(us[h]);
    LentIsNoTarget(vs, w, targets, t, h);
    if AtHead(vs, w, t, h) && h in targets { HeadIsMet(vs, w, targets, joins, order, t, h); }
  }

  lemma SoundFacts(l: Line)
    requires Sound(l)
    ensures l.status.Pending? <==> l.corrected.None?
  {
  }

  lemma LentIsNoTarget(vs: seq<Line>, w: Workspace, targets: seq<nat>, t: nat, h: nat)
    requires Located(vs, w) && Targets(w, targets)
    ensures h !in w.lines ==> h !in targets
    ensures (h in w.others ==> h !in targets && h !in w.lines) && (t in w.others ==> t !in targets && t !in w.lines)
  {
  }

  /** The lines a walk and the judging leave are in a run's state. */
  lemma {:induction false} JudgedIsReady(vs: seq<Line>, w: Workspace, targets: seq<nat>, texts: map<string, string>, guards: Guards, order: seq<Join>)
    requires Ready(vs, w) && Targets(w, targets) && InRange(|vs|, order)
    ensures var js := JudgedAll(ReconcileAll(vs, order, texts, guards.judge), w, targets, texts, guards);
      Ready(js, w) && Evolved(vs, js)
  {
    hide Located, NoSelfLinks, ReconcileAll, JudgedAll, Sound, Evolves, SameLinks, Targets, DistinctRefs;
    var us := ReconcileAll(vs, order, texts, guards.judge);
    ReconcileAllKeeps(vs, order, texts, guards.judge);
    forall k | 0 <= k < |vs| ensures Evolves(vs[k], us[k]) && Sound(us[k]) { assert Reconciled(vs[k], us[k], IsEnd(order, k)); }
    StepKeepsPlaces(vs, us, w);
    JudgingIsAPageStep(us, w, targets, texts, guards);
    var js := JudgedAll(us, w, targets, texts, guards);
    StepKeepsReady(us, js, w);
    EvolvedTransitive(vs, us, js);
  }

  lemma KeptFacts(vs: seq<Line>, w: Workspace, t: nat, h: nat)
    requires Kept(vs, w, t, h) && Located(vs, w)
    ensures Bound(vs, t, h) && t < |vs| && h < |vs| && Even(vs, w, t, h)
    ensures (t in w.lines || h in w.lines) && (h in w.lines ==> t in w.others && t !in w.lines) && (h in w.others ==> t in w.lines)
  {
    hide Lookup;
    BoundFacts(vs, t, h);
  }

  /** An answered chunk keeps the word. */
  lemma {:induction false} FinishedKeeps(vs: seq<Line>, ws: seq<Line>, w: Workspace, targets: seq<nat>, texts: map<string, string>,
                                         guards: Guards, t: nat, h: nat)
    requires Kept(vs, w, t, h) && Ready(vs, w) && Targets(w, targets) && Located(vs, w) && Spots(vs, targets) && Spots(vs, w.Pool())
    requires Finished(vs, ws, w, targets, texts, guards)
    ensures |ws| == |vs| && t < |vs| && h < |vs| && Even(ws, w, t, h) && SameLinks(vs[t], ws[t]) && SameLinks(vs[h], ws[h])
  {
    hide Bound, Even, Ready, Located, Targets, ChunkWalk, ReconcileAll, JudgedAll, Detaches, V.Pulls, SameLinks, Fell, InPool, Spared, ByRef, Evolves;
    var joins, order, reverts, all :| FinishedBy(vs, ws, w, targets, texts, guards, joins, order, reverts, all);
    JudgedIsEven(vs, w, targets, texts, guards, joins, order, t, h);
    JudgedIsReady(vs, w, targets, texts, guards, order);
    var js := JudgedAll(ReconcileAll(vs, order, texts, guards.judge), w, targets, texts, guards);
    BoundFacts(vs, t, h);
    LinkedStays(vs, js, t, h);
    RevertsKeep(js, ws, w, reverts, all, t, h);
    LinksThrough(vs[t], js[t], ws[t]);
    LinksThrough(vs[h], js[h], ws[h]);
  }

  lemma {:induction false} RevertsKeep(js: seq<Line>, ws: seq<Line>, w: Workspace, reverts: map<LineRef, string>, all: map<LineRef, string>,
                                       t: nat, h: nat)
    requires Ready(js, w) && Spots(js, w.Pool()) && Bound(js, t, h) && t < |js| && h < |js| && Even(js, w, t, h)
    requires V.Pulls(ByRef(LinesAt(js, w.Pool())), reverts, UNIT, all) && ws == Fell(js, InPool(js, w, all))
    ensures |ws| == |js| && Even(ws, w, t, h) && SameLinks(js[t], ws[t]) && SameLinks(js[h], ws[h])
  {
    hide Bound, Located, NoSelfLinks, AllSound, SameLinks, Spared, ByRef, U.Closure, Even, FallenBack;
    KeptFacts(js, w, t, h);
    FallTogether(js, w, t, h, reverts.Keys, all);
    FellRef(js, InPool(js, w, all), t);
    SparedIsEven(js, ws, w, t, h);
  }

  /** The lines put back for a refused pair are not the head, on the head's page. */
  lemma {:induction false} NeutralisedKeeps(vs: seq<Line>, w: Workspace, lines: seq<nat>, neutralised: set<string>, t: nat, h: nat)
    requires t < |vs| && h < |vs| && Located(vs, w) && Even(vs, w, t, h) && (forall p | p in lines :: p in w.lines)
    requires h in w.lines ==> vs[h].ref.line !in neutralised
    ensures var ws := NeutralisedAt(vs, lines, neutralised);
      Even(ws, w, t, h) && SameLinks(vs[t], ws[t]) && SameLinks(vs[h], ws[h])
  {
    hide Lookup, SameLinks;
    var ws := NeutralisedAt(vs, lines, neutralised);
    FellKeepsLinks(vs[t], DRIFT);
    FellKeepsLinks(vs[h], DRIFT);
    assert ws[t].ref == vs[t].ref;
    LentIsNoTarget(vs, w, [], t, h);
  }

  // ----- whatever happens -----

  /** The pair check of the page never names the line of that id. */
  ghost predicate Unnamed(env: Env, sources: map<LineRef, string>, r: LineRef) {
    forall sent | KnowsSources(sent, r.page, sources) :: !Names(env.check(sent), r.line)
  }

  lemma {:induction false} AnsweringKeeps(vs: seq<Line>, ws: seq<Line>, w: Workspace, env: Env, c: Chunk, texts: map<string, string>,
                                          neutralised: set<string>, sources: map<LineRef, string>, t: nat, h: nat)
    requires Kept(vs, w, t, h) && Ready(vs, w) && SourcesOf(vs, sources) && t < |vs| && h < |vs| && Unnamed(env, sources, vs[h].ref)
    requires Happens(vs, ws, w, env, Answering(c, texts, neutralised))
    ensures |ws| == |vs| && Even(ws, w, t, h) && SameLinks(vs[t], ws[t]) && SameLinks(vs[h], ws[h])
  {
    hide Bound, Even, Finished, TargetLines, SentOf, SourcesOf, SameLinks, KnowsSources, NoSelfLinks, AllSound, DistinctRefs, PageStep, Names, Evolves;
    var us :| Finished(vs, us, w, TargetLines(c), texts, env.guards) && ws == NeutralisedAt(us, c.lines, neutralised);
    TargetLinesFacts(w, c);
    FinishedKeeps(vs, us, w, TargetLines(c), texts, env.guards, t, h);
    SentIsValid(vs, w, c, sources);
    if h in w.lines { HeadIsUnnamed(vs, w, env, c, neutralised, sources, h); }
    FinishedPlaces(vs, us, ws, w, TargetLines(c), texts, env.guards, c.lines, neutralised);
    hide Located;
    NeutralisedKeeps(us, w, c.lines, neutralised, t, h);
    LinksThrough(vs[t], us[t], ws[t]);
    LinksThrough(vs[h], us[h], ws[h]);
  }

  lemma HeadIsUnnamed(vs: seq<Line>, w: Workspace, env: Env, c: Chunk, neutralised: set<string>, sources: map<LineRef, string>, h: nat)
    requires Located(vs, w) && h in w.lines && h < |vs| && Unnamed(env, sources, vs[h].ref)
    requires Spots(vs, c.lines) && Spots(vs, TargetLines(c)) && KnowsSources(SentOf(vs, w, c), w.page, sources)
    requires forall id | id in neutralised :: Names(env.check(SentOf(vs, w, c)), id)
    ensures vs[h].ref.line !in neutralised
  {
    hide SentOf, TargetLines, KnowsSources, Names;
    assert vs[h].ref.page == w.page;
  }

  lemma {:induction false} FinishedPlaces(vs: seq<Line>, us: seq<Line>, ws: seq<Line>, w: Workspace, targets: seq<nat>, texts: map<string, string>,
                                          guards: Guards, lines: seq<nat>, neutralised: set<string>)
    requires Ready(vs, w) && Targets(w, targets) && Located(vs, w) && Spots(vs, targets) && Spots(vs, w.Pool())
    requires Finished(vs, us, w, targets, texts, guards)
    ensures |us| == |vs| && Located(us, w) && forall p | 0 <= p < |vs| :: us[p].ref == vs[p].ref
  {
    hide Ready, Located, Targets, ReconcileAll, JudgedAll, Detaches, V.Pulls, Fell, InPool, ByRef, WalkedAll, WalksClaims, Claims, Held;
    var joins, order, reverts, all :| FinishedBy(vs, us, w, targets, texts, guards, joins, order, reverts, all);
    JudgedIsReady(vs, w, targets, texts, guards, order);
    var js := JudgedAll(ReconcileAll(vs, order, texts, guards.judge), w, targets, texts, guards);
    forall p | 0 <= p < |vs| ensures us[p].ref == vs[p].ref {
      FellRef(js, InPool(js, w, all), p);
      SameRef(vs, js, p);
    }
    SameRefsSamePlaces(vs, us, w);
  }

  lemma SameRefsSamePlaces(vs: seq<Line>, ws: seq<Line>, w: Workspace)
    requires Located(vs, w) && |ws| == |vs| && forall p | 0 <= p < |vs| :: ws[p].ref == vs[p].ref
    ensures Located(ws, w)
  {
  }

  /** Whatever happens on either of its two pages, the word stays one, and even. */
  lemma {:induction false} EventKeeps(vs: seq<Line>, ws: seq<Line>, w: Workspace, env: Env, event: Event, sources: map<LineRef, string>, t: nat, h: nat)
    requires Kept(vs, w, t, h) && Ready(vs, w) && SourcesOf(vs, sources) && t < |vs| && h < |vs| && Unnamed(env, sources, vs[h].ref)
    requires Happens(vs, ws, w, env, event)
    ensures Kept(ws, w, t, h) && ws[h].ref == vs[h].ref
  {
    hide Bound, Even, Located, NoSelfLinks, AllSound, Unnamed, SourcesOf, Replanned, FinishedThen, ChunkFell, Targets, SameLinks, ByRef, U.Closure,
         ChunkIn, Runnable, SentOf, Fell, Evolves, InPool, AllFor, FallenBack, Spared, AtTail, AtHead;
    KeptFacts(vs, w, t, h);
    BoundFacts(vs, t, h);
    FallStays(vs, ws, w, t);
    match event {
    case Planned(ps) =>
      ReplannedKeeps(vs, ws, w, env.cfg, ps, t, h);
      PlannedIsEven(vs, ws, w, t, h);
      BoundStays(vs, ws, t, h);
    case Confirming =>
      ConfirmedIsSpared(vs, ws, w, env, t, h);
      SparedIsEven(vs, ws, w, t, h);
      LinkedStays(vs, ws, t, h);
    case Answering(c, texts, neutralised) =>
      AnsweringKeeps(vs, ws, w, env, c, texts, neutralised, sources, t, h);
      LinkedStays(vs, ws, t, h);
    case Failing(targets) =>
      FailingSpares(vs, ws, w, targets, EXHAUSTED, t, h);
      SparedIsEven(vs, ws, w, t, h);
      LinkedStays(vs, ws, t, h);
    case Absorbing(undecided) =>
      FallTogether(vs, w, t, h, RefsAt(vs, undecided), AllFor(U.Closure(ByRef(LinesAt(vs, w.Pool())), RefsAt(vs, undecided)), ABSORBED));
      SparedIsEven(vs, ws, w, t, h);
      LinkedStays(vs, ws, t, h);
    }
  }

  lemma FallStays(vs: seq<Line>, ws: seq<Line>, w: Workspace, p: nat)
    requires PageStep(vs, ws, w) && p < |vs|
    ensures Evolved(vs, ws) && ws[p].ref == vs[p].ref && (vs[p].status.Fallback? ==> ws[p].status.Fallback?)
  {
    assert Evolves(vs[p], ws[p]);
  }

  /** A line is confirmed only if no word joins it to another; a tail that lost its link
      may be, and then the head is as it was. */
  lemma ConfirmedIsSpared(vs: seq<Line>, ws: seq<Line>, w: Workspace, env: Env, t: nat, h: nat)
    requires Happens(vs, ws, w, env, Confirming) && Bound(vs, t, h) && t < |vs| && h < |vs| && (h in w.lines ==> t !in w.lines)
    ensures Spared(vs, ws, w, t, h)
  {
    hide Bound, Evolves, Accepted, SameLinks;
    BoundFacts(vs, t, h);
    VerbsKeepLinks(vs[t]);
    FellKeepsLinks(vs[t], "");
    FellKeepsLinks(vs[h], "");
  }

  lemma PlannedIsEven(vs: seq<Line>, ws: seq<Line>, w: Workspace, t: nat, h: nat)
    requires |ws| == |vs| && t < |vs| && h < |vs| && Even(vs, w, t, h) && ws[h] == vs[h] && ws[t].ref == vs[t].ref
    requires (t !in w.lines ==> ws[t] == vs[t]) && (vs[t].status.Fallback? ==> ws[t].status.Fallback?)
    requires h in w.lines ==> t !in w.lines
    ensures Even(ws, w, t, h) && SameLinks(vs[h], ws[h])
  {
    hide Lookup;
  }

  lemma {:induction false} TraceKeeps(states: seq<seq<Line>>, events: seq<Event>, vs: seq<Line>, ws: seq<Line>, w: Workspace, env: Env,
                                      sources: map<LineRef, string>, t: nat, h: nat, k: nat)
    requires Kept(vs, w, t, h) && Ready(vs, w) && SourcesOf(vs, sources) && h < |vs| && Unnamed(env, sources, vs[h].ref)
    requires Trace(states, events, vs, ws, w, env) && k <= |events|
    ensures h < |states[k]| && states[k][h].ref == vs[h].ref
    ensures Kept(states[k], w, t, h) && Ready(states[k], w) && SourcesOf(states[k], sources)
  {
    hide Kept, Ready, SourcesOf, Unnamed, Happens;
    if k > 0 {
      TraceKeeps(states, events, vs, ws, w, env, sources, t, h, k - 1);
      EventIsAStep(states[k - 1], states[k], w, env, events[k - 1], sources);
      KeptInRange(states[k - 1], w, t, h);
      EventKeeps(states[k - 1], states[k], w, env, events[k - 1], sources, t, h);
      KeptInRange(states[k], w, t, h);
    }
  }

  lemma KeptInRange(vs: seq<Line>, w: Workspace, t: nat, h: nat)
    requires Kept(vs, w, t, h)
    ensures t < |vs| && h < |vs|
  {
  }

  lemma {:induction false} EventIsAStep(vs: seq<Line>, ws: seq<Line>, w: Workspace, env: Env, event: Event, sources: map<LineRef, string>)
    requires Happens(vs, ws, w, env, event) && Ready(vs, w) && SourcesOf(vs, sources)
    ensures Ready(ws, w) && SourcesOf(ws, sources)
  {
    hide Ready, Sound, SameLinks, Replanned, FinishedThen, ChunkFell, Reach;
    StepKeepsReady(vs, ws, w);
    forall k | 0 <= k < |ws| ensures ws[k].ref in sources && sources[ws[k].ref] == ws[k].ocr { assert Evolves(vs[k], ws[k]); }
  }

  /** However a page of the word is processed, the word stays even. */
  lemma {:induction false} StepsKeep(vs: seq<Line>, ws: seq<Line>, w: Workspace, env: Env, sources: map<LineRef, string>, t: nat, h: nat)
    requires Kept(vs, w, t, h) && Ready(vs, w) && SourcesOf(vs, sources) && h < |vs| && Unnamed(env, sources, vs[h].ref)
    requires Steps(vs, ws, w, env)
    ensures Kept(ws, w, t, h)
  {
    hide Kept, Ready, SourcesOf, Unnamed, Happens;
    var states, events :| Trace(states, events, vs, ws, w, env);
    TraceKeeps(states, events, vs, ws, w, env, sources, t, h, |events|);
  }
}

/** `reconcile.py`: the joins a chunk owns, and deciding a hyphenated pair as one. */
module Reconcile {
  import opened Prelude
  import opened Manifest
  import opened Decide
  import U = Units

  /** The run's two lookup scopes for a page (`workspace.py`): its own lines, by
      bare id, and the cross-page partners it was given, by reference. */
  datatype Workspace = Workspace(page: string, lines: seq<nat>, byId: map<string, nat>, others: seq<nat>, partners: map<LineRef, nat>) {
    function Pool(): seq<nat> { lines + others }
  }

  ghost predicate Located(vs: seq<Line>, w: Workspace) {
    && Distinct(w.lines) && Distinct(w.others)
    && (forall p | p in w.lines :: p < |vs| && vs[p].ref.page == w.page && vs[p].ref.line in w.byId && w.byId[vs[p].ref.line] == p)
    && (forall id | id in w.byId :: w.byId[id] in w.lines && w.byId[id] < |vs| && vs[w.byId[id]].ref == LineRef(w.page, id))
    && (forall p | p in w.others :: p < |vs| && vs[p].ref.page != w.page)
    && (forall r | r in w.partners :: w.partners[r] in w.others && w.partners[r] < |vs| && vs[w.partners[r]].ref == r && r.page != w.page)
  }

  /** `_lookup_ref`: on the page by bare id, off it by reference. */
  function Lookup(w: Workspace, r: Option<LineRef>): Option<nat> {
    if r.None? then None
    else if r.value.page == w.page then if r.value.line in w.byId then Some(w.byId[r.value.line]) else None
    else if r.value in w.partners then Some(w.partners[r.value]) else None
  }

  // ----- which joins a chunk owns -----

  /** The word on `tail` continues onto `head`; `forward` says through which slot. */
  datatype Join = Join(tail: nat, head: nat, forward: bool)

  /** An outgoing join that stays on the page. */
  function OutClaim(vs: seq<Line>, w: Workspace, p: nat): (found: Option<Join>)
    requires p < |vs|
    ensures found.Some? ==> found.value.tail < |vs|
  {
    var out := ForwardPartner(vs[p]);
    if out.Some? && out.value.page == vs[p].ref.page && Lookup(w, out).Some?
    then Some(Join(p, Lookup(w, out).value, vs[p].role.Both?)) else None
  }

  /** An incoming join that crosses the page break. */
  function InClaim(vs: seq<Line>, w: Workspace, p: nat): (found: Option<Join>)
    requires Located(vs, w) && p < |vs|
    ensures found.Some? ==> found.value.tail < |vs|
  {
    var back := BackwardPartner(vs[p]);
    if back.Some? && back.value.page != vs[p].ref.page && Lookup(w, back).Some?
    then Some(Join(Lookup(w, back).value, p, vs[Lookup(w, back).value].role.Both?)) else None
  }

  ghost predicate Claims(vs: seq<Line>, w: Workspace, targets: seq<nat>, j: Join)
    requires Located(vs, w) && Spots(vs, targets)
  {
    exists k :: 0 <= k < |targets| && (OutClaim(vs, w, targets[k]) == Some(j) || InClaim(vs, w, targets[k]) == Some(j))
  }

  /** Every join is owned by one side: on a page by the chunk that owns its tail,
      across pages by the chunk that owns its head. Only the pointer that side reads
      has to be there. */
  lemma {:induction false} JoinIsOwnedByOneSide(vs: seq<Line>, w: Workspace, targets: seq<nat>, t: nat, h: nat)
    requires DistinctRefs(vs) && Located(vs, w) && Spots(vs, targets) && t < |vs| && h < |vs|
    requires if vs[t].ref.page == vs[h].ref.page then ForwardPartner(vs[t]) == Some(vs[h].ref)
             else BackwardPartner(vs[h]) == Some(vs[t].ref)
    requires Lookup(w, Some(vs[t].ref)) == Some(t) && Lookup(w, Some(vs[h].ref)) == Some(h)
    ensures Claims(vs, w, targets, Join(t, h, vs[t].role.Both?)) <==>
      if vs[t].ref.page == vs[h].ref.page then t in targets else h in targets
  {
    hide ForwardPartner, BackwardPartner, Lookup;
    var j := Join(t, h, vs[t].role.Both?);
    if Claims(vs, w, targets, j) {
      var k :| 0 <= k < |targets| && (OutClaim(vs, w, targets[k]) == Some(j) || InClaim(vs, w, targets[k]) == Some(j));
      assert targets[k] in targets;
      LookupFinds(vs, w, ForwardPartner(vs[targets[k]]));
      LookupFinds(vs, w, BackwardPartner(vs[targets[k]]));
    }
    if vs[t].ref.page == vs[h].ref.page && t in targets {
      var k :| 0 <= k < |targets| && targets[k] == t;
      assert OutClaim(vs, w, t) == Some(j);
    }
    if vs[t].ref.page != vs[h].ref.page && h in targets {
      var k :| 0 <= k < |targets| && targets[k] == h;
      assert InClaim(vs, w, h) == Some(j);
    }
  }

  function Added(pool: seq<nat>, p: nat): (r: seq<nat>)
    ensures forall x :: x in r <==> x in pool || x == p
    ensures Distinct(pool) ==> Distinct(r)
  {
    if p in pool then pool else pool + [p]
  }

  /** What a claim adds: the join, under its tail, and both its ends to the pool. */
  function Claimed(vs: seq<Line>, joins: map<LineRef, Join>, pool: seq<nat>, found: Option<Join>): (map<LineRef, Join>, seq<nat>)
    requires found.Some? ==> found.value.tail < |vs|
  {
    if found.None? then (joins, pool)
    else (joins[vs[found.value.tail].ref := found.value], Added(Added(pool, found.value.tail), found.value.head))
  }

  /** The joins the first `k` targets claim, and the pool they live in. */
  ghost function ClaimsOf(vs: seq<Line>, w: Workspace, targets: seq<nat>, k: nat): (map<LineRef, Join>, seq<nat>)
    requires Located(vs, w) && Spots(vs, targets) && k <= |targets|
  {
    if k == 0 then (map[], targets)
    else
      var (before, pool) := ClaimsOf(vs, w, targets, k - 1);
      var (out, more) := Claimed(vs, before, pool, OutClaim(vs, w, targets[k - 1]));
      Claimed(vs, out, more, InClaim(vs, w, targets[k - 1]))
  }

  ghost predicate JoinsOk(vs: seq<Line>, w: Workspace, targets: seq<nat>, joins: map<LineRef, Join>, pool: seq<nat>)
    requires Located(vs, w) && Spots(vs, targets)
  {
    && Distinct(pool) && Spots(vs, pool)
    && (forall r | r in joins :: Claims(vs, w, targets, joins[r]) && joins[r].tail < |vs| && vs[joins[r].tail].ref == r)
    && (forall r | r in joins :: joins[r].tail in pool && joins[r].head in pool)
    && (forall p | p in pool :: p in targets || EndOfClaim(vs, w, targets, p))
    && forall p | p in targets :: p in pool
  }

  ghost predicate EndOfClaim(vs: seq<Line>, w: Workspace, targets: seq<nat>, p: nat)
    requires Located(vs, w) && Spots(vs, targets)
  {
    exists j :: Claims(vs, w, targets, j) && (p == j.tail || p == j.head)
  }

  ghost predicate Held(joins: map<LineRef, Join>, vs: seq<Line>, found: Option<Join>) {
    found.Some? ==> found.value.tail < |vs| && vs[found.value.tail].ref in joins
  }

  lemma {:induction false} ClaimInRange(vs: seq<Line>, w: Workspace, targets: seq<nat>, k: nat, j: Join)
    requires Located(vs, w) && Spots(vs, targets) && k < |targets|
    requires OutClaim(vs, w, targets[k]) == Some(j) || InClaim(vs, w, targets[k]) == Some(j)
    ensures Claims(vs, w, targets, j) && j.tail < |vs| && j.head < |vs|
  {
    hide ForwardPartner, BackwardPartner;
  }

  lemma {:induction false} OneClaimMore(vs: seq<Line>, w: Workspace, targets: seq<nat>, joins: map<LineRef, Join>, pool: seq<nat>, j: Join)
    requires DistinctRefs(vs) && Located(vs, w) && Spots(vs, targets) && JoinsOk(vs, w, targets, joins, pool)
    requires Claims(vs, w, targets, j) && j.tail < |vs| && j.head < |vs|
    ensures JoinsOk(vs, w, targets, joins[vs[j.tail].ref := j], Added(Added(pool, j.tail), j.head))
  {
    hide Claims;
    assert EndOfClaim(vs, w, targets, j.tail) && EndOfClaim(vs, w, targets, j.head);
  }

  /** Every join claimed is one the chunk owns, and every line the chunk owns a join of
      has its tail among them. */
  lemma {:induction false} ClaimsAreJoins(vs: seq<Line>, w: Workspace, targets: seq<nat>, k: nat)
    requires Located(vs, w) && Spots(vs, targets) && Distinct(targets) && DistinctRefs(vs) && k <= |targets|
    ensures var (joins, pool) := ClaimsOf(vs, w, targets, k);
      && JoinsOk(vs, w, targets, joins, pool)
      && forall i | 0 <= i < k :: Held(joins, vs, OutClaim(vs, w, targets[i])) && Held(joins, vs, InClaim(vs, w, targets[i]))
  {
    hide OutClaim, InClaim, JoinsOk, Claims, Located, Claimed;
    if k == 0 {
      NoJoins(vs, w, targets);
    } else {
      ClaimsAreJoins(vs, w, targets, k - 1);
      var (before, pool) := ClaimsOf(vs, w, targets, k - 1);
      var out, back := OutClaim(vs, w, targets[k - 1]), InClaim(vs, w, targets[k - 1]);
      var (joins, more) := Claimed(vs, before, pool, out);
      ClaimAdds(vs, w, targets, before, pool, k - 1, out);
      ClaimAdds(vs, w, targets, joins, more, k - 1, back);
    }
  }

  lemma {:induction false} ClaimAdds(vs: seq<Line>, w: Workspace, targets: seq<nat>, joins: map<LineRef, Join>, pool: seq<nat>, k: nat,
                                     found: Option<Join>)
    requires Located(vs, w) && Spots(vs, targets) && DistinctRefs(vs) && k < |targets| && JoinsOk(vs, w, targets, joins, pool)
    requires found == OutClaim(vs, w, targets[k]) || found == InClaim(vs, w, targets[k])
    ensures var (more, wider) := Claimed(vs, joins, pool, found);
      JoinsOk(vs, w, targets, more, wider) && joins.Keys <= more.Keys && Held(more, vs, found)
  {
    hide OutClaim, InClaim, JoinsOk, Claims, Located;
    if found.Some? {
      ClaimInRange(vs, w, targets, k, found.value);
      OneClaimMore(vs, w, targets, joins, pool, found.value);
    }
  }

  /** `_claim_joins`: out of each target in turn, its own join first. */
  method ClaimJoins(vs: seq<Line>, w: Workspace, targets: seq<nat>) returns (joins: map<LineRef, Join>, pool: seq<nat>)
    requires Located(vs, w) && Spots(vs, targets) && Distinct(targets) && DistinctRefs(vs)
    ensures (joins, pool) == ClaimsOf(vs, w, targets, |targets|)
    ensures JoinsOk(vs, w, targets, joins, pool)
    ensures forall k | 0 <= k < |targets| :: Held(joins, vs, OutClaim(vs, w, targets[k])) && Held(joins, vs, InClaim(vs, w, targets[k]))
  {
    hide OutClaim, InClaim, JoinsOk, Claims, Located, Held;
    joins, pool := map[], targets;
    for k := 0 to |targets|
      invariant (joins, pool) == ClaimsOf(vs, w, targets, k)
    {
      var out := OutClaim(vs, w, targets[k]);
      if out.Some? {
        pool := Added(Added(pool, out.value.tail), out.value.head);
        joins := joins[vs[out.value.tail].ref := out.value];
      }
      var back := InClaim(vs, w, targets[k]);
      if back.Some? {
        pool := Added(Added(pool, back.value.tail), back.value.head);
        joins := joins[vs[back.value.tail].ref := back.value];
      }
    }
    ClaimsAreJoins(vs, w, targets, |targets|);
  }

  lemma NoJoins(vs: seq<Line>, w: Workspace, targets: seq<nat>)
    requires Located(vs, w) && Spots(vs, targets) && Distinct(targets)
    ensures JoinsOk(vs, w, targets, map[], targets)
  {
  }

  // ----- one pair -----

  /** What the pair guards make of two proposals (`reconcile_hyphen_pair`). */
  datatype PairVerdict = Refused | Kept(subs: string)

  type Judge = (Line, Line, string, string, bool) -> PairVerdict

  function TextOf(texts: map<string, string>, l: Line): string {
    if l.ref.line in texts then texts[l.ref.line] else l.ocr
  }

  /** The tail's standing text, if it has one, else its proposal. */
  function Proposal1(texts: map<string, string>, tail: Line): string {
    if tail.corrected.Some? && tail.corrected.value != "" then tail.corrected.value else TextOf(texts, tail)
  }

  function PairTexts(tail: Line, head: Line, texts: map<string, string>, judge: Judge, forward: bool): (string, string, string) {
    var c1, c2 := Proposal1(texts, tail), TextOf(texts, head);
    match judge(tail, head, c1, c2, forward)
    case Refused => (tail.ocr, head.ocr, "")
    case Kept(subs) => (c1, c2, subs)
  }

  /** `classify_reconcile_outcome`: the pair went back to its source though
      something else had been proposed. */
  predicate WentBack(tail: Line, head: Line, texts: map<string, string>, judge: Judge, forward: bool) {
    var (f1, f2, subs) := PairTexts(tail, head, texts, judge, forward);
    f1 == tail.ocr && f2 == head.ocr && (Proposal1(texts, tail) != tail.ocr || TextOf(texts, head) != head.ocr)
  }

  const PAIR_FALLBACK: string := "hyphen_pair_fallback"

  function WithSubs(l: Line, subs: string, forward: bool): Line {
    if forward then l.(fwdSubs := subs) else l.(subs := subs)
  }

  /** `_reconcile_one_pair`, as a function of the two lines. */
  function Decided(tail: Line, head: Line, texts: map<string, string>, judge: Judge, forward: bool): (Line, Line) {
    if tail.status.Fallback? || head.status.Fallback? then (FallenBack(tail, PAIR_FALLBACK), FallenBack(head, PAIR_FALLBACK))
    else
      var (f1, f2, subs) := PairTexts(tail, head, texts, judge, forward);
      if WentBack(tail, head, texts, judge, forward)
      then (WithSubs(FallenBack(tail, PAIR_FALLBACK), subs, forward), WithSubs(FallenBack(head, PAIR_FALLBACK), subs, false))
      else (WithSubs(Accepted(tail, f1), subs, forward), WithSubs(Accepted(head, f2), subs, false))
  }

  /** A pair is decided as one, whatever the guards say: both lines fall to their
      source, or neither falls and they carry the two proposals, or the two
      sources. A fallen member takes the other with it. */
  lemma PairIsDecidedAsOne(tail: Line, head: Line, texts: map<string, string>, judge: Judge, forward: bool)
    requires Sound(tail) && Sound(head)
    ensures var (t, h) := Decided(tail, head, texts, judge, forward);
      && Sound(t) && Sound(h) && Evolves(tail, t) && Evolves(head, h)
      && (t.status.Fallback? <==> h.status.Fallback?) && !t.status.Pending? && !h.status.Pending?
      && (t.status.Fallback? ==> t.corrected == Some(tail.ocr) && h.corrected == Some(head.ocr))
      && (!t.status.Fallback? ==> (t.corrected == Some(Proposal1(texts, tail)) && h.corrected == Some(TextOf(texts, head)))
                                  || (t.corrected == Some(tail.ocr) && h.corrected == Some(head.ocr)))
      && (tail.status.Fallback? || head.status.Fallback? ==> t.status.Fallback?)
      && SameLinks(tail, t) && SameLinks(head, h)
  {
    hide FallenBack, Accepted, WithSubs, PairTexts, Proposal1, TextOf, Sound, Evolves;
    var (f1, f2, subs) := PairTexts(tail, head, texts, judge, forward);
    FallenFacts(tail, subs, forward);
    FallenFacts(head, subs, false);
    AcceptedFacts(tail, f1, subs, forward);
    AcceptedFacts(head, f2, subs, false);
    TextsAreProposalsOrSources(tail, head, texts, judge, forward);
  }

  lemma FallenFacts(l: Line, subs: string, forward: bool)
    requires Sound(l)
    ensures forall r | r in {FallenBack(l, PAIR_FALLBACK), WithSubs(FallenBack(l, PAIR_FALLBACK), subs, forward)} ::
      Sound(r) && Evolves(l, r) && r.status.Fallback? && r.corrected == Some(l.ocr) && SameLinks(l, r)
  {
  }

  lemma AcceptedFacts(l: Line, text: string, subs: string, forward: bool)
    requires Sound(l)
    ensures var r := WithSubs(Accepted(l, text), subs, forward);
      && r.status.Corrected? && r.corrected == Some(text) && SameLinks(l, r)
      && (!l.status.Fallback? ==> Sound(r) && Evolves(l, r))
  {
  }

  lemma TextsAreProposalsOrSources(tail: Line, head: Line, texts: map<string, string>, judge: Judge, forward: bool)
    ensures var (f1, f2, subs) := PairTexts(tail, head, texts, judge, forward);
      (f1 == Proposal1(texts, tail) && f2 == TextOf(texts, head)) || (f1 == tail.ocr && f2 == head.ocr)
  {
    hide Proposal1, TextOf;
  }

  /** `_reconcile_one_pair`. */
  method ReconcileOnePair(doc: array<Line>, j: Join, texts: map<string, string>, judge: Judge)
    requires j.tail < doc.Length && j.head < doc.Length && j.tail != j.head
    modifies doc
    ensures var (t, h) := Decided(old(doc[j.tail]), old(doc[j.head]), texts, judge, j.forward);
      doc[..] == old(doc[..])[j.tail := t][j.head := h]
  {
    hide FallenBack, Accepted, WithSubs, PairTexts, WentBack;
    var tail, head := doc[j.tail], doc[j.head];
    if tail.status.Fallback? || head.status.Fallback? {
      FallBack(doc, j.tail, PAIR_FALLBACK);
      FallBack(doc, j.head, PAIR_FALLBACK);
      return;
    }
    var (f1, f2, subs) := PairTexts(tail, head, texts, judge, j.forward);
    if WentBack(tail, head, texts, judge, j.forward) {
      FallBack(doc, j.tail, PAIR_FALLBACK);
      FallBack(doc, j.head, PAIR_FALLBACK);
    } else {
      Accept(doc, j.tail, f1);
      Accept(doc, j.head, f2);
    }
    doc[j.head] := WithSubs(doc[j.head], subs, false);
    doc[j.tail] := WithSubs(doc[j.tail], subs, j.forward);
  }

  // ----- the walk over the units -----

  ghost predicate InRange(n: nat, order: seq<Join>) {
    forall k | 0 <= k < |order| :: order[k].tail < n && order[k].head < n && order[k].tail != order[k].head
  }

  ghost function ReconcileAll(vs: seq<Line>, order: seq<Join>, texts: map<string, string>, judge: Judge): (ws: seq<Line>)
    requires InRange(|vs|, order)
    ensures |ws| == |vs|
  {
    if order == [] then vs
    else
      var before, j := ReconcileAll(vs, order[..|order| - 1], texts, judge), order[|order| - 1];
      var (t, h) := Decided(before[j.tail], before[j.head], texts, judge, j.forward);
      before[j.tail := t][j.head := h]
  }

  ghost predicate IsEnd(order: seq<Join>, p: nat) {
    exists k :: 0 <= k < |order| && (order[k].tail == p || order[k].head == p)
  }

  lemma IsEndSnoc(order: seq<Join>, p: nat)
    requires order != []
    ensures IsEnd(order, p) <==> IsEnd(order[..|order| - 1], p) || order[|order| - 1].tail == p || order[|order| - 1].head == p
  {
    if IsEnd(order[..|order| - 1], p) {
      var k :| 0 <= k < |order| - 1 && (order[..|order| - 1][k].tail == p || order[..|order| - 1][k].head == p);
      assert order[k] == order[..|order| - 1][k];
    }
    if IsEnd(order, p) {
      var k :| 0 <= k < |order| && (order[k].tail == p || order[k].head == p);
      if k < |order| - 1 { assert order[..|order| - 1][k] == order[k]; }
    }
  }

  /** What a reconciled line kept and what it became. */
  ghost predicate Reconciled(a: Line, b: Line, touched: bool) {
    Sound(b) && Evolves(a, b) && SameLinks(a, b) && (touched ==> !b.status.Pending?) && (!touched ==> b == a)
  }

  /** However many joins, in whatever order: the invariant stands, every end of a
      join is decided, and every other line is as it was. */
  lemma {:induction false} ReconcileAllKeeps(vs: seq<Line>, order: seq<Join>, texts: map<string, string>, judge: Judge)
    requires AllSound(vs) && InRange(|vs|, order)
    ensures forall k | 0 <= k < |vs| :: Reconciled(vs[k], ReconcileAll(vs, order, texts, judge)[k], IsEnd(order, k))
  {
    hide Sound, Evolves, Decided;
    if order == [] {
      forall k | 0 <= k < |vs| ensures Reconciled(vs[k], vs[k], IsEnd(order, k)) { EvolvesToItself(vs[k]); }
    } else {
      var front, j := order[..|order| - 1], order[|order| - 1];
      ReconcileAllKeeps(vs, front, texts, judge);
      var before := ReconcileAll(vs, front, texts, judge);
      PairIsDecidedAsOne(before[j.tail], before[j.head], texts, judge, j.forward);
      var after := ReconcileAll(vs, order, texts, judge);
      forall k | 0 <= k < |vs| ensures Reconciled(vs[k], after[k], IsEnd(order, k)) {
        IsEndSnoc(order, k);
        if k == j.tail || k == j.head {
          EvolvesChain(vs[k], before[k], after[k]);
        }
      }
    }
  }

  lemma EvolvesChain(a: Line, b: Line, c: Line)
    requires Evolves(a, b) && Evolves(b, c)
    ensures Evolves(a, c)
  {
  }

  lemma LastStep(vs: seq<Line>, order: seq<Join>, texts: map<string, string>, judge: Judge)
    requires InRange(|vs|, order) && order != []
    ensures var before, j := ReconcileAll(vs, order[..|order| - 1], texts, judge), order[|order| - 1];
      var (t, h) := Decided(before[j.tail], before[j.head], texts, judge, j.forward);
      ReconcileAll(vs, order, texts, judge) == before[j.tail := t][j.head := h]
  {
    hide Decided;
  }

  // ----- `_walk_units_reconciling` -----

  ghost predicate Linked(vs: seq<Line>, joins: map<LineRef, Join>, pool: seq<nat>) {
    && DistinctRefs(vs) && Spots(vs, pool) && Distinct(pool)
    && (forall r | r in joins :: joins[r].tail in pool && joins[r].head in pool && JoinLinked(vs, joins[r]))
    && forall r | r in joins :: vs[joins[r].tail].ref == r
  }

  ghost predicate JoinLinked(vs: seq<Line>, j: Join) {
    && j.tail < |vs| && j.head < |vs| && j.tail != j.head
    && (vs[j.head].ref in Pointers(vs[j.tail]) || vs[j.tail].ref in Pointers(vs[j.head]))
  }

  /** The tail of a claimed join is a member of some unit of the pool. */
  lemma {:induction false} TailIsGrouped(vs: seq<Line>, joins: map<LineRef, Join>, pool: seq<nat>, groups: seq<U.HyphenGroup>, r: LineRef)
    requires Linked(vs, joins, pool) && U.IsGrouping(ByRef(LinesAt(vs, pool)), groups) && r in joins
    ensures U.Grouped(groups, r)
  {
    var m, j := ByRef(LinesAt(vs, pool)), joins[r];
    PoolLine(vs, pool, j.tail);
    PoolLine(vs, pool, j.head);
    hide Pointers, U.IsUnit, ByRef, U.SameUnit, LinesAt;
    var h := vs[j.head].ref;
    assert r != h;
    PointerIsAPair(m, r, h);
    assert U.SameUnit(m, r, h);
  }

  lemma {:induction false} PointerIsAPair(m: map<LineRef, Line>, r: LineRef, h: LineRef)
    requires r in m && h in m && (h in Pointers(m[r]) || r in Pointers(m[h]))
    ensures U.SameUnit(m, r, h)
  {
    hide Pointers;
    if h in Pointers(m[r]) {
      assert (r, h) in U.Links(m);
      U.U.ConnectedByEdge(U.Links(m), r, h);
    } else {
      assert (h, r) in U.Links(m);
      U.U.ConnectedByEdge(U.Links(m), h, r);
      U.SameUnitIsAnEquivalence(m, h, r, h);
    }
  }

  lemma {:induction false} PoolLine(vs: seq<Line>, pool: seq<nat>, p: nat)
    requires DistinctRefs(vs) && Spots(vs, pool) && p in pool
    ensures var m := ByRef(LinesAt(vs, pool)); vs[p].ref in m && m[vs[p].ref] == vs[p]
  {
    var n := |pool| - 1;
    assert LinesAt(vs, pool)[..n] == LinesAt(vs, pool[..n]);
    if pool[n] != p {
      assert p in pool[..n] by { assert pool == pool[..n] + [pool[n]]; }
      PoolLine(vs, pool[..n], p);
      assert vs[pool[n]].ref != vs[p].ref;
    }
  }

  ghost function HeadsOf(order: seq<Join>): set<nat> {
    set k | 0 <= k < |order| :: order[k].head
  }

  ghost predicate FromJoins(joins: map<LineRef, Join>, order: seq<Join>, visited: set<LineRef>, vs: seq<Line>)
    requires InRange(|vs|, order)
  {
    forall k | 0 <= k < |order| ::
      vs[order[k].tail].ref in joins && vs[order[k].tail].ref in visited && joins[vs[order[k].tail].ref] == order[k]
  }

  ghost predicate OnceEach(order: seq<Join>) {
    forall i, k | 0 <= i < k < |order| :: order[i].tail != order[k].tail && order[i].head != order[k].head
  }

  ghost predicate Walked(joins: map<LineRef, Join>, order: seq<Join>, heads: set<nat>, visited: set<LineRef>, vs: seq<Line>) {
    && InRange(|vs|, order) && FromJoins(joins, order, visited, vs) && OnceEach(order)
    && heads == HeadsOf(order) && forall r | r in joins && r in visited :: joins[r].head in heads
  }

  /** Every join is reconciled once: its head is written once, by it or, when two
      tails claim one head, by the first. */
  ghost predicate WalkedAll(joins: map<LineRef, Join>, order: seq<Join>, vs: seq<Line>) {
    exists heads, visited :: Walked(joins, order, heads, visited, vs) && joins.Keys <= visited
  }

  /** The joins met on a walk over the given lines: one whose head an earlier one wrote
      is passed over. */
  ghost function WalkOf(joins: map<LineRef, Join>, refs: seq<LineRef>): seq<Join> {
    if refs == [] then []
    else
      var front, r := WalkOf(joins, refs[..|refs| - 1]), refs[|refs| - 1];
      if r in joins && joins[r].head !in HeadsOf(front) then front + [joins[r]] else front
  }

  ghost function MembersOf(groups: seq<U.HyphenGroup>): seq<LineRef> {
    if groups == [] then [] else MembersOf(groups[..|groups| - 1]) + groups[|groups| - 1].members
  }

  /** The walk over the pool's units, in reading order, each one's members in reading
      order. */
  ghost predicate InReadingOrder(vs: seq<Line>, joins: map<LineRef, Join>, pool: seq<nat>, order: seq<Join>)
    requires Spots(vs, pool)
  {
    exists groups :: U.IsGrouping(ByRef(LinesAt(vs, pool)), groups) && order == WalkOf(joins, MembersOf(groups))
  }

  lemma WalkOfSnoc(joins: map<LineRef, Join>, refs: seq<LineRef>, r: LineRef)
    ensures WalkOf(joins, refs + [r])
         == if r in joins && joins[r].head !in HeadsOf(WalkOf(joins, refs)) then WalkOf(joins, refs) + [joins[r]] else WalkOf(joins, refs)
  {
    assert (refs + [r])[..|refs|] == refs;
  }

  ghost predicate TailsHold(vs: seq<Line>, joins: map<LineRef, Join>) {
    forall r | r in joins :: joins[r].tail < |vs| && joins[r].head < |vs| && joins[r].tail != joins[r].head && vs[joins[r].tail].ref == r
  }

  /** Whatever lines are walked over, each join is met once. */
  lemma {:induction false} WalkOfIsWalked(vs: seq<Line>, joins: map<LineRef, Join>, refs: seq<LineRef>)
    requires TailsHold(vs, joins)
    ensures Walked(joins, WalkOf(joins, refs), HeadsOf(WalkOf(joins, refs)), (set r | r in refs), vs)
  {
    hide FromJoins, OnceEach, HeadsOf;
    if refs == [] {
      NothingMet(vs, joins);
      assert (set r | r in refs) == {};
    } else {
      var front, r := refs[..|refs| - 1], refs[|refs| - 1];
      assert refs == front + [r];
      WalkOfIsWalked(vs, joins, front);
      WalkOfSnoc(joins, front, r);
      var order, met := WalkOf(joins, front), set x | x in front;
      assert (set x | x in refs) == met + {r};
      if r in joins && joins[r].head !in HeadsOf(order) {
        HeadsOfSnoc(order, joins[r]);
        WalkedMore(joins, order, HeadsOf(order), met, vs, r);
      } else {
        NotAJoin(joins, order, HeadsOf(order), met, vs, r);
      }
    }
  }

  lemma NothingMet(vs: seq<Line>, joins: map<LineRef, Join>)
    ensures WalkOf(joins, []) == [] && Walked(joins, [], HeadsOf([]), {}, vs)
  {
  }

  /** One member: its join, unless an earlier one wrote the head. */
  method VisitMember(doc: array<Line>, joins: map<LineRef, Join>, member: LineRef, texts: map<string, string>, judge: Judge,
                     heads: set<nat>, ghost refs: seq<LineRef>, ghost vs: seq<Line>)
    returns (heads': set<nat>)
    requires |vs| == doc.Length && TailsHold(vs, joins)
    requires InRange(|vs|, WalkOf(joins, refs)) && doc[..] == ReconcileAll(vs, WalkOf(joins, refs), texts, judge)
    requires heads == HeadsOf(WalkOf(joins, refs))
    modifies doc
    ensures InRange(|vs|, WalkOf(joins, refs + [member])) && doc[..] == ReconcileAll(vs, WalkOf(joins, refs + [member]), texts, judge)
    ensures heads' == HeadsOf(WalkOf(joins, refs + [member]))
  {
    hide Decided, ReconcileAll, HeadsOf, WalkOf;
    heads' := heads;
    WalkOfSnoc(joins, refs, member);
    if member !in joins { return; }
    var j := joins[member];
    if j.head in heads { return; }
    ReconcileOnePair(doc, j, texts, judge);
    heads' := heads + {j.head};
    OneJoinMore(vs, WalkOf(joins, refs), j, texts, judge);
    HeadsOfSnoc(WalkOf(joins, refs), j);
  }

  lemma NotAJoin(joins: map<LineRef, Join>, order: seq<Join>, heads: set<nat>, visited: set<LineRef>, vs: seq<Line>, r: LineRef)
    requires Walked(joins, order, heads, visited, vs) && (r !in joins || joins[r].head in heads)
    ensures Walked(joins, order, heads, visited + {r}, vs)
  {
    hide OnceEach, HeadsOf;
  }

  lemma OneJoinMore(vs: seq<Line>, order: seq<Join>, j: Join, texts: map<string, string>, judge: Judge)
    requires InRange(|vs|, order) && j.tail < |vs| && j.head < |vs| && j.tail != j.head
    ensures InRange(|vs|, order + [j])
    ensures var before := ReconcileAll(vs, order, texts, judge);
      var (t, h) := Decided(before[j.tail], before[j.head], texts, judge, j.forward);
      ReconcileAll(vs, order + [j], texts, judge) == before[j.tail := t][j.head := h]
  {
    hide Decided;
    assert (order + [j])[..|order|] == order;
  }

  lemma {:induction false} WalkedMore(joins: map<LineRef, Join>, order: seq<Join>, heads: set<nat>, visited: set<LineRef>, vs: seq<Line>, r: LineRef)
    requires Walked(joins, order, heads, visited, vs) && r in joins && r !in visited
    requires var j := joins[r]; j.tail < |vs| && j.head < |vs| && j.tail != j.head && vs[j.tail].ref == r && j.head !in heads
    ensures Walked(joins, order + [joins[r]], heads + {joins[r].head}, visited + {r}, vs)
  {
    var j, more := joins[r], order + [joins[r]];
    hide FromJoins, OnceEach, HeadsOf;
    HeadsOfSnoc(order, j);
    FromJoinsSnoc(joins, order, visited, vs, r);
    OnceEachSnoc(joins, order, visited, vs, r);
  }

  lemma HeadsOfSnoc(order: seq<Join>, j: Join)
    ensures HeadsOf(order + [j]) == HeadsOf(order) + {j.head}
  {
    var more := order + [j];
    assert more[|order|] == j && forall k | 0 <= k < |order| :: more[k] == order[k];
    forall p ensures p in HeadsOf(more) <==> p in HeadsOf(order) + {j.head} {
      if p in HeadsOf(order) { var k :| 0 <= k < |order| && order[k].head == p; assert more[k].head == p; }
    }
  }

  lemma FromJoinsSnoc(joins: map<LineRef, Join>, order: seq<Join>, visited: set<LineRef>, vs: seq<Line>, r: LineRef)
    requires InRange(|vs|, order) && FromJoins(joins, order, visited, vs) && r in joins
    requires var j := joins[r]; j.tail < |vs| && j.head < |vs| && j.tail != j.head && vs[j.tail].ref == r
    ensures InRange(|vs|, order + [joins[r]]) && FromJoins(joins, order + [joins[r]], visited + {r}, vs)
  {
  }

  lemma OnceEachSnoc(joins: map<LineRef, Join>, order: seq<Join>, visited: set<LineRef>, vs: seq<Line>, r: LineRef)
    requires InRange(|vs|, order) && FromJoins(joins, order, visited, vs) && OnceEach(order) && r in joins && r !in visited
    requires var j := joins[r]; j.tail < |vs| && vs[j.tail].ref == r && j.head !in HeadsOf(order)
    ensures OnceEach(order + [joins[r]])
  {
    var j, more := joins[r], order + [joins[r]];
    forall k | 0 <= k < |order| ensures order[k].tail != j.tail && order[k].head != j.head {
      assert order[k].head in HeadsOf(order);
    }
  }

  /** `_walk_units_reconciling`: unit by unit, member by member, in reading order, each
      join once. */
  method WalkUnits(doc: array<Line>, joins: map<LineRef, Join>, pool: seq<nat>, texts: map<string, string>, judge: Judge)
    returns (ghost order: seq<Join>)
    requires Linked(doc[..], joins, pool)
    modifies doc
    ensures InRange(doc.Length, order) && doc[..] == ReconcileAll(old(doc[..]), order, texts, judge)
    ensures InReadingOrder(old(doc[..]), joins, pool, order) && WalkedAll(joins, order, old(doc[..]))
  {
    hide Decided, ReconcileAll, U.IsGrouping, Walked, Pointers, WalkOf, MembersOf, HeadsOf;
    ghost var vs := doc[..];
    LinkedTails(vs, joins, pool);
    var groups := U.DeriveHyphenGroups(LinesAt(doc[..], pool));
    var heads: set<nat> := {};
    ghost var refs: seq<LineRef> := [];
    NothingWalked(vs, joins, texts, judge);
    for a := 0 to |groups|
      invariant refs == MembersOf(groups[..a]) && heads == HeadsOf(WalkOf(joins, refs))
      invariant InRange(|vs|, WalkOf(joins, refs)) && doc[..] == ReconcileAll(vs, WalkOf(joins, refs), texts, judge)
    {
      var members := groups[a].members;
      ghost var before := refs;
      for b := 0 to |members|
        invariant refs == before + members[..b] && heads == HeadsOf(WalkOf(joins, refs))
        invariant InRange(|vs|, WalkOf(joins, refs)) && doc[..] == ReconcileAll(vs, WalkOf(joins, refs), texts, judge)
      {
        heads := VisitMember(doc, joins, members[b], texts, judge, heads, refs, vs);
        refs := refs + [members[b]];
        assert before + members[..b] + [members[b]] == before + members[..b + 1];
      }
      assert members[..|members|] == members;
      MembersOfSnoc(groups, a);
    }
    assert groups[..|groups|] == groups;
    order := WalkOf(joins, refs);
    AllTailsMet(vs, joins, pool, groups);
  }

  lemma LinkedTails(vs: seq<Line>, joins: map<LineRef, Join>, pool: seq<nat>)
    requires Linked(vs, joins, pool)
    ensures TailsHold(vs, joins) && Spots(vs, pool)
  {
  }

  lemma MembersOfSnoc(groups: seq<U.HyphenGroup>, a: nat)
    requires a < |groups|
    ensures MembersOf(groups[..a + 1]) == MembersOf(groups[..a]) + groups[a].members
  {
    assert groups[..a + 1][..a] == groups[..a];
  }

  lemma NothingWalked(vs: seq<Line>, joins: map<LineRef, Join>, texts: map<string, string>, judge: Judge)
    ensures MembersOf([]) == [] && WalkOf(joins, []) == [] && HeadsOf([]) == {} && ReconcileAll(vs, [], texts, judge) == vs
  {
  }

  lemma {:induction false} MembersOfIn(groups: seq<U.HyphenGroup>, r: LineRef)
    ensures r in MembersOf(groups) <==> U.Grouped(groups, r)
  {
    hide U.Grouped;
    if groups == [] {
      U.NotGrouped();
    } else {
      var front, g := groups[..|groups| - 1], groups[|groups| - 1];
      assert groups == front + [g];
      MembersOfIn(front, r);
      U.GroupedSnoc(front, g, r);
    }
  }

  /** A walk over the whole of the pool's units meets every join. */
  lemma {:induction false} AllTailsMet(vs: seq<Line>, joins: map<LineRef, Join>, pool: seq<nat>, groups: seq<U.HyphenGroup>)
    requires Linked(vs, joins, pool) && Spots(vs, pool) && U.IsGrouping(ByRef(LinesAt(vs, pool)), groups)
    ensures WalkedAll(joins, WalkOf(joins, MembersOf(groups)), vs)
  {
    hide U.IsGrouping, U.Grouped, Walked, Pointers, WalkOf, MembersOf, HeadsOf, ByRef;
    LinkedTails(vs, joins, pool);
    var refs := MembersOf(groups);
    WalkOfIsWalked(vs, joins, refs);
    forall r | r in joins ensures r in refs {
      TailIsGrouped(vs, joins, pool, groups, r);
      MembersOfIn(groups, r);
    }
  }

  // ----- `_reconcile_chunk_hyphens` -----

  lemma {:induction false} ClaimIsALink(vs: seq<Line>, w: Workspace, targets: seq<nat>, j: Join)
    requires Located(vs, w) && Spots(vs, targets) && Claims(vs, w, targets, j)
    ensures j.tail < |vs| && j.head < |vs|
    ensures vs[j.head].ref in Pointers(vs[j.tail]) || vs[j.tail].ref in Pointers(vs[j.head])
  {
    var k :| 0 <= k < |targets| && (OutClaim(vs, w, targets[k]) == Some(j) || InClaim(vs, w, targets[k]) == Some(j));
    ClaimInRange(vs, w, targets, k, j);
    OneClaimIsALink(vs, w, targets[k], j);
  }

  lemma {:induction false} OneClaimIsALink(vs: seq<Line>, w: Workspace, p: nat, j: Join)
    requires Located(vs, w) && p < |vs| && (OutClaim(vs, w, p) == Some(j) || InClaim(vs, w, p) == Some(j))
    ensures j.tail < |vs| && j.head < |vs|
    ensures vs[j.head].ref in Pointers(vs[j.tail]) || vs[j.tail].ref in Pointers(vs[j.head])
  {
    PartnersArePointers(vs[p]);
    LookupFinds(vs, w, ForwardPartner(vs[p]));
    LookupFinds(vs, w, BackwardPartner(vs[p]));
    hide ForwardPartner, BackwardPartner, Pointers, Lookup, Located;
  }

  lemma LookupFinds(vs: seq<Line>, w: Workspace, r: Option<LineRef>)
    requires Located(vs, w)
    ensures Lookup(w, r).Some? ==> r.Some? && Lookup(w, r).value < |vs| && vs[Lookup(w, r).value].ref == r.value
  {
  }

  lemma PartnersArePointers(l: Line)
    ensures ForwardPartner(l).Some? ==> ForwardPartner(l).value in Pointers(l)
    ensures BackwardPartner(l).Some? ==> BackwardPartner(l).value in Pointers(l)
  {
  }

  lemma {:induction false} JoinsAreLinked(vs: seq<Line>, w: Workspace, targets: seq<nat>, joins: map<LineRef, Join>, pool: seq<nat>)
    requires DistinctRefs(vs) && NoSelfLinks(vs) && Located(vs, w) && Spots(vs, targets) && JoinsOk(vs, w, targets, joins, pool)
    ensures Linked(vs, joins, pool)
  {
    hide Claims, Pointers;
    forall r | r in joins
      ensures JoinLinked(vs, joins[r])
    {
      ClaimIsALink(vs, w, targets, joins[r]);
    }
  }

  /** Lines the page's work can reach: its own and the partners it was given. */
  predicate Reach(w: Workspace, p: nat) {
    p in w.lines || p in w.others
  }

  lemma {:induction false} ClaimsStayInReach(vs: seq<Line>, w: Workspace, targets: seq<nat>, j: Join)
    requires Located(vs, w) && Spots(vs, targets) && Claims(vs, w, targets, j) && forall p | p in targets :: Reach(w, p)
    ensures Reach(w, j.tail) && Reach(w, j.head)
  {
    var k :| 0 <= k < |targets| && (OutClaim(vs, w, targets[k]) == Some(j) || InClaim(vs, w, targets[k]) == Some(j));
    assert targets[k] in targets;
    OneClaimStaysInReach(vs, w, targets[k], j);
  }

  lemma {:induction false} OneClaimStaysInReach(vs: seq<Line>, w: Workspace, p: nat, j: Join)
    requires Located(vs, w) && p < |vs| && (OutClaim(vs, w, p) == Some(j) || InClaim(vs, w, p) == Some(j)) && Reach(w, p)
    ensures Reach(w, j.tail) && Reach(w, j.head)
  {
    FoundIsInReach(vs, w, ForwardPartner(vs[p]));
    FoundIsInReach(vs, w, BackwardPartner(vs[p]));
    hide ForwardPartner, BackwardPartner, Lookup, Reach, Located;
  }

  lemma FoundIsInReach(vs: seq<Line>, w: Workspace, r: Option<LineRef>)
    requires Located(vs, w)
    ensures Lookup(w, r).Some? ==> Reach(w, Lookup(w, r).value)
  {
  }

  /** What one page's step leaves of a document: the invariant, every line out of
      reach as it was, and the links of every line of another page. */
  ghost predicate PageStep(vs: seq<Line>, ws: seq<Line>, w: Workspace) {
    && AllSound(ws) && Evolved(vs, ws)
    && (forall k: nat | k < |vs| && !Reach(w, k) :: ws[k] == vs[k])
    && (forall k: nat | k < |vs| && k !in w.lines :: SameLinks(vs[k], ws[k]))
  }

  /** A chunk's walk: every join it claims, none else, each once at most, in reading
      order. */
  ghost predicate ChunkWalk(vs: seq<Line>, w: Workspace, targets: seq<nat>, joins: map<LineRef, Join>, order: seq<Join>)
    requires Located(vs, w) && Spots(vs, targets)
  {
    && InRange(|vs|, order) && WalkedAll(joins, order, vs) && WalksClaims(vs, w, targets, joins, order)
    && (forall r | r in joins :: Claims(vs, w, targets, joins[r]) && joins[r].tail < |vs| && vs[joins[r].tail].ref == r)
    && forall k | 0 <= k < |targets| :: Held(joins, vs, OutClaim(vs, w, targets[k])) && Held(joins, vs, InClaim(vs, w, targets[k]))
  }

  /** The joins are those `_claim_joins` finds, the order that of their units. */
  ghost predicate WalksClaims(vs: seq<Line>, w: Workspace, targets: seq<nat>, joins: map<LineRef, Join>, order: seq<Join>)
    requires Located(vs, w) && Spots(vs, targets)
  {
    var (claimed, pool) := ClaimsOf(vs, w, targets, |targets|);
    joins == claimed && Spots(vs, pool) && InReadingOrder(vs, joins, pool, order)
  }

  /** `_reconcile_chunk_hyphens`. */
  method ReconcileChunk(doc: array<Line>, w: Workspace, targets: seq<nat>, texts: map<string, string>, judge: Judge)
    returns (ghost joins: map<LineRef, Join>, ghost order: seq<Join>)
    requires DistinctRefs(doc[..]) && NoSelfLinks(doc[..]) && AllSound(doc[..])
    requires Located(doc[..], w) && Spots(doc[..], targets) && Distinct(targets) && forall p | p in targets :: Reach(w, p)
    modifies doc
    ensures ChunkWalk(old(doc[..]), w, targets, joins, order) && doc[..] == ReconcileAll(old(doc[..]), order, texts, judge)
    ensures PageStep(old(doc[..]), doc[..], w)
  {
    hide JoinsOk, Linked, ReconcileAll, WalkedAll, OutClaim, InClaim, Claims, Located, NoSelfLinks, ClaimsOf, InReadingOrder;
    ghost var vs := doc[..];
    var found, pool := ClaimJoins(doc[..], w, targets);
    joins := found;
    OnlyClaims(vs, w, targets, joins, pool);
    JoinsAreLinked(vs, w, targets, joins, pool);
    LinkedTails(vs, joins, pool);
    order := WalkUnits(doc, found, pool, texts, judge);
    OrderInReach(vs, w, targets, joins, pool, order);
    ReconcileIsAPageStep(vs, order, texts, judge, w);
  }

  lemma OnlyClaims(vs: seq<Line>, w: Workspace, targets: seq<nat>, joins: map<LineRef, Join>, pool: seq<nat>)
    requires Located(vs, w) && Spots(vs, targets) && JoinsOk(vs, w, targets, joins, pool)
    ensures forall r | r in joins :: Claims(vs, w, targets, joins[r]) && joins[r].tail < |vs| && vs[joins[r].tail].ref == r
  {
  }

  lemma {:induction false} OrderInReach(vs: seq<Line>, w: Workspace, targets: seq<nat>, joins: map<LineRef, Join>, pool: seq<nat>, order: seq<Join>)
    requires Located(vs, w) && Spots(vs, targets) && JoinsOk(vs, w, targets, joins, pool) && WalkedAll(joins, order, vs)
    requires forall p | p in targets :: Reach(w, p)
    ensures forall k | 0 <= k < |order| :: Reach(w, order[k].tail) && Reach(w, order[k].head)
  {
    hide Claims, Reach;
    var heads, visited :| Walked(joins, order, heads, visited, vs) && joins.Keys <= visited;
    forall k | 0 <= k < |order| ensures Reach(w, order[k].tail) && Reach(w, order[k].head) {
      ClaimsStayInReach(vs, w, targets, order[k]);
    }
  }

  lemma {:induction false} ReconcileIsAPageStep(vs: seq<Line>, order: seq<Join>, texts: map<string, string>, judge: Judge, w: Workspace)
    requires AllSound(vs) && InRange(|vs|, order)
    requires forall k | 0 <= k < |order| :: Reach(w, order[k].tail) && Reach(w, order[k].head)
    ensures PageStep(vs, ReconcileAll(vs, order, texts, judge), w)
  {
    hide Reach, Sound, Evolves, SameLinks, ReconcileAll;
    ReconcileAllKeeps(vs, order, texts, judge);
    forall k | 0 <= k < |vs|
      ensures Sound(ReconcileAll(vs, order, texts, judge)[k]) && Evolves(vs[k], ReconcileAll(vs, order, texts, judge)[k])
      ensures SameLinks(vs[k], ReconcileAll(vs, order, texts, judge)[k])
    {
      assert Reconciled(vs[k], ReconcileAll(vs, order, texts, judge)[k], IsEnd(order, k));
    }
  }
}

/** `acceptance.py` and `outcome.py`: deciding a chunk's lines, whether its producer
    answered or not. */
module Acceptance {
  import opened Prelude
  import opened Manifest
  import opened Decide
  import opened Reconcile
  import LE = LineEdits
  import V = Reverts
  import U = Units

  /** The text guards: of a pair, of a line, and of a reconciled line's attachment.
      A line's neighbours are its page's OCR texts, which never change. */
  datatype Guards = Guards(judge: Judge, check: (LineRef, string) -> Result<string, string>, attach: (LineRef, string) -> Option<string>)

  function OrRejected(reason: string): string {
    if reason == "" then "rejected" else reason
  }

  // ----- one line -----

  predicate FellAt(vs: seq<Line>, found: Option<nat>) {
    found.Some? && found.value < |vs| && vs[found.value].status.Fallback?
  }

  /** `_partner_fell`: a direct partner, through either slot. */
  predicate PartnerFell(vs: seq<Line>, w: Workspace, l: Line) {
    FellAt(vs, Lookup(w, PairRef(l))) || FellAt(vs, Lookup(w, ForwardRef(l)))
  }

  predicate DropsItsBreak(l: Line, text: string) {
    (l.role.Part1? || l.role.Both?) && LE.EndsWithMark(l.ocr) && !LE.EndsWithMark(text)
  }

  /** What becomes of an undecided line that has a proposal. */
  function Judged(vs: seq<Line>, w: Workspace, l: Line, text: string, guards: Guards): Line {
    if DropsItsBreak(l, text) then FallenBack(l, "orphan_hyphen_completed")
    else if PartnerFell(vs, w, l) then FallenBack(l, "hyphen_partner_fell_back")
    else match guards.check(l.ref, text)
      case Ok(accepted) => Accepted(l, accepted)
      case Err(reason) => FallenBack(l, OrRejected(reason))
  }

  lemma {:induction false} JudgedIsDecided(vs: seq<Line>, w: Workspace, l: Line, text: string, guards: Guards)
    requires Sound(l) && l.status.Pending?
    ensures var r := Judged(vs, w, l, text, guards); Sound(r) && Evolves(l, r) && r.corrected.Some? && SameLinks(l, r)
    ensures Judged(vs, w, l, text, guards).status.Corrected? ==> !DropsItsBreak(l, text) && !PartnerFell(vs, w, l)
  {
    hide DropsItsBreak, PartnerFell;
  }

  /** One undecided line: it keeps its own break, follows a fallen partner, and passes
      the line guards, or it falls. */
  method AcceptOne(doc: array<Line>, w: Workspace, p: nat, text: string, guards: Guards)
    requires p < doc.Length
    modifies doc
    ensures doc[..] == old(doc[..])[p := Judged(old(doc[..]), w, old(doc[p]), text, guards)]
  {
    if DropsItsBreak(doc[p], text) {
      FallBack(doc, p, "orphan_hyphen_completed");
      return;
    }
    if PartnerFell(doc[..], w, doc[p]) {
      FallBack(doc, p, "hyphen_partner_fell_back");
      return;
    }
    var result := guards.check(doc[p].ref, text);
    if result.Ok? {
      Accept(doc, p, result.value);
    } else {
      FallBack(doc, p, OrRejected(result.error));
    }
  }

  // ----- page steps compose -----

  lemma {:induction false} PageStepTransitive(us: seq<Line>, vs: seq<Line>, ws: seq<Line>, w: Workspace)
    requires PageStep(us, vs, w) && PageStep(vs, ws, w)
    ensures PageStep(us, ws, w)
  {
    hide Reach, AllSound;
    EvolvedTransitive(us, vs, ws);
  }

  lemma {:induction false} NoStep(vs: seq<Line>, w: Workspace)
    requires AllSound(vs)
    ensures PageStep(vs, vs, w)
  {
    EvolvedReflexive(vs);
  }

  lemma {:induction false} OneLineStep(vs: seq<Line>, w: Workspace, p: nat, l: Line)
    requires p < |vs| && AllSound(vs) && Sound(l) && Evolves(vs[p], l) && SameLinks(vs[p], l) && Reach(w, p)
    ensures PageStep(vs, vs[p := l], w)
  {
    OneLineMoves(vs, p, l);
  }

  /** References, locations and self-links are what they were. */
  lemma {:induction false} StepKeepsPlaces(vs: seq<Line>, ws: seq<Line>, w: Workspace)
    requires Evolved(vs, ws)
    ensures DistinctRefs(vs) ==> DistinctRefs(ws)
    ensures Located(vs, w) ==> Located(ws, w)
    ensures NoSelfLinks(vs) ==> NoSelfLinks(ws)
  {
    forall k | 0 <= k < |vs| ensures ws[k].ref == vs[k].ref && (vs[k].ref !in Pointers(vs[k]) ==> ws[k].ref !in Pointers(ws[k])) {
      LinksOnlyGo(vs[k], ws[k]);
    }
    hide Evolves, Pointers;
  }

  lemma LinksOnlyGo(a: Line, b: Line)
    requires Evolves(a, b)
    ensures a.ref == b.ref && forall r | r in Pointers(b) :: r in Pointers(a)
  {
  }

  ghost predicate AllDecided(vs: seq<Line>, at: seq<nat>) {
    forall k | 0 <= k < |at| :: at[k] < |vs| && vs[at[k]].corrected.Some?
  }

  lemma {:induction false} StaysDecided(vs: seq<Line>, ws: seq<Line>, at: seq<nat>)
    requires Evolved(vs, ws) && AllDecided(vs, at)
    ensures AllDecided(ws, at)
  {
    forall k | 0 <= k < |at| ensures at[k] < |ws| && ws[at[k]].corrected.Some? {
      assert Evolves(vs[at[k]], ws[at[k]]);
    }
  }

  // ----- `_apply_line_acceptance` -----

  ghost predicate Targets(w: Workspace, targets: seq<nat>) {
    Distinct(targets) && forall p | p in targets :: p in w.lines
  }

  ghost predicate Ready(vs: seq<Line>, w: Workspace) {
    AllSound(vs) && DistinctRefs(vs) && NoSelfLinks(vs) && Located(vs, w)
  }

  lemma StepKeepsReady(vs: seq<Line>, ws: seq<Line>, w: Workspace)
    requires Ready(vs, w) && PageStep(vs, ws, w)
    ensures Ready(ws, w)
  {
    hide Located, NoSelfLinks, DistinctRefs, AllSound;
    StepKeepsPlaces(vs, ws, w);
  }

  lemma TargetsInRange(vs: seq<Line>, w: Workspace, targets: seq<nat>)
    requires Located(vs, w) && Targets(w, targets)
    ensures Spots(vs, targets) && forall p | p in targets :: Reach(w, p)
  {
    forall k | 0 <= k < |targets| ensures targets[k] < |vs| { assert targets[k] in targets; }
  }

  /** The targets one after the other: an undecided one with a proposal is judged
      against the document as the ones before it left it. */
  function JudgedAll(vs: seq<Line>, w: Workspace, targets: seq<nat>, texts: map<string, string>, guards: Guards): (ws: seq<Line>)
    ensures |ws| == |vs|
    ensures forall k | 0 <= k < |vs| && k !in targets :: ws[k] == vs[k]
  {
    if targets == [] then vs
    else
      var before, p := JudgedAll(vs, w, targets[..|targets| - 1], texts, guards), targets[|targets| - 1];
      if p < |vs| && before[p].corrected.None? && before[p].ref.line in texts
      then before[p := Judged(before, w, before[p], texts[before[p].ref.line], guards)] else before
  }

  /** Why a line stage B accepted in this chunk may not stand. */
  function Detached(l: Line, guards: Guards, reconciled: set<LineRef>): Option<string> {
    if l.corrected.None? || l.ref !in reconciled || l.corrected == Some(l.ocr) then None
    else match guards.attach(l.ref, l.corrected.value)
      case None => None
      case Some(reason) => Some(OrRejected(reason))
  }

  /** The reverts: the detached ones among the targets, each with its reason. */
  ghost predicate Detaches(vs: seq<Line>, targets: seq<nat>, guards: Guards, reconciled: set<LineRef>, reverts: map<LineRef, string>)
    requires Spots(vs, targets)
  {
    && (forall r | r in reverts :: NamedAt(vs, targets, r))
    && forall k | 0 <= k < |targets| ::
      Detached(vs[targets[k]], guards, reconciled) ==
        if vs[targets[k]].ref in reverts then Some(reverts[vs[targets[k]].ref]) else None
  }

  ghost predicate NamedAt(vs: seq<Line>, targets: seq<nat>, r: LineRef)
    requires Spots(vs, targets)
  {
    exists k :: 0 <= k < |targets| && vs[targets[k]].ref == r
  }

  /** The loop: undecided targets with a proposal are judged; the members stage B
      accepted in this chunk are looked at again for their attachment. */
  method JudgeTargets(doc: array<Line>, w: Workspace, targets: seq<nat>, texts: map<string, string>, guards: Guards,
                      reconciled: set<LineRef>) returns (reverts: map<LineRef, string>)
    requires Ready(doc[..], w) && Targets(w, targets) && Spots(doc[..], targets)
    modifies doc
    ensures PageStep(old(doc[..]), doc[..], w) && V.Reasoned(reverts)
    ensures doc[..] == JudgedAll(old(doc[..]), w, targets, texts, guards)
    ensures Detaches(old(doc[..]), targets, guards, reconciled, reverts)
    ensures (forall p | p in targets :: old(doc[p]).ref.line in texts) ==> AllDecided(doc[..], targets)
  {
    hide Judged, Ready, PageStep, Detached, Detaches;
    ghost var vs := doc[..];
    reverts := map[];
    NothingDetached(vs, guards, reconciled);
    for k := 0 to |targets|
      invariant doc[..] == JudgedAll(vs, w, targets[..k], texts, guards) && V.Reasoned(reverts)
      invariant Spots(vs, targets[..k]) && Detaches(vs, targets[..k], guards, reconciled, reverts)
    {
      var p := targets[k];
      assert targets[..k + 1][..k] == targets[..k];
      StillItself(vs, w, targets, k, texts, guards);
      OneMoreDetached(vs, w, targets, k, guards, reconciled, reverts);
      var reason := Detached(doc[p], guards, reconciled);
      DetachedIsReasoned(doc[p], guards, reconciled);
      if doc[p].corrected.Some? {
        if reason.Some? { reverts := reverts[doc[p].ref := reason.value]; }
        continue;
      }
      if doc[p].ref.line !in texts { continue; }
      AcceptOne(doc, w, p, texts[doc[p].ref.line], guards);
    }
    assert targets[..|targets|] == targets;
    JudgingIsAPageStep(vs, w, targets, texts, guards);
  }

  lemma NothingDetached(vs: seq<Line>, guards: Guards, reconciled: set<LineRef>)
    ensures Detaches(vs, [], guards, reconciled, map[])
  {
  }

  /** However many targets, in whatever order: the invariant stands, and those that
      had a proposal are decided. */
  lemma {:induction false} JudgingIsAPageStep(vs: seq<Line>, w: Workspace, targets: seq<nat>, texts: map<string, string>, guards: Guards)
    requires Ready(vs, w) && Targets(w, targets)
    ensures var ws := JudgedAll(vs, w, targets, texts, guards);
      && PageStep(vs, ws, w) && Spots(vs, targets)
      && ((forall p | p in targets :: vs[p].ref.line in texts) ==> AllDecided(ws, targets))
  {
    hide Judged, Ready, PageStep, Reach;
    ReadyIsLocated(vs, w);
    TargetsInRange(vs, w, targets);
    if targets == [] {
      NoStep(vs, w);
    } else {
      var front, p := targets[..|targets| - 1], targets[|targets| - 1];
      assert targets == front + [p] && p in targets;
      assert forall x | x in front :: x in targets;
      FrontTargets(w, targets);
      JudgingIsAPageStep(vs, w, front, texts, guards);
      OneMoreJudged(vs, JudgedAll(vs, w, front, texts, guards), w, targets, texts, guards);
    }
  }

  lemma {:induction false} OneMoreJudged(vs: seq<Line>, before: seq<Line>, w: Workspace, targets: seq<nat>, texts: map<string, string>, guards: Guards)
    requires Ready(vs, w) && PageStep(vs, before, w) && targets != [] && Spots(vs, targets) && Reach(w, targets[|targets| - 1])
    ensures var p, k := targets[|targets| - 1], |targets| - 1;
      var ws := if before[p].corrected.None? && before[p].ref.line in texts
                then before[p := Judged(before, w, before[p], texts[before[p].ref.line], guards)] else before;
      && PageStep(vs, ws, w)
      && (AllDecided(before, targets[..k]) && vs[p].ref.line in texts ==> AllDecided(ws, targets))
  {
    hide Judged, Located, NoSelfLinks, Reach, Sound, Evolves, DistinctRefs;
    var p, k := targets[|targets| - 1], |targets| - 1;
    SameRef(vs, before, p);
    assert targets[..k] + [p] == targets && targets[..k + 1] == targets;
    if before[p].corrected.None? && before[p].ref.line in texts {
      var l := Judged(before, w, before[p], texts[before[p].ref.line], guards);
      PendingIsUndecided(before[p]);
      JudgedIsDecided(before, w, before[p], texts[before[p].ref.line], guards);
      OneLineStep(before, w, p, l);
      PageStepTransitive(vs, before, before[p := l], w);
      OneMoreDecided(before, before[p := l], targets, k);
    }
  }

  lemma ReadyIsLocated(vs: seq<Line>, w: Workspace)
    requires Ready(vs, w)
    ensures Located(vs, w) && AllSound(vs)
  {
  }

  lemma FrontTargets(w: Workspace, targets: seq<nat>)
    requires Targets(w, targets) && targets != []
    ensures Targets(w, targets[..|targets| - 1])
  {
  }

  /** A target is not touched before its turn. */
  lemma StillItself(vs: seq<Line>, w: Workspace, targets: seq<nat>, k: nat, texts: map<string, string>, guards: Guards)
    requires k < |targets| && Targets(w, targets) && targets[k] < |vs|
    ensures JudgedAll(vs, w, targets[..k], texts, guards)[targets[k]] == vs[targets[k]]
  {
    hide Judged;
    assert targets[k] !in targets[..k];
  }

  lemma DetachedIsReasoned(l: Line, guards: Guards, reconciled: set<LineRef>)
    ensures Detached(l, guards, reconciled).Some? ==> Detached(l, guards, reconciled).value != "" && l.corrected.Some?
  {
  }

  lemma {:induction false} OneMoreDetached(vs: seq<Line>, w: Workspace, targets: seq<nat>, k: nat, guards: Guards, reconciled: set<LineRef>,
                                           reverts: map<LineRef, string>)
    requires k < |targets| && Targets(w, targets) && Ready(vs, w) && Spots(vs, targets)
    requires Spots(vs, targets[..k]) && Detaches(vs, targets[..k], guards, reconciled, reverts)
    ensures Spots(vs, targets[..k + 1])
    ensures var l := vs[targets[k]]; var reason := Detached(l, guards, reconciled);
      Detaches(vs, targets[..k + 1], guards, reconciled, if reason.Some? then reverts[l.ref := reason.value] else reverts)
  {
    hide Detached, AllSound, NoSelfLinks, Located, Reach;
    var p, l := targets[k], vs[targets[k]];
    assert forall i | 0 <= i < k :: targets[..k + 1][i] == targets[..k][i] && targets[i] != p && vs[targets[i]].ref != l.ref;
    forall r | NamedAt(vs, targets[..k], r) ensures NamedAt(vs, targets[..k + 1], r) && r != l.ref {
      var i :| 0 <= i < k && vs[targets[..k][i]].ref == r;
      assert targets[..k + 1][i] == targets[i];
    }
    assert targets[..k + 1][k] == p;
    assert NamedAt(vs, targets[..k + 1], l.ref);
  }

  lemma PendingIsUndecided(l: Line)
    requires Sound(l)
    ensures l.corrected.None? ==> l.status.Pending?
  {
  }

  lemma SameRef(vs: seq<Line>, ws: seq<Line>, p: nat)
    requires Evolved(vs, ws) && p < |vs|
    ensures ws[p].ref == vs[p].ref
  {
    assert Evolves(vs[p], ws[p]);
  }

  lemma {:induction false} OneMoreDecided(vs: seq<Line>, ws: seq<Line>, targets: seq<nat>, k: nat)
    requires Evolved(vs, ws) && k < |targets| && targets[k] < |ws| && ws[targets[k]].corrected.Some?
    ensures AllDecided(vs, targets[..k]) ==> AllDecided(ws, targets[..k + 1])
  {
    if AllDecided(vs, targets[..k]) { StaysDecided(vs, ws, targets[..k]); }
  }

  // ----- reverts on a page's pool -----

  lemma {:induction false} PoolPlaces(vs: seq<Line>, w: Workspace)
    requires Located(vs, w)
    ensures Spots(vs, w.Pool()) && Distinct(w.Pool()) && forall p: nat :: p in w.Pool() <==> Reach(w, p)
  {
    var pool := w.Pool();
    forall k | 0 <= k < |pool| ensures pool[k] < |vs| {
      if k < |w.lines| { assert w.lines[k] in w.lines; } else { assert w.others[k - |w.lines|] in w.others; }
    }
    forall p | p in w.lines ensures p !in w.others {
      assert vs[p].ref.page == w.page;
    }
    DistinctConcat(w.lines, w.others);
  }

  /** The pool's lines that `reasons` names. */
  function InPool(vs: seq<Line>, w: Workspace, reasons: map<LineRef, string>): map<LineRef, string>
    requires Spots(vs, w.Pool())
  {
    Among(reasons, RefsOf(LinesAt(vs, w.Pool())))
  }

  lemma {:induction false} FallIsAPageStep(vs: seq<Line>, w: Workspace, reasons: map<LineRef, string>)
    requires AllSound(vs) && DistinctRefs(vs) && Located(vs, w) && V.Reasoned(reasons)
    ensures Spots(vs, w.Pool()) && PageStep(vs, Fell(vs, InPool(vs, w, reasons)), w)
  {
    hide Located, FallenBack, Sound, Evolves, SameLinks;
    PoolPlaces(vs, w);
    FellKeepsTheInvariant(vs, InPool(vs, w, reasons));
    forall k | 0 <= k < |vs| ensures SameLinks(vs[k], Fell(vs, InPool(vs, w, reasons))[k]) {
      FellKeepsLinks(vs[k], if vs[k].ref in reasons then reasons[vs[k].ref] else "");
    }
    PoolRefs(vs, w.Pool());
  }

  lemma FellKeepsLinks(l: Line, reason: string)
    ensures SameLinks(l, l) && SameLinks(l, FallenBack(l, reason))
  {
  }

  const UNIT: string := "hyphen_unit_fallback"

  /** `_revert_units`: the reverted lines fall with the whole of their units. */
  method RevertUnits(doc: array<Line>, w: Workspace, reverts: map<LineRef, string>) returns (all: map<LineRef, string>)
    requires Ready(doc[..], w) && V.Reasoned(reverts)
    modifies doc
    ensures PageStep(old(doc[..]), doc[..], w) && Spots(old(doc[..]), w.Pool())
    ensures V.Pulls(ByRef(LinesAt(old(doc[..]), w.Pool())), reverts, UNIT, all)
    ensures doc[..] == Fell(old(doc[..]), InPool(old(doc[..]), w, all))
  {
    hide Located, NoSelfLinks, U.SameUnit, Fell, V.Pulls;
    NoStep(doc[..], w);
    PoolPlaces(doc[..], w);
    if reverts == map[] {
      NothingReverted(doc[..], w);
      return map[];
    }
    all := V.ApplyUnitReverts(doc, w.Pool(), reverts, UNIT);
    PulledAreReasoned(ByRef(LinesAt(old(doc[..]), w.Pool())), reverts, UNIT, all);
    FallIsAPageStep(old(doc[..]), w, all);
  }

  lemma NothingReverted(vs: seq<Line>, w: Workspace)
    requires Spots(vs, w.Pool())
    ensures V.Pulls(ByRef(LinesAt(vs, w.Pool())), map[], UNIT, map[]) && Fell(vs, InPool(vs, w, map[])) == vs
  {
    hide ByRef;
    V.NoSeeds(ByRef(LinesAt(vs, w.Pool())));
  }

  lemma PulledAreReasoned(m: map<LineRef, Line>, reverts: map<LineRef, string>, common: string, all: map<LineRef, string>)
    requires V.Reasoned(reverts) && common != "" && V.Pulls(m, reverts, common, all)
    ensures V.Reasoned(all)
  {
    hide U.Closure;
  }

  // ----- `_finish_successful_chunk` -----

  /** What a chunk's answer does to the document: its joins are reconciled, each once
      at most; its undecided lines are judged; the members the reconciler accepted
      here that turn out detached fall back with their units. */
  ghost predicate FinishedBy(vs: seq<Line>, ws: seq<Line>, w: Workspace, targets: seq<nat>, texts: map<string, string>, guards: Guards,
                             joins: map<LineRef, Join>, order: seq<Join>, reverts: map<LineRef, string>, all: map<LineRef, string>)
    requires Located(vs, w) && Spots(vs, targets) && Spots(vs, w.Pool())
  {
    && ChunkWalk(vs, w, targets, joins, order)
    && var us := ReconcileAll(vs, order, texts, guards.judge);
      var js := JudgedAll(us, w, targets, texts, guards);
      && Detaches(us, targets, guards, NewlyDecided(vs, us, targets), reverts)
      && V.Pulls(ByRef(LinesAt(js, w.Pool())), reverts, UNIT, all)
      && ws == Fell(js, InPool(js, w, all))
  }

  ghost predicate Finished(vs: seq<Line>, ws: seq<Line>, w: Workspace, targets: seq<nat>, texts: map<string, string>, guards: Guards)
    requires Located(vs, w) && Spots(vs, targets) && Spots(vs, w.Pool())
  {
    exists joins, order, reverts, all :: FinishedBy(vs, ws, w, targets, texts, guards, joins, order, reverts, all)
  }

  /** The targets that had no text before and have one now. */
  function NewlyDecided(vs: seq<Line>, us: seq<Line>, targets: seq<nat>): set<LineRef>
    requires Spots(vs, targets) && |us| == |vs|
  {
    set k | 0 <= k < |targets| && vs[targets[k]].corrected.None? && us[targets[k]].corrected.Some? :: us[targets[k]].ref
  }

  lemma FinishIsReady(vs: seq<Line>, w: Workspace)
    requires Ready(vs, w)
    ensures AllSound(vs) && DistinctRefs(vs) && NoSelfLinks(vs) && Located(vs, w)
  {
  }

  lemma TargetsReach(w: Workspace, targets: seq<nat>)
    requires Targets(w, targets)
    ensures Distinct(targets) && forall p | p in targets :: Reach(w, p)
  {
  }

  /** A chunk whose producer answered: reconcile its joins, judge its lines, revert
      the units a refusal touches. Every line it owns is decided. */
  method FinishChunk(doc: array<Line>, w: Workspace, targets: seq<nat>, texts: map<string, string>, guards: Guards)
    requires Ready(doc[..], w) && Targets(w, targets)
    requires forall p | p in targets :: doc[p].ref.line in texts
    modifies doc
    ensures PageStep(old(doc[..]), doc[..], w) && AllDecided(doc[..], targets)
    ensures Spots(old(doc[..]), targets) && Spots(old(doc[..]), w.Pool())
    ensures Finished(old(doc[..]), doc[..], w, targets, texts, guards)
  {
    hide Ready, Located, Reach, PageStep, ChunkWalk, WalkedAll, Held, JudgedAll, Detaches, Fell, V.Pulls, ReconcileAll, Targets, OutClaim, InClaim, Claims, InPool,
         Finished, NewlyDecided, ByRef, U.Closure, Sound, DistinctRefs, NoSelfLinks, AllDecided;
    ghost var vs := doc[..];
    FinishIsReady(vs, w);
    TargetsInRange(vs, w, targets);
    TargetsReach(w, targets);
    PoolPlaces(vs, w);
    var undecided := set k | 0 <= k < |targets| && doc[targets[k]].corrected.None? :: targets[k];
    ghost var joins, order;
    joins, order := ReconcileChunk(doc, w, targets, texts, guards.judge);
    ghost var us := doc[..];
    StepKeepsReady(vs, us, w);
    SameTargets(vs, us, w, targets);
    var reconciled := set p | p in undecided && doc[p].corrected.Some? :: doc[p].ref;
    ReconciledAre(vs, us, targets, undecided, reconciled);
    var reverts := JudgeTargets(doc, w, targets, texts, guards, reconciled);
    ghost var js := doc[..];
    StepKeepsReady(us, js, w);
    ghost var all := RevertUnits(doc, w, reverts);
    PageStepTransitive(vs, us, js, w);
    PageStepTransitive(vs, js, doc[..], w);
    StepDecided(js, doc[..], w, targets);
    FinishedIs(vs, us, js, doc[..], w, targets, texts, guards, joins, order, reverts, all);
  }

  lemma ReconciledAre(vs: seq<Line>, us: seq<Line>, targets: seq<nat>, undecided: set<nat>, reconciled: set<LineRef>)
    requires Spots(vs, targets) && |us| == |vs|
    requires undecided == set k | 0 <= k < |targets| && vs[targets[k]].corrected.None? :: targets[k]
    requires forall r :: r in reconciled <==> exists p :: p in undecided && p < |us| && us[p].corrected.Some? && us[p].ref == r
    ensures reconciled == NewlyDecided(vs, us, targets)
  {
  }

  lemma FinishedIs(vs: seq<Line>, us: seq<Line>, js: seq<Line>, ws: seq<Line>, w: Workspace, targets: seq<nat>, texts: map<string, string>,
                   guards: Guards, joins: map<LineRef, Join>, order: seq<Join>, reverts: map<LineRef, string>, all: map<LineRef, string>)
    requires Located(vs, w) && Spots(vs, targets) && Spots(vs, w.Pool()) && ChunkWalk(vs, w, targets, joins, order)
    requires us == ReconcileAll(vs, order, texts, guards.judge) && js == JudgedAll(us, w, targets, texts, guards)
    requires Detaches(us, targets, guards, NewlyDecided(vs, us, targets), reverts)
    requires Spots(js, w.Pool()) && V.Pulls(ByRef(LinesAt(js, w.Pool())), reverts, UNIT, all) && ws == Fell(js, InPool(js, w, all))
    ensures Finished(vs, ws, w, targets, texts, guards)
  {
    hide Located, ChunkWalk, WalkedAll, Held, OutClaim, InClaim, Claims, ReconcileAll, JudgedAll, Detaches, V.Pulls, Fell, InPool, NewlyDecided;
    assert FinishedBy(vs, ws, w, targets, texts, guards, joins, order, reverts, all);
  }

  lemma SameTargets(vs: seq<Line>, us: seq<Line>, w: Workspace, targets: seq<nat>)
    requires PageStep(vs, us, w) && Spots(vs, targets)
    ensures |us| == |vs| && forall p: nat | p < |vs| :: us[p].ref == vs[p].ref
  {
    forall p: nat | p < |vs| ensures us[p].ref == vs[p].ref { SameRef(vs, us, p); }
  }

  lemma StepDecided(vs: seq<Line>, ws: seq<Line>, w: Workspace, targets: seq<nat>)
    requires PageStep(vs, ws, w) && AllDecided(vs, targets)
    ensures AllDecided(ws, targets)
  {
    StaysDecided(vs, ws, targets);
  }

  // ----- chunks that failed -----

  function RefsAt(vs: seq<Line>, at: seq<nat>): set<LineRef>
    requires Spots(vs, at)
  {
    set k | 0 <= k < |at| :: vs[at[k]].ref
  }

  function AllFor(refs: set<LineRef>, reason: string): (m: map<LineRef, string>)
    ensures m.Keys == refs && (reason != "" ==> V.Reasoned(m))
  {
    map r | r in refs :: reason
  }

  /** The lines of the targets' units that are pulled down with them. The source
      leaves out whatever shares a bare id with a target. */
  ghost predicate Dragged(vs: seq<Line>, w: Workspace, targets: seq<nat>, r: LineRef)
    requires Spots(vs, targets) && Spots(vs, w.Pool())
  {
    && r in U.Closure(ByRef(LinesAt(vs, w.Pool())), RefsAt(vs, targets))
    && forall k | 0 <= k < |targets| :: vs[targets[k]].ref.line != r.line
  }

  ghost function DraggedDown(vs: seq<Line>, w: Workspace, targets: seq<nat>): (m: map<LineRef, string>)
    requires Spots(vs, targets) && Spots(vs, w.Pool())
    ensures forall r :: r in m <==> Dragged(vs, w, targets, r)
    ensures V.Reasoned(m) && forall r | r in m :: m[r] == UNIT
  {
    map r | r in U.Closure(ByRef(LinesAt(vs, w.Pool())), RefsAt(vs, targets)) && Dragged(vs, w, targets, r) :: UNIT
  }

  /** `_extend_to_units`: the dragged lines fall, and no other. */
  method ExtendToUnits(doc: array<Line>, w: Workspace, targets: seq<nat>)
    requires Ready(doc[..], w) && Targets(w, targets) && Spots(doc[..], targets) && Spots(doc[..], w.Pool())
    modifies doc
    ensures PageStep(old(doc[..]), doc[..], w)
    ensures doc[..] == Fell(old(doc[..]), InPool(old(doc[..]), w, DraggedDown(old(doc[..]), w, targets)))
  {
    hide Located, NoSelfLinks, U.Closure, Fell;
    ghost var vs := doc[..];
    PoolPlaces(vs, w);
    var refs := RefsAt(doc[..], targets);
    var ids := set k | 0 <= k < |targets| :: doc[targets[k]].ref.line;
    var all := V.PullUnits(LinesAt(doc[..], w.Pool()), AllFor(refs, ""), "");
    var pulled := map r | r in all && r.line !in ids :: UNIT;
    assert pulled == DraggedDown(vs, w, targets);
    FallIsAPageStep(vs, w, pulled);
    FallNamed(doc, w.Pool(), pulled);
  }

  /** The lines at the given places, fallen; the others as they were. */
  function FallenAt(vs: seq<Line>, at: seq<nat>, reason: string): (ws: seq<Line>)
    ensures |ws| == |vs| && forall k: nat | k < |vs| :: ws[k] == if k in at then FallenBack(vs[k], reason) else vs[k]
  {
    seq(|vs|, k requires 0 <= k < |vs| => if k in at then FallenBack(vs[k], reason) else vs[k])
  }

  /** A chunk that failed: its lines fall, then the rest of their units. */
  ghost predicate ChunkFell(vs: seq<Line>, ws: seq<Line>, w: Workspace, targets: seq<nat>, reason: string)
    requires Spots(vs, targets) && Spots(vs, w.Pool())
  {
    var us := FallenAt(vs, targets, reason);
    Spots(us, targets) && Spots(us, w.Pool()) && ws == Fell(us, InPool(us, w, DraggedDown(us, w, targets)))
  }

  /** `_apply_chunk_fallback`: the targets fall, then the rest of their units. */
  method FallBackChunk(doc: array<Line>, w: Workspace, targets: seq<nat>, reason: string)
    requires Ready(doc[..], w) && Targets(w, targets) && reason != ""
    modifies doc
    ensures PageStep(old(doc[..]), doc[..], w) && AllDecided(doc[..], targets)
    ensures Spots(old(doc[..]), targets) && Spots(old(doc[..]), w.Pool())
    ensures ChunkFell(old(doc[..]), doc[..], w, targets, reason)
    ensures forall p | p in targets :: doc[p].status.Fallback?
  {
    hide Located, NoSelfLinks, Sound, Evolves, Reach, U.Closure, FallenBack, DraggedDown, Fell;
    ghost var vs := doc[..];
    TargetsInRange(vs, w, targets);
    PoolPlaces(vs, w);
    NoStep(vs, w);
    for k := 0 to |targets|
      invariant PageStep(vs, doc[..], w)
      invariant forall j: nat | j < |vs| :: doc[j] == if j in targets[..k] then FallenBack(vs[j], reason) else vs[j]
    {
      ghost var before := doc[..];
      assert targets[..k + 1] == targets[..k] + [targets[k]] && targets[k] !in targets[..k];
      FallBack(doc, targets[k], reason);
      VerbsKeepTheInvariant(before[targets[k]], "", reason);
      OneLineStep(before, w, targets[k], FallenBack(before[targets[k]], reason));
      PageStepTransitive(vs, before, doc[..], w);
    }
    ghost var us := doc[..];
    assert targets[..|targets|] == targets && us == FallenAt(vs, targets, reason);
    StepKeepsReady(vs, us, w);
    ExtendToUnits(doc, w, targets);
    PageStepTransitive(vs, us, doc[..], w);
    forall k | 0 <= k < |targets| ensures doc[targets[k]].status.Fallback? && doc[targets[k]].corrected.Some? {
      assert targets[k] in targets;
      FallenBackFell(vs[targets[k]], reason);
      StaysFallen(us, doc[..], targets[k]);
    }
  }

  /** Back at its source text. */
  predicate Down(l: Line) {
    l.status.Fallback? && l.corrected == Some(l.ocr)
  }

  /** `p` is a line of the pool in one unit with one of the targets. */
  ghost predicate InTheirUnits(vs: seq<Line>, w: Workspace, targets: seq<nat>, p: nat)
    requires Spots(vs, targets) && Spots(vs, w.Pool())
  {
    p < |vs| && p in w.Pool() && vs[p].ref in U.Closure(ByRef(LinesAt(vs, w.Pool())), RefsAt(vs, targets))
  }

  /** ... and is none of them, but has the bare id of one. */
  ghost predicate Namesake(vs: seq<Line>, w: Workspace, targets: seq<nat>, p: nat)
    requires Spots(vs, targets) && Spots(vs, w.Pool())
  {
    && InTheirUnits(vs, w, targets, p) && p !in targets
    && exists k :: 0 <= k < |targets| && vs[targets[k]].ref.line == vs[p].ref.line
  }

  /** A failed chunk takes its whole units down exactly when every other member that
      shares a bare id with one of the chunk's lines was down already. */
  lemma {:induction false} UnitFallsWholeIff(vs: seq<Line>, ws: seq<Line>, w: Workspace, targets: seq<nat>, reason: string)
    requires Spots(vs, targets) && Spots(vs, w.Pool()) && DistinctRefs(vs) && ChunkFell(vs, ws, w, targets, reason)
    ensures |ws| == |vs|
    ensures (forall p: nat | InTheirUnits(vs, w, targets, p) :: Down(ws[p]))
       <==> (forall p: nat | Namesake(vs, w, targets, p) :: Down(vs[p]))
  {
    hide U.Closure, ByRef, Namesake;
    forall p: nat | InTheirUnits(vs, w, targets, p)
      ensures if Namesake(vs, w, targets, p) then ws[p] == vs[p] else Down(ws[p])
    {
      MemberAfterTheFall(vs, ws, w, targets, reason, p);
    }
    forall p: nat | Namesake(vs, w, targets, p) ensures InTheirUnits(vs, w, targets, p) { NamesakeIsAMember(vs, w, targets, p); }
  }

  lemma NamesakeIsAMember(vs: seq<Line>, w: Workspace, targets: seq<nat>, p: nat)
    requires Spots(vs, targets) && Spots(vs, w.Pool()) && Namesake(vs, w, targets, p)
    ensures InTheirUnits(vs, w, targets, p)
  {
  }

  /** What a chunk's failure makes of one member of its units. */
  lemma {:induction false} MemberAfterTheFall(vs: seq<Line>, ws: seq<Line>, w: Workspace, targets: seq<nat>, reason: string, p: nat)
    requires Spots(vs, targets) && Spots(vs, w.Pool()) && DistinctRefs(vs) && ChunkFell(vs, ws, w, targets, reason)
    requires InTheirUnits(vs, w, targets, p)
    ensures |ws| == |vs|
    ensures if Namesake(vs, w, targets, p) then ws[p] == vs[p] else Down(ws[p])
  {
    hide U.Closure, ByRef, Dragged;
    var us := FallenAt(vs, targets, reason);
    SameUnitsAfterTheFall(vs, w, targets, reason);
    DraggedAfterTheFall(vs, w, targets, reason, p);
    if p in targets { var k :| 0 <= k < |targets| && targets[k] == p; }
  }

  /** A member of the targets' units is dragged down unless a target has its bare id. */
  lemma {:induction false} DraggedAfterTheFall(vs: seq<Line>, w: Workspace, targets: seq<nat>, reason: string, p: nat)
    requires Spots(vs, targets) && Spots(vs, w.Pool()) && InTheirUnits(vs, w, targets, p)
    ensures var us := FallenAt(vs, targets, reason);
      us[p].ref == vs[p].ref && Spots(us, targets)
      && (Dragged(us, w, targets, us[p].ref) <==> forall k | 0 <= k < |targets| :: vs[targets[k]].ref.line != vs[p].ref.line)
  {
    hide U.Closure, ByRef;
    var us := FallenAt(vs, targets, reason);
    SameUnitsAfterTheFall(vs, w, targets, reason);
    assert us[p].ref == vs[p].ref;
    assert forall k | 0 <= k < |targets| :: us[targets[k]].ref == vs[targets[k]].ref;
  }

  lemma {:induction false} SameUnitsAfterTheFall(vs: seq<Line>, w: Workspace, targets: seq<nat>, reason: string)
    requires Spots(vs, targets) && Spots(vs, w.Pool())
    ensures var us := FallenAt(vs, targets, reason);
      && RefsAt(us, targets) == RefsAt(vs, targets)
      && U.Closure(ByRef(LinesAt(us, w.Pool())), RefsAt(us, targets)) == U.Closure(ByRef(LinesAt(vs, w.Pool())), RefsAt(vs, targets))
  {
    hide U.Closure, ByRef, U.Links;
    var us := FallenAt(vs, targets, reason);
    assert forall k | 0 <= k < |targets| :: us[targets[k]].ref == vs[targets[k]].ref;
    U.SamePointersSameUnits(LinesAt(vs, w.Pool()), LinesAt(us, w.Pool()));
  }

  lemma FallenBackFell(l: Line, reason: string)
    ensures FallenBack(l, reason).status.Fallback?
  {
  }

  lemma StaysFallen(vs: seq<Line>, ws: seq<Line>, p: nat)
    requires AllSound(vs) && Evolved(vs, ws) && p < |vs| && vs[p].status.Fallback?
    ensures ws[p].status.Fallback? && ws[p].corrected.Some?
  {
    assert Sound(vs[p]) && Evolves(vs[p], ws[p]);
  }

  /** `_absorb_chunk_error`: the undecided targets and their whole units fall, for
      one and the same reason; decided lines outside those units keep their
      decision. */
  method AbsorbChunkError(doc: array<Line>, w: Workspace, targets: seq<nat>, reason: string) returns (fell: bool, ghost undecided: seq<nat>)
    requires Ready(doc[..], w) && Targets(w, targets) && reason != ""
    modifies doc
    ensures PageStep(old(doc[..]), doc[..], w) && AllDecided(doc[..], targets)
    ensures Spots(old(doc[..]), undecided) && Spots(old(doc[..]), w.Pool())
    ensures forall p :: p in undecided <==> p in targets && old(doc[p]).status.Pending?
    ensures fell <==> undecided != []
    ensures doc[..] == Fell(old(doc[..]), InPool(old(doc[..]), w,
      AllFor(U.Closure(ByRef(LinesAt(old(doc[..]), w.Pool())), RefsAt(old(doc[..]), undecided)), reason)))
  {
    hide Ready, Located, U.Closure, Fell, Sound, PageStep, InPool, ByRef, Targets, AllFor, AllSound, DistinctRefs;
    ghost var vs := doc[..];
    FinishIsReady(vs, w);
    TargetsInRange(vs, w, targets);
    PoolPlaces(vs, w);
    var left := PendingOf(doc, targets);
    undecided := left;
    fell := left != [];
    if left == [] {
      NoneToFall(vs, w, reason);
      NoStep(vs, w);
    } else {
      FallWithUnits(doc, w, left, reason);
    }
    forall k | 0 <= k < |targets| ensures doc[targets[k]].corrected.Some? {
      AbsorbedIsDecided(vs, doc[..], w, targets, left, reason, k);
    }
  }

  /** The given lines and the whole of their units fall, for one reason. */
  method FallWithUnits(doc: array<Line>, w: Workspace, left: seq<nat>, reason: string)
    requires Ready(doc[..], w) && Spots(doc[..], left) && Spots(doc[..], w.Pool()) && reason != ""
    modifies doc
    ensures PageStep(old(doc[..]), doc[..], w)
    ensures doc[..] == Fell(old(doc[..]), InPool(old(doc[..]), w,
      AllFor(U.Closure(ByRef(LinesAt(old(doc[..]), w.Pool())), RefsAt(old(doc[..]), left)), reason)))
  {
    hide Located, U.Closure, Fell, Sound, PageStep, InPool, ByRef, V.Pulls;
    ghost var vs := doc[..];
    var all := V.PullUnits(LinesAt(doc[..], w.Pool()), AllFor(RefsAt(doc[..], left), reason), reason);
    PulledAlike(ByRef(LinesAt(vs, w.Pool())), RefsAt(vs, left), reason, all);
    FallIsAPageStep(vs, w, all);
    FallInPool(doc, w, all);
  }

  method FallInPool(doc: array<Line>, w: Workspace, reasons: map<LineRef, string>)
    requires DistinctRefs(doc[..]) && Located(doc[..], w) && Spots(doc[..], w.Pool())
    modifies doc
    ensures doc[..] == Fell(old(doc[..]), InPool(old(doc[..]), w, reasons))
  {
    hide Located, Fell;
    PoolPlaces(doc[..], w);
    FallNamed(doc, w.Pool(), reasons);
  }

  method PendingOf(doc: array<Line>, targets: seq<nat>) returns (left: seq<nat>)
    requires Spots(doc[..], targets)
    ensures Spots(doc[..], left) && forall p :: p in left <==> p in targets && doc[p].status.Pending?
  {
    left := [];
    for k := 0 to |targets|
      invariant Spots(doc[..], left) && forall p :: p in left <==> p in targets[..k] && doc[p].status.Pending?
    {
      assert targets[..k + 1] == targets[..k] + [targets[k]];
      if doc[targets[k]].status.Pending? { left := left + [targets[k]]; }
    }
    assert targets[..|targets|] == targets;
  }

  lemma NoneToFall(vs: seq<Line>, w: Workspace, reason: string)
    requires Spots(vs, w.Pool())
    ensures Fell(vs, InPool(vs, w, AllFor(U.Closure(ByRef(LinesAt(vs, w.Pool())), RefsAt(vs, [])), reason))) == vs
  {
    hide ByRef, U.Closure;
    assert RefsAt(vs, []) == {};
    V.NoSeeds(ByRef(LinesAt(vs, w.Pool())));
  }

  lemma PulledAlike(m: map<LineRef, Line>, refs: set<LineRef>, reason: string, all: map<LineRef, string>)
    requires V.Pulls(m, AllFor(refs, reason), reason, all) && reason != ""
    ensures all == AllFor(U.Closure(m, refs), reason) && V.Reasoned(all)
  {
    hide U.Closure;
  }

  lemma {:induction false} AbsorbedIsDecided(vs: seq<Line>, ws: seq<Line>, w: Workspace, targets: seq<nat>, left: seq<nat>, reason: string, k: nat)
    requires AllSound(vs) && DistinctRefs(vs) && Located(vs, w) && Targets(w, targets) && Spots(vs, left) && Spots(vs, w.Pool()) && k < |targets|
    requires forall p :: p in left <==> p in targets && p < |vs| && vs[p].status.Pending?
    requires ws == Fell(vs, InPool(vs, w, AllFor(U.Closure(ByRef(LinesAt(vs, w.Pool())), RefsAt(vs, left)), reason)))
    ensures targets[k] < |ws| && ws[targets[k]].corrected.Some?
  {
    hide Located, U.Closure, ByRef;
    var p := targets[k];
    assert p in targets;
    PoolPlaces(vs, w);
    TargetsInRange(vs, w, targets);
    assert Sound(vs[p]);
    if vs[p].status.Pending? {
      var i :| 0 <= i < |left| && left[i] == p;
      U.ClosureIsExtensive(ByRef(LinesAt(vs, w.Pool())), RefsAt(vs, left));
      assert vs[left[i]].ref in RefsAt(vs, left);
      PoolRefs(vs, w.Pool());
    }
  }
}

/** The document-wide passes that act on whole units (`acceptance.py`): reverts
    and referrals. */
module Reverts {
  import opened Prelude
  import opened Manifest
  import opened Decide
  import U = Units

  // ----- pulling a unit in -----

  /** `to_revert` / `to_refer`: what was flagged keeps its own entry, the rest of
      each flagged line's unit gets the common one. */
  ghost predicate Pulls<T>(m: map<LineRef, Line>, flagged: map<LineRef, T>, common: T, all: map<LineRef, T>) {
    && all.Keys == U.Closure(m, flagged.Keys)
    && (forall r | r in flagged :: all[r] == flagged[r])
    && forall r | r in all && r !in flagged :: all[r] == common
  }

  /** The flagged lines and the rest of their units. */
  method PullUnits<T(!new)>(lines: seq<Line>, flagged: map<LineRef, T>, common: T) returns (all: map<LineRef, T>)
    ensures Pulls(ByRef(lines), flagged, common, all)
  {
    hide U.IsGrouping, U.SameUnit, U.Closure, ByRef;
    var groups := U.DeriveHyphenGroups(lines);
    var byLine := U.GroupByLine(groups);
    ghost var m := ByRef(lines);
    all := flagged;
    var left := flagged.Keys;
    ghost var done: set<LineRef> := {};
    NoSeeds(m);
    while left != {}
      invariant left + done == flagged.Keys && left !! done
      invariant all.Keys == flagged.Keys + U.Closure(m, done)
      invariant (forall r | r in flagged :: all[r] == flagged[r]) && forall r | r in all && r !in flagged :: all[r] == common
      decreases left
    {
      var ref :| ref in left;
      left := left - {ref};
      U.OneSeed(m, groups, byLine, done, ref);
      done := done + {ref};
      if ref in byLine {
        all := (map r | r in byLine[ref].members :: common) + all;
      }
    }
    assert done == flagged.Keys;
    U.ClosureIsExtensive(m, flagged.Keys);
  }

  lemma NoSeeds(m: map<LineRef, Line>)
    ensures U.Closure(m, {}) == {}
  {
  }

  // ----- `_apply_unit_reverts` -----

  ghost predicate Reasoned(reverts: map<LineRef, string>) {
    forall r | r in reverts :: reverts[r] != ""
  }

  /** Revert the flagged lines, each with its whole unit; the other lines of the
      document do not change. */
  method ApplyUnitReverts(doc: array<Line>, pool: seq<nat>, reverts: map<LineRef, string>, atomicity: string)
    returns (toRevert: map<LineRef, string>)
    requires DistinctRefs(doc[..]) && Spots(doc[..], pool) && Distinct(pool)
    modifies doc
    ensures Pulls(ByRef(LinesAt(old(doc[..]), pool)), reverts, atomicity, toRevert)
    ensures doc[..] == Fell(old(doc[..]), Among(toRevert, RefsOf(LinesAt(old(doc[..]), pool))))
  {
    hide Pulls, Fell, FallenBack;
    toRevert := PullUnits(LinesAt(doc[..], pool), reverts, atomicity);
    FallNamed(doc, pool, toRevert);
  }

  /** A revert keeps the run's invariant. */
  lemma {:induction false} RevertsKeepTheInvariant(vs: seq<Line>, pool: seq<nat>, reverts: map<LineRef, string>, atomicity: string,
                                                   toRevert: map<LineRef, string>)
    requires AllSound(vs) && Spots(vs, pool) && Reasoned(reverts) && atomicity != ""
    requires Pulls(ByRef(LinesAt(vs, pool)), reverts, atomicity, toRevert)
    ensures var ws := Fell(vs, Among(toRevert, RefsOf(LinesAt(vs, pool)))); AllSound(ws) && Evolved(vs, ws)
  {
    hide U.Closure, ByRef, Fell;
    FellKeepsTheInvariant(vs, Among(toRevert, RefsOf(LinesAt(vs, pool))));
  }

  /** Reverts are unit-atomic: once one member of a unit is flagged, every member
      of it in the pool is at its source text, and so no unit is left half
      reverted by the pass. */
  lemma {:induction false} RevertsAreUnitAtomic(vs: seq<Line>, pool: seq<nat>, reverts: map<LineRef, string>, atomicity: string,
                                                toRevert: map<LineRef, string>, x: LineRef, k: nat)
    requires DistinctRefs(vs) && Spots(vs, pool) && Pulls(ByRef(LinesAt(vs, pool)), reverts, atomicity, toRevert)
    requires x in reverts && k < |pool|
    requires var m := ByRef(LinesAt(vs, pool)); x in m && U.SameUnit(m, x, vs[pool[k]].ref)
    ensures var l := Fell(vs, Among(toRevert, RefsOf(LinesAt(vs, pool))))[pool[k]];
      l.status.Fallback? && l.corrected == Some(l.ocr) && (vs[pool[k]].reason != "" ==> l.reason == vs[pool[k]].reason)
  {
    hide U.SameUnit, ByRef;
    var ls := LinesAt(vs, pool);
    ByRefKeys(ls);
    assert ls[k] in ls;
    assert ls[k].ref in RefsOf(ls);
    assert ls[k].ref in U.Closure(ByRef(ls), reverts.Keys);
  }

  // ----- `_review_pass` -----

  function ReferredAll(l: Line, reasons: seq<string>): Line
    decreases |reasons|
  {
    if reasons == [] then l else Referred(ReferredAll(l, reasons[..|reasons| - 1]), reasons[|reasons| - 1])
  }

  /** Only a correction that stands is referred. */
  function Reviewed(vs: seq<Line>, toRefer: map<LineRef, seq<string>>): (ws: seq<Line>)
    ensures |ws| == |vs|
    ensures forall k | 0 <= k < |vs| ::
      ws[k] == if vs[k].ref in toRefer && vs[k].status.Corrected? then ReferredAll(vs[k], toRefer[vs[k].ref]) else vs[k]
  {
    seq(|vs|, k requires 0 <= k < |vs| =>
      if vs[k].ref in toRefer && vs[k].status.Corrected? then ReferredAll(vs[k], toRefer[vs[k].ref]) else vs[k])
  }

  method ReferAll(doc: array<Line>, p: nat, reasons: seq<string>) returns (refused: bool)
    requires p < doc.Length && doc[p].status.Corrected?
    modifies doc
    ensures !refused && doc[..] == old(doc[..])[p := ReferredAll(old(doc[p]), reasons)]
  {
    hide Referred;
    ghost var l := doc[p];
    for i := 0 to |reasons|
      invariant doc[..] == old(doc[..])[p := ReferredAll(l, reasons[..i])]
    {
      assert reasons[..i + 1][..i] == reasons[..i];
      StillReferable(l, reasons[..i]);
      refused := Refer(doc, p, reasons[i]);
      if refused { return; }
    }
    assert reasons[..|reasons|] == reasons;
    refused := false;
  }

  lemma {:induction false} StillReferable(l: Line, reasons: seq<string>)
    requires l.status.Corrected?
    ensures var r := ReferredAll(l, reasons); r.status.Corrected? || r.status.ReviewRequired?
  {
    if reasons != [] { StillReferable(l, reasons[..|reasons| - 1]); }
  }

  /** `_review_pass`: the referrals the rules found, with their units; the verb
      never refuses. */
  method ReviewPass(doc: array<Line>, enabled: bool, referrals: map<LineRef, seq<string>>) returns (toRefer: map<LineRef, seq<string>>, refused: bool)
    requires DistinctRefs(doc[..])
    modifies doc
    ensures !refused
    ensures !enabled || referrals == map[] ==> doc[..] == old(doc[..])
    ensures enabled && referrals != map[] ==>
      && Pulls(ByRef(old(doc[..])), referrals, ["hyphen_unit_review"], toRefer)
      && doc[..] == Reviewed(old(doc[..]), toRefer)
  {
    hide Pulls, ReferredAll;
    toRefer, refused := map[], false;
    if !enabled || referrals == map[] { return; }
    toRefer := PullUnits(doc[..], referrals, ["hyphen_unit_review"]);
    ghost var vs := doc[..];
    for p := 0 to doc.Length
      invariant !refused && forall k | p <= k < |vs| :: doc[k] == vs[k]
      invariant forall k | 0 <= k < p :: doc[k] == Reviewed(vs, toRefer)[k]
    {
      if doc[p].ref in toRefer && doc[p].status.Corrected? {
        refused := ReferAll(doc, p, toRefer[doc[p].ref]);
      }
    }
  }

  /** Review is text-stable: whatever the policy refers, no line's text, reason or
      source changes, a status moves only from CORRECTED to REVIEW_REQUIRED, and
      the invariant stands. */
  lemma {:induction false} ReviewChangesNoText(vs: seq<Line>, toRefer: map<LineRef, seq<string>>, k: nat)
    requires k < |vs|
    ensures var ws := Reviewed(vs, toRefer);
      && ws[k].corrected == vs[k].corrected && ws[k].ocr == vs[k].ocr && ws[k].reason == vs[k].reason && ws[k].ref == vs[k].ref
      && (ws[k].status == vs[k].status || (vs[k].status.Corrected? && ws[k].status.ReviewRequired?))
      && (Sound(vs[k]) ==> Sound(ws[k])) && Evolves(vs[k], ws[k])
  {
    hide ReferredAll;
    if vs[k].ref in toRefer && vs[k].status.Corrected? { ReferredKeepsText(vs[k], toRefer[vs[k].ref]); }
  }

  lemma {:induction false} ReferredKeepsText(l: Line, reasons: seq<string>)
    requires l.status.Corrected?
    ensures var r := ReferredAll(l, reasons);
      && r.(status := l.status, reviews := l.reviews) == l && (r.status.Corrected? || r.status.ReviewRequired?)
      && l.reviews <= r.reviews && (reasons != [] ==> r.status.ReviewRequired? && r.reviews != []) && (reasons == [] ==> r == l)
  {
    if reasons != [] { ReferredKeepsText(l, reasons[..|reasons| - 1]); }
  }
}

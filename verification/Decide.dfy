/** The four decision verbs (`decide.py`) and what every state of a run keeps. */
module Decide {
  import opened Prelude
  import opened Manifest

  // ----- the verbs -----

  function Accepted(l: Line, text: string): Line {
    l.(corrected := Some(text), status := Corrected)
  }

  /** The text and the status are written whatever they were; the reason only when
      there is none yet. */
  function FallenBack(l: Line, reason: string): Line {
    l.(corrected := Some(l.ocr), status := Fallback, reason := if l.reason == "" then reason else l.reason)
  }

  function Referred(l: Line, reason: string): Line {
    l.(status := ReviewRequired, reviews := if reason in l.reviews then l.reviews else l.reviews + [reason])
  }

  function Renormalised(l: Line, text: string): Line {
    l.(corrected := Some(text))
  }

  /** `accept`. */
  method Accept(doc: array<Line>, p: nat, text: string)
    requires p < doc.Length
    modifies doc
    ensures doc[..] == old(doc[..])[p := Accepted(old(doc[p]), text)]
  {
    doc[p] := doc[p].(corrected := Some(text));
    doc[p] := doc[p].(status := Corrected);
  }

  /** `fall_back`. */
  method FallBack(doc: array<Line>, p: nat, reason: string)
    requires p < doc.Length
    modifies doc
    ensures doc[..] == old(doc[..])[p := FallenBack(old(doc[p]), reason)]
  {
    doc[p] := doc[p].(corrected := Some(doc[p].ocr));
    doc[p] := doc[p].(status := Fallback);
    if doc[p].reason == "" { doc[p] := doc[p].(reason := reason); }
  }

  /** Refuses a line that carries no correction. */
  method Refer(doc: array<Line>, p: nat, reason: string) returns (refused: bool)
    requires p < doc.Length
    modifies doc
    ensures refused <==> !old(doc[p]).status.Corrected? && !old(doc[p]).status.ReviewRequired?
    ensures doc[..] == if refused then old(doc[..]) else old(doc[..])[p := Referred(old(doc[p]), reason)]
  {
    if !doc[p].status.Corrected? && !doc[p].status.ReviewRequired? { return true; }
    doc[p] := doc[p].(status := ReviewRequired);
    if reason !in doc[p].reviews { doc[p] := doc[p].(reviews := doc[p].reviews + [reason]); }
    refused := false;
  }

  /** `renormalise`: the spelling of a decision, not the decision. */
  method Renormalise(doc: array<Line>, p: nat, text: string)
    requires p < doc.Length
    modifies doc
    ensures doc[..] == old(doc[..])[p := Renormalised(old(doc[p]), text)]
  {
    doc[p] := doc[p].(corrected := Some(text));
  }

  // ----- the invariant -----

  /** A line is undecided exactly when it has no text; a fallen line carries its
      source text and a reason; a reason belongs to a fallen line. */
  predicate Sound(l: Line) {
    && (l.status.Pending? <==> l.corrected.None?)
    && (l.status.Fallback? ==> l.corrected == Some(l.ocr))
    && (l.status.ReviewRequired? ==> l.reviews != [])
    && (l.status.Fallback? <==> l.reason != "")
    && !l.status.Failed?
  }

  /** The hyphen links a line carries, and its role in them. */
  predicate SameLinks(a: Line, b: Line) {
    && a.role == b.role && a.pairLine == b.pairLine && a.pairPage == b.pairPage
    && a.fwdLine == b.fwdLine && a.fwdPage == b.fwdPage
  }

  /** No link is invented: each slot is cleared or holds what a slot of the line held. */
  predicate KeepsLinks(a: Line, b: Line) {
    && (b.pairLine == "" || (b.pairLine == a.pairLine && b.pairPage == a.pairPage) || (b.pairLine == a.fwdLine && b.pairPage == a.fwdPage))
    && (b.fwdLine == "" || (b.fwdLine == a.fwdLine && b.fwdPage == a.fwdPage))
  }

  /** What no step of a run may undo: who the line is, that it is decided, that it
      fell, the first reason it fell for, and the reasons to review it. */
  predicate Evolves(a: Line, b: Line) {
    && a.ref == b.ref && a.block == b.block && a.order == b.order && a.ocr == b.ocr
    && a.wordCount == b.wordCount && a.sourceWords == b.sourceWords
    && (a.corrected.Some? ==> b.corrected.Some?)
    && (a.status.Fallback? ==> b.status.Fallback? && b.corrected == a.corrected)
    && (a.reason != "" ==> b.reason == a.reason)
    && a.reviews <= b.reviews && KeepsLinks(a, b)
  }

  ghost predicate AllSound(vs: seq<Line>) {
    forall k | 0 <= k < |vs| :: Sound(vs[k])
  }

  ghost predicate Evolved(vs: seq<Line>, ws: seq<Line>) {
    |vs| == |ws| && forall k | 0 <= k < |vs| :: Evolves(vs[k], ws[k])
  }

  lemma {:induction false} EvolvedReflexive(vs: seq<Line>)
    ensures Evolved(vs, vs)
  {
  }

  lemma {:induction false} EvolvedTransitive(us: seq<Line>, vs: seq<Line>, ws: seq<Line>)
    requires Evolved(us, vs) && Evolved(vs, ws)
    ensures Evolved(us, ws)
  {
    forall k | 0 <= k < |us| ensures Evolves(us[k], ws[k]) {
      assert Evolves(us[k], vs[k]) && Evolves(vs[k], ws[k]);
    }
  }

  /** One line may change if it evolves into a sound line. */
  lemma {:induction false} OneLineMoves(vs: seq<Line>, p: nat, l: Line)
    requires p < |vs| && AllSound(vs) && Sound(l) && Evolves(vs[p], l)
    ensures AllSound(vs[p := l]) && Evolved(vs, vs[p := l])
  {
    hide Sound, Evolves;
    forall k | 0 <= k < |vs| ensures Evolves(vs[k], vs[p := l][k]) {
      if k != p { EvolvesToItself(vs[k]); }
    }
  }

  lemma EvolvesToItself(l: Line)
    ensures Evolves(l, l)
  {
  }

  /** What each verb needs of a line to keep the invariant: accepting needs a line
      that has not fallen, falling back only a reason, referring a correction, and
      respelling a decided line that has not fallen. */
  lemma VerbsKeepTheInvariant(l: Line, text: string, reason: string)
    requires Sound(l)
    ensures !l.status.Fallback? ==> Sound(Accepted(l, text)) && Evolves(l, Accepted(l, text))
    ensures reason != "" ==> Sound(FallenBack(l, reason)) && Evolves(l, FallenBack(l, reason))
    ensures l.status.Corrected? || l.status.ReviewRequired? ==> Sound(Referred(l, reason)) && Evolves(l, Referred(l, reason))
    ensures l.corrected.Some? && !l.status.Fallback? ==> Sound(Renormalised(l, text)) && Evolves(l, Renormalised(l, text))
    ensures SameLinks(l, Accepted(l, text)) && SameLinks(l, FallenBack(l, reason))
  {
  }

  /** Accepting a fallen line would break it: the condition is exact. */
  lemma AcceptKeepsIff(l: Line, text: string)
    requires Sound(l)
    ensures Sound(Accepted(l, text)) && Evolves(l, Accepted(l, text)) <==> !l.status.Fallback?
  {
  }

  // ----- lines by reference -----

  ghost predicate DistinctRefs(vs: seq<Line>) {
    forall i, j | 0 <= i < j < |vs| :: vs[i].ref != vs[j].ref
  }

  /** The lines named by `reasons`, fallen; the others as they were. */
  function Fell(vs: seq<Line>, reasons: map<LineRef, string>): (ws: seq<Line>)
    ensures |ws| == |vs|
    ensures forall k | 0 <= k < |vs| :: ws[k] == if vs[k].ref in reasons then FallenBack(vs[k], reasons[vs[k].ref]) else vs[k]
  {
    seq(|vs|, k requires 0 <= k < |vs| => if vs[k].ref in reasons then FallenBack(vs[k], reasons[vs[k].ref]) else vs[k])
  }

  lemma {:induction false} FellKeepsTheInvariant(vs: seq<Line>, reasons: map<LineRef, string>)
    requires AllSound(vs) && forall r | r in reasons :: reasons[r] != ""
    ensures AllSound(Fell(vs, reasons)) && Evolved(vs, Fell(vs, reasons))
  {
    hide FallenBack, Sound, Evolves;
    forall k | 0 <= k < |vs| ensures Sound(Fell(vs, reasons)[k]) && Evolves(vs[k], Fell(vs, reasons)[k]) {
      EvolvesToItself(vs[k]);
      if vs[k].ref in reasons { VerbsKeepTheInvariant(vs[k], "", reasons[vs[k].ref]); }
    }
  }

  /** The positions of a list of lines, and the lines at them. */
  function LinesAt(vs: seq<Line>, at: seq<nat>): (ls: seq<Line>)
    requires forall k | 0 <= k < |at| :: at[k] < |vs|
    ensures |ls| == |at| && forall k | 0 <= k < |at| :: ls[k] == vs[at[k]]
  {
    seq(|at|, k requires 0 <= k < |at| => vs[at[k]])
  }

  ghost predicate Spots(vs: seq<Line>, at: seq<nat>) {
    forall k | 0 <= k < |at| :: at[k] < |vs|
  }

  function Among(reasons: map<LineRef, string>, refs: set<LineRef>): map<LineRef, string> {
    map r | r in reasons && r in refs :: reasons[r]
  }

  /** Fall back every line of the pool that `reasons` names. */
  method FallNamed(doc: array<Line>, pool: seq<nat>, reasons: map<LineRef, string>)
    requires DistinctRefs(doc[..]) && Spots(doc[..], pool)
    requires Distinct(pool)
    modifies doc
    ensures doc[..] == Fell(old(doc[..]), Among(reasons, RefsOf(LinesAt(old(doc[..]), pool))))
  {
    hide FallenBack;
    ghost var vs := doc[..];
    for i := 0 to |pool|
      invariant forall k | 0 <= k < |vs| && k !in pool[..i] :: doc[k] == vs[k]
      invariant forall k | 0 <= k < |vs| && k in pool[..i] ::
        doc[k] == if vs[k].ref in reasons then FallenBack(vs[k], reasons[vs[k].ref]) else vs[k]
    {
      var p := pool[i];
      assert p !in pool[..i];
      assert pool[..i + 1] == pool[..i] + [p];
      if doc[p].ref in reasons { FallBack(doc, p, reasons[doc[p].ref]); }
    }
    assert pool[..|pool|] == pool;
    PoolRefs(vs, pool);
  }

  lemma {:induction false} PoolRefs(vs: seq<Line>, pool: seq<nat>)
    requires DistinctRefs(vs) && Spots(vs, pool)
    ensures forall k: nat | k < |vs| :: k in pool <==> vs[k].ref in RefsOf(LinesAt(vs, pool))
  {
    var ls := LinesAt(vs, pool);
    forall k: nat | k < |vs| ensures k in pool <==> vs[k].ref in RefsOf(ls) {
      if k in pool { var i :| 0 <= i < |pool| && pool[i] == k; assert ls[i] in ls; }
      if vs[k].ref in RefsOf(ls) {
        var l :| l in ls && l.ref == vs[k].ref;
        var i :| 0 <= i < |ls| && ls[i] == l;
        assert vs[pool[i]].ref == vs[k].ref;
      }
    }
  }
}

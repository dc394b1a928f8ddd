/** `_build_final_edit_script` (`report.py`): the script of what a run applied, and
    what replaying it page by page gives back. */
module Replay {
  import opened Prelude
  import opened Manifest
  import opened Editing
  import opened LineEdits
  import opened Scripts
  import D = EditDistance

  /** A line's terminal decision (`decisions.py`). */
  datatype Decision = Decision(ref: LineRef, source: string, final: string, status: Status, reason: string, reviews: seq<string>) {
    predicate CarriesACorrection() {
      status.Corrected? || status.ReviewRequired?
    }
  }

  /** A target's ops and the text they produced, as the attempt captured them. */
  datatype Capture = Capture(ops: seq<Op>, produced: string)

  // ----- building the script -----

  function Stamp(op: Op, page: string): Op {
    op.(page := Some(page))
  }

  function StampAll(ops: seq<Op>, page: string): (r: seq<Op>)
    ensures |r| == |ops| && forall k | 0 <= k < |ops| :: r[k] == Stamp(ops[k], page)
  {
    seq(|ops|, k requires 0 <= k < |ops| => Stamp(ops[k], page))
  }

  /** The ops one decision contributes. */
  function OpsOf(d: Decision, captured: map<LineRef, Capture>): seq<Op> {
    if !d.CarriesACorrection() || d.ref !in captured then []
    else if captured[d.ref].produced == d.final then StampAll(captured[d.ref].ops, d.ref.page)
    else [ReplaceLine(d.ref.line, Some(d.ref.page), d.final)]
  }

  function FinalOps(ds: seq<Decision>, captured: map<LineRef, Capture>): seq<Op> {
    if ds == [] then [] else FinalOps(ds[..|ds| - 1], captured) + OpsOf(ds[|ds| - 1], captured)
  }

  function FinalPreconditions(ds: seq<Decision>, captured: map<LineRef, Capture>, digest: Digest): seq<LinePrecondition> {
    if ds == [] then []
    else
      var front, d := FinalPreconditions(ds[..|ds| - 1], captured, digest), ds[|ds| - 1];
      if d.CarriesACorrection() && d.ref in captured
      then front + [LinePrecondition(d.ref.line, Some(d.ref.page), digest(d.source))] else front
  }

  function FinalScript(ds: seq<Decision>, captured: map<LineRef, Capture>, digest: Digest): EditScript {
    EditScript(FinalOps(ds, captured), Some(PROTOCOL), FinalPreconditions(ds, captured, digest))
  }

  /** `_build_final_edit_script`. */
  method BuildFinalEditScript(ds: seq<Decision>, captured: map<LineRef, Capture>, digest: Digest) returns (script: EditScript)
    ensures script == FinalScript(ds, captured, digest)
  {
    var ops: seq<Op>, preconditions: seq<LinePrecondition> := [], [];
    for i := 0 to |ds|
      invariant ops == FinalOps(ds[..i], captured)
      invariant preconditions == FinalPreconditions(ds[..i], captured, digest)
    {
      var d := ds[i];
      assert ds[..i + 1][..i] == ds[..i];
      if !d.CarriesACorrection() { continue; }
      if d.ref !in captured { continue; }
      preconditions := preconditions + [LinePrecondition(d.ref.line, Some(d.ref.page), digest(d.source))];
      var capture := captured[d.ref];
      if capture.produced == d.final {
        ops := ops + StampAll(capture.ops, d.ref.page);
      } else {
        ops := ops + [ReplaceLine(d.ref.line, Some(d.ref.page), d.final)];
      }
    }
    assert ds[..|ds|] == ds;
    script := EditScript(ops, Some(PROTOCOL), preconditions);
  }

  // ----- stamping changes no result -----

  lemma {:induction false} StampedSnoc(ops: seq<Op>, page: string)
    requires ops != []
    ensures StampAll(ops, page)[..|ops| - 1] == StampAll(ops[..|ops| - 1], page)
  {
  }

  lemma LineOpsSnoc(ops: seq<Op>)
    requires ops != []
    ensures LineOps(ops) == LineOps(ops[..|ops| - 1]) + if ops[|ops| - 1].ReplaceLine? then [ops[|ops| - 1]] else []
    ensures SpanOps(ops) == SpanOps(ops[..|ops| - 1]) + if ops[|ops| - 1].ReplaceSpan? then [ops[|ops| - 1]] else []
  {
  }

  lemma StampedConcat(a: seq<Op>, b: seq<Op>, page: string)
    ensures StampAll(a + b, page) == StampAll(a, page) + StampAll(b, page)
  {
  }

  lemma {:induction false} StampedLineOps(ops: seq<Op>, page: string)
    ensures LineOps(StampAll(ops, page)) == StampAll(LineOps(ops), page)
    ensures SpanOps(StampAll(ops, page)) == StampAll(SpanOps(ops), page)
  {
    if ops != [] {
      var front, last := ops[..|ops| - 1], ops[|ops| - 1];
      StampedSnoc(ops, page);
      StampedLineOps(front, page);
      LineOpsSnoc(ops);
      LineOpsSnoc(StampAll(ops, page));
      hide LineOps, SpanOps;
      StampedConcat(LineOps(front), if last.ReplaceLine? then [last] else [], page);
      StampedConcat(SpanOps(front), if last.ReplaceSpan? then [last] else [], page);
      assert StampAll([last], page) == [Stamp(last, page)] && StampAll([], page) == [];
    }
  }

  lemma {:induction false} StampedAdmitted(spanOps: seq<Op>, page: string, canonical: string, guard: Guard)
    requires forall o | o in spanOps :: o.ReplaceSpan?
    ensures forall o | o in StampAll(spanOps, page) :: o.ReplaceSpan?
    ensures Admitted(StampAll(spanOps, page), canonical, guard) == Admitted(spanOps, canonical, guard)
  {
    hide Resolve, HasNewline;
    var stamped := StampAll(spanOps, page);
    forall o | o in stamped ensures o.ReplaceSpan? {
      var k :| 0 <= k < |stamped| && stamped[k] == o;
      assert spanOps[k] in spanOps;
    }
    if spanOps != [] {
      StampedSnoc(spanOps, page);
      StampedAdmitted(spanOps[..|spanOps| - 1], page, canonical, guard);
      assert stamped[|spanOps| - 1] in stamped && spanOps[|spanOps| - 1] in spanOps;
    }
  }

  lemma {:induction false} StampedResult(ops: seq<Op>, page: string, role: Role, canonical: string, guard: Guard)
    ensures LineResult(StampAll(ops, page), role, canonical, guard) == LineResult(ops, role, canonical, guard)
  {
    hide Admitted, Selected, Cost, Weave, HyphenOk, BoundaryWordKept, Blank, HasNewline, LineOps, SpanOps, D.Changed;
    StampedLineOps(ops, page);
    StampedAdmitted(SpanOps(ops), page, canonical, guard);
  }

  // ----- what a run captures -----

  /** A blank answer to a blank line is recorded as the empty text. */
  predicate SameReading(text: string, produced: string) {
    text == produced || (Blank(text) && Blank(produced))
  }

  /** A capture of a line: its one whole-line op, or span ops that all applied. */
  ghost predicate Faithful(capture: Capture, line: string, role: Role, source: string, guard: Guard) {
    && capture.ops != [] && (forall k | 0 <= k < |capture.ops| :: capture.ops[k].line == line)
    && if LineOps(capture.ops) != []
       then |capture.ops| == 1 && capture.ops[0].ReplaceLine? && SameReading(capture.ops[0].text, capture.produced)
       else LineResult(capture.ops, role, source, guard) == Some(capture.produced)
  }

  /** The checks replay makes of a whole-line text when it knows no roles. */
  predicate PassesWhole(source: string, text: string, guard: Guard) {
    !HasNewline(text) && !Blank(text) && D.Changed(source, text) <= guard.maxChanged
  }

  lemma WholeOpResult(op: Op, source: string, guard: Guard)
    requires op.ReplaceLine?
    ensures LineResult([op], NoRole, source, guard) == if PassesWhole(source, op.text, guard) then Some(op.text) else None
  {
    hide D.Changed, Blank, HasNewline;
    assert [op][..0] == [];
    assert SpanOps([]) == [] && LineOps([]) == [];
    assert LineOps([op]) == [op] && SpanOps([op]) == [];
  }

  lemma BlankFailsWhole(source: string, text: string, guard: Guard)
    ensures Blank(text) ==> !PassesWhole(source, text, guard)
  {
    hide D.Changed, HasNewline;
  }

  /** Does the run's own op survive unchanged as spans? */
  ghost predicate SpansSurvive(d: Decision, capture: Capture) {
    capture.produced == d.final && LineOps(capture.ops) == []
  }

  lemma {:induction false} OwnOpsReplay(d: Decision, captured: map<LineRef, Capture>, role: Role, guard: Guard)
    requires d.CarriesACorrection() && d.ref in captured && Faithful(captured[d.ref], d.ref.line, role, d.source, guard)
    ensures LineResult(OpsOf(d, captured), NoRole, d.source, guard)
      == if SpansSurvive(d, captured[d.ref]) || PassesWhole(d.source, d.final, guard) then Some(d.final) else None
  {
    hide LineResult, PassesWhole, Blank;
    var capture := captured[d.ref];
    if capture.produced == d.final {
      StampedResult(capture.ops, d.ref.page, NoRole, d.source, guard);
      if LineOps(capture.ops) == [] {
        RolesOnlyRefuse(capture.ops, role, d.source, guard);
      } else {
        assert capture.ops == [capture.ops[0]];
        WholeOpResult(capture.ops[0], d.source, guard);
        BlankFailsWhole(d.source, capture.ops[0].text, guard);
        BlankFailsWhole(d.source, d.final, guard);
      }
    } else {
      WholeOpResult(ReplaceLine(d.ref.line, Some(d.ref.page), d.final), d.source, guard);
    }
  }

  // ----- one line's ops in the whole script -----

  ghost predicate DistinctRefs(ds: seq<Decision>) {
    forall i, j | 0 <= i < j < |ds| :: ds[i].ref != ds[j].ref
  }

  ghost predicate CapturesOwnLine(ds: seq<Decision>, captured: map<LineRef, Capture>) {
    forall i, k | 0 <= i < |ds| && ds[i].ref in captured && 0 <= k < |captured[ds[i].ref].ops| ::
      captured[ds[i].ref].ops[k].line == ds[i].ref.line
  }

  lemma {:induction false} OpsForConcat(a: seq<Op>, b: seq<Op>, page: Option<string>, line: string)
    ensures OpsFor(a + b, page, line) == OpsFor(a, page, line) + OpsFor(b, page, line)
    decreases |b|
  {
    if b == [] {
      assert a + b == a;
    } else {
      OpsForConcat(a, b[..|b| - 1], page, line);
      assert (a + b)[..|a + b| - 1] == a + b[..|b| - 1];
    }
  }

  lemma {:induction false} AllInScope(ops: seq<Op>, page: string, line: string)
    requires forall k | 0 <= k < |ops| :: ops[k].page == Some(page) && ops[k].line == line
    ensures OpsFor(ops, Some(page), line) == ops
  {
    if ops == [] {
      NoOps(Some(page), line);
    } else {
      var n := |ops| - 1;
      AllInScope(ops[..n], page, line);
      InScopeSnoc(ops[..n], ops[n], page, line);
      assert ops[..n] + [ops[n]] == ops;
    }
  }

  lemma InScopeSnoc(front: seq<Op>, last: Op, page: string, line: string)
    requires last.page == Some(page) && last.line == line && OpsFor(front, Some(page), line) == front
    ensures OpsFor(front + [last], Some(page), line) == front + [last]
  {
    assert (front + [last])[..|front|] == front;
  }

  lemma NoOps(page: Option<string>, line: string)
    ensures OpsFor([], page, line) == []
  {
  }

  lemma {:induction false} NoneInScope(ops: seq<Op>, page: string, line: string)
    requires forall k | 0 <= k < |ops| :: ops[k].page.Some? && (ops[k].page != Some(page) || ops[k].line != line)
    ensures OpsFor(ops, Some(page), line) == []
  {
    if ops == [] {
      NoOps(Some(page), line);
    } else {
      hide OpsFor;
      var n := |ops| - 1;
      NoneInScope(ops[..n], page, line);
      OpsForSnoc(ops, Some(page), n, line);
      assert ops[..n + 1] == ops;
    }
  }

  lemma {:induction false} OpsOfDecision(d: Decision, captured: map<LineRef, Capture>, page: string, line: string)
    requires d.ref in captured ==> forall k | 0 <= k < |captured[d.ref].ops| :: captured[d.ref].ops[k].line == d.ref.line
    ensures OpsFor(OpsOf(d, captured), Some(page), line) == if d.ref == LineRef(page, line) then OpsOf(d, captured) else []
  {
    hide OpsFor;
    var ops := OpsOf(d, captured);
    assert forall k | 0 <= k < |ops| :: ops[k].page == Some(d.ref.page) && ops[k].line == d.ref.line;
    if d.ref == LineRef(page, line) { AllInScope(ops, page, line); } else { NoneInScope(ops, page, line); }
  }

  /** On its page a line meets exactly its own ops and its own digest, whatever
      lines of other pages share its id. */
  lemma {:induction false} OwnOpsOnly(ds: seq<Decision>, captured: map<LineRef, Capture>, digest: Digest, i: nat)
    requires i < |ds| && DistinctRefs(ds) && CapturesOwnLine(ds, captured)
    ensures OpsFor(FinalOps(ds, captured), Some(ds[i].ref.page), ds[i].ref.line) == OpsOf(ds[i], captured)
    ensures OpsOf(ds[i], captured) != [] ==>
      RecordedDigest(FinalPreconditions(ds, captured, digest), Some(ds[i].ref.page), ds[i].ref.line) == Some(digest(ds[i].source))
  {
    hide OpsFor, OpsOf, RecordedDigest, FinalOps, FinalPreconditions;
    var n, page, line := |ds| - 1, ds[i].ref.page, ds[i].ref.line;
    FinalSnoc(ds, captured, digest, page, line);
    assert ds[n].ref == LineRef(page, line) <==> i == n;
    if i < n {
      OwnOpsOnly(ds[..n], captured, digest, i);
      assert OpsOf(ds[i], captured) + [] == OpsOf(ds[i], captured);
    } else {
      ElsewhereOnly(ds[..n], captured, page, line);
      CarriesOps(ds[n], captured);
      assert [] + OpsOf(ds[n], captured) == OpsOf(ds[n], captured);
    }
  }

  /** What the last decision adds for one line. */
  lemma {:induction false} FinalSnoc(ds: seq<Decision>, captured: map<LineRef, Capture>, digest: Digest, page: string, line: string)
    requires ds != [] && CapturesOwnLine(ds, captured)
    ensures var n := |ds| - 1; var mine := ds[n].ref == LineRef(page, line);
      && OpsFor(FinalOps(ds, captured), Some(page), line)
         == OpsFor(FinalOps(ds[..n], captured), Some(page), line) + (if mine then OpsOf(ds[n], captured) else [])
      && RecordedDigest(FinalPreconditions(ds, captured, digest), Some(page), line)
         == if mine && ds[n].CarriesACorrection() && ds[n].ref in captured then Some(digest(ds[n].source))
            else RecordedDigest(FinalPreconditions(ds[..n], captured, digest), Some(page), line)
  {
    hide OpsFor, OpsOf;
    var n := |ds| - 1;
    OpsForConcat(FinalOps(ds[..n], captured), OpsOf(ds[n], captured), Some(page), line);
    OpsOfDecision(ds[n], captured, page, line);
  }

  lemma CarriesOps(d: Decision, captured: map<LineRef, Capture>)
    ensures OpsOf(d, captured) != [] ==> d.CarriesACorrection() && d.ref in captured
  {
  }

  lemma {:induction false} ElsewhereOnly(ds: seq<Decision>, captured: map<LineRef, Capture>, page: string, line: string)
    requires CapturesOwnLine(ds, captured) && forall i | 0 <= i < |ds| :: ds[i].ref != LineRef(page, line)
    ensures OpsFor(FinalOps(ds, captured), Some(page), line) == []
  {
    hide OpsOf;
    if ds != [] {
      var n := |ds| - 1;
      OpsForConcat(FinalOps(ds[..n], captured), OpsOf(ds[n], captured), Some(page), line);
      OpsOfDecision(ds[n], captured, page, line);
      ElsewhereOnly(ds[..n], captured, page, line);
    }
  }

  // ----- the round trip -----

  /** The page as a consumer replays it: source texts, no roles. */
  ghost predicate IsPage(target: Target, ds: seq<Decision>, page: string) {
    && target.page == Some(page) && target.editable.None? && target.roles == map[]
    && (forall i | 0 <= i < |ds| && ds[i].ref.page == page ::
          ds[i].ref.line in target.canonical && target.canonical[ds[i].ref.line] == ds[i].source)
  }

  /** Replaying the final script on a page gives a line its final text exactly when
      it carries a correction that came from spans or passes the whole-line
      checks, and leaves every other line, a fallen one above all, alone. */
  lemma {:induction false} ReplayGivesTheFinalText(ds: seq<Decision>, captured: map<LineRef, Capture>, digest: Digest, guard: Guard,
                                                   target: Target, i: nat, role: Role)
    requires i < |ds| && DistinctRefs(ds) && CapturesOwnLine(ds, captured) && IsPage(target, ds, ds[i].ref.page)
    requires ds[i].ref in captured ==> Faithful(captured[ds[i].ref], ds[i].ref.line, role, ds[i].source, guard)
    ensures Outcome(FinalScript(ds, captured, digest), target, digest, guard, ds[i].ref.line)
      == if ds[i].CarriesACorrection() && ds[i].ref in captured
            && (SpansSurvive(ds[i], captured[ds[i].ref]) || PassesWhole(ds[i].source, ds[i].final, guard))
         then Some(ds[i].final) else None
  {
    hide OpsFor, LineResult, RecordedDigest, FinalOps, FinalPreconditions, PassesWhole, SpansSurvive, Faithful;
    OwnOpsOnly(ds, captured, digest, i);
    if ds[i].CarriesACorrection() && ds[i].ref in captured {
      OwnOpsReplay(ds[i], captured, role, guard);
      HasOps(ds[i], captured, role, guard);
    }
  }

  lemma HasOps(d: Decision, captured: map<LineRef, Capture>, role: Role, guard: Guard)
    requires d.CarriesACorrection() && d.ref in captured && Faithful(captured[d.ref], d.ref.line, role, d.source, guard)
    ensures OpsOf(d, captured) != []
  {
  }

  /** ... and a line of the page nothing was decided of gets nothing. */
  lemma {:induction false} OtherLinesAreLeftAlone(ds: seq<Decision>, captured: map<LineRef, Capture>, digest: Digest, guard: Guard,
                                                  target: Target, page: string, line: string)
    requires CapturesOwnLine(ds, captured) && target.page == Some(page) && forall i | 0 <= i < |ds| :: ds[i].ref != LineRef(page, line)
    ensures Outcome(FinalScript(ds, captured, digest), target, digest, guard, line) == None
    ensures !Refused(FinalScript(ds, captured, digest), target, digest, guard, line)
  {
    hide OpsFor, LineResult, RecordedDigest, FinalOps, FinalPreconditions, AllStand;
    ElsewhereOnly(ds, captured, page, line);
  }
}

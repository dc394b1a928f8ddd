/** One line's verdict and a whole script's application (`editing.py`). */
module LineEdits {
  import opened Prelude
  import opened Manifest
  import opened Editing
  import D = EditDistance

  // ----- E5: the hyphen checks -----

  predicate IsBreakMark(c: char) {
    c in {'-', '\U{ac}', '\U{2e17}', '\U{ad}', '\U{2010}', '\U{2011}'}
  }

  /** `str.rstrip`, of spaces and of break marks. */
  function RStrip(text: string): string {
    if text != "" && IsSpace(text[|text| - 1]) then RStrip(text[..|text| - 1]) else text
  }

  function RStripMarks(text: string): string {
    if text != "" && IsBreakMark(text[|text| - 1]) then RStripMarks(text[..|text| - 1]) else text
  }

  predicate EndsWithMark(text: string) {
    var stripped := RStrip(text);
    stripped != "" && IsBreakMark(stripped[|stripped| - 1])
  }

  /** `_e5_hyphen_ok`. */
  predicate HyphenOk(role: Role, result: string, source: string) {
    role.Part1? || role.Both? ==>
      && EndsWithMark(result)
      && var before := RStripMarks(RStrip(result));
      && before != ""
      && (IsSpace(before[|before| - 1]) ==>
            var kept := RStripMarks(RStrip(source)); kept != "" && kept[|kept| - 1] == ' ')
  }

  function SkipSpaces(text: string, from: nat): (at: nat)
    requires from <= |text|
    ensures from <= at <= |text|
    decreases |text| - from
  {
    if from < |text| && IsSpace(text[from]) then SkipSpaces(text, from + 1) else from
  }

  function SkipWord(text: string, from: nat): (at: nat)
    requires from <= |text|
    ensures from <= at <= |text|
    decreases |text| - from
  {
    if from < |text| && !IsSpace(text[from]) then SkipWord(text, from + 1) else from
  }

  /** `_e5b_boundary_word_kept`: no span erases the first word. */
  predicate BoundaryWordKept(role: Role, canonical: string, accepted: seq<Span>) {
    role.Part2? || role.Both? ==>
      var start := SkipSpaces(canonical, 0);
      start < |canonical| ==>
        forall k | 0 <= k < |accepted| ::
          !(accepted[k].start <= start && accepted[k].end >= SkipWord(canonical, start) && Blank(accepted[k].text))
  }

  // ----- one line -----

  function LineOps(ops: seq<Op>): (r: seq<Op>)
    ensures forall o | o in r :: o in ops && o.ReplaceLine?
  {
    if ops == [] then []
    else
      var front, last := LineOps(ops[..|ops| - 1]), ops[|ops| - 1];
      if last.ReplaceLine? then front + [last] else front
  }

  function SpanOps(ops: seq<Op>): (r: seq<Op>)
    ensures forall o | o in r :: o in ops && o.ReplaceSpan?
  {
    if ops == [] then []
    else
      var front, last := SpanOps(ops[..|ops| - 1]), ops[|ops| - 1];
      if last.ReplaceSpan? then front + [last] else front
  }

  /** `_whole_line_verdict`. */
  function WholeLine(lineOps: seq<Op>, spanOps: seq<Op>, role: Role, canonical: string, guard: Guard): Result<string, Reason>
    requires lineOps != []
  {
    var text := lineOps[0].text;
    if |lineOps| > 1 || spanOps != [] then Err(Conflict)
    else if HasNewline(text) then Err(Newline)
    else if Blank(text) then Err(Empty)
    else if D.Changed(canonical, text) > guard.maxChanged then Err(DriftBudget)
    else if !HyphenOk(role, text, canonical) then Err(Hyphen)
    else Ok(text)
  }

  /** One span op against the canonical text: its range, or why it is refused. */
  function Admit(op: Op, canonical: string, guard: Guard): (r: Result<Span, Reason>)
    requires op.ReplaceSpan?
    ensures r.Ok? ==> r.value.start <= r.value.end <= |canonical| && !HasNewline(r.value.text)
  {
    if HasNewline(op.text) then Err(Newline)
    else
      var range := Resolve(op.anchor, canonical);
      if range.Err? then Err(range.error)
      else
        ResolvedAnchor(op.anchor, canonical);
        var (start, end) := range.value;
        if |op.text| as real > guard.growth * (D.Max(1, end - start) as real) then Err(DriftRatio)
        else Ok(Span(start, end, op.text))
  }

  function Admitted(spanOps: seq<Op>, canonical: string, guard: Guard): (spans: seq<Span>)
    requires forall o | o in spanOps :: o.ReplaceSpan?
    ensures InRange(canonical, spans) && forall s | s in spans :: !HasNewline(s.text)
  {
    if spanOps == [] then []
    else
      var front, one := Admitted(spanOps[..|spanOps| - 1], canonical, guard), Admit(spanOps[|spanOps| - 1], canonical, guard);
      if one.Ok? then front + [one.value] else front
  }

  /** The characters a line's spans change. */
  function Cost(canonical: string, spans: seq<Span>): nat
    requires InRange(canonical, spans)
  {
    if spans == [] then 0
    else Cost(canonical, spans[..|spans| - 1]) + CostOf(canonical, spans[|spans| - 1])
  }

  function CostOf(canonical: string, s: Span): nat
    requires s.start <= s.end <= |canonical|
  {
    D.Changed(canonical[s.start..s.end], s.text)
  }

  /** The spans the filter keeps, in order. */
  function Selected(canonical: string, admitted: seq<Span>): (kept: seq<Span>)
    requires InRange(canonical, admitted)
    ensures InRange(canonical, kept) && Separated(kept)
    ensures forall s | s in kept :: s in admitted
  {
    OrderKeepsRange(canonical, admitted);
    KeptIsSeparated(canonical, InOrder(admitted));
    PermutationFacts(admitted, InOrder(admitted));
    Kept(InOrder(admitted))
  }

  /** What the spans come to, or why they may not stand. */
  function SpanVerdict(spanOps: seq<Op>, role: Role, canonical: string, guard: Guard): Result<string, Reason>
    requires forall o | o in spanOps :: o.ReplaceSpan?
  {
    var kept := Selected(canonical, Admitted(spanOps, canonical, guard));
    if kept == [] then Err(NotFound)
    else if Cost(canonical, kept) > guard.maxChanged then Err(DriftBudget)
    else
      var result := Weave(canonical, kept, 0);
      if Blank(result) then Err(Empty)
      else if !HyphenOk(role, result, canonical) then Err(Hyphen)
      else if !BoundaryWordKept(role, canonical, kept) then Err(BoundaryWord)
      else Ok(result)
  }

  /** What `_apply_line_ops` makes of a line. */
  function LineResult(ops: seq<Op>, role: Role, canonical: string, guard: Guard): Option<string> {
    var verdict := if LineOps(ops) != [] then WholeLine(LineOps(ops), SpanOps(ops), role, canonical, guard)
                   else SpanVerdict(SpanOps(ops), role, canonical, guard);
    if verdict.Ok? then Some(verdict.value) else None
  }

  // ----- what an accepted line edit guarantees -----

  /** Two parallel edits after a common start cost no more than their sum. */
  lemma {:induction false} LevJoin(l: string, x: string, y: string, r: string, r': string)
    ensures D.Lev(l + x + r, l + y + r') <= D.Lev(x, y) + D.Lev(r, r')
  {
    hide D.Lev;
    D.LevPrefix(l, x, y);
    D.LevConcat(l + x, l + y, r, r');
  }

  lemma {:induction false} CostAtLeastLev(canonical: string, s: Span)
    requires s.start <= s.end <= |canonical|
    ensures D.Lev(canonical[s.start..s.end], s.text) <= CostOf(canonical, s)
  {
    hide D.Lev, D.Changed;
    D.ChangedBoundsLev(canonical[s.start..s.end], s.text);
  }

  ghost function CostFrom(canonical: string, spans: seq<Span>): nat
    requires InRange(canonical, spans)
  {
    if spans == [] then 0 else CostOf(canonical, spans[0]) + CostFrom(canonical, spans[1..])
  }

  lemma {:induction false} CostEitherWay(canonical: string, spans: seq<Span>)
    requires InRange(canonical, spans)
    ensures Cost(canonical, spans) == CostFrom(canonical, spans)
    decreases |spans|
  {
    hide CostOf;
    if |spans| > 1 {
      var n := |spans| - 1;
      CostEitherWay(canonical, spans[1..]);
      CostEitherWay(canonical, spans[..n]);
      CostEitherWay(canonical, spans[1..][..n - 1]);
      assert spans[1..][..n - 1] == spans[..n][1..];
    }
  }

  lemma {:induction false} WeaveWithinCost(canonical: string, spans: seq<Span>, from: nat)
    requires from <= |canonical| && InRange(canonical, spans) && Separated(spans)
    requires spans != [] ==> from <= spans[0].start
    ensures D.Lev(canonical[from..], Weave(canonical, spans, from)) <= CostFrom(canonical, spans)
    decreases |spans|
  {
    hide D.Lev, CostOf;
    if spans == [] {
      D.LevBounds(canonical[from..], canonical[from..]);
    } else {
      var first, rest := spans[0], spans[1..];
      WeaveCons(canonical, spans, from);
      hide Weave;
      WeaveWithinCost(canonical, rest, first.end);
      CostAtLeastLev(canonical, first);
      LevJoin(canonical[from..first.start], canonical[first.start..first.end], first.text,
              canonical[first.end..], Weave(canonical, rest, first.end));
      assert canonical[from..] == canonical[from..first.start] + canonical[first.start..first.end] + canonical[first.end..];
    }
  }

  /** However a line is edited, an accepted result is at most the E4 budget away
      from its source in edit distance, and never blank. */
  lemma {:induction false} AcceptedIsWithinBudget(ops: seq<Op>, role: Role, canonical: string, guard: Guard)
    requires LineResult(ops, role, canonical, guard).Some?
    ensures var text := LineResult(ops, role, canonical, guard).value;
      D.Lev(canonical, text) <= guard.maxChanged && !Blank(text)
  {
    hide *;
    if LineOps(ops) != [] {
      WholeLineFacts(ops, role, canonical, guard);
      D.ChangedBoundsLev(canonical, LineOps(ops)[0].text);
    } else {
      SpanFacts(ops, role, canonical, guard);
      var kept := Selected(canonical, Admitted(SpanOps(ops), canonical, guard));
      WeaveWithinCost(canonical, kept, 0);
      CostEitherWay(canonical, kept);
      assert canonical[0..] == canonical;
    }
  }

  lemma WholeLineFacts(ops: seq<Op>, role: Role, canonical: string, guard: Guard)
    requires LineOps(ops) != [] && LineResult(ops, role, canonical, guard).Some?
    ensures var text := LineOps(ops)[0].text;
      && LineResult(ops, role, canonical, guard) == Some(text) && D.Changed(canonical, text) <= guard.maxChanged
      && !Blank(text) && !HasNewline(text)
  {
    hide D.Changed, Blank, HasNewline, HyphenOk;
  }

  lemma SpanFacts(ops: seq<Op>, role: Role, canonical: string, guard: Guard)
    requires LineOps(ops) == [] && LineResult(ops, role, canonical, guard).Some?
    ensures var kept := Selected(canonical, Admitted(SpanOps(ops), canonical, guard));
      && Cost(canonical, kept) <= guard.maxChanged
      && LineResult(ops, role, canonical, guard) == Some(Weave(canonical, kept, 0))
      && !Blank(Weave(canonical, kept, 0)) && forall k | 0 <= k < |kept| :: !HasNewline(kept[k].text)
  {
    hide Weave, Cost, HyphenOk, BoundaryWordKept, Selected, Admitted, Blank, HasNewline;
    var kept := Selected(canonical, Admitted(SpanOps(ops), canonical, guard));
    forall k | 0 <= k < |kept| ensures !HasNewline(kept[k].text) { assert kept[k] in kept; }
  }

  /** The hyphen checks only ever refuse: without roles the same text stands. */
  lemma {:induction false} RolesOnlyRefuse(ops: seq<Op>, role: Role, canonical: string, guard: Guard)
    requires LineResult(ops, role, canonical, guard).Some?
    ensures LineResult(ops, NoRole, canonical, guard) == LineResult(ops, role, canonical, guard)
  {
    hide Weave, Selected, Cost, HyphenOk, BoundaryWordKept, LineOps, SpanOps, Admitted;
    var kept := Selected(canonical, Admitted(SpanOps(ops), canonical, guard));
    NoRoleNoCheck(if LineOps(ops) != [] then LineOps(ops)[0].text else Weave(canonical, kept, 0), canonical, kept);
  }

  lemma NoRoleNoCheck(result: string, canonical: string, kept: seq<Span>)
    ensures HyphenOk(NoRole, result, canonical) && BoundaryWordKept(NoRole, canonical, kept)
  {
  }

  /** A one-line source stays one line. */
  lemma {:induction false} AcceptedIsOneLine(ops: seq<Op>, role: Role, canonical: string, guard: Guard)
    requires !HasNewline(canonical) && LineResult(ops, role, canonical, guard).Some?
    ensures !HasNewline(LineResult(ops, role, canonical, guard).value)
  {
    hide *;
    if LineOps(ops) == [] {
      SpanFacts(ops, role, canonical, guard);
      WeaveOneLine(canonical, Selected(canonical, Admitted(SpanOps(ops), canonical, guard)), 0);
    } else {
      WholeLineFacts(ops, role, canonical, guard);
    }
  }

  lemma {:induction false} WeaveOneLine(canonical: string, spans: seq<Span>, from: nat)
    requires from <= |canonical| && InRange(canonical, spans) && Separated(spans) && !HasNewline(canonical)
    requires spans != [] ==> from <= spans[0].start
    requires forall k | 0 <= k < |spans| :: !HasNewline(spans[k].text)
    ensures !HasNewline(Weave(canonical, spans, from))
    decreases |spans|
  {
    if spans == [] {
      NoNewlineInPart(canonical, from, |canonical|);
    } else {
      WeaveCons(canonical, spans, from);
      hide Weave;
      var first, rest := spans[0], spans[1..];
      WeaveOneLine(canonical, rest, first.end);
      NoNewlineInPart(canonical, from, first.start);
      hide HasNewline;
      NoNewlineJoined(canonical[from..first.start], first.text);
      NoNewlineJoined(canonical[from..first.start] + first.text, Weave(canonical, rest, first.end));
    }
  }

  lemma NoNewlineInPart(text: string, from: nat, to: nat)
    requires from <= to <= |text| && !HasNewline(text)
    ensures !HasNewline(text[from..to])
  {
  }

  lemma NoNewlineJoined(a: string, b: string)
    requires !HasNewline(a) && !HasNewline(b)
    ensures !HasNewline(a + b)
  {
  }

  // ----- `_apply_line_ops` -----

  ghost predicate AllOf(rejected: seq<Rejection>, line: string) {
    forall k | 0 <= k < |rejected| :: rejected[k].line == line
  }

  /** The first loop: the spans that pass on their own. */
  method AdmitAll(line: string, spanOps: seq<Op>, canonical: string, guard: Guard)
    returns (normalized: seq<Span>, rejected: seq<Rejection>)
    requires forall o | o in spanOps :: o.ReplaceSpan?
    ensures normalized == Admitted(spanOps, canonical, guard)
    ensures AllOf(rejected, line) && |normalized| + |rejected| == |spanOps|
  {
    hide HasNewline, Resolve;
    normalized, rejected := [], [];
    for i := 0 to |spanOps|
      invariant forall o | o in spanOps[..i] :: o.ReplaceSpan?
      invariant normalized == Admitted(spanOps[..i], canonical, guard)
      invariant AllOf(rejected, line) && |normalized| + |rejected| == i
    {
      var sp := spanOps[i];
      assert sp in spanOps;
      assert spanOps[..i + 1][..i] == spanOps[..i];
      if HasNewline(sp.text) {
        rejected := rejected + [Rejection(line, sp, Newline)];
        continue;
      }
      var range := NormalizeAnchor(sp.anchor, canonical);
      if range.Err? {
        rejected := rejected + [Rejection(line, sp, range.error)];
        continue;
      }
      ResolvedAnchor(sp.anchor, canonical);
      var (start, end) := range.value;
      if |sp.text| as real > guard.growth * (D.Max(1, end - start) as real) {
        rejected := rejected + [Rejection(line, sp, DriftRatio)];
        continue;
      }
      normalized := normalized + [Span(start, end, sp.text)];
    }
    assert spanOps[..|spanOps|] == spanOps;
  }

  /** The second loop: overlaps out, and the characters the rest changes. */
  method FilterOverlaps(line: string, sorted: seq<Span>, canonical: string)
    returns (accepted: seq<Span>, changed: nat, rejected: seq<Rejection>)
    requires InRange(canonical, sorted)
    ensures accepted == Kept(sorted) && InRange(canonical, accepted) && changed == Cost(canonical, accepted)
    ensures AllOf(rejected, line) && |accepted| + |rejected| == |sorted|
  {
    hide CostOf, Cost, Separated;
    NoCost(canonical);
    accepted, changed, rejected := [], 0, [];
    var prevStart: int, prevEnd: int := -1, -1;
    for i := 0 to |sorted|
      invariant accepted == Kept(sorted[..i]) && InRange(canonical, accepted) && changed == Cost(canonical, accepted)
      invariant AllOf(rejected, line) && |accepted| + |rejected| == i
      invariant if accepted == [] then prevStart == -1 && prevEnd == -1
                else prevStart == accepted[|accepted| - 1].start && prevEnd == accepted[|accepted| - 1].end
    {
      var s := sorted[i];
      assert sorted[..i + 1][..i] == sorted[..i];
      if s.start < prevEnd || s.start == prevStart {
        rejected := rejected + [Rejection(line, ReplaceSpan(line, None, s.text, Range(s.start, s.end)), Overlap)];
        continue;
      }
      var n := CharsChanged(canonical, s);
      OneCostMore(canonical, accepted, s);
      accepted := accepted + [s];
      changed := changed + n;
      prevStart, prevEnd := s.start, s.end;
    }
    assert sorted[..|sorted|] == sorted;
  }

  lemma NoCost(canonical: string)
    ensures Cost(canonical, []) == 0
  {
  }

  method CharsChanged(canonical: string, s: Span) returns (n: nat)
    requires s.start <= s.end <= |canonical|
    ensures n == CostOf(canonical, s)
  {
    n := D.ChangedChars(canonical[s.start..s.end], s.text);
    CostIsWindow(canonical, s);
    D.OneWindow(canonical[s.start..s.end], s.text, n, CostOf(canonical, s));
  }

  lemma OneCostMore(canonical: string, accepted: seq<Span>, s: Span)
    requires InRange(canonical, accepted) && s.start <= s.end <= |canonical|
    ensures InRange(canonical, accepted + [s]) && Cost(canonical, accepted + [s]) == Cost(canonical, accepted) + CostOf(canonical, s)
  {
    hide CostOf;
    assert (accepted + [s])[..|accepted|] == accepted;
  }

  lemma CostIsWindow(canonical: string, s: Span)
    requires s.start <= s.end <= |canonical|
    ensures D.IsWindow(canonical[s.start..s.end], s.text, CostOf(canonical, s))
  {
  }

  /** Every op of the line made it into its text. */
  ghost predicate AllStand(ops: seq<Op>, role: Role, canonical: string, guard: Guard) {
    LineResult(ops, role, canonical, guard).Some? && (LineOps(ops) == [] ==> AllSpansApplied(ops, canonical, guard))
  }

  /** `_apply_line_ops`: the text a line gets, or none; and there is a rejection
      exactly when some op was dropped. */
  method ApplyLineOps(line: string, ops: seq<Op>, role: Role, canonical: string, guard: Guard)
    returns (text: Option<string>, rejected: seq<Rejection>)
    ensures text == LineResult(ops, role, canonical, guard)
    ensures AllOf(rejected, line) && (ops != [] ==> (rejected == [] <==> AllStand(ops, role, canonical, guard)))
  {
    hide LineOps, SpanOps, WholeLine, SpanVerdict, LineResult, Selected, Admitted, AllSpansApplied;
    var lineOps, spanOps := LineOps(ops), SpanOps(ops);
    OneKind(ops);
    if lineOps != [] {
      var verdict := WholeLine(lineOps, spanOps, role, canonical, guard);
      WholeLineResult(ops, role, canonical, guard);
      if verdict.Err? { return None, [Rejection(line, lineOps[0], verdict.error)]; }
      return Some(verdict.value), [];
    }
    SpanLineResult(ops, role, canonical, guard);
    text, rejected := ApplySpanOps(line, spanOps, role, canonical, guard);
    AllApplied(ops, canonical, guard, |rejected|);
  }

  lemma WholeLineResult(ops: seq<Op>, role: Role, canonical: string, guard: Guard)
    requires LineOps(ops) != []
    ensures LineResult(ops, role, canonical, guard) == AsText(WholeLine(LineOps(ops), SpanOps(ops), role, canonical, guard))
  {
    hide WholeLine;
  }

  lemma SpanLineResult(ops: seq<Op>, role: Role, canonical: string, guard: Guard)
    requires LineOps(ops) == []
    ensures LineResult(ops, role, canonical, guard) == AsText(SpanVerdict(SpanOps(ops), role, canonical, guard))
  {
    hide SpanVerdict;
  }

  function AsText(verdict: Result<string, Reason>): Option<string> {
    if verdict.Ok? then Some(verdict.value) else None
  }

  /** The span path: normalise, filter, budget, substitute, check. */
  method ApplySpanOps(line: string, spanOps: seq<Op>, role: Role, canonical: string, guard: Guard)
    returns (text: Option<string>, rejected: seq<Rejection>)
    requires forall o | o in spanOps :: o.ReplaceSpan?
    ensures text == AsText(SpanVerdict(spanOps, role, canonical, guard))
    ensures AllOf(rejected, line) && (spanOps != [] && text.None? ==> rejected != [])
    ensures text.Some? ==> |Selected(canonical, Admitted(spanOps, canonical, guard))| + |rejected| == |spanOps|
  {
    hide HyphenOk, BoundaryWordKept, Blank, Cost, Weave, Admitted, Kept, InOrder, InRange, Separated;
    var normalized, r1 := AdmitAll(line, spanOps, canonical, guard);
    if normalized == [] { NothingSelected(canonical); return None, r1; }
    var sorted := InOrder(normalized);
    OrderKeepsRange(canonical, normalized);
    SameLength(normalized);
    var accepted, changed, r2 := FilterOverlaps(line, sorted, canonical);
    rejected := r1 + r2;
    KeptIsSeparated(canonical, sorted);
    assert accepted == Selected(canonical, normalized);
    if accepted == [] { return None, rejected; }
    if changed > guard.maxChanged { return None, rejected + [Rejection(line, spanOps[0], DriftBudget)]; }
    var result := ApplySpans(canonical, accepted);
    if Blank(result) { return None, rejected + [Rejection(line, spanOps[0], Empty)]; }
    if !HyphenOk(role, result, canonical) { return None, rejected + [Rejection(line, spanOps[0], Hyphen)]; }
    if !BoundaryWordKept(role, canonical, accepted) { return None, rejected + [Rejection(line, spanOps[0], BoundaryWord)]; }
    text := Some(result);
  }

  lemma SameLength(spans: seq<Span>)
    ensures |InOrder(spans)| == |spans|
  {
    assert |multiset(InOrder(spans))| == |multiset(spans)|;
  }

  ghost predicate AllSpansApplied(ops: seq<Op>, canonical: string, guard: Guard) {
    |Selected(canonical, Admitted(SpanOps(ops), canonical, guard))| == |ops|
  }

  lemma AllApplied(ops: seq<Op>, canonical: string, guard: Guard, refused: nat)
    ensures |Selected(canonical, Admitted(SpanOps(ops), canonical, guard))| + refused == |ops|
      ==> (refused == 0 <==> AllSpansApplied(ops, canonical, guard))
  {
  }

  lemma {:induction false} OneKind(ops: seq<Op>)
    ensures |LineOps(ops)| + |SpanOps(ops)| == |ops|
  {
    if ops != [] { OneKind(ops[..|ops| - 1]); }
  }

  lemma NothingSelected(canonical: string)
    ensures Selected(canonical, []) == []
  {
    FirstIsIn(Selected(canonical, []));
  }
}

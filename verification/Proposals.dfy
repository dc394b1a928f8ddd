/** From a producer's script to a validated reply (`attempt.py`, `validator.py`). */
module Proposals {
  import opened Prelude
  import opened Manifest
  import opened Editing
  import opened LineEdits
  import opened Scripts
  import R = Replay

  /** One line of the raw reply. */
  datatype Entry = Entry(line: string, text: string)

  datatype Verdict = Valid(texts: map<string, string>) | PairRefused(lines: set<string>) | Invalid

  /** The hyphen-integrity check: the pair it refuses, if any. */
  type PairCheck = map<string, string> -> Option<set<string>>

  /** A chunk as the attempt sees it: the lines sent, in order, the ones it owns,
      their source texts and roles. */
  datatype Sent = Sent(ids: seq<string>, targets: set<string>, ocr: map<string, string>, roles: map<string, Role>) {
    ghost predicate Valid() {
      && (forall id :: id in ids <==> id in ocr)
      && targets <= ocr.Keys && roles.Keys == ocr.Keys
    }
  }

  function SentTarget(sent: Sent): Target {
    Target(sent.ocr, Some(sent.targets), sent.roles, None)
  }

  // ----- `_script_to_raw` -----

  function LineEntries(ops: seq<Op>): (r: seq<Entry>)
    ensures |r| == |LineOps(ops)|
    ensures forall k | 0 <= k < |r| :: r[k] == Entry(LineOps(ops)[k].line, LineOps(ops)[k].text)
  {
    seq(|LineOps(ops)|, k requires 0 <= k < |LineOps(ops)| => Entry(LineOps(ops)[k].line, LineOps(ops)[k].text))
  }

  ghost predicate HasEntry(entries: seq<Entry>, from: nat, line: string, text: string) {
    exists k :: from <= k < |entries| && entries[k] == Entry(line, text)
  }

  ghost predicate Covered(entries: seq<Entry>, line: string) {
    exists k :: 0 <= k < |entries| && entries[k].line == line
  }

  function Same(s: string): string { s }

  function SpanScript(ops: seq<Op>): EditScript {
    EditScript(SpanOps(ops), None, [])
  }

  /** The spans' texts, and whose ops were refused. */
  ghost predicate SpansApplied(ops: seq<Op>, sent: Sent, guard: Guard, texts: map<string, string>, refused: set<string>) {
    && (forall line :: line in texts <==> Outcome(SpanScript(ops), SentTarget(sent), Same, guard, line).Some?)
    && (forall line | line in texts :: Some(texts[line]) == Outcome(SpanScript(ops), SentTarget(sent), Same, guard, line))
    && forall line :: line in refused <==> Refused(SpanScript(ops), SentTarget(sent), Same, guard, line)
  }

  /** A line whose spans were not refused has the text they all give. */
  lemma SpansStand(ops: seq<Op>, sent: Sent, guard: Guard, texts: map<string, string>, refused: set<string>, line: string)
    requires SpansApplied(ops, sent, guard, texts, refused) && line !in refused && OpsFor(SpanOps(ops), None, line) != []
    ensures line in texts && line in sent.ocr
    ensures Some(texts[line]) == LineResult(OpsFor(SpanOps(ops), None, line), RoleOf(SentTarget(sent), line), sent.ocr[line], guard)
  {
    hide LineResult, OpsFor, SpanOps, AllSpansApplied;
  }

  /** An entry that no whole-line proposal made: a line's spans applied or, for a
      producer that owes nothing, a line nothing was said of. */
  predicate TailEntry(e: Entry, said: seq<Entry>, sent: Sent, full: bool, texts: map<string, string>) {
    if e.line in texts then e.text == texts[e.line]
    else !full && e.line in sent.ocr && e.text == sent.ocr[e.line] && forall k | 0 <= k < |said| :: said[k].line != e.line
  }

  /** The raw reply: whole-line proposals as they came, then the spans' results,
      then, for a producer that owes nothing, the untouched lines. */
  ghost predicate IsRaw(ops: seq<Op>, sent: Sent, full: bool, texts: map<string, string>, entries: seq<Entry>) {
    var m := |LineEntries(ops)|;
    && m <= |entries| && entries[..m] == LineEntries(ops)
    && (forall line | line in texts :: HasEntry(entries, m, line, texts[line]))
    && (forall k | m <= k < |entries| :: TailEntry(entries[k], entries[..m], sent, full, texts))
    && Apart(entries, m)
    && (!full ==> forall id | id in sent.ids :: Covered(entries, id))
  }

  /** From `m` on, no line twice. */
  ghost predicate Apart(entries: seq<Entry>, m: nat) {
    forall i, k | m <= i < k < |entries| :: entries[i].line != entries[k].line
  }

  method ApplySpanScript(ops: seq<Op>, sent: Sent, guard: Guard) returns (texts: map<string, string>, refused: set<string>)
    requires sent.Valid()
    ensures SpansApplied(ops, sent, guard, texts, refused)
  {
    hide LineResult, OpsFor, SpanOps, LineOps, AllStand, RecordedDigest;
    if SpanOps(ops) == [] {
      NoOpsFor(None);
      return map[], {};
    }
    var r := ApplyEditScript(SpanScript(ops), SentTarget(sent), Same, guard);
    texts := r.value.0;
    refused := set k | 0 <= k < |r.value.1| :: r.value.1[k].line;
    forall line ensures line in refused <==> Refuses(r.value.1, line) { }
  }

  lemma NoOpsFor(page: Option<string>)
    ensures forall line :: OpsFor([], page, line) == []
  {
  }

  /** `_script_to_raw`. */
  method ScriptToRaw(ops: seq<Op>, sent: Sent, full: bool, guard: Guard)
    returns (entries: seq<Entry>, refused: set<string>, ghost texts: map<string, string>)
    requires sent.Valid()
    ensures SpansApplied(ops, sent, guard, texts, refused) && IsRaw(ops, sent, full, texts, entries)
  {
    hide SpansApplied, LineOps;
    var spanTexts;
    spanTexts, refused := ApplySpanScript(ops, sent, guard);
    texts := spanTexts;
    var said := LineEntries(ops);
    entries := said;
    var left := spanTexts.Keys;
    while left != {}
      invariant left <= spanTexts.Keys && RawSoFar(said, sent, full, spanTexts, entries)
      invariant forall line | line in spanTexts && line !in left :: HasEntry(entries, |said|, line, spanTexts[line])
      invariant forall k | |said| <= k < |entries| :: entries[k].line in spanTexts && entries[k].line !in left
      decreases left
    {
      var line :| line in left;
      left := left - {line};
      ghost var before := entries;
      entries := entries + [Entry(line, spanTexts[line])];
      StillThere(before, |said|, entries, spanTexts);
      assert entries[|before|] == Entry(line, spanTexts[line]);
    }
    if !full {
      entries := FillUncovered(entries, sent, said, spanTexts);
    }
    assert entries[..|said|] == said;
  }

  ghost predicate RawSoFar(said: seq<Entry>, sent: Sent, full: bool, texts: map<string, string>, entries: seq<Entry>) {
    && |said| <= |entries| && entries[..|said|] == said
    && (forall k | |said| <= k < |entries| :: TailEntry(entries[k], said, sent, full, texts))
    && Apart(entries, |said|)
  }

  lemma StillThere(before: seq<Entry>, m: nat, after: seq<Entry>, texts: map<string, string>)
    requires m <= |before| <= |after| && after[..|before|] == before
    ensures forall line | line in texts && HasEntry(before, m, line, texts[line]) :: HasEntry(after, m, line, texts[line])
    ensures after[..m] == before[..m]
    ensures forall line | Covered(before, line) :: Covered(after, line)
  {
    assert forall k | 0 <= k < |before| :: after[k] == before[k];
  }

  method FillUncovered(entries: seq<Entry>, sent: Sent, said: seq<Entry>, ghost texts: map<string, string>) returns (filled: seq<Entry>)
    requires sent.Valid() && RawSoFar(said, sent, false, texts, entries)
    requires forall line | line in texts :: HasEntry(entries, |said|, line, texts[line])
    ensures RawSoFar(said, sent, false, texts, filled)
    ensures forall line | line in texts :: HasEntry(filled, |said|, line, texts[line])
    ensures forall id | id in sent.ids :: Covered(filled, id)
  {
    filled := entries;
    for i := 0 to |sent.ids|
      invariant RawSoFar(said, sent, false, texts, filled)
      invariant forall line | line in texts :: HasEntry(filled, |said|, line, texts[line])
      invariant forall k | 0 <= k < i :: Covered(filled, sent.ids[k])
    {
      var id := sent.ids[i];
      ghost var before := filled;
      assert id in sent.ids;
      if !(exists k :: 0 <= k < |filled| && filled[k].line == id) {
        Uncovered(said, sent, texts, filled, id);
        filled := filled + [Entry(id, sent.ocr[id])];
        assert filled[|before|].line == id;
        StillThere(before, |said|, filled, texts);
      }
    }
  }

  /** What was said of a line, in full or in part, covers it. */
  lemma Uncovered(said: seq<Entry>, sent: Sent, texts: map<string, string>, entries: seq<Entry>, id: string)
    requires sent.Valid() && RawSoFar(said, sent, false, texts, entries) && id in sent.ocr && !Covered(entries, id)
    requires forall line | line in texts :: HasEntry(entries, |said|, line, texts[line])
    ensures RawSoFar(said, sent, false, texts, entries + [Entry(id, sent.ocr[id])])
  {
    assert forall k | 0 <= k < |said| :: said[k] == entries[k];
  }

  // ----- `validate_llm_response` -----

  /** `_checked_text`: a blank proposal stands only on a blank source. */
  function CheckedText(sent: Sent, line: string, text: string): Option<string> {
    if !Blank(text) then Some(text)
    else if line in sent.ocr && Blank(sent.ocr[line]) then Some("")
    else None
  }

  /** What an accepted reply satisfies: known lines once each, one line of text
      each, every owned line among them. */
  ghost predicate AcceptedReply(entries: seq<Entry>, sent: Sent, texts: map<string, string>) {
    && (forall i, j | 0 <= i < j < |entries| :: entries[i].line != entries[j].line)
    && (forall k | 0 <= k < |entries| :: EntryOk(entries[k], sent, texts))
    && (forall line | line in texts :: Covered(entries, line))
    && sent.targets <= texts.Keys
  }

  ghost predicate EntryOk(e: Entry, sent: Sent, texts: map<string, string>) {
    && e.line != "" && e.line in sent.ocr && e.line in texts
    && CheckedText(sent, e.line, e.text) == Some(texts[e.line]) && !HasNewline(texts[e.line])
  }

  /** A reply the structural checks let through, whatever the pair check says. */
  ghost predicate WellFormed(entries: seq<Entry>, sent: Sent) {
    && |entries| <= |sent.ids|
    && (forall i, j | 0 <= i < j < |entries| :: entries[i].line != entries[j].line)
    && (forall k | 0 <= k < |entries| :: Readable(entries[k], sent))
    && forall line | line in sent.targets :: Covered(entries, line)
  }

  ghost predicate Readable(e: Entry, sent: Sent) {
    && e.line != "" && e.line in sent.ocr
    && var text := CheckedText(sent, e.line, e.text); text.Some? && !HasNewline(text.value)
  }

  /** What the validator makes of a reply: the texts read off it, the pair it
      refuses, or nothing at all when the reply is not well formed. */
  ghost predicate IsVerdict(entries: seq<Entry>, sent: Sent, check: PairCheck, verdict: Verdict) {
    match verdict
    case Valid(texts) => AcceptedReply(entries, sent, texts) && WellFormed(entries, sent) && check(texts).None?
    case PairRefused(lines) => WellFormed(entries, sent) && exists texts :: AcceptedReply(entries, sent, texts) && check(texts) == Some(lines)
    case Invalid => !WellFormed(entries, sent)
  }

  /** `validate_llm_response`, entry by entry. */
  method Validate(entries: seq<Entry>, sent: Sent, check: PairCheck) returns (verdict: Verdict)
    requires sent.Valid()
    ensures IsVerdict(entries, sent, check, verdict)
  {
    hide CheckedText, HasNewline, ReadSoFar;
    if |entries| > |sent.ids| { return Invalid; }
    var texts: map<string, string> := map[];
    NothingRead(sent);
    assert entries[..0] == [];
    for i := 0 to |entries|
      invariant ReadSoFar(entries[..i], sent, texts)
    {
      var e := entries[i];
      if e.line == "" || e.line in texts || e.line !in sent.ocr {
        RefusedEntry(entries, i, sent, texts);
        return Invalid;
      }
      var text := CheckedText(sent, e.line, e.text);
      if text.None? || HasNewline(text.value) { return Invalid; }
      OneEntryMore(entries, i, sent, texts, text.value);
      texts := texts[e.line := text.value];
    }
    assert entries[..|entries|] == entries;
    ReadAll(entries, sent, texts);
    if !(sent.targets <= texts.Keys) { return Invalid; }
    var pair := check(texts);
    if pair.Some? { return PairRefused(pair.value); }
    verdict := Valid(texts);
  }

  lemma RefusedEntry(entries: seq<Entry>, i: nat, sent: Sent, texts: map<string, string>)
    requires i < |entries| && ReadSoFar(entries[..i], sent, texts) && (entries[i].line in texts || !Readable(entries[i], sent))
    ensures !WellFormed(entries, sent)
  {
    hide Readable;
    if entries[i].line in texts {
      var k :| 0 <= k < i && entries[..i][k].line == entries[i].line;
      assert entries[k].line == entries[i].line;
    }
  }

  ghost predicate ReadSoFar(entries: seq<Entry>, sent: Sent, texts: map<string, string>) {
    && (forall i, j | 0 <= i < j < |entries| :: entries[i].line != entries[j].line)
    && (forall k | 0 <= k < |entries| :: EntryOk(entries[k], sent, texts))
    && (forall line | line in texts :: Covered(entries, line))
  }

  lemma NothingRead(sent: Sent)
    ensures ReadSoFar([], sent, map[])
  {
  }

  lemma ReadAll(entries: seq<Entry>, sent: Sent, texts: map<string, string>)
    requires ReadSoFar(entries, sent, texts) && |entries| <= |sent.ids|
    ensures if sent.targets <= texts.Keys then AcceptedReply(entries, sent, texts) && WellFormed(entries, sent)
            else !WellFormed(entries, sent)
  {
    hide CheckedText, HasNewline;
    forall line ensures line in texts <==> Covered(entries, line) {
      if Covered(entries, line) {
        var k :| 0 <= k < |entries| && entries[k].line == line;
        assert EntryOk(entries[k], sent, texts);
      }
    }
  }

  lemma {:induction false} OneEntryMore(entries: seq<Entry>, i: nat, sent: Sent, texts: map<string, string>, text: string)
    requires i < |entries| && ReadSoFar(entries[..i], sent, texts)
    requires var e := entries[i];
      && e.line != "" && e.line !in texts && e.line in sent.ocr
      && CheckedText(sent, e.line, e.text) == Some(text) && !HasNewline(text)
    ensures ReadSoFar(entries[..i + 1], sent, texts[entries[i].line := text])
  {
    hide CheckedText, HasNewline;
    var e, before, now := entries[i], entries[..i], entries[..i + 1];
    assert now == before + [e];
    forall k | 0 <= k < i ensures EntryOk(now[k], sent, texts[e.line := text]) && now[k].line != e.line {
      assert EntryOk(before[k], sent, texts);
    }
    forall line | line in texts[e.line := text] ensures Covered(now, line) {
      if line == e.line {
        assert now[i].line == line;
      } else {
        var k :| 0 <= k < i && before[k].line == line;
        assert now[k].line == line;
      }
    }
  }

  // ----- `_capture_producer_ops` -----

  lemma {:induction false} KindsPerLine(ops: seq<Op>, line: string)
    ensures OpsFor(LineOps(ops), None, line) == LineOps(OpsFor(ops, None, line))
    ensures OpsFor(SpanOps(ops), None, line) == SpanOps(OpsFor(ops, None, line))
  {
    hide *;
    if ops == [] {
      NoKinds(line);
    } else {
      var front, last := ops[..|ops| - 1], ops[|ops| - 1];
      assert front + [last] == ops;
      KindsPerLine(front, line);
      SnocKinds(front, last);
      SnocOpsFor(front, last, line);
      SnocOpsFor(LineOps(front), last, line);
      SnocOpsFor(SpanOps(front), last, line);
      SnocKinds(OpsFor(front, None, line), last);
    }
  }

  lemma NoKinds(line: string)
    ensures LineOps([]) == [] && SpanOps([]) == [] && OpsFor([], None, line) == []
  {
  }

  lemma SnocKinds(front: seq<Op>, last: Op)
    ensures LineOps(front + [last]) == if last.ReplaceLine? then LineOps(front) + [last] else LineOps(front)
    ensures SpanOps(front + [last]) == if last.ReplaceSpan? then SpanOps(front) + [last] else SpanOps(front)
  {
    assert (front + [last])[..|front|] == front;
  }

  lemma SnocOpsFor(front: seq<Op>, last: Op, line: string)
    ensures OpsFor(front + [last], None, line) == if last.line == line then OpsFor(front, None, line) + [last] else OpsFor(front, None, line)
  {
    assert (front + [last])[..|front|] == front;
  }

  lemma {:induction false} AllOneKind(ops: seq<Op>)
    ensures SpanOps(ops) == [] ==> LineOps(ops) == ops
    ensures LineOps(ops) == [] ==> SpanOps(ops) == ops
  {
    hide *;
    if ops == [] {
      NoKinds("");
    } else {
      var front, last := ops[..|ops| - 1], ops[|ops| - 1];
      AllOneKind(front);
      assert ops == front + [last];
      SnocKinds(front, last);
      OneOrTheOther(last);
    }
  }

  lemma OneOrTheOther(op: Op)
    ensures op.ReplaceLine? != op.ReplaceSpan?
  {
  }

  /** Where a line's ops sit among all of them. */
  lemma {:induction false} FindOp(ops: seq<Op>, line: string, k: nat) returns (i: nat)
    requires k < |OpsFor(ops, None, line)|
    ensures i < |ops| && ops[i] == OpsFor(ops, None, line)[k]
    ensures k == |OpsFor(ops[..i], None, line)|
  {
    var front, last := ops[..|ops| - 1], ops[|ops| - 1];
    if k < |OpsFor(front, None, line)| {
      i := FindOp(front, line, k);
      assert front[..i] == ops[..i];
    } else {
      i := |ops| - 1;
    }
  }

  lemma {:induction false} OneLineOp(entries: seq<Entry>, ops: seq<Op>, sent: Sent, texts: map<string, string>, line: string)
    requires |LineEntries(ops)| <= |entries| && entries[..|LineEntries(ops)|] == LineEntries(ops)
    requires AcceptedReply(entries, sent, texts) && OpsFor(LineOps(ops), None, line) != []
    ensures |OpsFor(LineOps(ops), None, line)| == 1
    ensures exists k: nat :: k < |LineEntries(ops)| && entries[k] == Entry(line, OpsFor(LineOps(ops), None, line)[0].text)
  {
    hide CheckedText, HasNewline, LineOps;
    var mine := OpsFor(LineOps(ops), None, line);
    var i := FindOp(LineOps(ops), line, 0);
    assert mine[0] in mine;
    assert entries[i] == LineEntries(ops)[i];
    if |mine| > 1 { var j, k := TwoLineOps(entries, ops, line); }
  }

  lemma {:induction false} TwoLineOps(entries: seq<Entry>, ops: seq<Op>, line: string) returns (i: nat, j: nat)
    requires |LineEntries(ops)| <= |entries| && entries[..|LineEntries(ops)|] == LineEntries(ops)
    requires |OpsFor(LineOps(ops), None, line)| > 1
    ensures i < j < |entries| && entries[i].line == entries[j].line == line
  {
    hide LineOps;
    var mine := OpsFor(LineOps(ops), None, line);
    assert mine[0] in mine && mine[1] in mine;
    i := FindOp(LineOps(ops), line, 0);
    j := FindOp(LineOps(ops), line, 1);
    assert entries[i] == LineEntries(ops)[i] && entries[j] == LineEntries(ops)[j];
    if j <= i { ShorterPrefix(LineOps(ops), line, j, i); }
  }

  lemma {:induction false} ShorterPrefix(ops: seq<Op>, line: string, j: nat, i: nat)
    requires j <= i <= |ops|
    ensures |OpsFor(ops[..j], None, line)| <= |OpsFor(ops[..i], None, line)|
  {
    hide OpsFor;
    if j < i {
      ShorterPrefix(ops, line, j, i - 1);
      assert ops[..i] == ops[..i - 1] + [ops[i - 1]];
      SnocOpsFor(ops[..i - 1], ops[i - 1], line);
    }
  }

  /** What an accepted reply captures of a line replays to what it said: a line the
      guards refused nothing of has one whole-line op, or spans that all applied. */
  lemma {:induction false} CaptureIsFaithful(ops: seq<Op>, sent: Sent, full: bool, guard: Guard, spanTexts: map<string, string>,
                                             refused: set<string>, entries: seq<Entry>, texts: map<string, string>, line: string)
    requires sent.Valid() && SpansApplied(ops, sent, guard, spanTexts, refused) && IsRaw(ops, sent, full, spanTexts, entries)
    requires AcceptedReply(entries, sent, texts)
    requires line in sent.targets && line !in refused && OpsFor(ops, None, line) != []
    ensures line in texts && R.Faithful(R.Capture(OpsFor(ops, None, line), texts[line]), line, NoRole, sent.ocr[line], guard)
  {
    hide LineOps, SpanOps, LineResult, OpsFor, HasNewline, Blank, SpansApplied, Apart, TailEntry;
    var mine := OpsFor(ops, None, line);
    assert forall k | 0 <= k < |mine| :: mine[k] in mine;
    KindsPerLine(ops, line);
    AllOneKind(mine);
    if SpanOps(mine) != [] {
      SpansStand(ops, sent, guard, spanTexts, refused, line);
      assert HasEntry(entries, |LineEntries(ops)|, line, spanTexts[line]);
      var j :| |LineEntries(ops)| <= j < |entries| && entries[j] == Entry(line, spanTexts[line]);
      assert EntryOk(entries[j], sent, texts);
      if LineOps(mine) != [] { OneLineOp(entries, ops, sent, texts, line); }
      var role := RoleOf(SentTarget(sent), line);
      assert LineResult(mine, role, sent.ocr[line], guard) == Some(spanTexts[line]);
      AcceptedIsWithinBudget(mine, role, sent.ocr[line], guard);
      RolesOnlyRefuse(mine, role, sent.ocr[line], guard);
    } else {
      OneLineOp(entries, ops, sent, texts, line);
      var k: nat :| k < |LineEntries(ops)| && entries[k] == Entry(line, OpsFor(LineOps(ops), None, line)[0].text);
      assert EntryOk(entries[k], sent, texts);
      EmptyIsBlank();
      OnlyLineOps(mine, line);
    }
  }

  lemma EmptyIsBlank()
    ensures Blank("")
  {
  }

  lemma OnlyLineOps(mine: seq<Op>, line: string)
    requires LineOps(mine) == mine && |mine| == 1
    ensures mine[0].ReplaceLine?
  {
    assert LineOps(mine)[0] in LineOps(mine);
  }

  /** Every capture of the page's lines replays to what it produced. */
  ghost predicate AllFaithful(captured: map<LineRef, R.Capture>, sources: map<LineRef, string>, guard: Guard) {
    forall r | r in captured :: r in sources && R.Faithful(captured[r], r.line, NoRole, sources[r], guard)
  }

  ghost predicate KnowsSources(sent: Sent, page: string, sources: map<LineRef, string>) {
    forall id | id in sent.ocr :: LineRef(page, id) in sources && sources[LineRef(page, id)] == sent.ocr[id]
  }

  ghost predicate ReadsAs(ops: seq<Op>, sent: Sent, full: bool, guard: Guard, check: PairCheck, verdict: Verdict,
                          entries: seq<Entry>, refused: set<string>, texts: map<string, string>) {
    SpansApplied(ops, sent, guard, texts, refused) && IsRaw(ops, sent, full, texts, entries) && IsVerdict(entries, sent, check, verdict)
  }

  /** The verdict on a script. */
  ghost predicate Reads(ops: seq<Op>, sent: Sent, full: bool, guard: Guard, check: PairCheck, verdict: Verdict) {
    exists entries, refused, texts :: ReadsAs(ops, sent, full, guard, check, verdict, entries, refused, texts)
  }

  ghost predicate DoesNotStand(ops: seq<Op>, sent: Sent, full: bool, guard: Guard, check: PairCheck) {
    exists verdict: Verdict :: !verdict.Valid? && Reads(ops, sent, full, guard, check, verdict)
  }

  /** What an accepted script captures: the ops and the text of each owned line none
      of whose ops were refused. */
  ghost function Mine(ops: seq<Op>, sent: Sent, guard: Guard, texts: map<string, string>): map<string, R.Capture> {
    map line | line in texts && line in sent.targets && OpsFor(ops, None, line) != []
               && !Refused(SpanScript(ops), SentTarget(sent), Same, guard, line) :: R.Capture(OpsFor(ops, None, line), texts[line])
  }

  /** `_propose`: normalise, validate and, when the reply stands, capture what each
      owned line's ops produced. */
  method Propose(ops: seq<Op>, sent: Sent, full: bool, guard: Guard, check: PairCheck, page: string,
                 captured: map<LineRef, R.Capture>, ghost sources: map<LineRef, string>)
    returns (verdict: Verdict, after: map<LineRef, R.Capture>)
    requires sent.Valid() && KnowsSources(sent, page, sources) && AllFaithful(captured, sources, guard)
    ensures AllFaithful(after, sources, guard) && Reads(ops, sent, full, guard, check, verdict)
    ensures after == if verdict.Valid? then captured + OnPage(Mine(ops, sent, guard, verdict.texts), page) else captured
    ensures verdict.Valid? ==> sent.targets <= verdict.texts.Keys <= sent.ocr.Keys && check(verdict.texts).None?
    ensures verdict.PairRefused? ==> exists texts :: check(texts) == Some(verdict.lines)
  {
    hide SpansApplied, IsRaw, R.Faithful, OpsFor, AcceptedReply, Grouping, KnowsSources, AllFaithful, OnPage, WellFormed, Mine;
    var entries, refused;
    ghost var spanTexts;
    entries, refused, spanTexts := ScriptToRaw(ops, sent, full, guard);
    verdict := Validate(entries, sent, check);
    assert ReadsAs(ops, sent, full, guard, check, verdict, entries, refused, spanTexts);
    after := captured;
    if verdict.Valid? {
      var keys, byLine := GroupByLine(ops, None);
      AcceptedFacts(entries, sent, verdict.texts);
      ByLineFacts(ops, keys, byLine);
      var mine := map line | line in byLine && line !in refused && line in sent.targets && line in verdict.texts ::
        R.Capture(byLine[line], verdict.texts[line]);
      forall line | line in mine ensures line in sent.ocr && R.Faithful(mine[line], line, NoRole, sent.ocr[line], guard) {
        CaptureIsFaithful(ops, sent, full, guard, spanTexts, refused, entries, verdict.texts, line);
      }
      MineIs(ops, sent, guard, verdict.texts, spanTexts, refused, byLine, mine);
      after := captured + OnPage(mine, page);
      StillFaithful(captured, mine, sent, page, guard, sources);
    }
  }

  lemma MineIs(ops: seq<Op>, sent: Sent, guard: Guard, texts: map<string, string>, spanTexts: map<string, string>, refused: set<string>,
               byLine: map<string, seq<Op>>, mine: map<string, R.Capture>)
    requires SpansApplied(ops, sent, guard, spanTexts, refused)
    requires forall line :: line in byLine <==> OpsFor(ops, None, line) != []
    requires forall line | line in byLine :: byLine[line] == OpsFor(ops, None, line)
    requires forall line :: line in mine <==> line in byLine && line !in refused && line in sent.targets && line in texts
    requires forall line | line in mine :: mine[line] == R.Capture(byLine[line], texts[line])
    ensures mine == Mine(ops, sent, guard, texts)
  {
    hide OpsFor, Refused, Outcome;
  }

  function OnPage(mine: map<string, R.Capture>, page: string): map<LineRef, R.Capture> {
    map r: LineRef | r in (set line | line in mine :: LineRef(page, line)) :: mine[r.line]
  }

  lemma StillFaithful(captured: map<LineRef, R.Capture>, mine: map<string, R.Capture>, sent: Sent, page: string, guard: Guard,
                      sources: map<LineRef, string>)
    requires KnowsSources(sent, page, sources) && AllFaithful(captured, sources, guard)
    requires forall line | line in mine :: line in sent.ocr && R.Faithful(mine[line], line, NoRole, sent.ocr[line], guard)
    ensures AllFaithful(captured + OnPage(mine, page), sources, guard)
  {
    hide R.Faithful;
  }

  lemma ByLineFacts(ops: seq<Op>, keys: seq<string>, byLine: map<string, seq<Op>>)
    requires Grouping(ops, None, keys, byLine)
    ensures forall line :: line in byLine <==> OpsFor(ops, None, line) != []
    ensures forall line | line in byLine :: byLine[line] == OpsFor(ops, None, line)
  {
  }

  lemma AcceptedFacts(entries: seq<Entry>, sent: Sent, texts: map<string, string>)
    requires AcceptedReply(entries, sent, texts)
    ensures sent.targets <= texts.Keys <= sent.ocr.Keys
  {
    forall line | line in texts ensures line in sent.ocr {
      assert Covered(entries, line);
      var k :| 0 <= k < |entries| && entries[k].line == line;
      assert EntryOk(entries[k], sent, texts);
    }
  }

  // ----- an answer that a run takes and a replay refuses -----

  const L: string := "l"

  function OneSent(source: string): Sent {
    Sent([L], {L}, map[L := source], map[L := NoRole])
  }

  /** A whole-line answer to the one line sent. */
  function Answer(text: string): seq<Op> {
    [ReplaceLine(L, None, text)]
  }

  lemma AnswerOps(text: string)
    ensures LineOps(Answer(text)) == Answer(text) && SpanOps(Answer(text)) == [] && OpsFor(Answer(text), None, L) == Answer(text)
    ensures forall line :: OpsFor([], None, line) == []
  {
    assert Answer(text)[..0] == [];
    assert LineOps([]) == [] && SpanOps([]) == [] && OpsFor([], None, L) == [];
    NoOpsFor(None);
  }

  /** A run takes any whole-line answer that is not blank and is one line, whatever its
      length. */
  lemma {:induction false} RunTakesTheAnswer(source: string, text: string, full: bool, guard: Guard, check: PairCheck)
    requires !Blank(text) && !HasNewline(text) && check(map[L := text]).None?
    ensures Reads(Answer(text), OneSent(source), full, guard, check, Valid(map[L := text]))
    ensures Mine(Answer(text), OneSent(source), guard, map[L := text]) == map[L := R.Capture(Answer(text), text)]
  {
    hide LineResult, AllStand, LineOps, SpanOps, OpsFor, Blank, HasNewline;
    AnswerOps(text);
    var ops, sent, entries := Answer(text), OneSent(source), [Entry(L, text)];
    assert LineEntries(ops) == entries;
    assert SpansApplied(ops, sent, guard, map[], {});
    assert entries[0].line == L;
    assert Covered(entries, L);
    assert IsRaw(ops, sent, full, map[], entries);
    assert EntryOk(entries[0], sent, map[L := text]) && Readable(entries[0], sent);
    assert ReadsAs(ops, sent, full, guard, check, Valid(map[L := text]), entries, {}, map[]);
  }

  /** The answer adds more characters to its source than the whole-line budget: the run
      accepts and captures it, and the script the run leaves does not replay it. */
  lemma {:induction false} LongAnswerIsNotReplayed(source: string, more: string, full: bool, guard: Guard, check: PairCheck, digest: Digest, page: string)
    requires |more| > guard.maxChanged && !HasNewline(source + more) && !Blank(source + more) && check(map[L := source + more]).None?
    ensures var text := source + more;
      var captured := OnPage(Mine(Answer(text), OneSent(source), guard, map[L := text]), page);
      var d := R.Decision(LineRef(page, L), source, text, Corrected, "", []);
      && Reads(Answer(text), OneSent(source), full, guard, check, Valid(map[L := text]))
      && d.CarriesACorrection() && d.ref in captured && captured[d.ref].produced == text
      && Outcome(R.FinalScript([d], captured, digest), Target(map[L := source], None, map[], Some(page)), digest, guard, L) == None
  {
    hide Reads, Mine, Outcome, R.FinalScript, Blank, HasNewline, LineOps, OpsFor;
    var text := source + more;
    RunTakesTheAnswer(source, text, full, guard, check);
    var captured := OnPage(Mine(Answer(text), OneSent(source), guard, map[L := text]), page);
    var d := R.Decision(LineRef(page, L), source, text, Corrected, "", []);
    assert captured == map[d.ref := R.Capture(Answer(text), text)];
    AnswerOps(text);
    TooLongFails(source, more, guard);
    hide R.PassesWhole;
    R.ReplayGivesTheFinalText([d], captured, digest, guard, Target(map[L := source], None, map[], Some(page)), 0, NoRole);
  }

  lemma TooLongFails(source: string, more: string, guard: Guard)
    requires |more| > guard.maxChanged
    ensures !R.PassesWhole(source, source + more, guard)
  {
    hide R.D.Lev, R.D.Changed, Blank, HasNewline;
    R.D.LevBounds(source, source + more);
    R.D.ChangedBoundsLev(source, source + more);
  }

  // ----- `_without_pairs` -----

  /** The producer's ops on the other lines, and the dropped lines as they were. */
  function Neutralised(ops: seq<Op>, sent: Sent, dropped: set<string>): seq<Op>
    requires sent.Valid()
  {
    OtherOps(ops, dropped) + Identities(sent.ids, sent.ocr, dropped)
  }

  function OtherOps(ops: seq<Op>, dropped: set<string>): seq<Op> {
    if ops == [] then []
    else
      var front, last := OtherOps(ops[..|ops| - 1], dropped), ops[|ops| - 1];
      if last.line in dropped then front else front + [last]
  }

  function Identities(ids: seq<string>, ocr: map<string, string>, dropped: set<string>): seq<Op>
    requires forall id | id in ids :: id in ocr
  {
    if ids == [] then []
    else
      var front, last := Identities(ids[..|ids| - 1], ocr, dropped), ids[|ids| - 1];
      if last in dropped then front + [ReplaceLine(last, None, ocr[last])] else front
  }

  /** `_without_pairs`: drop the refused pair, and any further one, until the reply
      stands or no new line is named. It stops: every round drops a line more. */
  method WithoutPairs(first: set<string>, ops: seq<Op>, sent: Sent, full: bool, guard: Guard, check: PairCheck, page: string,
                      captured: map<LineRef, R.Capture>, ghost known: set<string>, ghost sources: map<LineRef, string>)
    returns (texts: Option<map<string, string>>, dropped: set<string>, after: map<LineRef, R.Capture>)
    requires sent.Valid() && KnowsSources(sent, page, sources) && AllFaithful(captured, sources, guard)
    requires first <= known && forall t :: check(t).Some? ==> check(t).value <= known
    ensures AllFaithful(after, sources, guard) && first <= dropped <= known
    ensures texts.Some? ==> sent.targets <= texts.value.Keys <= sent.ocr.Keys && check(texts.value).None?
    ensures texts.Some? ==> Reads(Neutralised(ops, sent, dropped), sent, full, guard, check, Valid(texts.value))
    ensures texts.Some? ==> after == captured + OnPage(Mine(Neutralised(ops, sent, dropped), sent, guard, texts.value), page)
    ensures texts.None? ==> after == captured && DoesNotStand(Neutralised(ops, sent, dropped), sent, full, guard, check)
  {
    hide Reads, Neutralised, Mine, OnPage, AllFaithful, KnowsSources;
    dropped := first;
    while true
      invariant first <= dropped <= known
      decreases known - dropped
    {
      var verdict;
      verdict, after := Propose(Neutralised(ops, sent, dropped), sent, full, guard, check, page, captured, sources);
      match verdict
      case Valid(t) => return Some(t), dropped, after;
      case Invalid => return None, dropped, captured;
      case PairRefused(again) =>
        if again == {} || again <= dropped { return None, dropped, captured; }
        ghost var texts' :| check(texts') == Some(again);
        dropped := dropped + again;
    }
  }
}

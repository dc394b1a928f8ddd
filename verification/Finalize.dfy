/** The document-wide passes in their order (`finalize.py`, `acceptance.py`) and the
    run's terminal decisions (`decisions.py`). */
module Finalize {
  import opened Prelude
  import opened Manifest
  import opened Decide
  import LE = LineEdits
  import V = Reverts
  import U = Units
  import R = Replay
  import WB = WordBoundaries
  import G = LossGate
  import Reconcile

  // ----- word-break characters (`preserve_break_char`) -----

  /** The line's final word-break mark: its last one, after a letter. */
  function TrailingMark(text: string, isAlpha: char -> bool): Option<char> {
    var s := LE.RStrip(text);
    if |s| >= 2 && LE.IsBreakMark(s[|s| - 1]) && !IsSpace(s[|s| - 2]) && isAlpha(s[|s| - 2]) then Some(s[|s| - 1]) else None
  }

  /** Force the source's mark onto a correction that ends in another one. */
  function PreserveBreak(source: string, corrected: string, isAlpha: char -> bool): string {
    var mark := TrailingMark(source, isAlpha);
    var s := LE.RStrip(corrected);
    RStripPrefix(corrected);
    if mark.Some? && s != "" && LE.IsBreakMark(s[|s| - 1])
    then s[..|s| - 1] + [mark.value] + corrected[|s|..] else corrected
  }

  lemma {:induction false} RStripPrefix(text: string)
    ensures LE.RStrip(text) <= text && |LE.RStrip(text)| <= |text|
    ensures forall k | |LE.RStrip(text)| <= k < |text| :: IsSpace(text[k])
    ensures LE.RStrip(text) != "" ==> !IsSpace(LE.RStrip(text)[|LE.RStrip(text)| - 1])
  {
    if text != "" && IsSpace(text[|text| - 1]) { RStripPrefix(text[..|text| - 1]); }
  }

  lemma {:induction false} RStripOf(core: string, spaces: string)
    requires core != "" && !IsSpace(core[|core| - 1]) && forall k | 0 <= k < |spaces| :: IsSpace(spaces[k])
    ensures LE.RStrip(core + spaces) == core
    decreases |spaces|
  {
    if spaces == [] {
      assert core + spaces == core;
    } else {
      RStripOf(core, spaces[..|spaces| - 1]);
      assert (core + spaces)[..|core + spaces| - 1] == core + spaces[..|spaces| - 1];
    }
  }

  lemma MarksAreNotSpaces(c: char)
    requires LE.IsBreakMark(c)
    ensures !IsSpace(c)
  {
  }

  /** Respelling a break changes at most one character, gives the source's own mark
      to a correction that broke its word with another, and does nothing twice. */
  lemma {:induction false} PreserveBreakFacts(source: string, corrected: string, isAlpha: char -> bool)
    ensures var r := PreserveBreak(source, corrected, isAlpha);
      && |r| == |corrected|
      && (forall k | 0 <= k < |r| && k != |LE.RStrip(corrected)| - 1 :: r[k] == corrected[k])
      && (TrailingMark(source, isAlpha).Some? && LE.EndsWithMark(corrected) ==>
            LE.RStrip(r) != "" && LE.RStrip(r)[|LE.RStrip(r)| - 1] == TrailingMark(source, isAlpha).value)
      && PreserveBreak(source, r, isAlpha) == r
  {
    var mark, s := TrailingMark(source, isAlpha), LE.RStrip(corrected);
    RStripPrefix(corrected);
    RStripPrefix(source);
    hide LE.RStrip;
    if mark.Some? && s != "" && LE.IsBreakMark(s[|s| - 1]) {
      var core := s[..|s| - 1] + [mark.value];
      MarksAreNotSpaces(mark.value);
      RStripOf(core, corrected[|s|..]);
      assert core[..|core| - 1] == s[..|s| - 1];
    }
  }

  /** `_preserve_break_chars` on one line: only a correction that changed something. */
  function Respelt(l: Line, isAlpha: char -> bool): Line {
    if l.corrected.Some? && l.corrected.value != l.ocr
    then Renormalised(l, PreserveBreak(l.ocr, l.corrected.value, isAlpha)) else l
  }

  function RespeltAll(vs: seq<Line>, isAlpha: char -> bool): (ws: seq<Line>)
    ensures |ws| == |vs| && forall k | 0 <= k < |vs| :: ws[k] == Respelt(vs[k], isAlpha)
  {
    seq(|vs|, k requires 0 <= k < |vs| => Respelt(vs[k], isAlpha))
  }

  /** `_preserve_break_chars`. */
  method PreserveBreakChars(doc: array<Line>, isAlpha: char -> bool)
    modifies doc
    ensures doc[..] == RespeltAll(old(doc[..]), isAlpha)
  {
    hide PreserveBreak;
    ghost var vs := doc[..];
    for p := 0 to doc.Length
      invariant forall k | 0 <= k < p :: doc[k] == Respelt(vs[k], isAlpha)
      invariant forall k | p <= k < |vs| :: doc[k] == vs[k]
    {
      if doc[p].corrected.Some? && doc[p].corrected.value != doc[p].ocr {
        Renormalise(doc, p, PreserveBreak(doc[p].ocr, doc[p].corrected.value, isAlpha));
      }
    }
  }

  /** A line that fell is never respelt, so the pass keeps the invariant. */
  lemma RespellKeepsTheInvariant(l: Line, isAlpha: char -> bool)
    requires Sound(l)
    ensures Sound(Respelt(l, isAlpha)) && Evolves(l, Respelt(l, isAlpha)) && (l.status.Fallback? ==> Respelt(l, isAlpha) == l)
  {
    hide PreserveBreak;
  }

  // ----- the loss policy -----

  datatype LossPolicy = Report | Strict | Realign(threshold: real)

  function SourceWordsOf(l: Line): seq<string> {
    if l.sourceWords.Some? then l.sourceWords.value else []
  }

  /** A changed line whose Word markup its correction no longer fits. */
  ghost predicate Unprojectable(l: Line) {
    && l.wordCount.Some? && l.corrected.Some? && l.corrected.value != l.ocr
    && ((l.sourceWords.None? && l.wordCount.value > 0)
        || |G.Words(l.corrected.value)| != l.wordCount.value
        || (SourceWordsOf(l) != G.Words(l.corrected.value) && WB.Suspect(SourceWordsOf(l), G.Words(l.corrected.value))))
  }

  const UNREADABLE: string := "format_loss: source Word readings unavailable"
  const MISFIT: string := "format_loss: word count or boundaries differ from the source markup"

  ghost function StrictReason(l: Line): Option<string> {
    if !Unprojectable(l) then None
    else Some(if l.sourceWords.None? && l.wordCount.value > 0 then UNREADABLE else MISFIT)
  }

  /** What the gate makes of a changed line. */
  ghost function GateReason(l: Line, threshold: real): Option<string> {
    if l.corrected.Some? && l.corrected.value != l.ocr then G.Gate(G.Words(l.ocr), G.Words(l.corrected.value), threshold) else None
  }

  function Flagged(flags: map<LineRef, string>, r: LineRef): Option<string> {
    if r in flags then Some(flags[r]) else None
  }

  ghost predicate NamesLines(vs: seq<Line>, flags: map<LineRef, string>) {
    forall r | r in flags :: exists k :: 0 <= k < |vs| && vs[k].ref == r
  }

  /** The strict policy's flags: exactly the lines it cannot project, and why. */
  ghost predicate StrictFlags(vs: seq<Line>, flags: map<LineRef, string>) {
    NamesLines(vs, flags) && forall k | 0 <= k < |vs| :: Flagged(flags, vs[k].ref) == StrictReason(vs[k])
  }

  /** The realign policy's: exactly the lines its gate refuses, and why. */
  ghost predicate GateFlags(vs: seq<Line>, threshold: real, flags: map<LineRef, string>) {
    NamesLines(vs, flags) && forall k | 0 <= k < |vs| :: Flagged(flags, vs[k].ref) == GateReason(vs[k], threshold)
  }

  method Unprojected(l: Line) returns (reason: Option<string>)
    ensures reason == StrictReason(l)
  {
    hide G.Words, WB.Suspect;
    if l.wordCount.None? || l.corrected.None? { return None; }
    if l.corrected.value == l.ocr { return None; }
    var words := G.Words(l.corrected.value);
    if l.sourceWords.None? && l.wordCount.value > 0 { return Some(UNREADABLE); }
    var moved := WB.WordBoundaryMoved(SourceWordsOf(l), words);
    reason := if |words| != l.wordCount.value || moved then Some(MISFIT) else None;
  }

  method FindUnprojectable(doc: array<Line>) returns (flags: map<LineRef, string>)
    requires DistinctRefs(doc[..])
    ensures StrictFlags(doc[..], flags)
  {
    hide StrictReason;
    flags := map[];
    for p := 0 to doc.Length
      invariant forall k | 0 <= k < p :: Flagged(flags, doc[k].ref) == StrictReason(doc[k])
      invariant forall r | r in flags :: exists k :: 0 <= k < p && doc[k].ref == r
    {
      var l := doc[p];
      assert l.ref !in flags;
      var reason := Unprojected(l);
      if reason.Some? { flags := flags[l.ref := reason.value]; }
    }
  }

  method FindGated(doc: array<Line>, threshold: real) returns (flags: map<LineRef, string>)
    requires DistinctRefs(doc[..])
    ensures GateFlags(doc[..], threshold, flags)
  {
    hide G.Gate, G.Words;
    flags := map[];
    for p := 0 to doc.Length
      invariant forall k | 0 <= k < p :: Flagged(flags, doc[k].ref) == GateReason(doc[k], threshold)
      invariant forall r | r in flags :: exists k :: 0 <= k < p && doc[k].ref == r
    {
      var l := doc[p];
      assert l.ref !in flags;
      if l.corrected.None? || l.corrected.value == l.ocr { continue; }
      var reason := G.ReadGate(l.ocr, l.corrected.value, threshold);
      if reason.Some? { flags := flags[l.ref := reason.value]; }
    }
  }

  /** A correction set aside for review, and why. */
  datatype Sidecar = Sidecar(ref: LineRef, source: string, corrected: string, reason: string)

  /** `_sidecar_entries`: one entry per reverted correction, with its text. */
  ghost predicate KeepsAside(vs: seq<Line>, reverted: map<LineRef, string>, entries: seq<Sidecar>) {
    forall e :: e in entries <==> exists k :: SetAside(vs, reverted, k, e)
  }

  ghost predicate SetAside(vs: seq<Line>, reverted: map<LineRef, string>, k: int, e: Sidecar) {
    && 0 <= k < |vs| && vs[k].ref in reverted && vs[k].corrected.Some? && vs[k].corrected.value != vs[k].ocr
    && e == Sidecar(vs[k].ref, vs[k].ocr, vs[k].corrected.value, reverted[vs[k].ref])
  }

  method SidecarEntries(vs: seq<Line>, reverted: map<LineRef, string>) returns (entries: seq<Sidecar>)
    ensures KeepsAside(vs, reverted, entries)
  {
    entries := [];
    for p := 0 to |vs|
      invariant forall e :: e in entries <==> exists k :: k < p && SetAside(vs, reverted, k, e)
    {
      var l := vs[p];
      if l.ref in reverted && l.corrected.Some? && l.corrected.value != l.ocr {
        entries := entries + [Sidecar(l.ref, l.ocr, l.corrected.value, reverted[l.ref])];
        assert SetAside(vs, reverted, p, Sidecar(l.ref, l.ocr, l.corrected.value, reverted[l.ref]));
      }
    }
  }

  // ----- the passes in order -----

  /** The document-wide guards: what the adjacency pass flags, and the alphabet. */
  datatype Passes = Passes(adjacent: seq<Line> -> map<LineRef, string>, isAlpha: char -> bool, loss: LossPolicy)

  /** What `PullUnits` returns. */
  ghost function Pulled(m: map<LineRef, Line>, flagged: map<LineRef, string>, common: string): map<LineRef, string> {
    map r | r in U.Closure(m, flagged.Keys) :: if r in flagged then flagged[r] else common
  }

  lemma PulledIsUnique(m: map<LineRef, Line>, flagged: map<LineRef, string>, common: string, all: map<LineRef, string>)
    requires V.Pulls(m, flagged, common, all)
    ensures all == Pulled(m, flagged, common)
  {
    hide U.Closure;
  }

  ghost function Reverted(vs: seq<Line>, flagged: map<LineRef, string>, common: string): (ws: seq<Line>)
    ensures |ws| == |vs|
  {
    Fell(vs, Among(Pulled(ByRef(vs), flagged, common), RefsOf(vs)))
  }

  method RevertInDocument(doc: array<Line>, flagged: map<LineRef, string>, common: string) returns (all: map<LineRef, string>)
    requires DistinctRefs(doc[..])
    modifies doc
    ensures doc[..] == Reverted(old(doc[..]), flagged, common) && all == Pulled(ByRef(old(doc[..])), flagged, common)
  {
    hide V.Pulls, Pulled, ByRef, Fell;
    ghost var vs := doc[..];
    var pool := Iota(doc.Length);
    assert LinesAt(vs, pool) == vs;
    all := V.ApplyUnitReverts(doc, pool, flagged, common);
    PulledIsUnique(ByRef(vs), flagged, common, all);
  }

  lemma RevertedKeeps(vs: seq<Line>, flagged: map<LineRef, string>, common: string)
    requires AllSound(vs) && V.Reasoned(flagged) && common != ""
    ensures AllSound(Reverted(vs, flagged, common)) && Evolved(vs, Reverted(vs, flagged, common))
  {
    hide U.Closure, ByRef, Fell;
    FellKeepsTheInvariant(vs, Among(Pulled(ByRef(vs), flagged, common), RefsOf(vs)));
  }

  lemma FlaggedFell(vs: seq<Line>, flagged: map<LineRef, string>, common: string, k: nat)
    requires k < |vs|
    ensures Reverted(vs, flagged, common)[k] == vs[k]
      || (Reverted(vs, flagged, common)[k].status.Fallback? && Reverted(vs, flagged, common)[k].corrected == Some(vs[k].ocr)
          && Reverted(vs, flagged, common)[k].ocr == vs[k].ocr)
    ensures vs[k].ref in flagged ==>
      var l := Reverted(vs, flagged, common)[k]; l.status.Fallback? && l.corrected == Some(l.ocr)
  {
    hide U.SameUnit, ByRef;
    assert vs[k] in vs;
  }

  lemma KeptRefs(vs: seq<Line>, ws: seq<Line>)
    requires Evolved(vs, ws) && DistinctRefs(vs)
    ensures DistinctRefs(ws)
  {
    forall i, j | 0 <= i < j < |ws| ensures ws[i].ref != ws[j].ref {
      assert Evolves(vs[i], ws[i]) && Evolves(vs[j], ws[j]);
    }
  }

  lemma RespeltKeeps(vs: seq<Line>, isAlpha: char -> bool)
    requires AllSound(vs)
    ensures AllSound(RespeltAll(vs, isAlpha)) && Evolved(vs, RespeltAll(vs, isAlpha))
  {
    hide Respelt, Sound, Evolves;
    forall k | 0 <= k < |vs| ensures Sound(Respelt(vs[k], isAlpha)) && Evolves(vs[k], Respelt(vs[k], isAlpha)) {
      RespellKeepsTheInvariant(vs[k], isAlpha);
    }
  }

  const ADJACENCY: string := "adjacent_duplicate_pair_atomicity"
  const LOSS_ATOMICITY: string := "format_loss_pair_atomicity"
  const GATE_ATOMICITY: string := "token_realign_pair_atomicity"

  /** The strict policy: exactly the corrections it cannot project are reverted, each
      with its unit, and what is left projects. */
  method StrictPass(doc: array<Line>) returns (ghost flags: map<LineRef, string>)
    requires AllSound(doc[..]) && DistinctRefs(doc[..])
    modifies doc
    ensures AllSound(doc[..]) && Evolved(old(doc[..]), doc[..])
    ensures StrictFlags(old(doc[..]), flags) && doc[..] == Reverted(old(doc[..]), flags, LOSS_ATOMICITY)
    ensures forall k | 0 <= k < doc.Length :: !Unprojectable(doc[k])
  {
    hide Reverted, Unprojectable, AllSound, Evolved, StrictFlags, Pulled;
    ghost var vs := doc[..];
    var reverts := FindUnprojectable(doc);
    flags := reverts;
    var all := RevertInDocument(doc, reverts, LOSS_ATOMICITY);
    FlagsAreReasoned(vs, reverts);
    RevertedKeeps(vs, reverts, LOSS_ATOMICITY);
    WhatIsLeftProjects(vs, reverts);
  }

  lemma {:induction false} FlagsAreReasoned(vs: seq<Line>, flags: map<LineRef, string>)
    requires StrictFlags(vs, flags)
    ensures V.Reasoned(flags)
  {
    hide Unprojectable;
    forall r | r in flags ensures flags[r] != "" {
      var k :| 0 <= k < |vs| && vs[k].ref == r;
      assert Flagged(flags, vs[k].ref) == StrictReason(vs[k]);
    }
  }

  lemma {:induction false} GatedAreReasoned(vs: seq<Line>, threshold: real, flags: map<LineRef, string>)
    requires GateFlags(vs, threshold, flags)
    ensures V.Reasoned(flags)
  {
    hide G.Words;
    forall r | r in flags ensures flags[r] != "" {
      var k :| 0 <= k < |vs| && vs[k].ref == r;
      assert Flagged(flags, vs[k].ref) == GateReason(vs[k], threshold);
    }
  }

  lemma WhatIsLeftProjects(vs: seq<Line>, flags: map<LineRef, string>)
    requires StrictFlags(vs, flags)
    ensures forall k | 0 <= k < |vs| :: !Unprojectable(Reverted(vs, flags, LOSS_ATOMICITY)[k])
  {
    hide Unprojectable, Reverted;
    forall k | 0 <= k < |vs| ensures !Unprojectable(Reverted(vs, flags, LOSS_ATOMICITY)[k]) {
      FlaggedFell(vs, flags, LOSS_ATOMICITY, k);
      FallenIsProjectable(Reverted(vs, flags, LOSS_ATOMICITY)[k]);
    }
  }

  /** The realign policy: what the gate refuses is reverted, with its units, and no
      correction is lost: the sidecar holds each one taken away, and nothing else. */
  method RealignPass(doc: array<Line>, threshold: real) returns (sidecar: seq<Sidecar>, ghost flags: map<LineRef, string>)
    requires AllSound(doc[..]) && DistinctRefs(doc[..])
    modifies doc
    ensures AllSound(doc[..]) && Evolved(old(doc[..]), doc[..])
    ensures GateFlags(old(doc[..]), threshold, flags) && doc[..] == Reverted(old(doc[..]), flags, GATE_ATOMICITY)
    ensures KeepsAside(old(doc[..]), Pulled(ByRef(old(doc[..])), flags, GATE_ATOMICITY), sidecar)
    ensures forall k | 0 <= k < doc.Length :: NothingLost(old(doc[k]), doc[k], sidecar)
  {
    hide Reverted, AllSound, Evolved, GateFlags, Pulled, KeepsAside, NothingLost;
    var snapshots := doc[..];
    var reverts := FindGated(doc, threshold);
    flags := reverts;
    GatedAreReasoned(snapshots, threshold, reverts);
    var all := RevertInDocument(doc, reverts, GATE_ATOMICITY);
    RevertedKeeps(snapshots, reverts, GATE_ATOMICITY);
    sidecar := SidecarEntries(snapshots, all);
    forall k | 0 <= k < doc.Length ensures NothingLost(snapshots[k], doc[k], sidecar) {
      LossIsKeptAside(snapshots, reverts, GATE_ATOMICITY, sidecar, k);
    }
  }

  /** What a loss policy makes of a document. */
  ghost predicate Settles(vs: seq<Line>, ws: seq<Line>, loss: LossPolicy, flags: map<LineRef, string>, sidecar: seq<Sidecar>) {
    match loss
    case Report => ws == vs && sidecar == []
    case Strict => StrictFlags(vs, flags) && ws == Reverted(vs, flags, LOSS_ATOMICITY) && sidecar == []
    case Realign(threshold) =>
      && GateFlags(vs, threshold, flags) && ws == Reverted(vs, flags, GATE_ATOMICITY)
      && KeepsAside(vs, Pulled(ByRef(vs), flags, GATE_ATOMICITY), sidecar)
  }

  /** `_loss_policy_pass`. */
  method LossPass(doc: array<Line>, loss: LossPolicy) returns (sidecar: seq<Sidecar>, ghost flags: map<LineRef, string>)
    requires AllSound(doc[..]) && DistinctRefs(doc[..])
    modifies doc
    ensures AllSound(doc[..]) && Evolved(old(doc[..]), doc[..])
    ensures Settles(old(doc[..]), doc[..], loss, flags, sidecar)
    ensures loss.Strict? ==> forall k | 0 <= k < doc.Length :: !Unprojectable(doc[k])
    ensures loss.Realign? ==> forall k | 0 <= k < doc.Length :: NothingLost(old(doc[k]), doc[k], sidecar)
  {
    hide AllSound, Evolved, StrictFlags, GateFlags, Reverted, KeepsAside, Pulled, Unprojectable, NothingLost;
    sidecar, flags := [], map[];
    EvolvedReflexive(doc[..]);
    if loss.Strict? {
      flags := StrictPass(doc);
    } else if loss.Realign? {
      sidecar, flags := RealignPass(doc, loss.threshold);
    }
  }

  lemma FallenIsProjectable(l: Line)
    ensures l.status.Fallback? && l.corrected == Some(l.ocr) ==> !Unprojectable(l)
  {
    hide G.Words, WB.Suspect;
  }

  /** A correction the gate took away is in the sidecar. */
  ghost predicate NothingLost(before: Line, after: Line, sidecar: seq<Sidecar>) {
    before.corrected.Some? && before.corrected.value != before.ocr && after.corrected != before.corrected ==>
      exists reason :: Sidecar(before.ref, before.ocr, before.corrected.value, reason) in sidecar
  }

  lemma LossIsKeptAside(vs: seq<Line>, flagged: map<LineRef, string>, common: string, sidecar: seq<Sidecar>, k: nat)
    requires k < |vs| && KeepsAside(vs, Pulled(ByRef(vs), flagged, common), sidecar)
    ensures NothingLost(vs[k], Reverted(vs, flagged, common)[k], sidecar)
  {
    hide U.Closure, ByRef;
    var l := vs[k];
    if l.corrected.Some? && l.corrected.value != l.ocr && l.ref in Pulled(ByRef(vs), flagged, common) {
      var all := Pulled(ByRef(vs), flagged, common);
      assert SetAside(vs, all, k, Sidecar(l.ref, l.ocr, l.corrected.value, all[l.ref]));
    }
  }

  // ----- `derive_decision_set` -----

  function DecisionOf(l: Line): R.Decision {
    R.Decision(l.ref, l.ocr, if l.corrected.Some? then l.corrected.value else l.ocr, l.status,
               if l.status.Fallback? then l.reason else "", if l.status.ReviewRequired? then l.reviews else [])
  }

  function DecisionsOf(vs: seq<Line>): (ds: seq<R.Decision>)
    ensures |ds| == |vs| && forall k | 0 <= k < |vs| :: ds[k] == DecisionOf(vs[k])
  {
    seq(|vs|, k requires 0 <= k < |vs| => DecisionOf(vs[k]))
  }

  /** `derive_decision_set`: refuses exactly when a line is still undecided. */
  method DeriveDecisionSet(doc: array<Line>) returns (ds: Option<seq<R.Decision>>)
    ensures ds.None? <==> exists k :: 0 <= k < doc.Length && doc[k].status.Pending?
    ensures ds.Some? ==> ds.value == DecisionsOf(doc[..])
  {
    for p := 0 to doc.Length
      invariant forall k | 0 <= k < p :: !doc[k].status.Pending?
    {
      if doc[p].status.Pending? { return None; }
    }
    var out: seq<R.Decision> := [];
    for p := 0 to doc.Length
      invariant |out| == p && forall k | 0 <= k < p :: out[k] == DecisionOf(doc[k])
    {
      out := out + [DecisionOf(doc[p])];
    }
    assert out == DecisionsOf(doc[..]);
    ds := Some(out);
  }

  /** Each sound decided line's decision: a fallen one delivers its source, for a reason,
      and one has reasons to be reviewed exactly when it is referred. */
  lemma DecisionMeans(l: Line)
    requires Sound(l) && l.corrected.Some?
    ensures var d := DecisionOf(l);
      && (d.status.Fallback? <==> d.reason != "") && (d.status.ReviewRequired? <==> d.reviews != [])
      && (d.status.Fallback? ==> d.final == d.source)
      && (d.final != d.source ==> d.CarriesACorrection())
      && (d.CarriesACorrection() <==> !d.status.Fallback?)
  {
  }

  // ----- `_finalize_document` -----

  /** The passes in the order the engine runs them: adjacency reverts, respelling,
      the loss policy, and last the review, which only qualifies. Whatever the
      review policy refers, the delivered texts are those of the run without it. */
  method FinalizeDocument(doc: array<Line>, passes: Passes, review: bool, referrals: seq<Line> -> map<LineRef, seq<string>>)
    returns (ds: Option<seq<R.Decision>>, sidecar: seq<Sidecar>, ghost unreviewed: seq<Line>, ghost flags: map<LineRef, string>,
             ghost toRefer: map<LineRef, seq<string>>)
    requires AllSound(doc[..]) && DistinctRefs(doc[..]) && forall vs :: V.Reasoned(passes.adjacent(vs))
    modifies doc
    ensures AllSound(doc[..]) && Evolved(old(doc[..]), doc[..])
    ensures (forall k | 0 <= k < doc.Length :: old(doc[k]).corrected.Some?) ==> ds.Some?
    ensures ds.None? <==> exists k :: 0 <= k < doc.Length && doc[k].status.Pending?
    ensures ds.Some? ==> ds.value == DecisionsOf(doc[..])
    ensures |unreviewed| == doc.Length && forall k | 0 <= k < doc.Length :: OnlyQualified(unreviewed[k], doc[k])
    ensures if !review || referrals(unreviewed) == map[] then doc[..] == unreviewed
      else V.Pulls(ByRef(unreviewed), referrals(unreviewed), ["hyphen_unit_review"], toRefer) && doc[..] == V.Reviewed(unreviewed, toRefer)
    ensures var adjacent := Reverted(old(doc[..]), passes.adjacent(old(doc[..])), ADJACENCY);
      Settles(RespeltAll(adjacent, passes.isAlpha), unreviewed, passes.loss, flags, sidecar)
    ensures passes.loss.Strict? ==> forall k | 0 <= k < doc.Length :: !Unprojectable(doc[k])
  {
    hide Reverted, RespeltAll, Unprojectable, Sound, Evolves, OnlyQualified, V.Pulls, Settles, NothingLost;
    ghost var vs := doc[..];
    var flagged := passes.adjacent(doc[..]);
    var all := RevertInDocument(doc, flagged, ADJACENCY);
    RevertedKeeps(vs, flagged, ADJACENCY);
    ghost var us := doc[..];
    KeptRefs(vs, us);
    PreserveBreakChars(doc, passes.isAlpha);
    RespeltKeeps(us, passes.isAlpha);
    ghost var ts := doc[..];
    EvolvedTransitive(vs, us, ts);
    KeptRefs(vs, ts);
    sidecar, flags := LossPass(doc, passes.loss);
    unreviewed := doc[..];
    EvolvedTransitive(vs, ts, unreviewed);
    KeptRefs(vs, unreviewed);
    var refused;
    toRefer, refused := V.ReviewPass(doc, review, referrals(doc[..]));
    ReviewedFacts(unreviewed, doc[..], toRefer);
    EvolvedTransitive(vs, unreviewed, doc[..]);
    ds := DeriveDecisionSet(doc);
    PendingThroughout(vs, doc[..]);
  }

  /** Two lines that differ at most by a referral. */
  ghost predicate OnlyQualified(a: Line, b: Line) {
    && b.(status := a.status, reviews := a.reviews) == a
    && (b.status == a.status || (a.status.Corrected? && b.status.ReviewRequired?))
  }

  /** Two lines, the first pointing at the second, that both fell or neither did. */
  ghost predicate Together(vs: seq<Line>, x: nat, y: nat) {
    && DistinctRefs(vs) && x < |vs| && y < |vs| && vs[y].ref in Pointers(vs[x])
    && (vs[x].status.Fallback? <==> vs[y].status.Fallback?)
  }

  lemma {:induction false} PulledTogether(vs: seq<Line>, seeds: set<LineRef>, x: nat, y: nat)
    requires DistinctRefs(vs) && x < |vs| && y < |vs| && vs[y].ref in Pointers(vs[x])
    ensures vs[x].ref in U.Closure(ByRef(vs), seeds) <==> vs[y].ref in U.Closure(ByRef(vs), seeds)
  {
    hide U.SameUnit, Pointers, ByRef, U.Closure;
    var m := ByRef(vs);
    InByRef(vs, x);
    InByRef(vs, y);
    Reconcile.PointerIsAPair(m, vs[x].ref, vs[y].ref);
    U.SameUnitIsAnEquivalence(m, vs[x].ref, vs[y].ref, vs[x].ref);
    U.ClosureIsClosed(m, seeds);
  }

  /** What a revert leaves of one line: its name and pointers, and its state unless it
      is pulled down. */
  lemma RevertedLine(vs: seq<Line>, flagged: map<LineRef, string>, common: string, k: nat)
    requires k < |vs|
    ensures var l := Reverted(vs, flagged, common)[k];
      && l.ref == vs[k].ref && Pointers(l) == Pointers(vs[k])
      && if vs[k].ref in U.Closure(ByRef(vs), flagged.Keys) then l.status.Fallback? else l == vs[k]
  {
    hide U.Closure, ByRef, Pointers;
    FallKeepsPointers(vs[k]);
    assert vs[k] in vs;
  }

  lemma {:induction false} RevertedTogether(vs: seq<Line>, flagged: map<LineRef, string>, common: string, x: nat, y: nat)
    requires Together(vs, x, y)
    ensures Together(Reverted(vs, flagged, common), x, y)
  {
    hide Pointers, U.Closure, ByRef, Reverted;
    PulledTogether(vs, flagged.Keys, x, y);
    forall k: nat | k < |vs| ensures Reverted(vs, flagged, common)[k].ref == vs[k].ref { RevertedLine(vs, flagged, common, k); }
    RevertedLine(vs, flagged, common, x);
    RevertedLine(vs, flagged, common, y);
  }

  lemma FallKeepsPointers(l: Line)
    ensures forall reason: string :: FallenBack(l, reason).ref == l.ref && Pointers(FallenBack(l, reason)) == Pointers(l)
  {
  }

  lemma InByRef(vs: seq<Line>, k: nat)
    requires DistinctRefs(vs) && k < |vs|
    ensures vs[k].ref in ByRef(vs) && ByRef(vs)[vs[k].ref] == vs[k]
  {
    var pool := Iota(|vs|);
    assert LinesAt(vs, pool) == vs;
    assert pool[k] == k;
    Reconcile.PoolLine(vs, pool, k);
  }

  lemma {:induction false} RespeltTogether(vs: seq<Line>, isAlpha: char -> bool, x: nat, y: nat)
    requires Together(vs, x, y)
    ensures Together(RespeltAll(vs, isAlpha), x, y)
  {
    hide PreserveBreak;
  }

  /** The passes keep two linked lines together. */
  lemma {:induction false} FinalizedTogether(vs: seq<Line>, unreviewed: seq<Line>, ws: seq<Line>, passes: Passes, flags: map<LineRef, string>,
                                             sidecar: seq<Sidecar>, x: nat, y: nat)
    requires Together(vs, x, y) && |ws| == |unreviewed| && forall k | 0 <= k < |ws| :: OnlyQualified(unreviewed[k], ws[k])
    requires Settles(RespeltAll(Reverted(vs, passes.adjacent(vs), ADJACENCY), passes.isAlpha), unreviewed, passes.loss, flags, sidecar)
    ensures Together(ws, x, y)
  {
    hide Reverted, RespeltAll, Pointers, StrictFlags, GateFlags, KeepsAside, Pulled;
    var adjacent := Reverted(vs, passes.adjacent(vs), ADJACENCY);
    var ts := RespeltAll(adjacent, passes.isAlpha);
    RevertedTogether(vs, passes.adjacent(vs), ADJACENCY, x, y);
    RespeltTogether(adjacent, passes.isAlpha, x, y);
    RevertedTogether(ts, flags, LOSS_ATOMICITY, x, y);
    RevertedTogether(ts, flags, GATE_ATOMICITY, x, y);
    QualifiedTogether(unreviewed, ws, x, y);
  }

  lemma {:induction false} QualifiedTogether(vs: seq<Line>, ws: seq<Line>, x: nat, y: nat)
    requires Together(vs, x, y) && |ws| == |vs| && forall k | 0 <= k < |ws| :: OnlyQualified(vs[k], ws[k])
    ensures Together(ws, x, y)
  {
    forall k: nat | k < |ws| ensures ws[k].ref == vs[k].ref && Pointers(ws[k]) == Pointers(vs[k]) { assert OnlyQualified(vs[k], ws[k]); }
    hide Pointers;
  }

  lemma {:induction false} SameStrictFlags(vs: seq<Line>, f: map<LineRef, string>, g: map<LineRef, string>, r: LineRef)
    requires StrictFlags(vs, f) && StrictFlags(vs, g)
    ensures r in f ==> Flagged(f, r) == Flagged(g, r)
  {
    hide StrictReason;
    if r in f {
      var k :| 0 <= k < |vs| && vs[k].ref == r;
      assert Flagged(f, vs[k].ref) == StrictReason(vs[k]) == Flagged(g, vs[k].ref);
    }
  }

  lemma {:induction false} SameGateFlags(vs: seq<Line>, threshold: real, f: map<LineRef, string>, g: map<LineRef, string>, r: LineRef)
    requires GateFlags(vs, threshold, f) && GateFlags(vs, threshold, g)
    ensures r in f ==> Flagged(f, r) == Flagged(g, r)
  {
    hide GateReason;
    if r in f {
      var k :| 0 <= k < |vs| && vs[k].ref == r;
      assert Flagged(f, vs[k].ref) == GateReason(vs[k], threshold) == Flagged(g, vs[k].ref);
    }
  }

  lemma SameFlags(f: map<LineRef, string>, g: map<LineRef, string>)
    requires forall r | r in f || r in g :: Flagged(f, r) == Flagged(g, r)
    ensures f == g
  {
    assert forall r | r in f :: Flagged(g, r) == Some(f[r]);
    assert forall r | r in g :: Flagged(f, r) == Some(g[r]);
  }

  /** The loss policy leaves one document, and no choice. */
  lemma SettlesOneWay(vs: seq<Line>, us: seq<Line>, ws: seq<Line>, loss: LossPolicy, f: map<LineRef, string>, g: map<LineRef, string>,
                      s: seq<Sidecar>, t: seq<Sidecar>)
    requires Settles(vs, us, loss, f, s) && Settles(vs, ws, loss, g, t)
    ensures us == ws
  {
    hide StrictFlags, GateFlags, Reverted, KeepsAside, Pulled, Flagged;
    match loss
    case Report =>
    case Strict =>
      forall r | r in f || r in g ensures Flagged(f, r) == Flagged(g, r) {
        SameStrictFlags(vs, f, g, r);
        SameStrictFlags(vs, g, f, r);
      }
      SameFlags(f, g);
    case Realign(threshold) =>
      forall r | r in f || r in g ensures Flagged(f, r) == Flagged(g, r) {
        SameGateFlags(vs, threshold, f, g, r);
        SameGateFlags(vs, threshold, g, f, r);
      }
      SameFlags(f, g);
  }

  /** Changing the review policy changes no delivered text: two runs that agree up to
      the loss policy deliver the same text for every line, fall back on the same
      ones for the same reasons, and differ at most in which corrections they refer. */
  lemma {:induction false} ReviewPoliciesAgree(vs: seq<Line>, loss: LossPolicy, f: map<LineRef, string>, g: map<LineRef, string>,
                                               s: seq<Sidecar>, t: seq<Sidecar>, us: seq<Line>, us': seq<Line>,
                                               ws: seq<Line>, ws': seq<Line>, k: nat)
    requires Settles(vs, us, loss, f, s) && Settles(vs, ws, loss, g, t)
    requires |us| == |us'| && |ws| == |ws'| && k < |us| && k < |ws|
    requires OnlyQualified(us[k], us'[k]) && OnlyQualified(ws[k], ws'[k])
    ensures us'[k].corrected == ws'[k].corrected && us'[k].reason == ws'[k].reason && us'[k].ref == ws'[k].ref
    ensures us'[k].status == ws'[k].status || {us'[k].status, ws'[k].status} == {Corrected, ReviewRequired}
  {
    hide Settles;
    SettlesOneWay(vs, us, ws, loss, f, g, s, t);
  }

  lemma ReviewedFacts(vs: seq<Line>, ws: seq<Line>, toRefer: map<LineRef, seq<string>>)
    requires AllSound(vs) && (ws == vs || ws == V.Reviewed(vs, toRefer))
    ensures AllSound(ws) && Evolved(vs, ws) && forall k | 0 <= k < |vs| :: OnlyQualified(vs[k], ws[k])
    ensures forall k | 0 <= k < |vs| :: Unprojectable(ws[k]) <==> Unprojectable(vs[k])
  {
    hide Unprojectable, V.ReferredAll, Sound, Evolves;
    forall k | 0 <= k < |vs|
      ensures Sound(ws[k]) && Evolves(vs[k], ws[k]) && OnlyQualified(vs[k], ws[k]) && (Unprojectable(ws[k]) <==> Unprojectable(vs[k]))
    {
      EvolvesToItself(vs[k]);
      if ws != vs {
        V.ReviewChangesNoText(vs, toRefer, k);
        if vs[k].ref in toRefer && vs[k].status.Corrected? { V.ReferredKeepsText(vs[k], toRefer[vs[k].ref]); }
      }
      QualifiedProjects(vs[k], ws[k]);
    }
  }

  lemma QualifiedProjects(a: Line, b: Line)
    requires OnlyQualified(a, b)
    ensures Unprojectable(a) <==> Unprojectable(b)
  {
    hide G.Words, WB.Suspect;
  }

  lemma PendingThroughout(vs: seq<Line>, ws: seq<Line>)
    requires AllSound(ws) && Evolved(vs, ws) && AllSound(vs)
    ensures forall k | 0 <= k < |vs| :: vs[k].corrected.Some? ==> !ws[k].status.Pending?
  {
    forall k | 0 <= k < |vs| ensures vs[k].corrected.Some? ==> !ws[k].status.Pending? {
      assert Sound(ws[k]) && Evolves(vs[k], ws[k]);
    }
  }
}

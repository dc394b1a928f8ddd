/** `approval.py`: a person's verdicts on a finished run, applied to whole units. */
module Approval {
  import opened Prelude
  import opened Manifest
  import opened Decide
  import U = Units
  import V = Reverts
  import F = Finalize
  import R = Replay

  datatype Verdict = Agreed | Refused | Transcribed(reading: string)

  /** What a run had decided of a line. */
  datatype Past = Past(status: Status, final: string, reason: string, reviews: seq<string>)

  /** What a line will carry. */
  datatype Intent = Intent(status: Status, text: string, reason: string, reviews: seq<string>)

  const UNREVIEWED: string := "human: unreviewed"
  const REFUSED: string := "human: refused"
  const ATOMICITY: string := "human: unit atomicity"

  /** `_intent_of`: a line's own intent, and whether it was a referral nobody judged.
      `preserve` respells a transcription's break mark as the source has it. */
  function IntentOf(l: Line, before: Past, verdict: Option<Verdict>, deliver: bool, preserve: (string, string) -> string): (Intent, bool) {
    var same := Intent(before.status, before.final, before.reason, before.reviews);
    if verdict.None? then
      if !before.status.ReviewRequired? then (same, false)
      else if deliver then (same, true)
      else (Intent(Fallback, l.ocr, UNREVIEWED, []), true)
    else match verdict.value
      case Agreed => (if before.status.ReviewRequired? then Intent(Corrected, before.final, "", []) else same, false)
      case Refused => (Intent(Fallback, l.ocr, REFUSED, []), false)
      case Transcribed(reading) => (Intent(Corrected, preserve(l.ocr, reading), "", []), false)
  }

  /** The review as given: what was decided, what was judged, and what to do with a
      referral nobody judged. */
  datatype Review = Review(before: map<LineRef, Past>, judged: map<LineRef, Verdict>, deliver: bool, preserve: (string, string) -> string)

  function OwnIntent(l: Line, review: Review): Intent
    requires l.ref in review.before
  {
    IntentOf(l, review.before[l.ref], if l.ref in review.judged then Some(review.judged[l.ref]) else None, review.deliver, review.preserve).0
  }

  predicate IsTranscribed(review: Review, r: LineRef) {
    r in review.judged && review.judged[r].Transcribed?
  }

  /** A member falls with its unit unless it had fallen already, for a reason. */
  predicate StandsAsIs(i: Intent) {
    i.status.Fallback? && i.reason != ""
  }

  function PulledDown(l: Line): Intent {
    Intent(Fallback, l.ocr, ATOMICITY, [])
  }

  function AtomicIntent(own: Intent, l: Line): Intent {
    if StandsAsIs(own) then own else PulledDown(l)
  }

  /** The intents once the units in `groups` have been made whole. */
  ghost predicate WholeIntents(m: map<LineRef, Line>, own: map<LineRef, Intent>, groups: seq<U.HyphenGroup>, intents: map<LineRef, Intent>) {
    && intents.Keys == own.Keys == m.Keys
    && (forall g, r | g in groups && r in g.members && r in m :: intents[r] == if AnyFell(own, g) then AtomicIntent(own[r], m[r]) else own[r])
    && forall r | r in own && !U.Grouped(groups, r) :: intents[r] == own[r]
  }

  ghost predicate AnyFell(own: map<LineRef, Intent>, g: U.HyphenGroup) {
    exists r :: r in g.members && r in own && own[r].status.Fallback?
  }

  ghost predicate Own(lines: seq<Line>, review: Review, own: map<LineRef, Intent>) {
    own.Keys == RefsOf(lines) && forall l | l in lines :: l.ref in review.before && own[l.ref] == OwnIntent(l, review)
  }

  lemma OneIntentMore(lines: seq<Line>, review: Review, own: map<LineRef, Intent>, k: nat)
    requires k < |lines| && DistinctRefs(lines) && Own(lines[..k], review, own) && lines[k].ref in review.before
    ensures Own(lines[..k + 1], review, own[lines[k].ref := OwnIntent(lines[k], review)])
  {
    hide OwnIntent;
    var front, now := lines[..k], lines[..k + 1];
    assert now == front + [lines[k]];
    assert RefsOf(now) == RefsOf(front) + {lines[k].ref};
    forall l | l in front ensures l.ref != lines[k].ref {
      var i :| 0 <= i < k && lines[i] == l;
    }
  }

  /** The first loop of `_plan`. */
  method OwnIntents(lines: seq<Line>, review: Review) returns (own: map<LineRef, Intent>, unreviewed: seq<LineRef>)
    requires (forall l | l in lines :: l.ref in review.before) && DistinctRefs(lines)
    ensures Own(lines, review, own)
    ensures forall r :: r in unreviewed <==> exists k :: 0 <= k < |lines| && Unjudged(lines[k], review) && lines[k].ref == r
  {
    hide IntentOf, Own;
    own, unreviewed := map[], [];
    NoIntents(review);
    assert lines[..0] == [];
    for k := 0 to |lines|
      invariant Own(lines[..k], review, own)
      invariant forall r :: r in unreviewed <==> exists i :: 0 <= i < k && Unjudged(lines[i], review) && lines[i].ref == r
    {
      var l := lines[k];
      assert l in lines;
      OneIntentMore(lines, review, own, k);
      own := own[l.ref := OwnIntent(l, review)];
      if Unjudged(l, review) { unreviewed := unreviewed + [l.ref]; }
    }
    assert lines[..|lines|] == lines;
  }

  predicate Unjudged(l: Line, review: Review)
    requires l.ref in review.before
  {
    IntentOf(l, review.before[l.ref], if l.ref in review.judged then Some(review.judged[l.ref]) else None, review.deliver, review.preserve).1
  }

  lemma NoIntents(review: Review)
    ensures Own([], review, map[])
  {
  }

  // ----- the unit rule -----

  lemma OneGroupMore(m: map<LineRef, Line>, own: map<LineRef, Intent>, groups: seq<U.HyphenGroup>, k: nat, intents: map<LineRef, Intent>,
                     after: map<LineRef, Intent>)
    requires k < |groups| && own.Keys == m.Keys && U.IsGrouping(m, groups) && WholeIntents(m, own, groups[..k], intents)
    requires after.Keys == own.Keys
    requires forall r | r in own && r in groups[k].members && AnyFell(own, groups[k]) :: after[r] == AtomicIntent(own[r], m[r])
    requires forall r | r in own && !(r in groups[k].members && AnyFell(own, groups[k])) :: after[r] == intents[r]
    ensures WholeIntents(m, own, groups[..k + 1], after)
  {
    hide AnyFell, AtomicIntent, U.IsGrouping, U.Grouped;
    var g, front, now := groups[k], groups[..k], groups[..k + 1];
    assert now == front + [g];
    GroupsAreApart(m, groups, k);
    forall r ensures U.Grouped(now, r) <==> U.Grouped(front, r) || r in g.members { U.GroupedSnoc(front, g, r); }
  }

  lemma GroupsAreApart(m: map<LineRef, Line>, groups: seq<U.HyphenGroup>, k: nat)
    requires k < |groups| && U.IsGrouping(m, groups)
    ensures forall h, r | h in groups[..k] && r in h.members :: r !in groups[k].members
    ensures forall r | r in groups[k].members :: !U.Grouped(groups[..k], r)
  {
    hide U.IsUnit, U.SameUnit;
    forall h, r | h in groups[..k] && r in h.members ensures r !in groups[k].members {
      var i :| 0 <= i < k && groups[i] == h;
    }
  }

  method FellIn(own: map<LineRef, Intent>, g: U.HyphenGroup) returns (fell: bool)
    requires forall r | r in g.members :: r in own
    ensures fell <==> AnyFell(own, g)
  {
    for i := 0 to |g.members|
      invariant forall j | 0 <= j < i :: !own[g.members[j]].status.Fallback?
    {
      assert g.members[i] in g.members;
      if own[g.members[i]].status.Fallback? { return true; }
    }
    fell := false;
  }

  /** Pull the rest of a unit down with the member that fell. */
  method PullDown(m: map<LineRef, Line>, intents: map<LineRef, Intent>, g: U.HyphenGroup) returns (after: map<LineRef, Intent>, pulled: seq<LineRef>)
    requires intents.Keys == m.Keys && Distinct(g.members) && forall r | r in g.members :: r in m
    ensures after.Keys == m.Keys
    ensures forall r | r in m :: after[r] == if r in g.members then AtomicIntent(intents[r], m[r]) else intents[r]
    ensures forall r :: r in pulled <==> r in g.members && !StandsAsIs(intents[r])
  {
    after, pulled := intents, [];
    for i := 0 to |g.members|
      invariant after.Keys == m.Keys
      invariant forall r | r in m :: after[r] == if r in g.members[..i] then AtomicIntent(intents[r], m[r]) else intents[r]
      invariant forall r :: r in pulled <==> r in g.members[..i] && !StandsAsIs(intents[r])
    {
      var r := g.members[i];
      assert r in g.members && r !in g.members[..i];
      assert g.members[..i + 1] == g.members[..i] + [r];
      if StandsAsIs(after[r]) { continue; }
      after := after[r := PulledDown(m[r])];
      pulled := pulled + [r];
    }
    assert g.members[..|g.members|] == g.members;
  }

  ghost predicate SomeTranscribed(review: Review, groups: seq<U.HyphenGroup>) {
    exists g, r :: g in groups && r in g.members && IsTranscribed(review, r)
  }

  method TranscribedIn(review: Review, g: U.HyphenGroup) returns (found: bool)
    ensures found <==> exists r :: r in g.members && IsTranscribed(review, r)
  {
    for i := 0 to |g.members|
      invariant forall j | 0 <= j < i :: !IsTranscribed(review, g.members[j])
    {
      if IsTranscribed(review, g.members[i]) {
        assert g.members[i] in g.members;
        return true;
      }
    }
    found := false;
  }

  /** `r` falls with its unit, not having fallen for a reason of its own. */
  ghost predicate PulledIn(own: map<LineRef, Intent>, g: U.HyphenGroup, r: LineRef) {
    r in g.members && r in own && AnyFell(own, g) && !StandsAsIs(own[r])
  }

  ghost predicate PulledBy(own: map<LineRef, Intent>, groups: seq<U.HyphenGroup>, r: LineRef) {
    exists g :: g in groups && PulledIn(own, g, r)
  }

  /** One turn of the second loop: a unit one member of which falls falls whole. */
  method MakeWhole(m: map<LineRef, Line>, own: map<LineRef, Intent>, groups: seq<U.HyphenGroup>, k: nat, intents: map<LineRef, Intent>,
                   pulled: seq<LineRef>) returns (after: map<LineRef, Intent>, pulled': seq<LineRef>)
    requires k < |groups| && own.Keys == m.Keys == intents.Keys && U.IsGrouping(m, groups) && WholeIntents(m, own, groups[..k], intents)
    requires forall r :: r in pulled <==> PulledBy(own, groups[..k], r)
    ensures after.Keys == m.Keys && WholeIntents(m, own, groups[..k + 1], after)
    ensures forall r :: r in pulled' <==> PulledBy(own, groups[..k + 1], r)
  {
    hide U.IsGrouping, WholeIntents, AnyFell, AtomicIntent, PulledBy, StandsAsIs;
    after, pulled' := intents, pulled;
    var g := groups[k];
    GroupFacts(m, groups, k);
    UntouchedGroup(m, own, groups, k, intents);
    var fell := FellIn(own, g);
    PulledMore(own, groups, k);
    if fell {
      var more;
      after, more := PullDown(m, intents, g);
      assert forall r :: r in more <==> PulledIn(own, g, r);
      pulled' := pulled + more;
    } else {
      assert forall r :: !PulledIn(own, g, r);
    }
    OneGroupMore(m, own, groups, k, intents, after);
  }

  /** `_plan`: refuses exactly when a member of a unit was transcribed; otherwise each
      line keeps its own intent, except that a unit one member of which falls falls
      whole. It lists the referrals nobody judged and the lines pulled down with their
      unit, and no other. */
  method Plan(lines: seq<Line>, review: Review)
    returns (intents: Option<map<LineRef, Intent>>, unreviewed: seq<LineRef>, pulled: seq<LineRef>,
             ghost groups: seq<U.HyphenGroup>, ghost own: map<LineRef, Intent>)
    requires (forall l | l in lines :: l.ref in review.before) && DistinctRefs(lines)
    ensures U.IsGrouping(ByRef(lines), groups) && Own(lines, review, own)
    ensures intents.None? <==> SomeTranscribed(review, groups)
    ensures intents.Some? ==> WholeIntents(ByRef(lines), own, groups, intents.value)
    ensures forall r :: r in unreviewed <==> exists k :: 0 <= k < |lines| && Unjudged(lines[k], review) && lines[k].ref == r
    ensures intents.Some? ==> forall r :: r in pulled <==> PulledBy(own, groups, r)
  {
    hide U.IsGrouping, Own, WholeIntents, OwnIntent, AnyFell, IsTranscribed, AtomicIntent, Unjudged, PulledBy, StandsAsIs;
    var mine, left := OwnIntents(lines, review);
    own, unreviewed, pulled := mine, left, [];
    var derived := U.DeriveHyphenGroups(lines);
    groups := derived;
    ByRefKeys(lines);
    OwnKeys(lines, review, own);
    var m := ByRef(lines);
    var now := mine;
    NothingWhole(m, own);
    for k := 0 to |derived|
      invariant now.Keys == m.Keys && WholeIntents(m, own, derived[..k], now)
      invariant forall j | 0 <= j < k :: forall r | r in derived[j].members :: !IsTranscribed(review, r)
      invariant forall r :: r in pulled <==> PulledBy(own, derived[..k], r)
    {
      var transcribed := TranscribedIn(review, derived[k]);
      if transcribed { return None, left, pulled, groups, own; }
      now, pulled := MakeWhole(m, mine, derived, k, now, pulled);
    }
    assert derived[..|derived|] == derived;
    NoneTranscribed(review, derived);
    intents := Some(now);
  }

  lemma PulledMore(own: map<LineRef, Intent>, groups: seq<U.HyphenGroup>, k: nat)
    requires k < |groups|
    ensures forall r :: PulledBy(own, groups[..k + 1], r) <==> PulledBy(own, groups[..k], r) || PulledIn(own, groups[k], r)
  {
    hide PulledIn;
    assert groups[..k + 1] == groups[..k] + [groups[k]];
  }

  lemma OwnKeys(lines: seq<Line>, review: Review, own: map<LineRef, Intent>)
    requires Own(lines, review, own)
    ensures own.Keys == RefsOf(lines)
  {
  }

  lemma NothingWhole(m: map<LineRef, Line>, own: map<LineRef, Intent>)
    requires own.Keys == m.Keys
    ensures WholeIntents(m, own, [], own) && forall r :: !PulledBy(own, [], r)
  {
  }

  lemma GroupFacts(m: map<LineRef, Line>, groups: seq<U.HyphenGroup>, k: nat)
    requires U.IsGrouping(m, groups) && k < |groups|
    ensures Distinct(groups[k].members) && forall r | r in groups[k].members :: r in m && !U.Grouped(groups[..k], r)
  {
    assert U.IsUnit(m, groups[k]);
    hide U.IsUnit;
    forall r | r in groups[k].members ensures !U.Grouped(groups[..k], r) {
      forall g | g in groups[..k] ensures r !in g.members {
        var i :| 0 <= i < k && groups[i] == g;
      }
    }
  }

  lemma UntouchedGroup(m: map<LineRef, Line>, own: map<LineRef, Intent>, groups: seq<U.HyphenGroup>, k: nat, intents: map<LineRef, Intent>)
    requires U.IsGrouping(m, groups) && k < |groups| && WholeIntents(m, own, groups[..k], intents)
    ensures forall r | r in groups[k].members :: r in own && r in intents && intents[r] == own[r]
  {
    GroupFacts(m, groups, k);
  }

  lemma NoneTranscribed(review: Review, groups: seq<U.HyphenGroup>)
    requires forall j | 0 <= j < |groups| :: forall r | r in groups[j].members :: !IsTranscribed(review, r)
    ensures !SomeTranscribed(review, groups)
  {
  }

  // ----- what a plan guarantees -----

  /** Each unit falls whole or not at all, with every fallen line at its source. */
  lemma {:induction false} UnitsAreAllOrNone(lines: seq<Line>, review: Review, groups: seq<U.HyphenGroup>, own: map<LineRef, Intent>,
                                             intents: map<LineRef, Intent>, x: LineRef, y: LineRef)
    requires U.IsGrouping(ByRef(lines), groups) && WholeIntents(ByRef(lines), own, groups, intents)
    requires x in ByRef(lines) && y in ByRef(lines) && U.SameUnit(ByRef(lines), x, y)
    ensures x in intents && y in intents && (intents[x].status.Fallback? <==> intents[y].status.Fallback?)
  {
    hide U.SameUnit, U.IsUnit, ByRef;
    if x != y {
      assert U.Grouped(groups, x);
      var g :| g in groups && x in g.members;
      U.SeedContributes(ByRef(lines), groups, x, y);
      if !AnyFell(own, g) { NoneFell(own, g); }
    }
  }

  lemma NoneFell(own: map<LineRef, Intent>, g: U.HyphenGroup)
    requires !AnyFell(own, g)
    ensures forall r | r in g.members && r in own :: !own[r].status.Fallback?
  {
  }

  /** What a run leaves of a line: a decision; a fallen line's text is its source, and
      a line that stands was referred exactly if there is a reason to review it. */
  ghost predicate HonestPast(l: Line, review: Review) {
    && l.ref in review.before
    && var past := review.before[l.ref];
    && !past.status.Pending? && !past.status.Failed?
    && if past.status.Fallback? then past.final == l.ocr else past.status.ReviewRequired? <==> past.reviews != []
  }

  function PastOf(d: R.Decision): Past {
    Past(d.status, d.final, d.reason, d.reviews)
  }

  /** A run's decisions are such a past: `l` is the line given to the run, `m` the same
      line as the run left it. */
  lemma RunsLeaveAnHonestPast(l: Line, m: Line, review: Review)
    requires m.ref == l.ref && m.ocr == l.ocr && Sound(m) && m.corrected.Some?
    requires l.ref in review.before && review.before[l.ref] == PastOf(F.DecisionOf(m))
    ensures HonestPast(l, review)
  {
    F.DecisionMeans(m);
  }

  /** What writing an intent takes for the line to carry what the record says. */
  predicate Writable(l: Line, i: Intent) {
    if i.status.Fallback? then i.text == l.ocr
    else !i.status.Pending? && !i.status.Failed? && (i.status.ReviewRequired? <==> i.reviews != [])
  }

  lemma OwnIntentIsWritable(l: Line, review: Review)
    requires HonestPast(l, review)
    ensures Writable(l, OwnIntent(l, review))
  {
  }

  /** Whatever was judged, every intent of a plan over an honest past can be written as
      it is recorded: the unit rule included. */
  lemma {:induction false} PlanIsWritable(lines: seq<Line>, review: Review, groups: seq<U.HyphenGroup>, own: map<LineRef, Intent>,
                                          intents: map<LineRef, Intent>, k: nat)
    requires DistinctRefs(lines) && k < |lines| && HonestPast(lines[k], review)
    requires Own(lines, review, own) && WholeIntents(ByRef(lines), own, groups, intents)
    ensures lines[k].ref in intents && Writable(lines[k], intents[lines[k].ref])
  {
    hide AnyFell, OwnIntent, HonestPast;
    var l := lines[k];
    assert l in lines;
    OwnIntentIsWritable(l, review);
    ByRefIs(lines, k);
    ByRefKeys(lines);
    if U.Grouped(groups, l.ref) {
      var g :| g in groups && l.ref in g.members;
      assert intents[l.ref] == if AnyFell(own, g) then AtomicIntent(own[l.ref], l) else own[l.ref];
    }
  }

  lemma {:induction false} ByRefIs(lines: seq<Line>, k: nat)
    requires DistinctRefs(lines) && k < |lines|
    ensures lines[k].ref in ByRef(lines) && ByRef(lines)[lines[k].ref] == lines[k]
  {
    var n := |lines| - 1;
    if k < n { ByRefIs(lines[..n], k); }
  }

  // ----- writing it -----

  /** The line once the verbs have written an intent. */
  function Written(l: Line, intent: Intent): Line {
    if intent.status.Fallback? then FallenBack(l, if intent.reason == "" then UNREVIEWED else intent.reason)
    else V.ReferredAll(Accepted(l, intent.text), intent.reviews)
  }

  /** The record the artefact is checked against. */
  function RecordOf(l: Line, intent: Intent): Record {
    Record(l.ref, l.ocr, intent.text, intent.status, if intent.status.Fallback? then intent.reason else "", intent.reviews)
  }

  datatype Record = Record(ref: LineRef, source: string, final: string, status: Status, reason: string, reviews: seq<string>)

  /** `_amend`: through the verbs, which never refuse here. */
  method Amend(doc: array<Line>, p: nat, intent: Intent) returns (record: Record, refused: bool)
    requires p < doc.Length
    modifies doc
    ensures !refused && record == RecordOf(old(doc[p]), intent)
    ensures doc[..] == old(doc[..])[p := Written(old(doc[p]), intent)]
  {
    hide V.ReferredAll, FallenBack;
    refused, record := false, RecordOf(doc[p], intent);
    if intent.status.Fallback? {
      FallBack(doc, p, if intent.reason == "" then UNREVIEWED else intent.reason);
      return;
    }
    Accept(doc, p, intent.text);
    refused := V.ReferAll(doc, p, intent.reviews);
  }

  /** A written line and its record agree on text and status exactly when the intent is
      writable. */
  lemma WrittenMatchesItsRecord(l: Line, intent: Intent)
    ensures var w, record := Written(l, intent), RecordOf(l, intent);
      w.corrected == Some(record.final) && w.status == record.status <==> Writable(l, intent)
  {
    hide V.ReferredAll;
    V.ReferredKeepsText(Accepted(l, intent.text), intent.reviews);
    NoReferral(Accepted(l, intent.text));
  }

  lemma NoReferral(l: Line)
    ensures V.ReferredAll(l, []) == l
  {
  }

  /** `approve`, as far as the manifest goes: refused as a whole when a member of a unit
      was transcribed, and then nothing is written; otherwise every line is written,
      and over an honest past carries the text and the status its record states. */
  method Approve(doc: array<Line>, review: Review)
    returns (records: Option<seq<Record>>, ghost groups: seq<U.HyphenGroup>, ghost own: map<LineRef, Intent>, ghost whole: map<LineRef, Intent>)
    requires (forall p | 0 <= p < doc.Length :: doc[p].ref in review.before) && DistinctRefs(doc[..])
    modifies doc
    ensures U.IsGrouping(ByRef(old(doc[..])), groups) && (records.None? <==> SomeTranscribed(review, groups))
    ensures records.None? ==> doc[..] == old(doc[..])
    ensures records.Some? ==> Own(old(doc[..]), review, own) && WholeIntents(ByRef(old(doc[..])), own, groups, whole)
    ensures records.Some? ==> |records.value| == doc.Length && forall p | 0 <= p < doc.Length ::
      && old(doc[p]).ref in whole && records.value[p] == RecordOf(old(doc[p]), whole[old(doc[p]).ref])
      && doc[p] == Written(old(doc[p]), whole[old(doc[p]).ref])
      && (HonestPast(old(doc[p]), review) ==>
            doc[p].corrected == Some(records.value[p].final) && doc[p].status == records.value[p].status)
    ensures records.Some? ==> forall x, y | 0 <= x < doc.Length && 0 <= y < doc.Length &&
      U.SameUnit(ByRef(old(doc[..])), old(doc[x]).ref, old(doc[y]).ref) ::
      records.value[x].status.Fallback? <==> records.value[y].status.Fallback?
  {
    hide U.IsGrouping, Own, WholeIntents, Written, HonestPast, SomeTranscribed, U.SameUnit, PulledBy, Unjudged, ByRef;
    ghost var vs := doc[..];
    var intents, unreviewed, pulled;
    intents, unreviewed, pulled, groups, own := Plan(doc[..], review);
    whole := map[];
    if intents.None? { return None, groups, own, whole; }
    whole := intents.value;
    var written: seq<Record> := [];
    EveryIntent(vs, review, groups, own, intents.value);
    for p := 0 to doc.Length
      invariant |written| == p && forall k | 0 <= k < p :: written[k] == RecordOf(vs[k], intents.value[vs[k].ref])
      invariant forall k | 0 <= k < p :: doc[k] == Written(vs[k], intents.value[vs[k].ref])
      invariant forall k | p <= k < doc.Length :: doc[k] == vs[k]
    {
      var record, refused := Amend(doc, p, intents.value[doc[p].ref]);
      written := written + [record];
    }
    records := Some(written);
    forall p | 0 <= p < doc.Length && HonestPast(vs[p], review)
      ensures doc[p].corrected == Some(written[p].final) && doc[p].status == written[p].status
    {
      PlanIsWritable(vs, review, groups, own, intents.value, p);
      WrittenMatchesItsRecord(vs[p], intents.value[vs[p].ref]);
    }
    forall x, y | 0 <= x < doc.Length && 0 <= y < doc.Length && U.SameUnit(ByRef(vs), vs[x].ref, vs[y].ref)
      ensures written[x].status.Fallback? <==> written[y].status.Fallback?
    {
      ByRefIs(vs, x);
      ByRefIs(vs, y);
      UnitsAreAllOrNone(vs, review, groups, own, intents.value, vs[x].ref, vs[y].ref);
    }
  }

  lemma EveryIntent(lines: seq<Line>, review: Review, groups: seq<U.HyphenGroup>, own: map<LineRef, Intent>, intents: map<LineRef, Intent>)
    requires WholeIntents(ByRef(lines), own, groups, intents)
    ensures forall k | 0 <= k < |lines| :: lines[k].ref in intents
  {
    ByRefKeys(lines);
    forall k | 0 <= k < |lines| ensures lines[k].ref in intents { assert lines[k] in lines; }
  }
}

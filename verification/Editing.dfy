/** The edit protocol (`editing.py`): anchors, the overlap filter, simultaneous
    substitution and one line's verdict. */
module Editing {
  import opened Prelude
  import opened Manifest

  datatype Anchor = Range(start: int, end: int) | Match(text: string, occurrence: Option<int>)

  datatype Op =
    | ReplaceLine(line: string, page: Option<string>, text: string)
    | ReplaceSpan(line: string, page: Option<string>, text: string, anchor: Anchor)

  datatype Reason =
    | UnknownLine | ContextLine | Conflict | Empty | Newline | Overlap | DriftRatio | DriftBudget
    | Hyphen | BoundaryWord | NotFound | Ambiguous | OutOfRange | EmptyMatch | Precondition

  datatype Rejection = Rejection(line: string, op: Op, reason: Reason)

  datatype Guard = Guard(growth: real, maxChanged: nat)

  /** A replacement anchored in the canonical text. */
  datatype Span = Span(start: nat, end: nat, text: string)

  // ----- text -----

  predicate IsSeparator(c: char) {
    c in {'\n', '\r', '\U{b}', '\U{c}', '\U{1c}', '\U{1d}', '\U{1e}', '\U{85}', '\U{2028}', '\U{2029}'}
  }

  /** `has_line_separator`. */
  predicate HasNewline(text: string) {
    exists k :: 0 <= k < |text| && IsSeparator(text[k])
  }

  // ----- anchors -----

  predicate OccursAt(m: string, text: string, at: nat) {
    at + |m| <= |text| && text[at..at + |m|] == m
  }

  /** Every start of `m` in `text` from `from` on, in order; they may overlap. */
  function Occurrences(m: string, text: string, from: nat): (starts: seq<nat>)
    ensures forall s: nat :: s in starts <==> from <= s && OccursAt(m, text, s)
    ensures forall i, j | 0 <= i < j < |starts| :: starts[i] < starts[j]
    decreases |text| - from
  {
    if from > |text| then []
    else
      var rest := Occurrences(m, text, from + 1);
      assert forall k | 0 <= k < |rest| :: rest[k] in rest;
      if OccursAt(m, text, from) then [from] + rest else rest
  }

  /** `str.find`: the first occurrence at or after `from`. */
  method Find(text: string, m: string, from: nat) returns (at: Option<nat>)
    ensures FoundNext(m, text, from, at)
  {
    var i := from;
    while i + |m| <= |text|
      invariant from <= i && forall s: nat | from <= s < i :: !OccursAt(m, text, s)
    {
      if text[i..i + |m|] == m { return Some(i); }
      i := i + 1;
    }
    at := None;
  }

  lemma {:induction false} SkipsTo(m: string, text: string, from: nat, to: nat)
    requires from <= to && forall s: nat | from <= s < to :: !OccursAt(m, text, s)
    ensures Occurrences(m, text, from) == Occurrences(m, text, to)
    decreases (to as int) - (from as int)
  {
    if from < to && from <= |text| { SkipsTo(m, text, from + 1, to); }
  }

  /** Which range an anchor names: its own when in bounds, the chosen or the only
      occurrence of its match otherwise. */
  function Resolve(anchor: Anchor, text: string): Result<(nat, nat), Reason> {
    match anchor
    case Range(start, end) => if 0 <= start <= end <= |text| then Ok((start, end)) else Err(OutOfRange)
    case Match(m, occurrence) =>
      var starts := Occurrences(m, text, 0);
      if m == "" then Err(EmptyMatch)
      else if starts == [] then Err(NotFound)
      else if occurrence.None? then if |starts| > 1 then Err(Ambiguous) else Ok((starts[0], starts[0] + |m|))
      else if occurrence.value < 0 || occurrence.value >= |starts| then Err(OutOfRange)
      else Ok((starts[occurrence.value], starts[occurrence.value] + |m|))
  }

  /** The occurrences from a found one on, none when nothing was found. */
  ghost function From(m: string, text: string, at: Option<nat>): seq<nat> {
    if at.Some? then Occurrences(m, text, at.value) else []
  }

  ghost predicate FoundNext(m: string, text: string, from: nat, at: Option<nat>) {
    if at.None? then forall s: nat | from <= s :: !OccursAt(m, text, s)
    else from <= at.value && OccursAt(m, text, at.value) && forall s: nat | from <= s < at.value :: !OccursAt(m, text, s)
  }

  lemma {:induction false} FoundFrom(m: string, text: string, from: nat, at: Option<nat>)
    requires FoundNext(m, text, from, at)
    ensures Occurrences(m, text, from) == From(m, text, at)
  {
    hide Occurrences, OccursAt;
    var to := if at.Some? then at.value else if from <= |text| then |text| + 1 else from;
    SkipsTo(m, text, from, to);
    if at.None? { PastTheEnd(m, text, to); }
  }

  /** The search loop: every occurrence, overlapping ones included. */
  method AllOccurrences(m: string, text: string) returns (starts: seq<nat>)
    ensures starts == Occurrences(m, text, 0)
  {
    hide Occurrences, OccursAt, From, FoundNext, Search;
    starts := [];
    var i := Find(text, m, 0);
    SearchStarts(m, text, i);
    while i.Some?
      invariant Search(m, text, starts, i)
      decreases if i.Some? then |text| + 1 - i.value else 0
    {
      SearchInside(m, text, starts, i);
      var next := Find(text, m, i.value + 1);
      SearchStep(m, text, starts, i.value, next);
      starts := starts + [i.value];
      i := next;
      if next.Some? { SearchInside(m, text, starts, next); }
    }
    SearchEnds(m, text, starts);
  }

  /** The starts found, and the next one, if any. */
  ghost predicate Search(m: string, text: string, starts: seq<nat>, next: Option<nat>) {
    (next.Some? ==> OccursAt(m, text, next.value)) && Occurrences(m, text, 0) == starts + From(m, text, next)
  }

  lemma SearchStarts(m: string, text: string, i: Option<nat>)
    requires FoundNext(m, text, 0, i)
    ensures Search(m, text, [], i)
  {
    FoundFrom(m, text, 0, i);
    hide Occurrences, From;
    assert [] + From(m, text, i) == From(m, text, i);
  }

  lemma SearchInside(m: string, text: string, starts: seq<nat>, i: Option<nat>)
    requires i.Some? && Search(m, text, starts, i)
    ensures i.value <= |text|
  {
    hide Occurrences, From;
    OccursInside(m, text, i.value);
  }

  lemma {:induction false} SearchStep(m: string, text: string, starts: seq<nat>, at: nat, next: Option<nat>)
    requires Search(m, text, starts, Some(at)) && FoundNext(m, text, at + 1, next)
    ensures Search(m, text, starts + [at], next) && (next.Some? ==> next.value > at)
  {
    hide Occurrences, From;
    FoundFrom(m, text, at + 1, next);
    OneOccurrence(m, text, starts, at, next);
  }

  lemma SearchEnds(m: string, text: string, starts: seq<nat>)
    requires Search(m, text, starts, None)
    ensures starts == Occurrences(m, text, 0)
  {
    hide Occurrences;
    NoneLeft(m, text, starts);
  }

  lemma NoneLeft(m: string, text: string, starts: seq<nat>)
    ensures starts + From(m, text, None) == starts
  {
  }

  lemma {:induction false} OneOccurrence(m: string, text: string, starts: seq<nat>, at: nat, next: Option<nat>)
    requires OccursAt(m, text, at) && Occurrences(m, text, at + 1) == From(m, text, next)
    ensures starts + From(m, text, Some(at)) == starts + [at] + From(m, text, next)
  {
    assert Occurrences(m, text, at) == [at] + Occurrences(m, text, at + 1);
    hide Occurrences;
  }

  lemma OccursInside(m: string, text: string, at: nat)
    requires OccursAt(m, text, at)
    ensures at <= |text|
  {
  }

  lemma PastTheEnd(m: string, text: string, from: nat)
    requires from > |text|
    ensures Occurrences(m, text, from) == []
  {
  }

  /** `normalize_anchor`: a resolved range is in bounds, and the range of a match
      holds exactly the text it matched. */
  method NormalizeAnchor(anchor: Anchor, text: string) returns (r: Result<(nat, nat), Reason>)
    ensures r == Resolve(anchor, text)
  {
    hide Occurrences;
    if anchor.Range? {
      if 0 <= anchor.start <= anchor.end <= |text| { return Ok((anchor.start, anchor.end)); }
      return Err(OutOfRange);
    }
    var m := anchor.text;
    if m == "" { return Err(EmptyMatch); }
    var starts := AllOccurrences(m, text);
    if starts == [] { return Err(NotFound); }
    if anchor.occurrence.None? {
      if |starts| > 1 { return Err(Ambiguous); }
      return Ok((starts[0], starts[0] + |m|));
    }
    var n := anchor.occurrence.value;
    if n < 0 || n >= |starts| { return Err(OutOfRange); }
    r := Ok((starts[n], starts[n] + |m|));
  }

  /** What a resolved anchor means: its range is in bounds; a match without an
      occurrence names the only one there is. */
  lemma {:induction false} ResolvedAnchor(anchor: Anchor, text: string)
    requires Resolve(anchor, text).Ok?
    ensures var (start, end) := Resolve(anchor, text).value;
      && start <= end <= |text|
      && (anchor.Match? ==> text[start..end] == anchor.text)
      && (anchor.Match? && anchor.occurrence.None? ==> forall s: nat | OccursAt(anchor.text, text, s) :: s == start)
  {
    if anchor.Match? {
      var starts := Occurrences(anchor.text, text, 0);
      var n := if anchor.occurrence.None? then 0 else anchor.occurrence.value;
      assert starts[n] in starts;
    }
  }

  // ----- the overlap filter -----

  ghost predicate InRange(text: string, spans: seq<Span>) {
    forall k | 0 <= k < |spans| :: spans[k].start <= spans[k].end <= |text|
  }

  /** Strictly increasing starts, each at or after the end before it. */
  ghost predicate Separated(spans: seq<Span>) {
    forall j, k | 0 <= j < k < |spans| :: spans[j].start < spans[k].start && spans[j].end <= spans[k].start
  }

  predicate Clashes(span: Span, last: Span) {
    span.start < last.end || span.start == last.start
  }

  /** What the E2 filter keeps. */
  function Kept(spans: seq<Span>): (kept: seq<Span>)
    ensures forall s :: s in kept ==> s in spans
  {
    if spans == [] then []
    else
      var front, last := Kept(spans[..|spans| - 1]), spans[|spans| - 1];
      if front != [] && Clashes(last, front[|front| - 1]) then front else front + [last]
  }

  function StartOf(s: Span): int { s.start }
  function EndOf(s: Span): int { s.end }
  function FromTheRight(s: Span): int { 0 - (s.start as int) }

  /** Ascending by start, then by end (two stable sorts, the last by start). */
  function InOrder(spans: seq<Span>): (r: seq<Span>)
    ensures multiset(r) == multiset(spans)
  {
    Sort(Sort(spans, EndOf), StartOf)
  }

  /** Whatever the order it is given, what the filter keeps is in order and apart. */
  lemma {:induction false} KeptIsSeparated(text: string, spans: seq<Span>)
    requires InRange(text, spans)
    ensures InRange(text, Kept(spans)) && Separated(Kept(spans))
  {
    if spans != [] {
      var front := spans[..|spans| - 1];
      KeptIsSeparated(text, front);
    }
  }

  lemma {:induction false} OrderKeepsRange(text: string, spans: seq<Span>)
    requires InRange(text, spans)
    ensures InRange(text, InOrder(spans))
  {
    PermutationFacts(spans, InOrder(spans));
    forall k | 0 <= k < |InOrder(spans)| ensures InOrder(spans)[k].start <= InOrder(spans)[k].end <= |text| {
      assert InOrder(spans)[k] in spans;
    }
  }

  // ----- simultaneous substitution -----

  /** The untouched gaps and the replacements, left to right from `from`. */
  function Weave(text: string, spans: seq<Span>, from: nat): string
    requires from <= |text| && InRange(text, spans) && Separated(spans)
    requires spans != [] ==> from <= spans[0].start
  {
    if spans == [] then text[from..]
    else text[from..spans[0].start] + spans[0].text + Weave(text, spans[1..], spans[0].end)
  }

  /** `_apply_spans`: right to left over the original offsets gives the
      left-to-right interleaving. */
  method ApplySpans(canonical: string, spans: seq<Span>) returns (text: string)
    requires InRange(canonical, spans) && Separated(spans)
    ensures text == Weave(canonical, spans, 0)
  {
    hide Weave, InRange, Separated;
    var order := Sort(spans, FromTheRight);
    RightToLeft(spans);
    text := canonical;
    for k := 0 to |order|
      invariant CutAt(canonical, spans, k) <= |canonical|
      invariant text == canonical[..CutAt(canonical, spans, k)] + Done(canonical, spans, k)
    {
      OneSpanMore(canonical, spans, k, text);
      text := text[..order[k].start] + order[k].text + text[order[k].end..];
    }
    AllSpansDone(canonical, spans);
  }

  /** Where the rewritten part begins after k replacements. */
  ghost function CutAt(text: string, spans: seq<Span>, k: nat): nat
    requires k <= |spans|
  {
    if k == 0 then |text| else spans[|spans| - k].start
  }

  /** The rewritten part. */
  ghost function Done(text: string, spans: seq<Span>, k: nat): string
    requires k <= |spans| && InRange(text, spans) && Separated(spans)
  {
    if k == 0 then ""
    else spans[|spans| - k].text + Weave(text, spans[|spans| - k + 1..], spans[|spans| - k].end)
  }

  lemma {:induction false} OneSpanMore(canonical: string, spans: seq<Span>, k: nat, text: string)
    requires k < |spans| && InRange(canonical, spans) && Separated(spans)
    requires CutAt(canonical, spans, k) <= |canonical|
    requires text == canonical[..CutAt(canonical, spans, k)] + Done(canonical, spans, k)
    ensures var s := spans[|spans| - 1 - k];
      && s.start <= s.end <= |text| && CutAt(canonical, spans, k + 1) <= |canonical|
      && text[..s.start] + s.text + text[s.end..] == canonical[..CutAt(canonical, spans, k + 1)] + Done(canonical, spans, k + 1)
  {
    hide Weave, Separated, InRange;
    var s, cut := spans[|spans| - 1 - k], CutAt(canonical, spans, k);
    CutAfter(canonical, spans, k);
    Splice(canonical, cut, Done(canonical, spans, k), s.start, s.end, text);
    WeaveFromEnd(canonical, spans, k);
    assert spans[|spans| - (k + 1) + 1..] == spans[|spans| - k..];
  }

  lemma CutAfter(canonical: string, spans: seq<Span>, k: nat)
    requires k < |spans| && InRange(canonical, spans) && Separated(spans)
    ensures var s := spans[|spans| - 1 - k]; s.start <= s.end <= CutAt(canonical, spans, k) <= |canonical|
  {
  }

  lemma Splice(a: string, cut: nat, d: string, start: nat, end: nat, text: string)
    requires start <= end <= cut <= |a| && text == a[..cut] + d
    ensures text[..start] == a[..start] && text[end..] == a[end..cut] + d
  {
  }

  lemma {:induction false} WeaveFromEnd(canonical: string, spans: seq<Span>, k: nat)
    requires k < |spans| && InRange(canonical, spans) && Separated(spans)
    ensures var s := spans[|spans| - 1 - k];
      && InRange(canonical, spans[|spans| - k..]) && Separated(spans[|spans| - k..])
      && s.end <= CutAt(canonical, spans, k) <= |canonical|
      && Weave(canonical, spans[|spans| - k..], s.end) == canonical[s.end..CutAt(canonical, spans, k)] + Done(canonical, spans, k)
  {
    var rest := spans[|spans| - k..];
    if k > 0 { assert rest[1..] == spans[|spans| - k + 1..]; }
  }

  lemma {:induction false} AllSpansDone(canonical: string, spans: seq<Span>)
    requires InRange(canonical, spans) && Separated(spans)
    ensures CutAt(canonical, spans, |spans|) <= |canonical|
    ensures canonical[..CutAt(canonical, spans, |spans|)] + Done(canonical, spans, |spans|) == Weave(canonical, spans, 0)
  {
  }

  lemma {:induction false} InsertFirst(s: seq<Span>, x: Span)
    requires forall y | y in s :: x.start > y.start
    ensures Insert(s, x, FromTheRight) == [x] + s
  {
    if s != [] { InsertFirst(s[..|s| - 1], x); }
  }

  /** Increasing starts sort to the reverse. */
  lemma {:induction false} RightToLeft(spans: seq<Span>)
    requires Separated(spans)
    ensures Sort(spans, FromTheRight) == Reverse(spans)
  {
    hide Insert;
    if spans != [] {
      var front, last := spans[..|spans| - 1], spans[|spans| - 1];
      RightToLeft(front);
      LastStartsLast(spans);
      InsertFirst(Reverse(front), last);
    }
  }

  lemma {:induction false} LastStartsLast(spans: seq<Span>)
    requires spans != [] && Separated(spans)
    ensures forall y | y in Reverse(spans[..|spans| - 1]) :: spans[|spans| - 1].start > y.start
  {
    hide Reverse;
    var front, last := spans[..|spans| - 1], spans[|spans| - 1];
    forall y | y in Reverse(front) ensures last.start > y.start {
      var k :| 0 <= k < |Reverse(front)| && Reverse(front)[k] == y;
      assert y == spans[|front| - 1 - k];
    }
  }

  /** How much longer the text is by position `at`. */
  ghost function Shift(spans: seq<Span>, at: nat): int {
    if spans == [] then 0
    else Shift(spans[1..], at) + if spans[0].end <= at then |spans[0].text| - (spans[0].end - spans[0].start) else 0
  }

  /** A character outside every replaced range is still there, moved only by what
      the replacements before it added or took. */
  lemma {:induction false} UntouchedSurvive(text: string, spans: seq<Span>, from: nat, at: nat)
    requires from <= at < |text| && InRange(text, spans) && Separated(spans)
    requires spans != [] ==> from <= spans[0].start
    requires forall k | 0 <= k < |spans| :: !(spans[k].start <= at < spans[k].end)
    ensures 0 <= at - from + Shift(spans, at) < |Weave(text, spans, from)|
    ensures Weave(text, spans, from)[at - from + Shift(spans, at)] == text[at]
    decreases |spans|
  {
    if spans != [] {
      var first, rest := spans[0], spans[1..];
      WeaveCons(text, spans, from);
      hide Weave;
      if at < first.start {
        NoShift(spans, at);
        AtFront(text[from..first.start], first.text + Weave(text, rest, first.end), at - from);
      } else {
        UntouchedSurvive(text, rest, first.end, at);
        AtBack(text[from..first.start] + first.text, Weave(text, rest, first.end), at - first.end + Shift(rest, at));
      }
    }
  }

  lemma {:induction false} WeaveCons(text: string, spans: seq<Span>, from: nat)
    requires spans != [] && from <= spans[0].start && InRange(text, spans) && Separated(spans)
    ensures var first, rest := spans[0], spans[1..];
      && InRange(text, rest) && Separated(rest) && (rest != [] ==> first.end <= rest[0].start)
      && Weave(text, spans, from) == text[from..first.start] + (first.text + Weave(text, rest, first.end))
      && Weave(text, spans, from) == (text[from..first.start] + first.text) + Weave(text, rest, first.end)
      && |text[from..first.start] + first.text| == first.start - from + |first.text|
  {
    var first, rest := spans[0], spans[1..];
    assert text[from..first.start] + first.text + Weave(text, rest, first.end)
        == text[from..first.start] + (first.text + Weave(text, rest, first.end));
  }

  lemma AtFront(a: string, b: string, i: int)
    requires 0 <= i < |a|
    ensures (a + b)[i] == a[i]
  {
  }

  lemma AtBack(a: string, b: string, i: int)
    requires 0 <= i < |b|
    ensures (a + b)[|a| + i] == b[i]
  {
  }

  lemma {:induction false} NoShift(spans: seq<Span>, at: nat)
    requires forall k | 0 <= k < |spans| :: spans[k].end > at
    ensures Shift(spans, at) == 0
    decreases |spans|
  {
    if spans != [] { NoShift(spans[1..], at); }
  }
}

/** `RulesProducer` (`producers/rules.py`): deterministic substitutions, some of
    them allowed only when the whole word they make is in a lexicon. */
module Rules {
  import opened Prelude
  import opened Manifest
  import opened Editing

  /** A match of a rule's pattern and what it would become. */
  datatype Found = Found(start: nat, end: nat, replacement: string)

  /** Pattern matching itself is the library's: a rule finds its matches. */
  datatype Rule = Rule(find: string -> seq<Found>, guarded: bool)

  datatype Cand = Cand(start: nat, end: nat, text: string, guarded: bool)

  /** The lexicon and the folding both sides go through. */
  datatype Lexicon = Lexicon(words: set<string>, fold: string -> string)

  const STRIPPED: set<char> := {' ', '\t', '.', ',', ';', ':', '!', '?', '\'', '"', '(', ')', '[', ']',
                                '\U{ab}', '\U{bb}', '\U{2014}', '\U{2013}', '-'}

  function StripRight(s: string): string {
    if s != "" && s[|s| - 1] in STRIPPED then StripRight(s[..|s| - 1]) else s
  }

  function StripLeft(s: string): string {
    if s != "" && s[0] in STRIPPED then StripLeft(s[1..]) else s
  }

  predicate Knows(lexicon: Lexicon, token: string) {
    lexicon.fold(StripRight(StripLeft(token))) in lexicon.words
  }

  // ----- tokens -----

  function LeftEdge(text: string, at: nat): (ts: nat)
    requires at <= |text|
    ensures ts <= at && (forall k | ts <= k < at :: !IsSpace(text[k])) && (ts > 0 ==> IsSpace(text[ts - 1]))
  {
    if at > 0 && !IsSpace(text[at - 1]) then LeftEdge(text, at - 1) else at
  }

  function RightEdge(text: string, at: nat): (te: nat)
    requires at <= |text|
    ensures at <= te <= |text| && (forall k | at <= k < te :: !IsSpace(text[k])) && (te < |text| ==> IsSpace(text[te]))
    decreases |text| - at
  {
    if at < |text| && !IsSpace(text[at]) then RightEdge(text, at + 1) else at
  }

  /** `_token_bounds`. */
  method TokenBounds(text: string, start: nat, end: nat) returns (ts: nat, te: nat)
    requires start <= end <= |text|
    ensures ts == LeftEdge(text, start) && te == RightEdge(text, end)
  {
    ts := start;
    while ts > 0 && !IsSpace(text[ts - 1])
      invariant ts <= start && LeftEdge(text, ts) == LeftEdge(text, start)
    {
      ts := ts - 1;
    }
    te := end;
    while te < |text| && !IsSpace(text[te])
      invariant end <= te <= |text| && RightEdge(text, te) == RightEdge(text, end)
    {
      te := te + 1;
    }
  }

  function Bounds(text: string, c: Cand): (nat, nat)
    requires c.start <= c.end <= |text|
  {
    (LeftEdge(text, c.start), RightEdge(text, c.end))
  }

  /** Some of a token's text with its edits applied, from `from` on. */
  function Composed(text: string, cands: seq<Cand>, from: nat, to: nat): string
    requires from <= to <= |text| && Ordered(cands, from, to)
    decreases |cands|
  {
    if cands == [] then text[from..to]
    else text[from..cands[0].start] + cands[0].text + Composed(text, cands[1..], cands[0].end, to)
  }

  /** In order, apart, and inside [from, to). */
  ghost predicate Ordered(cands: seq<Cand>, from: nat, to: nat) {
    && (forall k | 0 <= k < |cands| :: from <= cands[k].start < cands[k].end <= to)
    && forall j, k | 0 <= j < k < |cands| :: cands[j].end <= cands[k].start
  }

  // ----- candidates -----

  ghost predicate FindsInRange(rules: seq<Rule>, text: string) {
    forall r, k | 0 <= r < |rules| && 0 <= k < |rules[r].find(text)| ::
      rules[r].find(text)[k].start <= rules[r].find(text)[k].end <= |text|
  }

  /** `_word_ok`: the token with this one edit is a word. */
  predicate WordOk(text: string, lexicon: Lexicon, start: nat, end: nat, replacement: string)
    requires start <= end <= |text|
  {
    Knows(lexicon, text[LeftEdge(text, start)..start] + replacement + text[end..RightEdge(text, end)])
  }

  /** A candidate is a real change, and a guarded one makes a word. */
  ghost predicate Candidate(text: string, lexicon: Lexicon, c: Cand) {
    && c.start < c.end <= |text| && text[c.start..c.end] != c.text
    && (c.guarded ==> WordOk(text, lexicon, c.start, c.end, c.text))
  }

  method Candidates(text: string, rules: seq<Rule>, lexicon: Lexicon) returns (out: seq<Cand>)
    requires FindsInRange(rules, text)
    ensures forall k | 0 <= k < |out| :: Candidate(text, lexicon, out[k])
  {
    hide WordOk;
    out := [];
    for r := 0 to |rules|
      invariant forall k | 0 <= k < |out| :: Candidate(text, lexicon, out[k])
    {
      var found := rules[r].find(text);
      for m := 0 to |found|
        invariant forall k | 0 <= k < |out| :: Candidate(text, lexicon, out[k])
      {
        var f := found[m];
        if f.start == f.end { continue; }
        if rules[r].guarded && !WordOk(text, lexicon, f.start, f.end, f.replacement) { continue; }
        if text[f.start..f.end] == f.replacement { continue; }
        out := out + [Cand(f.start, f.end, f.replacement, rules[r].guarded)];
      }
    }
  }

  // ----- the greedy selection -----

  function CandStart(c: Cand): int { c.start }
  function ShorterLast(c: Cand): int { (c.start as int) - (c.end as int) }

  /** Earliest start first, the longest at a tie. */
  function ByPreference(cands: seq<Cand>): (r: seq<Cand>)
    ensures multiset(r) == multiset(cands)
  {
    Sort(Sort(cands, ShorterLast), CandStart)
  }

  function Cursor(chosen: seq<Cand>): nat {
    if chosen == [] then 0 else chosen[|chosen| - 1].end
  }

  function Chosen(cands: seq<Cand>): (chosen: seq<Cand>)
    ensures forall c | c in chosen :: c in cands
  {
    if cands == [] then []
    else
      var front, last := Chosen(cands[..|cands| - 1]), cands[|cands| - 1];
      if last.start < Cursor(front) then front else front + [last]
  }

  /** Chosen edits lie in the text, in order and apart. */
  lemma {:induction false} ChosenAreApart(text: string, cands: seq<Cand>)
    requires forall k | 0 <= k < |cands| :: cands[k].start < cands[k].end <= |text|
    ensures Ordered(Chosen(cands), 0, |text|)
  {
    if cands != [] { ChosenAreApart(text, cands[..|cands| - 1]); }
  }

  method Choose(text: string, cands: seq<Cand>) returns (chosen: seq<Cand>)
    ensures chosen == Chosen(ByPreference(cands))
  {
    var order := ByPreference(cands);
    chosen := [];
    var cursor := 0;
    for i := 0 to |order|
      invariant chosen == Chosen(order[..i]) && cursor == Cursor(chosen)
    {
      assert order[..i + 1][..i] == order[..i];
      if order[i].start < cursor { continue; }
      chosen := chosen + [order[i]];
      cursor := order[i].end;
    }
    assert order[..|order|] == order;
  }

  // ----- composed tokens -----

  predicate InToken(text: string, c: Cand, tokens: set<(nat, nat)>) {
    c.start <= c.end <= |text| && Bounds(text, c) in tokens
  }

  /** The edits of the given tokens, or the edits of all the others. */
  function Where(text: string, cands: seq<Cand>, tokens: set<(nat, nat)>, inside: bool): seq<Cand> {
    if cands == [] then []
    else
      var front, last := Where(text, cands[..|cands| - 1], tokens, inside), cands[|cands| - 1];
      if InToken(text, last, tokens) == inside then front + [last] else front
  }

  lemma {:induction false} WhereIn(text: string, cands: seq<Cand>, tokens: set<(nat, nat)>, inside: bool, c: Cand)
    ensures c in Where(text, cands, tokens, inside) <==> c in cands && InToken(text, c, tokens) == inside
  {
    hide InToken;
    if cands != [] {
      var front, last := cands[..|cands| - 1], cands[|cands| - 1];
      assert cands == front + [last];
      WhereIn(text, front, tokens, inside, c);
    }
  }

  lemma OrderedSnoc(cands: seq<Cand>, from: nat, to: nat, c: Cand)
    requires Ordered(cands, from, to) && from <= to <= c.start < c.end
    ensures Ordered(cands + [c], from, c.end)
  {
  }

  lemma OrderedWiden(cands: seq<Cand>, from: nat, to: nat, wider: nat)
    requires Ordered(cands, from, to) && to <= wider
    ensures Ordered(cands, from, wider)
  {
  }

  lemma OrderedFront(cands: seq<Cand>, from: nat, to: nat)
    requires Ordered(cands, from, to) && cands != [] && from <= to
    ensures var front, last := cands[..|cands| - 1], cands[|cands| - 1];
      Ordered(front, from, last.start) && from <= last.start < last.end <= to
  {
  }

  lemma {:induction false} WhereOrdered(text: string, cands: seq<Cand>, tokens: set<(nat, nat)>, inside: bool, from: nat, to: nat)
    requires from <= to && Ordered(cands, from, to)
    ensures Ordered(Where(text, cands, tokens, inside), from, to)
    decreases |cands|
  {
    hide InToken, Ordered;
    if cands == [] {
      NothingOrdered(from, to);
    } else {
      var front, last := cands[..|cands| - 1], cands[|cands| - 1];
      OrderedFront(cands, from, to);
      WhereOrdered(text, front, tokens, inside, from, last.start);
      OrderedSnoc(Where(text, front, tokens, inside), from, last.start, last);
      OrderedWiden(Where(text, front, tokens, inside), from, last.start, to);
      OrderedWiden(Where(text, front, tokens, inside) + [last], from, last.end, to);
    }
  }

  lemma NothingOrdered(from: nat, to: nat)
    ensures Ordered([], from, to)
  {
  }

  function OfToken(text: string, chosen: seq<Cand>, token: (nat, nat)): seq<Cand> {
    Where(text, chosen, {token}, true)
  }

  /** A token's edits, in order, lie inside it. */
  lemma {:induction false} TokenOrdered(text: string, chosen: seq<Cand>, token: (nat, nat))
    requires Ordered(chosen, 0, |text|)
    ensures Ordered(OfToken(text, chosen, token), token.0, token.1)
    ensures OfToken(text, chosen, token) != [] ==> token.0 <= token.1 <= |text|
  {
    hide Where;
    var group := OfToken(text, chosen, token);
    WhereOrdered(text, chosen, {token}, true, 0, |text|);
    forall k | 0 <= k < |group| ensures token.0 <= group[k].start && group[k].end <= token.1 <= |text| {
      assert group[k] in group;
      WhereIn(text, chosen, {token}, true, group[k]);
    }
    if group != [] { assert token.0 <= group[0].start && group[0].end <= token.1 <= |text|; }
  }

  predicate AnyGuarded(cands: seq<Cand>) {
    exists k :: 0 <= k < |cands| && cands[k].guarded
  }

  /** A token whose several edits, applied together, do not make a word though a
      guarded one is among them. */
  predicate Spoiled(text: string, lexicon: Lexicon, chosen: seq<Cand>, token: (nat, nat))
    requires Ordered(chosen, 0, |text|)
  {
    var group := OfToken(text, chosen, token);
    TokenOrdered(text, chosen, token);
    |group| >= 2 && AnyGuarded(group) && !Knows(lexicon, Composed(text, group, token.0, token.1))
  }

  /** The running composition of one token, edit by edit. */
  method Compose(text: string, spans: seq<Cand>, ts: nat, te: nat) returns (composed: string)
    requires ts <= te <= |text| && Ordered(spans, ts, te)
    ensures composed == Composed(text, spans, ts, te)
  {
    hide Ordered, Composed;
    composed := "";
    var cursor := ts;
    assert "" + Composed(text, spans, ts, te) == Composed(text, spans, ts, te);
    for i := 0 to |spans|
      invariant ts <= cursor <= te && Ordered(spans[i..], cursor, te)
      invariant composed + Composed(text, spans[i..], cursor, te) == Composed(text, spans, ts, te)
    {
      NextEdit(text, spans[i..], cursor, te, composed);
      assert spans[i..][1..] == spans[i + 1..];
      composed := composed + text[cursor..spans[i].start] + spans[i].text;
      cursor := spans[i].end;
    }
    NoEditLeft(text, cursor, te);
    composed := composed + text[cursor..te];
  }

  lemma NextEdit(text: string, spans: seq<Cand>, cursor: nat, te: nat, composed: string)
    requires spans != [] && cursor <= te <= |text| && Ordered(spans, cursor, te)
    ensures cursor <= spans[0].start < spans[0].end <= te && Ordered(spans[1..], spans[0].end, te)
    ensures composed + Composed(text, spans, cursor, te)
      == composed + text[cursor..spans[0].start] + spans[0].text + Composed(text, spans[1..], spans[0].end, te)
  {
  }

  lemma NoEditLeft(text: string, cursor: nat, te: nat)
    requires cursor <= te <= |text|
    ensures Ordered([], cursor, te) && Composed(text, [], cursor, te) == text[cursor..te]
  {
  }

  /** The rejected tokens: checked one by one in the order they first appear. */
  method Rejected(text: string, lexicon: Lexicon, chosen: seq<Cand>) returns (rejected: set<(nat, nat)>)
    requires Ordered(chosen, 0, |text|)
    ensures forall t :: t in rejected ==> Spoiled(text, lexicon, chosen, t)
    ensures forall c | c in chosen && c.start <= c.end <= |text| && Spoiled(text, lexicon, chosen, Bounds(text, c)) :: Bounds(text, c) in rejected
  {
    hide Where, Knows, LeftEdge, RightEdge;
    rejected := {};
    for i := 0 to |chosen|
      invariant forall t :: t in rejected ==> Spoiled(text, lexicon, chosen, t)
      invariant forall k | 0 <= k < i && Spoiled(text, lexicon, chosen, Bounds(text, chosen[k])) :: Bounds(text, chosen[k]) in rejected
    {
      var ts, te := TokenBounds(text, chosen[i].start, chosen[i].end);
      var spans := OfToken(text, chosen, (ts, te));
      if |spans| < 2 || !AnyGuarded(spans) { continue; }
      TokenOrdered(text, chosen, (ts, te));
      var composed := Compose(text, spans, ts, te);
      if !Knows(lexicon, composed) { rejected := rejected + {(ts, te)}; }
    }
  }

  /** `_spans_for_line`. */
  method SpansForLine(text: string, rules: seq<Rule>, lexicon: Lexicon)
    returns (emitted: seq<Cand>, ghost chosen: seq<Cand>, ghost rejected: set<(nat, nat)>)
    requires FindsInRange(rules, text)
    ensures Ordered(chosen, 0, |text|) && (forall c | c in chosen :: Candidate(text, lexicon, c))
    ensures forall t :: t in rejected ==> Spoiled(text, lexicon, chosen, t)
    ensures forall c | c in chosen && c.start <= c.end <= |text| && Spoiled(text, lexicon, chosen, Bounds(text, c)) :: Bounds(text, c) in rejected
    ensures emitted == Where(text, chosen, rejected, false)
  {
    hide Where, Candidate, Spoiled, Chosen;
    var cands := Candidates(text, rules, lexicon);
    CandidatesInText(text, lexicon, cands);
    var picked := Choose(text, cands);
    ChosenAreApart(text, ByPreference(cands));
    PermutationFacts(cands, ByPreference(cands));
    var bad := Rejected(text, lexicon, picked);
    chosen, rejected := picked, bad;
    forall c | c in chosen ensures Candidate(text, lexicon, c) {
      assert c in ByPreference(cands);
    }
    emitted := Where(text, picked, bad, false);
  }

  lemma {:induction false} CandidatesInText(text: string, lexicon: Lexicon, cands: seq<Cand>)
    requires forall k | 0 <= k < |cands| :: Candidate(text, lexicon, cands[k])
    ensures forall k | 0 <= k < |ByPreference(cands)| :: ByPreference(cands)[k].start < ByPreference(cands)[k].end <= |text|
  {
    hide ByPreference;
    PermutationFacts(cands, ByPreference(cands));
    forall k | 0 <= k < |ByPreference(cands)| ensures ByPreference(cands)[k].start < ByPreference(cands)[k].end <= |text| {
      assert ByPreference(cands)[k] in cands;
    }
  }

  // ----- what is emitted passes the protocol -----

  function AsSpan(c: Cand): Span {
    Span(c.start, c.end, c.text)
  }

  function AsSpans(cands: seq<Cand>): (r: seq<Span>)
    ensures |r| == |cands| && forall k | 0 <= k < |r| :: r[k] == AsSpan(cands[k])
  {
    seq(|cands|, k requires 0 <= k < |cands| => AsSpan(cands[k]))
  }

  lemma {:induction false} SeparatedAreKept(spans: seq<Span>)
    requires Separated(spans)
    ensures Kept(spans) == spans
  {
    if spans != [] { SeparatedAreKept(spans[..|spans| - 1]); }
  }

  /** Every emitted span resolves to itself and the overlap filter keeps them all:
      the protocol never refuses a rule's edit for its anchor or for E2. */
  lemma {:induction false} EmittedPassTheFilter(text: string, chosen: seq<Cand>, rejected: set<(nat, nat)>)
    requires Ordered(chosen, 0, |text|)
    ensures var spans := AsSpans(Where(text, chosen, rejected, false));
      && InRange(text, spans) && Separated(spans) && Kept(InOrder(spans)) == spans
      && forall k | 0 <= k < |spans| :: Resolve(Range(spans[k].start, spans[k].end), text) == Ok((spans[k].start, spans[k].end))
  {
    hide Where, Kept, Sort, Insert;
    var emitted := Where(text, chosen, rejected, false);
    WhereOrdered(text, chosen, rejected, false, 0, |text|);
    var spans := AsSpans(emitted);
    assert SortedBy(spans, EndOf) && SortedBy(spans, StartOf);
    SortSorted(spans, EndOf);
    SortSorted(spans, StartOf);
    SeparatedAreKept(spans);
  }

  // ----- lexicon soundness -----

  ghost predicate NoSpaces(text: string, cands: seq<Cand>) {
    forall c, k | c in cands && c.start <= k < c.end && k < |text| :: !IsSpace(text[k])
  }

  /** Two space-free matches inside one token have the same token. */
  lemma {:induction false} SameToken(text: string, s: Cand, c: Cand)
    requires s.start < s.end <= |text| && c.start < c.end <= |text|
    requires forall k | s.start <= k < s.end :: !IsSpace(text[k])
    requires forall k | c.start <= k < c.end :: !IsSpace(text[k])
    ensures Bounds(text, c) == Bounds(text, s) <==> Bounds(text, s).0 <= c.start && c.end <= Bounds(text, s).1
  {
    var (ts, te) := Bounds(text, s);
    var (us, ue) := Bounds(text, c);
    if ts <= c.start && c.end <= te {
      assert us == ts;
      assert ue == te;
    }
  }

  /** The edits lying inside a stretch of the text. */
  function Within(cands: seq<Cand>, ts: nat, te: nat): seq<Cand> {
    if cands == [] then []
    else
      var front, last := Within(cands[..|cands| - 1], ts, te), cands[|cands| - 1];
      if ts <= last.start && last.end <= te then front + [last] else front
  }

  /** The emitted edits inside a token that was not rejected are all its edits. */
  lemma {:induction false} AllOfTheToken(text: string, cands: seq<Cand>, rejected: set<(nat, nat)>, s: Cand)
    requires (forall c | c in cands :: c.start < c.end <= |text|) && NoSpaces(text, cands) && s.start < s.end <= |text|
    requires (forall k | s.start <= k < s.end :: !IsSpace(text[k])) && Bounds(text, s) !in rejected
    ensures Within(Where(text, cands, rejected, false), Bounds(text, s).0, Bounds(text, s).1) == OfToken(text, cands, Bounds(text, s))
  {
    hide LeftEdge, RightEdge, IsSpace;
    if cands != [] {
      var front, last := cands[..|cands| - 1], cands[|cands| - 1];
      assert cands == front + [last];
      AllOfTheToken(text, front, rejected, s);
      SameToken(text, s, last);
    }
  }

  lemma {:induction false} OneEdit(text: string, s: Cand, ts: nat, te: nat)
    requires ts <= s.start < s.end <= te <= |text|
    ensures Composed(text, [s], ts, te) == text[ts..s.start] + s.text + text[s.end..te]
  {
    assert [s][1..] == [];
  }

  /** Guarded rules are lexicon-sound: when matches hold no space, every token that
      receives a guarded edit is a word of the lexicon once all the edits emitted
      inside it are applied together. */
  lemma {:induction false} GuardedTokensAreWords(text: string, lexicon: Lexicon, chosen: seq<Cand>, rejected: set<(nat, nat)>, s: Cand)
    requires Ordered(chosen, 0, |text|) && (forall c | c in chosen :: Candidate(text, lexicon, c)) && NoSpaces(text, chosen)
    requires forall c | c in chosen && c.start <= c.end <= |text| && Spoiled(text, lexicon, chosen, Bounds(text, c)) :: Bounds(text, c) in rejected
    requires s in Where(text, chosen, rejected, false) && s.guarded
    ensures s.start <= s.end <= |text|
    ensures var (ts, te) := Bounds(text, s);
      var edits := Within(Where(text, chosen, rejected, false), ts, te);
      && ts <= te <= |text| && s in edits && Ordered(edits, ts, te) && Knows(lexicon, Composed(text, edits, ts, te))
  {
    hide Where, Within, Knows, LeftEdge, RightEdge, NoSpaces;
    WhereIn(text, chosen, rejected, false, s);
    assert Candidate(text, lexicon, s);
    var token := Bounds(text, s);
    NoSpacesIn(text, chosen, s);
    AllOfTheToken(text, chosen, rejected, s);
    TokenOrdered(text, chosen, token);
    WhereIn(text, chosen, {token}, true, s);
    var group := OfToken(text, chosen, token);
    if |group| < 2 {
      assert group == [s];
      OneEdit(text, s, token.0, token.1);
    } else {
      var k :| 0 <= k < |group| && group[k] == s;
    }
  }

  lemma NoSpacesIn(text: string, chosen: seq<Cand>, s: Cand)
    requires NoSpaces(text, chosen) && s in chosen && s.end <= |text|
    ensures forall k | s.start <= k < s.end :: !IsSpace(text[k])
  {
  }

  /** A token whose composition failed keeps every one of its characters' edits
      out: nothing in it is emitted. */
  lemma {:induction false} SpoiledTokensAreUntouched(text: string, lexicon: Lexicon, chosen: seq<Cand>, rejected: set<(nat, nat)>, s: Cand)
    requires Ordered(chosen, 0, |text|) && s.start <= s.end <= |text|
    requires forall c | c in chosen && c.start <= c.end <= |text| && Spoiled(text, lexicon, chosen, Bounds(text, c)) :: Bounds(text, c) in rejected
    requires s in chosen && Spoiled(text, lexicon, chosen, Bounds(text, s))
    ensures s !in Where(text, chosen, rejected, false)
  {
    hide Where, Spoiled;
    WhereIn(text, chosen, rejected, false, s);
  }
}

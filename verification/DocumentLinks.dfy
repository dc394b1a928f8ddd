/** Linking a whole document, as the parsers do it: each page's lines, then the seams
    between consecutive pages that carry text (`pairing.py`). */
module DocumentLinks {
  import opened Prelude
  import opened Manifest
  import opened Pairing

  // ----- the seams, one after the other -----

  /** The ends of the seams before any is linked: each line is the last of one page and
      the first of one page at most, pages come in order, and no link reaches over a
      page break yet. */
  ghost predicate Seams(vs: seq<Line>, ends: seq<(nat, nat)>) {
    && SeamPlaces(vs, ends)
    && (forall j, k | 0 <= j < k < |ends| :: ends[j].0 != ends[k].0 && ends[j].1 != ends[k].1)
    && (forall j, k | 0 <= j < k < |ends| :: ends[j].0 != ends[k].1)
    && forall k | 0 <= k < |ends| :: ForwardPartner(vs[ends[k].0]) == None && BackwardPartner(vs[ends[k].1]) == None
  }

  /** Seam k is linked when its turn comes. */
  ghost predicate SeamLinked(vs: seq<Line>, ends: seq<(nat, nat)>, k: nat, can: Policy)
    requires SeamPlaces(vs, ends) && k < |ends|
  {
    var before := SeamsUpTo(vs, ends, k, can);
    NeedsForwardLink(before[ends[k].0]) && Links(before, ends[k].0, ends[k].1, can)
  }

  /** The opening half of a link already drawn. */
  predicate Open(l: Line) {
    l.role.Part1? && l.pairLine != ""
  }

  lemma {:induction false} SeamStep(vs: seq<Line>, ends: seq<(nat, nat)>, k: nat, can: Policy)
    requires SeamPlaces(vs, ends) && k < |ends|
    ensures SeamsUpTo(vs, ends, k + 1, can) ==
      if SeamLinked(vs, ends, k, can) then LinkStep(SeamsUpTo(vs, ends, k, can), ends[k].0, ends[k].1, can) else SeamsUpTo(vs, ends, k, can)
  {
    hide Link, Links, NeedsForwardLink;
    var (a, b) := ends[k];
    assert !Links(SeamsUpTo(vs, ends, k, can), a, b, can) ==>
      LinkStep(SeamsUpTo(vs, ends, k, can), a, b, can) == SeamsUpTo(vs, ends, k, can);
  }

  /** What one linked seam does to one line. */
  ghost predicate Crossed(l: Line, m: Line, isTail: bool, isHead: bool, tail: LineRef, head: LineRef) {
    && SameText(l, m) && TidyLine(m)
    && ForwardPartner(m) == (if isTail then Some(head) else if isHead && Open(l) then None else ForwardPartner(l))
    && BackwardPartner(m) == (if isHead then Some(tail) else BackwardPartner(l))
  }

  lemma {:induction false} CrossedLine(vs: seq<Line>, a: nat, b: nat, can: Policy, k: nat)
    requires Named(vs) && Tidy(vs) && a < |vs| && b < |vs| && a != b && Links(vs, a, b, can) && k < |vs|
    ensures Crossed(vs[k], LinkStep(vs, a, b, can)[k], k == a, k == b, vs[a].ref, vs[b].ref)
  {
    assert TidyLine(vs[a]) && TidyLine(vs[b]) && TidyLine(vs[k]);
    LinkTail(vs[a], vs[b]);
    LinkHead(vs[a], vs[b]);
    OpenHasPartner(vs[b]);
    SameTextReflexive(vs[k]);
    var ws := LinkStep(vs, a, b, can);
    assert ws[a] == Link(vs[a], vs[b]).0 && ws[b] == Link(vs[a], vs[b]).1;
    hide Link, Links, ForwardPartner, BackwardPartner, SameText, TidyLine, Open;
  }

  lemma OpenHasPartner(l: Line)
    ensures l.role.Part1? ==> (ForwardPartner(l).Some? <==> Open(l))
    ensures Open(l) ==> l.role.Part1? && ForwardPartner(l).Some?
  {
  }

  /** Before seam i: the slots are tidy, the lines keep their names and texts, the ends
      still to come are as free as they were, the heads still to come untouched. */
  ghost predicate Waiting(vs: seq<Line>, us: seq<Line>, ends: seq<(nat, nat)>, i: nat)
    requires Seams(vs, ends)
  {
    && Named(us) && Tidy(us) && SameTexts(vs, us)
    && (forall k | i <= k < |ends| :: ForwardPartner(us[ends[k].0]) == None)
    && (forall k | i <= k < |ends| :: us[ends[k].1] == vs[ends[k].1])
  }

  lemma {:induction false} SeamsWait(vs: seq<Line>, ends: seq<(nat, nat)>, i: nat, can: Policy)
    requires SeamPlaces(vs, ends) && Seams(vs, ends) && Named(vs) && Tidy(vs) && i <= |ends|
    ensures Waiting(vs, SeamsUpTo(vs, ends, i, can), ends, i)
  {
    hide Seams, SeamPlaces, SeamsUpTo, Links, NeedsForwardLink, SeamLinked, Waiting, LinkStep, Named, Tidy;
    if i == 0 {
      NoSeamYet(vs, ends, can);
    } else {
      SeamsWait(vs, ends, i - 1, can);
      SeamStep(vs, ends, i - 1, can);
      if SeamLinked(vs, ends, i - 1, can) {
        SeamLinkedIs(vs, ends, i - 1, can);
        WaitsOn(vs, SeamsUpTo(vs, ends, i - 1, can), ends, i - 1, can);
      } else {
        StillWaiting(vs, SeamsUpTo(vs, ends, i - 1, can), ends, i - 1);
      }
    }
  }

  lemma NoSeamYet(vs: seq<Line>, ends: seq<(nat, nat)>, can: Policy)
    requires Seams(vs, ends) && Named(vs) && Tidy(vs)
    ensures Waiting(vs, SeamsUpTo(vs, ends, 0, can), ends, 0)
  {
    SameTextsReflexive(vs);
    hide SameTexts, Named, Tidy, ForwardPartner, BackwardPartner;
  }

  lemma StillWaiting(vs: seq<Line>, us: seq<Line>, ends: seq<(nat, nat)>, k: nat)
    requires Seams(vs, ends) && k < |ends| && Waiting(vs, us, ends, k)
    ensures Waiting(vs, us, ends, k + 1)
  {
  }

  lemma {:induction false} WaitsOn(vs: seq<Line>, us: seq<Line>, ends: seq<(nat, nat)>, k: nat, can: Policy)
    requires Seams(vs, ends) && k < |ends| && Waiting(vs, us, ends, k) && Links(us, ends[k].0, ends[k].1, can)
    ensures Waiting(vs, LinkStep(us, ends[k].0, ends[k].1, can), ends, k + 1)
  {
    var (a, b) := ends[k];
    var ws := LinkStep(us, a, b, can);
    forall p | 0 <= p < |us| ensures SameText(us[p], ws[p]) && TidyLine(ws[p]) { CrossedLine(us, a, b, can, p); }
    SameTextsChain(vs, us, ws);
    SameTextsNamed(us, ws);
    forall j | k + 1 <= j < |ends| ensures ForwardPartner(ws[ends[j].0]) == None { CrossedLine(us, a, b, can, ends[j].0); }
    hide Link, Links, ForwardPartner, BackwardPartner, SameText, TidyLine;
  }

  lemma SameTextsChain(us: seq<Line>, vs: seq<Line>, ws: seq<Line>)
    requires SameTexts(us, vs) && SameTexts(vs, ws)
    ensures SameTexts(us, ws)
  {
    forall k | 0 <= k < |us| ensures SameText(us[k], ws[k]) {
      assert SameText(us[k], vs[k]) && SameText(vs[k], ws[k]);
    }
  }

  lemma SameTextsNamed(vs: seq<Line>, ws: seq<Line>)
    requires SameTexts(vs, ws) && Named(vs)
    ensures Named(ws) && forall k | 0 <= k < |vs| :: ws[k].ref == vs[k].ref
  {
    hide SameText;
    forall k | 0 <= k < |vs| ensures ws[k].ref == vs[k].ref { SameTextRef(vs[k], ws[k]); }
  }

  lemma SeamLinkedIs(vs: seq<Line>, ends: seq<(nat, nat)>, k: nat, can: Policy)
    requires SeamPlaces(vs, ends) && k < |ends| && SeamLinked(vs, ends, k, can)
    ensures var us := SeamsUpTo(vs, ends, k, can); NeedsForwardLink(us[ends[k].0]) && Links(us, ends[k].0, ends[k].1, can)
  {
  }

  lemma SeamEnds(vs: seq<Line>, us: seq<Line>, ends: seq<(nat, nat)>, k: nat)
    requires Seams(vs, ends) && k < |ends| && Waiting(vs, us, ends, k)
    ensures |us| == |vs| && Named(us) && Tidy(us) && (forall p | 0 <= p < |vs| :: us[p].ref == vs[p].ref)
    ensures ends[k].0 < |vs| && ends[k].1 < |vs| && ends[k].0 != ends[k].1
    ensures us[ends[k].1] == vs[ends[k].1] && BackwardPartner(us[ends[k].1]) == None
  {
    SameTextsNamed(vs, us);
  }

  /** As long as no seam met an open first line the graph stands. */
  lemma {:induction false} GraphStands(vs: seq<Line>, ends: seq<(nat, nat)>, i: nat, can: Policy)
    requires SeamPlaces(vs, ends) && Seams(vs, ends) && Named(vs) && Graph(vs) && i <= |ends|
    requires forall k | 0 <= k < i :: !(SeamLinked(vs, ends, k, can) && Open(vs[ends[k].1]))
    ensures Graph(SeamsUpTo(vs, ends, i, can))
  {
    if i == 0 {
      assert SeamsUpTo(vs, ends, 0, can) == vs;
    } else {
      hide Seams, SeamPlaces, SeamsUpTo, ForwardPartner, BackwardPartner, SeamLinked, Links, NeedsForwardLink, Open, LinkStep, Waiting, Tidy, Symmetric, Resolved, Named;
      var k := i - 1;
      GraphStands(vs, ends, k, can);
      SeamStep(vs, ends, k, can);
      SeamsWait(vs, ends, k, can);
      SeamEnds(vs, SeamsUpTo(vs, ends, k, can), ends, k);
      if SeamLinked(vs, ends, k, can) {
        SeamLinkedIs(vs, ends, k, can);
        LinkKeepsGraph(SeamsUpTo(vs, ends, k, can), ends[k].0, ends[k].1, can);
      }
    }
  }

  lemma {:induction false} LinkKeepsGraph(us: seq<Line>, a: nat, b: nat, can: Policy)
    requires Named(us) && Graph(us) && a < |us| && b < |us| && a != b
    requires NeedsForwardLink(us[a]) && Links(us, a, b, can) && BackwardPartner(us[b]) == None && !Open(us[b])
    ensures Graph(LinkStep(us, a, b, can))
  {
    SeamKeepsSymmetryIff(us, a, b, can);
    var ws := LinkStep(us, a, b, can);
    hide LinkStep, NeedsForwardLink, SeamsUpTo;
    forall p | 0 <= p < |us| ensures TidyLine(ws[p]) && SameText(us[p], ws[p]) { CrossedLine(us, a, b, can, p); }
    forall p | 0 <= p < |us| && ForwardPartner(ws[p]).Some? ensures Holds(ws, ForwardPartner(ws[p]).value) {
      CrossedLine(us, a, b, can, p);
      SameTextsHold(us, ws, ForwardPartner(ws[p]).value);
      assert Holds(us, us[b].ref);
    }
  }

  /** What the seam linked at its turn makes of one line. */
  lemma {:induction false} SeamLine(vs: seq<Line>, ends: seq<(nat, nat)>, k: nat, can: Policy, p: nat)
    requires Seams(vs, ends) && Named(vs) && Tidy(vs) && k < |ends| && p < |vs|
    ensures var l, m := SeamsUpTo(vs, ends, k, can)[p], SeamsUpTo(vs, ends, k + 1, can)[p];
      var (a, b) := ends[k];
      && (SeamLinked(vs, ends, k, can) ==> Crossed(l, m, p == a, p == b, vs[a].ref, vs[b].ref))
      && (!SeamLinked(vs, ends, k, can) ==> m == l)
      && (p == b ==> l == vs[b])
  {
    hide SeamsUpTo, SeamLinked, Links, NeedsForwardLink, LinkStep, Waiting, Crossed, Tidy, Named, ForwardPartner, BackwardPartner;
    SeamStep(vs, ends, k, can);
    SeamsWait(vs, ends, k, can);
    SeamEnds(vs, SeamsUpTo(vs, ends, k, can), ends, k);
    if SeamLinked(vs, ends, k, can) {
      SeamLinkedIs(vs, ends, k, can);
      CrossedLine(SeamsUpTo(vs, ends, k, can), ends[k].0, ends[k].1, can, p);
    }
  }

  lemma OpenHead(vs: seq<Line>, ends: seq<(nat, nat)>, k: nat, j: nat)
    requires Seams(vs, ends) && k < |ends| && j < |ends| && Open(vs[ends[k].1])
    ensures ends[j].0 != ends[k].1 && (j != k ==> ends[j].1 != ends[k].1)
  {
    OpenHasPartner(vs[ends[k].1]);
    hide Open, ForwardPartner, BackwardPartner;
    assert ForwardPartner(vs[ends[j].0]) == None;
  }

  /** Once a seam met an open first line, the line it was linked to points back at it
      for good, and it never points there again. */
  lemma {:induction false} LossStays(vs: seq<Line>, ends: seq<(nat, nat)>, k: nat, i: nat, can: Policy)
    requires SeamPlaces(vs, ends) && Seams(vs, ends) && Named(vs) && Tidy(vs) && k < i <= |ends| && ends[k].1 < |vs|
    requires SeamLinked(vs, ends, k, can) && Open(vs[ends[k].1])
    ensures ForwardPartner(SeamsUpTo(vs, ends, i, can)[ends[k].1]) == None
    decreases i
  {
    hide Seams, SeamPlaces, SeamsUpTo, SeamLinked, Tidy, Named, ForwardPartner, BackwardPartner, Open, SameText, TidyLine;
    var b, j := ends[k].1, i - 1;
    SeamLine(vs, ends, j, can, b);
    OpenHead(vs, ends, k, j);
    if j > k { LossStays(vs, ends, k, j, can); }
  }

  /** A line with a backward link is the head of no seam, and keeps that link. */
  lemma {:induction false} PointerBackStays(vs: seq<Line>, ends: seq<(nat, nat)>, i: nat, c: nat, can: Policy)
    requires Seams(vs, ends) && Named(vs) && Tidy(vs) && i <= |ends| && c < |vs| && BackwardPartner(vs[c]).Some?
    ensures BackwardPartner(SeamsUpTo(vs, ends, i, can)[c]) == BackwardPartner(vs[c])
  {
    hide Seams, SeamPlaces, SeamLinked, Tidy, Named, ForwardPartner, BackwardPartner, Open, SameText, TidyLine;
    if i > 0 {
      hide SeamsUpTo;
      PointerBackStays(vs, ends, i - 1, c, can);
      HeadsWait(vs, ends, i - 1, c);
      SeamLine(vs, ends, i - 1, can, c);
    }
  }

  lemma HeadsWait(vs: seq<Line>, ends: seq<(nat, nat)>, k: nat, c: nat)
    requires Seams(vs, ends) && k < |ends| && c < |vs| && BackwardPartner(vs[c]).Some?
    ensures SeamPlaces(vs, ends) && ends[k].1 != c
  {
    hide BackwardPartner, ForwardPartner;
  }

  /** Over all the seams of a document: the graph stays symmetric exactly when no page's
      first line was an open opening half when its seam was linked. */
  lemma {:induction false} SeamsKeepSymmetryIff(vs: seq<Line>, ends: seq<(nat, nat)>, can: Policy)
    requires Seams(vs, ends) && Named(vs) && Graph(vs)
    ensures var ws := SeamsUpTo(vs, ends, |ends|, can);
      && Named(ws) && Tidy(ws) && SameTexts(vs, ws)
      && (Symmetric(ws) <==> forall k | 0 <= k < |ends| :: !(SeamLinked(vs, ends, k, can) && Open(vs[ends[k].1])))
  {
    SeamsWait(vs, ends, |ends|, can);
    hide SeamsUpTo, SeamLinked;
    if forall k | 0 <= k < |ends| :: !(SeamLinked(vs, ends, k, can) && Open(vs[ends[k].1])) {
      GraphStands(vs, ends, |ends|, can);
    } else {
      var k: nat :| k < |ends| && SeamLinked(vs, ends, k, can) && Open(vs[ends[k].1]);
      LossBreaks(vs, ends, k, can);
    }
  }

  lemma {:induction false} LossBreaks(vs: seq<Line>, ends: seq<(nat, nat)>, k: nat, can: Policy)
    requires Seams(vs, ends) && Named(vs) && Graph(vs) && k < |ends| && SeamLinked(vs, ends, k, can) && Open(vs[ends[k].1])
    ensures !Symmetric(SeamsUpTo(vs, ends, |ends|, can))
  {
    var b := ends[k].1;
    OpenHasPartner(vs[b]);
    hide Open, SeamsUpTo, SeamLinked, ForwardPartner, BackwardPartner, Named;
    assert Holds(vs, ForwardPartner(vs[b]).value);
    var c :| 0 <= c < |vs| && vs[c].ref == ForwardPartner(vs[b]).value;
    assert Matched(vs, b, c);
    LossStays(vs, ends, k, |ends|, can);
    PointerBackStays(vs, ends, |ends|, c, can);
    SeamsWait(vs, ends, |ends|, can);
    SameTextsNamed(vs, SeamsUpTo(vs, ends, |ends|, can));
    assert !Matched(SeamsUpTo(vs, ends, |ends|, can), b, c);
  }

  // ----- the pages, one after the other -----

  /** The pages' lists of lines: each line on one page, once. */
  ghost predicate PageLists(vs: seq<Line>, lists: seq<seq<nat>>) {
    && (forall i | 0 <= i < |lists| :: Positions(vs, lists[i]))
    && forall i, j, p | 0 <= i < j < |lists| && p in lists[i] :: p !in lists[j]
  }

  ghost function LinkPages(vs: seq<Line>, lists: seq<seq<nat>>, i: nat, can: Policy): (r: seq<Line>)
    requires i <= |lists| && PageLists(vs, lists)
    ensures |r| == |vs|
  {
    if i == 0 then vs
    else
      var before := LinkPages(vs, lists, i - 1, can);
      var sub := Substantive(before, lists[i - 1]);
      LinkUpTo(before, sub, |sub|, can)
  }

  lemma {:induction false} SameSubstantive(vs: seq<Line>, us: seq<Line>, lines: seq<nat>)
    requires SameTexts(vs, us) && Positions(vs, lines)
    ensures Positions(us, lines) && Substantive(us, lines) == Substantive(vs, lines)
  {
    if lines != [] {
      assert SameText(vs[lines[|lines| - 1]], us[lines[|lines| - 1]]);
      SameSubstantive(vs, us, lines[..|lines| - 1]);
    }
  }

  /** Once the first pages are linked: the graph is one, the pages to come untouched, and
      no link crosses the end of a page done. */
  ghost predicate PagesDone(vs: seq<Line>, us: seq<Line>, lists: seq<seq<nat>>, i: nat)
    requires PageLists(vs, lists)
  {
    && Named(us) && Graph(us) && SameTexts(vs, us)
    && (forall k, p: nat | i <= k < |lists| && p in lists[k] && p < |vs| && p < |us| :: us[p] == vs[p])
    && forall k | 0 <= k < i && k < |lists| && Positions(us, Substantive(vs, lists[k])) :: FreeEnds(us, Substantive(vs, lists[k]))
  }

  lemma {:induction false} PagesLink(vs: seq<Line>, lists: seq<seq<nat>>, i: nat, can: Policy)
    requires PageLists(vs, lists) && i <= |lists| && Named(vs) && Graph(vs) && forall k | 0 <= k < |lists| :: AllFresh(vs, lists[k])
    ensures PagesDone(vs, LinkPages(vs, lists, i, can), lists, i)
  {
    hide Named, Graph, SameText, AllFresh, FreeEnds, LinkUpTo, Substantive;
    if i == 0 {
      SameTextsReflexive(vs);
    } else {
      PagesLink(vs, lists, i - 1, can);
      OnePageMore(vs, LinkPages(vs, lists, i - 1, can), lists, i - 1, can);
    }
  }

  lemma {:induction false} OnePageMore(vs: seq<Line>, us: seq<Line>, lists: seq<seq<nat>>, k: nat, can: Policy)
    requires PageLists(vs, lists) && k < |lists| && PagesDone(vs, us, lists, k) && AllFresh(vs, lists[k])
    ensures Positions(us, lists[k])
    ensures var sub := Substantive(us, lists[k]); PagesDone(vs, LinkUpTo(us, sub, |sub|, can), lists, k + 1)
  {
    hide Named, Graph, SameText, FreeEnds, LinkUpTo, Substantive, OnlyConsecutive;
    SameLengths(vs, us);
    FreshStays(vs, us, lists[k]);
    SameSubstantive(vs, us, lists[k]);
    LinkerIsSymmetric(us, lists[k], can);
    var sub := Substantive(us, lists[k]);
    var ws := LinkUpTo(us, sub, |sub|, can);
    SameTextsChain(vs, us, ws);
    SameTextsNamed(us, ws);
    forall j, p: nat | k + 1 <= j < |lists| && p in lists[j] && p < |vs| && p < |ws| ensures ws[p] == vs[p] {
      assert p !in lists[k];
      assert p !in sub;
    }
    forall j | 0 <= j < k && Positions(ws, Substantive(vs, lists[j])) ensures FreeEnds(ws, Substantive(vs, lists[j])) {
      EndsStay(us, ws, Substantive(vs, lists[j]), sub, lists[j], lists[k]);
    }
  }

  lemma FreshStays(vs: seq<Line>, us: seq<Line>, at: seq<nat>)
    requires |us| == |vs| && AllFresh(vs, at) && forall p: nat | p in at && p < |vs| :: us[p] == vs[p]
    ensures AllFresh(us, at)
  {
    forall k | 0 <= k < |at| ensures at[k] < |us| && Fresh(us[at[k]]) { assert at[k] in at; }
  }

  lemma EndsStay(us: seq<Line>, ws: seq<Line>, mine: seq<nat>, sub: seq<nat>, page: seq<nat>, other: seq<nat>)
    requires |ws| == |us| && Positions(us, mine) && FreeEnds(us, mine) && forall p: nat | p < |us| && p !in sub :: ws[p] == us[p]
    requires (forall p | p in mine :: p in page) && (forall p | p in sub :: p in other) && forall p | p in page :: p !in other
    ensures FreeEnds(ws, mine)
  {
    if mine != [] { assert mine[0] in mine && mine[|mine| - 1] in mine; }
  }

  // ----- the seams of the pages -----

  /** `_substantive` of each page, the pages without text left out. */
  function WithText(subs: seq<seq<nat>>): (text: seq<seq<nat>>)
    ensures (forall s | s in text :: s in subs) && NonEmpty(text)
  {
    if subs == [] then []
    else
      var last := subs[|subs| - 1];
      assert subs == subs[..|subs| - 1] + [last];
      WithText(subs[..|subs| - 1]) + (if last != [] then [last] else [])
  }

  predicate NonEmpty(text: seq<seq<nat>>) {
    forall k | 0 <= k < |text| :: text[k] != []
  }

  /** Last line of a page that carries text, first line of the next one that does. */
  function EndsOf(text: seq<seq<nat>>): (ends: seq<(nat, nat)>)
    requires NonEmpty(text)
    ensures |ends| == if text == [] then 0 else |text| - 1
    ensures forall k | 0 <= k < |ends| :: ends[k] == (text[k][|text[k]| - 1], text[k + 1][0])
  {
    if text == [] then [] else seq(|text| - 1, k requires 0 <= k < |text| - 1 => (text[k][|text[k]| - 1], text[k + 1][0]))
  }

  function PageSubs(vs: seq<Line>, lists: seq<seq<nat>>): (subs: seq<seq<nat>>)
    requires forall i | 0 <= i < |lists| :: Positions(vs, lists[i])
    ensures |subs| == |lists| && forall k | 0 <= k < |subs| :: subs[k] == Substantive(vs, lists[k])
  {
    seq(|lists|, k requires 0 <= k < |lists| => Substantive(vs, lists[k]))
  }

  /** Lists that share no line and repeat none. */
  ghost predicate Separate(vs: seq<Line>, subs: seq<seq<nat>>) {
    && (forall k | 0 <= k < |subs| :: Positions(vs, subs[k]))
    && forall j, k, p | 0 <= j < k < |subs| && p in subs[j] :: p !in subs[k]
  }

  lemma {:induction false} TextIsSeparate(vs: seq<Line>, subs: seq<seq<nat>>)
    requires Separate(vs, subs)
    ensures Separate(vs, WithText(subs))
  {
    hide Positions;
    if subs != [] {
      var front, last := subs[..|subs| - 1], subs[|subs| - 1];
      TextIsSeparate(vs, front);
      var text := WithText(front);
      forall k, p | 0 <= k < |text| && p in text[k] ensures p !in last {
        assert text[k] in front;
        var i :| 0 <= i < |front| && front[i] == text[k];
        assert subs[i] == front[i];
      }
    }
  }

  /** The pages' ends are seams: no link reaches over them yet. */
  lemma {:induction false} EndsAreSeams(vs: seq<Line>, text: seq<seq<nat>>)
    requires Separate(vs, text) && NonEmpty(text) && forall s | s in text && Positions(vs, s) :: FreeEnds(vs, s)
    ensures SeamPlaces(vs, EndsOf(text)) && Seams(vs, EndsOf(text))
  {
    hide ForwardPartner, BackwardPartner;
    var ends := EndsOf(text);
    forall k | 0 <= k < |text| ensures text[k] != [] && text[k][0] in text[k] && text[k][|text[k]| - 1] in text[k] && FreeEnds(vs, text[k]) {
      assert text[k] in text;
    }
    forall k | 0 <= k < |ends| ensures ends[k].0 < |vs| && ends[k].1 < |vs| && ends[k].0 != ends[k].1 {
      assert ends[k].0 in text[k] && ends[k].1 in text[k + 1];
    }
    forall j, k | 0 <= j < k < |ends| ensures ends[j].0 != ends[k].0 && ends[j].1 != ends[k].1 && ends[j].0 != ends[k].1 {
      assert ends[j].0 in text[j] && ends[k].0 in text[k] && ends[j].1 in text[j + 1] && ends[k].1 in text[k + 1];
    }
  }

  // ----- the document -----

  /** The document with its pages linked, and then its seams. */
  ghost function Seamed(pages: seq<Line>, lists: seq<seq<nat>>): (ends: seq<(nat, nat)>)
    requires PageLists(pages, lists)
  {
    EndsOf(WithText(PageSubs(pages, lists)))
  }

  lemma {:induction false} SubsAreSeparate(vs: seq<Line>, lists: seq<seq<nat>>)
    requires PageLists(vs, lists)
    ensures Separate(vs, PageSubs(vs, lists))
  {
    hide Positions, Substantive;
  }

  lemma {:induction false} SeamsHavePlaces(vs: seq<Line>, lists: seq<seq<nat>>)
    requires PageLists(vs, lists)
    ensures SeamPlaces(vs, Seamed(vs, lists))
    ensures forall k | 0 <= k < |Seamed(vs, lists)| :: !Blank(vs[Seamed(vs, lists)[k].0].ocr) && !Blank(vs[Seamed(vs, lists)[k].1].ocr)
  {
    hide Blank, Substantive;
    SubsAreSeparate(vs, lists);
    var subs := PageSubs(vs, lists);
    TextIsSeparate(vs, subs);
    var text, ends := WithText(subs), Seamed(vs, lists);
    forall k, p | 0 <= k < |text| && p in text[k] ensures p < |vs| && !Blank(vs[p].ocr) {
      assert text[k] in subs;
      var i :| 0 <= i < |subs| && subs[i] == text[k];
      assert p in Substantive(vs, lists[i]);
      var j :| 0 <= j < |text[k]| && text[k][j] == p;
    }
    forall k | 0 <= k < |ends|
      ensures ends[k].0 < |vs| && ends[k].1 < |vs| && ends[k].0 != ends[k].1 && !Blank(vs[ends[k].0].ocr) && !Blank(vs[ends[k].1].ocr)
    {
      assert ends[k].0 in text[k] && ends[k].1 in text[k + 1];
    }
  }

  /** What the parsers run: `link_hyphen_pairs` on each page's lines, then
      `link_cross_page_hyphens`. */
  method LinkDocument(doc: array<Line>, lists: seq<seq<nat>>, can: Policy)
    requires PageLists(doc[..], lists)
    modifies doc
    ensures var pages := LinkPages(old(doc[..]), lists, |lists|, can);
      && PageLists(pages, lists) && SeamPlaces(pages, Seamed(pages, lists))
      && doc[..] == SeamsUpTo(pages, Seamed(pages, lists), |Seamed(pages, lists)|, can)
  {
    hide LinkUpTo, Substantive, Blank, SeamsUpTo, WithText, PageSubs;
    ghost var vs := doc[..];
    for k := 0 to |lists|
      invariant doc[..] == LinkPages(vs, lists, k, can)
    {
      LinkHyphenPairs(doc, lists[k], can);
    }
    ghost var pages := doc[..];
    var text := PagesWithText(doc, lists);
    SeamsHavePlaces(pages, lists);
    LinkCrossPageHyphens(doc, EndsOf(text), can);
  }

  /** The lines with text of each page that has some. */
  method PagesWithText(doc: array<Line>, lists: seq<seq<nat>>) returns (text: seq<seq<nat>>)
    requires PageLists(doc[..], lists)
    ensures text == WithText(PageSubs(doc[..], lists))
  {
    hide Substantive, Blank, WithText;
    ghost var subs := PageSubs(doc[..], lists);
    text := [];
    NoText();
    for k := 0 to |lists|
      invariant text == WithText(subs[..k])
    {
      var sub := CollectSubstantive(doc, lists[k]);
      assert subs[..k + 1] == subs[..k] + [sub];
      MoreText(subs[..k], sub);
      if sub != [] { text := text + [sub]; }
    }
    assert subs[..|lists|] == subs;
  }

  lemma NoText()
    ensures WithText([]) == []
  {
  }

  lemma MoreText(subs: seq<seq<nat>>, sub: seq<nat>)
    ensures WithText(subs + [sub]) == WithText(subs) + (if sub != [] then [sub] else [])
  {
    assert (subs + [sub])[..|subs|] == subs;
    assert WithText(subs) + [] == WithText(subs);
  }

  /** A parsed document, once linked: every slot in use is one its role reads, no text
      moved, whoever points or is pointed at has a role; and each link is there from
      both sides exactly when no seam was linked onto a line that opened a link
      already. */
  lemma {:induction false} LinkedDocumentSymmetricIff(vs: seq<Line>, lists: seq<seq<nat>>, can: Policy)
    requires PageLists(vs, lists) && Named(vs) && forall k | 0 <= k < |vs| :: Fresh(vs[k])
    ensures var pages := LinkPages(vs, lists, |lists|, can);
      && PageLists(pages, lists) && SeamPlaces(pages, Seamed(pages, lists))
      && var ends := Seamed(pages, lists);
      var ws := SeamsUpTo(pages, ends, |ends|, can);
      && Named(ws) && Tidy(ws) && SameTexts(vs, ws) && Roled(ws) && NoSelfLinks(ws)
      && (Symmetric(ws) <==> forall k | 0 <= k < |ends| :: !(SeamLinked(pages, ends, k, can) && Open(pages[ends[k].1])))
  {
    hide Named, Graph, SameTexts, Fresh, FreeEnds, LinkPages, Substantive, SeamsUpTo, Roled, NoSelfLinks, SeamLinked, Open, Symmetric, Tidy;
    FreshIsAGraph(vs);
    FreshIsRoled(vs);
    forall k | 0 <= k < |lists| ensures AllFresh(vs, lists[k]) { ListIsFresh(vs, lists[k]); }
    PagesLink(vs, lists, |lists|, can);
    PagesRoled(vs, lists, |lists|, can);
    var pages := LinkPages(vs, lists, |lists|, can);
    SeamsHavePlaces(pages, lists);
    PagesAreSeams(vs, pages, lists);
    var ends := Seamed(pages, lists);
    SeamsKeepSymmetryIff(pages, ends, can);
    SeamsKeepRoled(pages, ends, |ends|, can);
    SameTextsChain(vs, pages, SeamsUpTo(pages, ends, |ends|, can));
  }

  lemma ListIsFresh(vs: seq<Line>, at: seq<nat>)
    requires Positions(vs, at) && forall k | 0 <= k < |vs| :: Fresh(vs[k])
    ensures AllFresh(vs, at)
  {
  }

  lemma {:induction false} PagesRoled(vs: seq<Line>, lists: seq<seq<nat>>, i: nat, can: Policy)
    requires PageLists(vs, lists) && i <= |lists| && Named(vs) && Roled(vs) && NoSelfLinks(vs)
    ensures Named(LinkPages(vs, lists, i, can)) && Roled(LinkPages(vs, lists, i, can)) && NoSelfLinks(LinkPages(vs, lists, i, can))
  {
    hide Named, Roled, NoSelfLinks, LinkUpTo, Substantive;
    if i > 0 {
      PagesRoled(vs, lists, i - 1, can);
      var before := LinkPages(vs, lists, i - 1, can);
      var sub := Substantive(before, lists[i - 1]);
      LinkerKeepsRoled(before, sub, |sub|, can);
    }
  }

  lemma {:induction false} PagesAreSeams(vs: seq<Line>, pages: seq<Line>, lists: seq<seq<nat>>)
    requires PageLists(vs, lists) && |pages| == |vs| && PagesDone(vs, pages, lists, |lists|)
    ensures PageLists(pages, lists) && SeamPlaces(pages, Seamed(pages, lists)) && Seams(pages, Seamed(pages, lists))
  {
    hide Named, Graph, SameText, FreeEnds, Substantive;
    SubsAreSeparate(pages, lists);
    var subs := PageSubs(pages, lists);
    TextIsSeparate(pages, subs);
    forall s | s in WithText(subs) && Positions(pages, s) ensures FreeEnds(pages, s) {
      assert s in subs;
      var i :| 0 <= i < |subs| && subs[i] == s;
      SameSubstantive(vs, pages, lists[i]);
    }
    EndsAreSeams(pages, WithText(subs));
  }
}

/** What the linkers leave of each page (`pairing.py`), whatever a word broken over a
    page break has cost: the hypothesis of the LINE planner's exact results. */
module LinkedPages {
  import opened Prelude
  import opened Manifest
  import opened Pairing
  import opened DocumentLinks
  import D = Decide
  import L = LinePlanner
  import R = Reconcile
  import U = Units
  import W = WindowPlanner

  // ----- every forward link stays answered -----

  lemma {:induction false} SeamsStayAnswered(vs: seq<Line>, ends: seq<(nat, nat)>, i: nat, can: Policy)
    requires SeamPlaces(vs, ends) && Seams(vs, ends) && Named(vs) && Tidy(vs) && Answered(vs) && i <= |ends|
    ensures Answered(SeamsUpTo(vs, ends, i, can))
  {
    hide Seams, SeamPlaces, Named, Tidy, Answered, SeamLinked, Links, LinkStep, Waiting, NeedsForwardLink;
    if i > 0 {
      hide SeamsUpTo;
      SeamsStayAnswered(vs, ends, i - 1, can);
      SeamStep(vs, ends, i - 1, can);
      SeamsWait(vs, ends, i - 1, can);
      SeamEnds(vs, SeamsUpTo(vs, ends, i - 1, can), ends, i - 1);
      if SeamLinked(vs, ends, i - 1, can) {
        SeamLinkedIs(vs, ends, i - 1, can);
        LinkKeepsAnswered(SeamsUpTo(vs, ends, i - 1, can), ends[i - 1].0, ends[i - 1].1, can);
      }
    }
  }

  lemma {:induction false} LinkKeepsAnswered(us: seq<Line>, a: nat, b: nat, can: Policy)
    requires Named(us) && Tidy(us) && Answered(us) && a < |us| && b < |us| && a != b
    requires Links(us, a, b, can) && BackwardPartner(us[b]) == None
    ensures Answered(LinkStep(us, a, b, can))
  {
    hide LinkStep, Links, Tidy, ForwardPartner, BackwardPartner, SameText, TidyLine, Open;
    var ws := LinkStep(us, a, b, can);
    forall p | 0 <= p < |us| ensures Crossed(us[p], ws[p], p == a, p == b, us[a].ref, us[b].ref) && ws[p].ref == us[p].ref {
      CrossedLine(us, a, b, can, p);
      SameTextRef(us[p], ws[p]);
    }
    forall x, y | 0 <= x < |ws| && 0 <= y < |ws| ensures Answers(ws, x, y) {
      assert Answers(us, x, y) && Answers(us, x, b);
    }
  }

  // ----- each page's links go forward and do not overlap -----

  /** `local` says of each place of `sub` which place of the list it is. */
  ghost predicate Locates(list: seq<nat>, sub: seq<nat>, local: seq<nat>) {
    |sub| == |local| && forall k | 0 <= k < |sub| :: local[k] < |list| && sub[k] == list[local[k]]
  }

  lemma {:induction false} SubstantiveSnoc(vs: seq<Line>, front: seq<nat>, last: nat)
    requires Positions(vs, front + [last])
    ensures Positions(vs, front) && last < |vs|
    ensures Substantive(vs, front + [last]) == Substantive(vs, front) + if Blank(vs[last].ocr) then [] else [last]
  {
    hide Blank;
    var all := front + [last];
    assert all[..|all| - 1] == front && all[|all| - 1] == last;
    assert forall k | 0 <= k < |front| :: all[k] == front[k];
    assert Substantive(vs, front) + [] == Substantive(vs, front);
  }

  /** Working through the page's places is working through the page. */
  lemma {:induction false} SubstantiveAt(vs: seq<Line>, list: seq<nat>, n: nat)
    requires Positions(vs, list) && n <= |list|
    ensures Positions(vs, list[..n]) && Positions(D.LinesAt(vs, list), Iota(n))
    ensures Locates(list, Substantive(vs, list[..n]), Substantive(D.LinesAt(vs, list), Iota(n)))
  {
    hide Blank, Locates;
    if n == 0 {
      NothingLocates(list);
    } else {
      hide Substantive;
      SubstantiveAt(vs, list, n - 1);
      var ls := D.LinesAt(vs, list);
      OnePlaceMore(list, n - 1);
      SubstantiveSnoc(vs, list[..n - 1], list[n - 1]);
      SubstantiveSnoc(ls, Iota(n - 1), n - 1);
      LocatesMore(list, Substantive(vs, list[..n - 1]), Substantive(ls, Iota(n - 1)), n - 1, Blank(ls[n - 1].ocr));
    }
  }

  lemma OnePlaceMore(list: seq<nat>, k: nat)
    requires k < |list|
    ensures list[..k + 1] == list[..k] + [list[k]] && Iota(k + 1) == Iota(k) + [k]
  {
  }

  lemma NothingLocates(list: seq<nat>)
    ensures Locates(list, [], [])
  {
  }

  lemma LocatesMore(list: seq<nat>, sub: seq<nat>, local: seq<nat>, x: nat, skipped: bool)
    requires Locates(list, sub, local) && x < |list|
    ensures Locates(list, sub + if skipped then [] else [list[x]], local + if skipped then [] else [x])
  {
  }

  lemma {:induction false} NextLocally(ws: seq<Line>, list: seq<nat>, sub: seq<nat>, local: seq<nat>, x: nat)
    requires Positions(ws, list) && Positions(ws, sub) && Positions(D.LinesAt(ws, list), local) && Locates(list, sub, local)
    requires x < |list| && NextOf(ws, sub, list[x])
    ensures NextOf(D.LinesAt(ws, list), local, x)
  {
    hide ForwardPartner;
    var k: nat :| k + 1 < |sub| && sub[k] == list[x] && ForwardPartner(ws[list[x]]) == Some(ws[sub[k + 1]].ref);
    assert local[k] == x;
  }

  lemma {:induction false} NeatAt(ws: seq<Line>, list: seq<nat>)
    requires Named(ws) && Positions(ws, list) && W.OnePage(D.LinesAt(ws, list))
    requires forall p | p in list && p < |ws| && ForwardPartner(ws[p]).Some? :: NextOf(ws, Substantive(ws, list), p)
    ensures L.Neat(D.LinesAt(ws, list))
  {
    var ls, n := D.LinesAt(ws, list), |list|;
    assert list[..n] == list;
    assert Named(ls);
    SubstantiveAt(ws, list, n);
    L.SubstantiveIncreases(ls, Iota(n));
    hide ForwardPartner, Substantive, Named, Positions, NextOf, Locates, L.Increasing, W.OnePage;
    var sub, local := Substantive(ws, list), Substantive(ls, Iota(n));
    forall x: nat | x < |ls| && ForwardPartner(ls[x]).Some? ensures NextOf(ls, local, x) {
      assert list[x] in list;
      NextLocally(ws, list, sub, local, x);
    }
    L.ConsecutiveIsNeat(ls, local);
  }

  lemma {:induction false} JustLinked(vs: seq<Line>, us: seq<Line>, lists: seq<seq<nat>>, k: nat, can: Policy)
    requires PageLists(vs, lists) && k < |lists| && PagesDone(vs, us, lists, k) && AllFresh(vs, lists[k])
    requires W.OnePage(D.LinesAt(vs, lists[k]))
    ensures Positions(us, lists[k])
    ensures var sub := Substantive(us, lists[k]); L.Neat(D.LinesAt(LinkUpTo(us, sub, |sub|, can), lists[k]))
  {
    hide Graph, FreeEnds, LinkUpTo, Substantive, ForwardPartner, L.Neat, SameText, NextOf;
    SameLengths(vs, us);
    FreshStays(vs, us, lists[k]);
    LinkerIsSymmetric(us, lists[k], can);
    var sub := Substantive(us, lists[k]);
    var ws := LinkUpTo(us, sub, |sub|, can);
    SameTextsNamed(us, ws);
    SameRefs(vs, us);
    SameSubstantive(us, ws, lists[k]);
    forall p | p in lists[k] && p < |ws| && ForwardPartner(ws[p]).Some? ensures NextOf(ws, sub, p) {
      if p !in sub {
        var i :| 0 <= i < |lists[k]| && lists[k][i] == p;
        NoLinks(us[p]);
      }
    }
    NeatAt(ws, lists[k]);
  }

  lemma {:induction false} PageIsNeat(vs: seq<Line>, lists: seq<seq<nat>>, i: nat, k: nat, can: Policy)
    requires PageLists(vs, lists) && k < i <= |lists| && Named(vs) && Graph(vs) && forall j | 0 <= j < |lists| :: AllFresh(vs, lists[j])
    requires W.OnePage(D.LinesAt(vs, lists[k]))
    ensures L.Neat(D.LinesAt(LinkPages(vs, lists, i, can), lists[k]))
    decreases i
  {
    hide Named, Graph, AllFresh, LinkUpTo, Substantive, L.Neat, FreeEnds, OnlyConsecutive, SameText, W.OnePage;
    var us := LinkPages(vs, lists, i - 1, can);
    PagesLink(vs, lists, i - 1, can);
    if i - 1 == k {
      JustLinked(vs, us, lists, k, can);
    } else {
      PageIsNeat(vs, lists, i - 1, k, can);
      SameLengths(vs, us);
      FreshStays(vs, us, lists[i - 1]);
      LinkerIsSymmetric(us, lists[i - 1], can);
      var sub := Substantive(us, lists[i - 1]);
      var ws := LinkUpTo(us, sub, |sub|, can);
      forall p | p in lists[k] && p < |us| ensures ws[p] == us[p] { assert p !in sub; }
      SameLines(us, ws, lists[k]);
    }
  }

  lemma SameRefs(vs: seq<Line>, us: seq<Line>)
    requires SameTexts(vs, us)
    ensures |us| == |vs| && forall k | 0 <= k < |vs| :: us[k].ref == vs[k].ref
  {
    hide SameText;
    forall k | 0 <= k < |vs| ensures us[k].ref == vs[k].ref { SameTextRef(vs[k], us[k]); }
  }

  lemma SameLines(us: seq<Line>, ws: seq<Line>, at: seq<nat>)
    requires |us| == |ws| && Positions(us, at) && forall p | p in at && p < |us| :: ws[p] == us[p]
    ensures D.LinesAt(ws, at) == D.LinesAt(us, at)
  {
    forall k | 0 <= k < |at| ensures ws[at[k]] == us[at[k]] { assert at[k] in at; }
  }

  // ----- the pages of a linked document -----

  /** No seam joins two lines of the list. */
  ghost predicate SeamsLeave(ends: seq<(nat, nat)>, list: seq<nat>) {
    forall k | 0 <= k < |ends| :: !(ends[k].0 in list && ends[k].1 in list)
  }

  /** The seams give no page a link between two of its own lines. */
  lemma {:induction false} NoLinkWithin(vs: seq<Line>, ends: seq<(nat, nat)>, i: nat, can: Policy, list: seq<nat>, p: nat, q: nat)
    requires SeamPlaces(vs, ends) && Seams(vs, ends) && Named(vs) && Tidy(vs) && i <= |ends| && SeamsLeave(ends, list)
    requires p in list && q in list && p < |vs| && q < |vs|
    requires ForwardPartner(SeamsUpTo(vs, ends, i, can)[p]) == Some(vs[q].ref)
    ensures ForwardPartner(vs[p]) == Some(vs[q].ref)
  {
    hide Tidy, SeamLinked, ForwardPartner, BackwardPartner, Open, SameText, TidyLine, Seams;
    if i > 0 {
      hide SeamsUpTo;
      SeamLine(vs, ends, i - 1, can, p);
      NoLinkWithin(vs, ends, i - 1, can, list, p, q);
    }
  }

  lemma {:induction false} SeamsLeavePages(vs: seq<Line>, lists: seq<seq<nat>>, k: nat)
    requires PageLists(vs, lists) && k < |lists|
    ensures SeamsLeave(Seamed(vs, lists), lists[k])
  {
    hide Substantive, Positions;
    var subs := PageSubs(vs, lists);
    SubsAreSeparate(vs, lists);
    TextIsSeparate(vs, subs);
    var text, ends := WithText(subs), Seamed(vs, lists);
    forall j | 0 <= j < |ends| ensures !(ends[j].0 in lists[k] && ends[j].1 in lists[k]) {
      assert ends[j].0 in text[j] && ends[j].1 in text[j + 1];
      if ends[j].0 in lists[k] && ends[j].1 in lists[k] {
        OwnPage(vs, lists, text[j], ends[j].0, k);
        OwnPage(vs, lists, text[j + 1], ends[j].1, k);
        assert false;
      }
    }
  }

  /** The page of a text is the one its lines are listed on. */
  lemma OwnPage(vs: seq<Line>, lists: seq<seq<nat>>, s: seq<nat>, p: nat, k: nat)
    requires PageLists(vs, lists) && k < |lists| && s in PageSubs(vs, lists) && p in s && p in lists[k]
    ensures s == Substantive(vs, lists[k])
  {
    hide Positions;
    var i :| 0 <= i < |lists| && PageSubs(vs, lists)[i] == s;
    assert p in lists[i];
  }

  /** Every page of a parsed document is, once linked, one on which the LINE planner
      severs links only exactly when `Apart` says so: its forward links are answered,
      go forward and do not overlap. */
  lemma {:induction false} LinkedPagesAreLinkable(vs: seq<Line>, lists: seq<seq<nat>>, can: Policy, k: nat)
    requires PageLists(vs, lists) && Named(vs) && forall p | 0 <= p < |vs| :: Fresh(vs[p])
    requires k < |lists| && W.OnePage(D.LinesAt(vs, lists[k]))
    ensures var pages := LinkPages(vs, lists, |lists|, can);
      && PageLists(pages, lists) && SeamPlaces(pages, Seamed(pages, lists))
      && var ws := SeamsUpTo(pages, Seamed(pages, lists), |Seamed(pages, lists)|, can);
      L.Linkable(D.LinesAt(ws, lists[k]))
  {
    hide Named, Graph, Fresh, FreeEnds, LinkPages, Substantive, SeamsUpTo, Seamed, L.Neat, SeamsLeave, Tidy, Answered, W.OnePage,
         Positions;
    FreshIsAGraph(vs);
    forall j | 0 <= j < |lists| ensures AllFresh(vs, lists[j]) { ListIsFresh(vs, lists[j]); }
    PagesLink(vs, lists, |lists|, can);
    var pages := LinkPages(vs, lists, |lists|, can);
    PagesAreSeams(vs, pages, lists);
    PageIsNeat(vs, lists, |lists|, k, can);
    SeamsLeavePages(pages, lists, k);
    GraphIsAnswered(pages);
    PageAfterTheSeams(vs, pages, Seamed(pages, lists), can, lists[k]);
  }

  lemma GraphIsAnswered(vs: seq<Line>)
    requires Graph(vs)
    ensures Tidy(vs) && Answered(vs)
  {
    SymmetricIsAnswered(vs);
  }

  lemma {:induction false} PageAfterTheSeams(vs: seq<Line>, pages: seq<Line>, ends: seq<(nat, nat)>, can: Policy, list: seq<nat>)
    requires SameTexts(vs, pages) && Positions(vs, list) && W.OnePage(D.LinesAt(vs, list))
    requires Named(pages) && Tidy(pages) && Answered(pages) && SeamPlaces(pages, ends) && Seams(pages, ends) && SeamsLeave(ends, list)
    requires L.Neat(D.LinesAt(pages, list))
    ensures L.Linkable(D.LinesAt(SeamsUpTo(pages, ends, |ends|, can), list))
  {
    hide SeamsUpTo, SeamsLeave, Seams, SeamPlaces, SameText, ForwardPartner, BackwardPartner, TidyLine, SameTexts;
    var ws := SeamsUpTo(pages, ends, |ends|, can);
    SeamsWait(pages, ends, |ends|, can);
    SeamsStayAnswered(pages, ends, |ends|, can);
    SameRefs(vs, pages);
    SameRefs(pages, ws);
    var ls, before := D.LinesAt(ws, list), D.LinesAt(pages, list);
    forall x: nat, y: nat | L.Linked(ls, x, y) ensures L.Linked(before, x, y) {
      assert list[x] in list && list[y] in list;
      NoLinkWithin(pages, ends, |ends|, can, list, list[x], list[y]);
    }
    PageOfAnswered(ws, list);
  }

  lemma {:induction false} PageOfAnswered(ws: seq<Line>, list: seq<nat>)
    requires Positions(ws, list) && Named(ws) && Tidy(ws) && Answered(ws)
    ensures Named(D.LinesAt(ws, list)) && Tidy(D.LinesAt(ws, list)) && Answered(D.LinesAt(ws, list))
  {
    hide ForwardPartner, BackwardPartner, TidyLine;
    var ls := D.LinesAt(ws, list);
    forall x, y | 0 <= x < |ls| && 0 <= y < |ls| ensures Answers(ls, x, y) { assert Answers(ws, list[x], list[y]); }
  }

  // ----- a unit the windows split -----

  /** The document of `CrossPageChainLosesALink`, linked: its second page. */
  ghost function LostPage(can: Policy): seq<Line> {
    var page2 := LinkUpTo(BrokenTwice(), [1, 2], 2, can);
    SeamsUpTo(page2, [(0, 1)], 1, can)[1..]
  }

  lemma LostLinks(can: Policy)
    requires forall x, y :: can(x, y)
    ensures var ws := LinkStep(LinkStep(BrokenTwice(), 1, 2, can), 0, 1, can);
      && |ws| == 3 && ws[1].ref == LineRef("p2", "l1") && ws[2].ref == LineRef("p2", "l2")
      && ForwardPartner(ws[1]) == None && ForwardPartner(ws[2]) == None && Pointers(ws[2]) == [LineRef("p2", "l1")]
  {
  }

  lemma {:induction false} LostPageIs(can: Policy)
    requires forall x, y :: can(x, y)
    ensures LostPage(can) == LinkStep(LinkStep(BrokenTwice(), 1, 2, can), 0, 1, can)[1..]
  {
    var vs := BrokenTwice();
    BrokenPage2(can);
    OneSeam(LinkUpTo(vs, [1, 2], 2, can), 0, 1, can);
    hide LinkStep, SeamsUpTo, BrokenTwice, Graph, Named;
    assert LinkUpTo(vs, [1, 2], 1, can) == LinkStep(LinkUpTo(vs, [1, 2], 0, can), 1, 2, can);
    assert LinkUpTo(vs, [1, 2], 2, can) == LinkStep(vs, 1, 2, can);
  }

  lemma LostPageFacts(can: Policy)
    requires forall x, y :: can(x, y)
    ensures var page := LostPage(can); Lost(page)
  {
    LostPageIs(can);
    LostLinks(can);
    hide LinkStep, BrokenTwice, ForwardPartner, Pointers, LostPage;
  }

  /** Two lines of one page, of which only the second knows that they are one word. */
  ghost predicate Lost(page: seq<Line>) {
    && |page| == 2 && page[0].ref == LineRef("p2", "l1") && page[1].ref == LineRef("p2", "l2")
    && ForwardPartner(page[0]) == None && ForwardPartner(page[1]) == None && page[0].ref in Pointers(page[1])
  }

  /** The word the seam broke off is one unit of its page, and windows of one line each
      target its two lines apart. */
  lemma {:induction false} LostUnitIsSplit(can: Policy)
    returns (groups: seq<U.HyphenGroup>, g: U.HyphenGroup, windows: seq<W.Window>, target: map<nat, nat>)
    requires forall x, y :: can(x, y)
    ensures var page := LostPage(can);
      && W.OnePage(page) && U.IsGrouping(ByRef(page), groups) && g in groups && W.Bounds(page, g, 0, 1)
      && W.TIGHT.Valid() && W.Complete(page, W.TIGHT, windows) && W.Assigned(page, windows, groups, target)
      && !W.Together(page, g, target)
  {
    LostPageFacts(can);
    var page := LostPage(can);
    hide LostPage, U.IsGrouping, ByRef, W.Complete, W.Assigned, W.Together, W.Bounds, W.Bridged, U.Grouped;
    groups := U.GroupingExists(ByRef(page));
    g := LostGroup(page, groups);
    NoBridge(page);
    windows, target := W.UnbridgedIsSplit(page, groups, g, 0, 1);
  }

  lemma {:induction false} LostGroup(page: seq<Line>, groups: seq<U.HyphenGroup>) returns (g: U.HyphenGroup)
    requires Lost(page) && U.IsGrouping(ByRef(page), groups)
    ensures W.OnePage(page) && g in groups && W.Bounds(page, g, 0, 1)
  {
    hide ForwardPartner, Pointers, U.IsGrouping, W.Spots, ByRef, U.SameUnit;
    assert W.OnePage(page);
    LostTogether(page);
    g := GroupOf(ByRef(page), groups, page[0].ref, page[1].ref);
    hide W.OnePage;
    forall p: nat ensures p in W.Spots(page, g) <==> p < |page| && page[p].ref in g.members { W.SpotsAreMembers(page, groups, g, p); }
  }

  lemma {:induction false} GroupOf(m: map<LineRef, Line>, groups: seq<U.HyphenGroup>, x: LineRef, y: LineRef) returns (g: U.HyphenGroup)
    requires U.IsGrouping(m, groups) && x in m && y in m && x != y && U.SameUnit(m, x, y)
    ensures g in groups && x in g.members && y in g.members
  {
    hide U.SameUnit, SortedBy;
    assert U.Grouped(groups, x);
    g :| g in groups && x in g.members;
    assert U.IsUnit(m, g);
  }

  lemma LostTogether(page: seq<Line>)
    requires Lost(page)
    ensures page[0].ref in ByRef(page) && page[1].ref in ByRef(page) && U.SameUnit(ByRef(page), page[0].ref, page[1].ref)
  {
    hide ForwardPartner, Pointers;
    assert page[..1][..0] == [] && page[..2] == page;
    assert ByRef(page[..1]) == map[page[0].ref := page[0]];
    assert ByRef(page) == map[page[0].ref := page[0], page[1].ref := page[1]];
    R.PointerIsAPair(ByRef(page), page[0].ref, page[1].ref);
  }

  lemma NoBridge(page: seq<Line>)
    requires Lost(page)
    ensures !W.Bridged(page, 0, 1)
  {
    NoneLeaves(page);
    hide W.SomeLeaves, Lost;
  }

  lemma NoneLeaves(page: seq<Line>)
    requires Lost(page)
    ensures |page| == 2 && !W.SomeLeaves(page, 0, 1)
  {
    hide Pointers;
  }
}

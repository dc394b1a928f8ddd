/** A whole run (`pipeline.py`, `indexing.py`): the pages in order, the document-wide
    passes, the decisions and the script of what was applied. */
module Pipeline {
  import opened Prelude
  import opened Manifest
  import opened Decide
  import opened Reconcile
  import opened Acceptance
  import opened Proposals
  import opened Attempt
  import opened Driver
  import B = BlockPlanner
  import DL = DocumentLinks
  import P = Pairing
  import F = Finalize
  import R = Replay
  import V = Reverts
  import X = CrossPage
  import S = Scripts

  datatype Page = Page(id: string, lines: seq<nat>, blocks: seq<B.Block>, routing: Routing)

  // ----- what a run starts from -----

  ghost predicate Untouched(l: Line) {
    l.status.Pending? && l.corrected.None? && l.reason == ""
  }

  /** A parsed page: its lines, once each, listed by its blocks. */
  ghost predicate PageOk(vs: seq<Line>, page: Page) {
    && Distinct(page.lines) && Spots(vs, page.lines) && (forall p | p in page.lines :: vs[p].ref.page == page.id)
    && B.PartitionedBy(LinesAt(vs, page.lines), page.blocks)
    && |page.routing.tiers| == |page.lines|
  }

  /** A parsed document, no line decided yet; whoever points or is pointed at has a
      role, which the linkers provide whatever they link. */
  ghost predicate Document(vs: seq<Line>, pages: seq<Page>) {
    && P.Named(vs) && P.Roled(vs) && NoSelfLinks(vs)
    && (forall k | 0 <= k < |vs| :: Untouched(vs[k]))
    && (forall i | 0 <= i < |pages| :: PageOk(vs, pages[i]))
    && (forall i, j | 0 <= i < j < |pages| :: pages[i].id != pages[j].id)
    && forall p: nat | p < |vs| :: OnAPage(pages, p)
  }

  ghost predicate OnAPage(pages: seq<Page>, p: nat) {
    exists i :: 0 <= i < |pages| && p in pages[i].lines
  }

  /** What the parsers hand to the linkers: lines with no pointers, not yet decided. */
  ghost predicate Parsed(vs: seq<Line>, pages: seq<Page>) {
    && P.Named(vs) && (forall k | 0 <= k < |vs| :: P.Fresh(vs[k]) && Untouched(vs[k]))
    && (forall i | 0 <= i < |pages| :: PageOk(vs, pages[i]))
    && (forall i, j | 0 <= i < j < |pages| :: pages[i].id != pages[j].id)
    && forall p: nat | p < |vs| :: OnAPage(pages, p)
  }

  function ListsOf(pages: seq<Page>): (lists: seq<seq<nat>>)
    ensures |lists| == |pages| && forall i | 0 <= i < |lists| :: lists[i] == pages[i].lines
  {
    seq(|pages|, i requires 0 <= i < |pages| => pages[i].lines)
  }

  lemma {:induction false} ListsAreApart(vs: seq<Line>, pages: seq<Page>)
    requires Parsed(vs, pages)
    ensures DL.PageLists(vs, ListsOf(pages))
  {
    hide B.PartitionedBy, P.Fresh, Untouched, P.Named;
    forall i | 0 <= i < |pages| ensures P.Positions(vs, pages[i].lines) { assert PageOk(vs, pages[i]); }
    forall i, j, p | 0 <= i < j < |pages| && p in pages[i].lines ensures p !in pages[j].lines {
      assert PageOk(vs, pages[i]) && PageOk(vs, pages[j]);
    }
  }

  /** Whatever the policy, the linkers turn a parsed document into one a run can take:
      also where a word over a page break has cost it a link. */
  lemma {:induction false} LinkersGiveADocument(vs: seq<Line>, pages: seq<Page>, can: P.Policy)
    requires Parsed(vs, pages)
    ensures DL.PageLists(vs, ListsOf(pages))
    ensures var linked := DL.LinkPages(vs, ListsOf(pages), |pages|, can);
      && DL.PageLists(linked, ListsOf(pages)) && P.SeamPlaces(linked, DL.Seamed(linked, ListsOf(pages)))
      && Document(P.SeamsUpTo(linked, DL.Seamed(linked, ListsOf(pages)), |DL.Seamed(linked, ListsOf(pages))|, can), pages)
  {
    hide DL.LinkPages, DL.Seamed, P.SeamsUpTo, P.Roled, NoSelfLinks, P.Named, P.Tidy, P.Symmetric, DL.PageLists, P.SameText;
    ListsAreApart(vs, pages);
    DL.LinkedDocumentSymmetricIff(vs, ListsOf(pages), can);
    var linked := DL.LinkPages(vs, ListsOf(pages), |pages|, can);
    var ends := DL.Seamed(linked, ListsOf(pages));
    var ws := P.SeamsUpTo(linked, ends, |ends|, can);
    forall k | 0 <= k < |ws| ensures ws[k].ref == vs[k].ref && Untouched(ws[k]) {
      assert P.SameText(vs[k], ws[k]);
      TextKeepsUntouched(vs[k], ws[k]);
    }
    hide Untouched, P.Fresh, P.SameTexts;
    forall i | 0 <= i < |pages| ensures PageOk(ws, pages[i]) { PageStays(vs, ws, pages[i]); }
  }

  lemma TextKeepsUntouched(a: Line, b: Line)
    requires P.SameText(a, b) && Untouched(a)
    ensures b.ref == a.ref && Untouched(b)
  {
  }

  lemma {:induction false} PageStays(vs: seq<Line>, ws: seq<Line>, page: Page)
    requires PageOk(vs, page) && |ws| == |vs| && forall k | 0 <= k < |vs| :: ws[k].ref == vs[k].ref
    ensures PageOk(ws, page)
  {
    var a, b := LinesAt(vs, page.lines), LinesAt(ws, page.lines);
    forall p | p in page.lines ensures p < |ws| { var k :| 0 <= k < |page.lines| && page.lines[k] == p; }
    forall k | 0 <= k < |b| ensures B.Listed(page.blocks, b[k].ref.line) { assert B.Listed(page.blocks, a[k].ref.line); }
  }

  // ----- the page's scope -----

  ghost predicate Indexed(vs: seq<Line>, index: map<LineRef, nat>) {
    && (forall r | r in index :: index[r] < |vs| && vs[index[r]].ref == r)
    && forall k | 0 <= k < |vs| :: vs[k].ref in index
  }

  /** The document's lines by reference. */
  method IndexLines(doc: array<Line>) returns (index: map<LineRef, nat>)
    ensures Indexed(doc[..], index)
  {
    index := map[];
    for p := 0 to doc.Length
      invariant forall r | r in index :: index[r] < doc.Length && doc[index[r]].ref == r
      invariant forall k | 0 <= k < p :: doc[k].ref in index
    {
      index := index[doc[p].ref := p];
    }
  }

  /** Off-page partners: lines some line of the page points at. */
  ghost predicate PointedFrom(vs: seq<Line>, lines: seq<nat>, p: nat) {
    p < |vs| && exists x :: x in lines && x < |vs| && vs[p].ref in Pointers(vs[x])
  }

  ghost predicate PartnersOk(vs: seq<Line>, page: Page, others: seq<nat>, partners: map<LineRef, nat>) {
    && Distinct(others) && (forall p | p in others :: p < |vs| && vs[p].ref.page != page.id && PointedFrom(vs, page.lines, p))
    && forall r | r in partners :: partners[r] in others && partners[r] < |vs| && vs[partners[r]].ref == r && r.page != page.id
  }

  /** No off-page line the page points at is missing. */
  ghost predicate AllPartners(vs: seq<Line>, page: Page, others: seq<nat>, partners: map<LineRef, nat>) {
    forall p: nat | p < |vs| && vs[p].ref.page != page.id && PointedFrom(vs, page.lines, p) :: p in others && vs[p].ref in partners
  }

  ghost predicate Borrowed(refs: seq<LineRef>, pageId: string, index: map<LineRef, nat>, partners: map<LineRef, nat>) {
    forall r | r in refs && r.page != pageId && r in index :: r in partners
  }

  lemma StillBorrowed(refs: seq<LineRef>, pageId: string, index: map<LineRef, nat>, before: map<LineRef, nat>, after: map<LineRef, nat>)
    requires Borrowed(refs, pageId, index, before) && forall r | r in before :: r in after
    ensures Borrowed(refs, pageId, index, after)
  {
  }

  lemma NothingBorrowed(vs: seq<Line>, page: Page)
    ensures PartnersOk(vs, page, [], map[])
  {
  }

  /** The partners one line of the page has elsewhere. */
  method Borrow(doc: array<Line>, page: Page, index: map<LineRef, nat>, k: nat, others: seq<nat>, partners: map<LineRef, nat>)
    returns (others': seq<nat>, partners': map<LineRef, nat>)
    requires k < |page.lines| && page.lines[k] < doc.Length && Indexed(doc[..], index) && PartnersOk(doc[..], page, others, partners)
    ensures PartnersOk(doc[..], page, others', partners')
    ensures Borrowed(Pointers(doc[page.lines[k]]), page.id, index, partners') && forall r | r in partners :: r in partners'
  {
    hide PointedFrom, Pointers;
    others', partners' := others, partners;
    var refs := Pointers(doc[page.lines[k]]);
    for i := 0 to |refs|
      invariant PartnersOk(doc[..], page, others', partners')
      invariant Borrowed(refs[..i], page.id, index, partners') && forall r | r in partners :: r in partners'
    {
      var r := refs[i];
      assert refs[..i + 1] == refs[..i] + [r];
      if r.page == page.id || r !in index { continue; }
      Pointed(doc[..], page, k, index[r], r);
      others' := Added(others', index[r]);
      partners' := partners'[r := index[r]];
    }
    assert refs[..|refs|] == refs;
  }

  /** `_cross_page_partners`. */
  method CrossPagePartners(doc: array<Line>, page: Page, index: map<LineRef, nat>) returns (others: seq<nat>, partners: map<LineRef, nat>)
    requires Spots(doc[..], page.lines) && DistinctRefs(doc[..]) && Indexed(doc[..], index)
    ensures PartnersOk(doc[..], page, others, partners) && AllPartners(doc[..], page, others, partners)
  {
    hide PointedFrom, Pointers, Borrowed, PartnersOk, Indexed;
    others, partners := [], map[];
    NothingBorrowed(doc[..], page);
    for k := 0 to |page.lines|
      invariant PartnersOk(doc[..], page, others, partners)
      invariant forall j | 0 <= j < k :: Borrowed(Pointers(doc[page.lines[j]]), page.id, index, partners)
    {
      ghost var before := partners;
      others, partners := Borrow(doc, page, index, k, others, partners);
      forall j | 0 <= j <= k ensures Borrowed(Pointers(doc[page.lines[j]]), page.id, index, partners) {
        if j < k { StillBorrowed(Pointers(doc[page.lines[j]]), page.id, index, before, partners); }
      }
    }
    NoneMissing(doc[..], page, index, others, partners);
  }

  lemma {:induction false} NoneMissing(vs: seq<Line>, page: Page, index: map<LineRef, nat>, others: seq<nat>, partners: map<LineRef, nat>)
    requires Spots(vs, page.lines) && DistinctRefs(vs) && Indexed(vs, index) && PartnersOk(vs, page, others, partners)
    requires forall j | 0 <= j < |page.lines| :: Borrowed(Pointers(vs[page.lines[j]]), page.id, index, partners)
    ensures AllPartners(vs, page, others, partners)
  {
    hide Pointers, Borrowed, PointedFrom, Spots;
    forall p: nat | p < |vs| && vs[p].ref.page != page.id && PointedFrom(vs, page.lines, p)
      ensures p in others && vs[p].ref in partners
    {
      var j := PointerPlace(vs, page, p);
      IsBorrowed(vs, Pointers(vs[page.lines[j]]), page.id, index, partners, p);
      assert vs[partners[vs[p].ref]].ref == vs[p].ref;
    }
  }

  lemma PointerPlace(vs: seq<Line>, page: Page, p: nat) returns (j: nat)
    requires PointedFrom(vs, page.lines, p)
    ensures p < |vs| && j < |page.lines| && page.lines[j] < |vs| && vs[p].ref in Pointers(vs[page.lines[j]])
  {
    hide Pointers;
    var x :| x in page.lines && x < |vs| && vs[p].ref in Pointers(vs[x]);
    j :| 0 <= j < |page.lines| && page.lines[j] == x;
  }

  lemma IsBorrowed(vs: seq<Line>, refs: seq<LineRef>, pageId: string, index: map<LineRef, nat>, partners: map<LineRef, nat>, p: nat)
    requires Borrowed(refs, pageId, index, partners) && Indexed(vs, index)
    requires p < |vs| && vs[p].ref in refs && vs[p].ref.page != pageId
    ensures vs[p].ref in partners
  {
    assert vs[p].ref in index;
  }

  lemma Pointed(vs: seq<Line>, page: Page, k: nat, p: nat, r: LineRef)
    requires k < |page.lines| && page.lines[k] < |vs| && p < |vs| && vs[p].ref == r && r in Pointers(vs[page.lines[k]])
    ensures PointedFrom(vs, page.lines, p)
  {
    assert page.lines[k] in page.lines;
  }

  /** The page's scope: its own lines by id and exactly the partners they have on
      other pages. */
  method BuildWorkspace(doc: array<Line>, page: Page, index: map<LineRef, nat>) returns (w: Workspace)
    requires DistinctRefs(doc[..]) && Distinct(page.lines) && Spots(doc[..], page.lines)
    requires forall p | p in page.lines :: doc[p].ref.page == page.id
    requires Indexed(doc[..], index)
    ensures Located(doc[..], w) && w.lines == page.lines && w.page == page.id
    ensures forall p | p in w.others :: PointedFrom(doc[..], page.lines, p)
    ensures AllPartners(doc[..], page, w.others, w.partners)
  {
    hide PointedFrom, AllPartners, Indexed;
    var others, partners := CrossPagePartners(doc, page, index);
    var byId: map<string, nat> := map[];
    for k := 0 to |page.lines|
      invariant forall id | id in byId :: byId[id] in page.lines && byId[id] < doc.Length && doc[byId[id]].ref == LineRef(page.id, id)
      invariant forall i | 0 <= i < k :: doc[page.lines[i]].ref.line in byId && byId[doc[page.lines[i]].ref.line] == page.lines[i]
    {
      var p := page.lines[k];
      assert p in page.lines;
      forall i | 0 <= i < k ensures doc[page.lines[i]].ref.line != doc[p].ref.line {
        assert page.lines[i] in page.lines;
        SameIdSameLine(doc[..], page.lines[i], p);
      }
      byId := byId[doc[p].ref.line := p];
    }
    w := Workspace(page.id, page.lines, byId, others, partners);
    forall p | p in page.lines ensures p < doc.Length && doc[p].ref.line in byId && byId[doc[p].ref.line] == p {
      var k :| 0 <= k < |page.lines| && page.lines[k] == p;
    }
  }

  lemma SameIdSameLine(vs: seq<Line>, p: nat, q: nat)
    requires DistinctRefs(vs) && p < |vs| && q < |vs| && vs[p].ref.page == vs[q].ref.page && p != q
    ensures vs[p].ref.line != vs[q].ref.line
  {
  }

  // ----- pages not processed yet -----

  /** A line of a page still to come keeps its links, and one that no word joins to
      another is exactly as the run found it. */
  ghost predicate Waiting(a: Line, b: Line) {
    SameLinks(a, b) && (a.role.NoRole? ==> b == a)
  }

  ghost predicate AllWaiting(vs: seq<Line>, ws: seq<Line>, page: Page) {
    forall p | p in page.lines && p < |vs| && p < |ws| :: Waiting(vs[p], ws[p])
  }

  /** Processing one page leaves every other page waiting as it was. */
  lemma {:induction false} OthersKeepWaiting(vs: seq<Line>, before: seq<Line>, after: seq<Line>, w: Workspace, page: Page)
    requires P.Roled(vs) && Evolved(vs, before) && PageStep(before, after, w) && Located(before, w)
    requires forall p | p in w.others :: PointedFrom(before, w.lines, p)
    requires AllWaiting(vs, before, page) && page.id != w.page && forall p | p in page.lines :: p < |vs| && vs[p].ref.page == page.id
    ensures AllWaiting(vs, after, page)
  {
    hide Evolves, SameLinks, Pointers, P.Roled;
    forall p | p in page.lines && p < |vs| && p < |after| ensures Waiting(vs[p], after[p]) {
      assert Waiting(vs[p], before[p]);
      SameRef(vs, before, p);
      assert p !in w.lines;
      LinksChain(vs[p], before[p], after[p]);
      if vs[p].role.NoRole? && p in w.others {
        var x :| x in w.lines && x < |before| && before[p].ref in Pointers(before[x]);
        assert Evolves(vs[x], before[x]);
        LinksOnlyGo(vs[x], before[x]);
        PointedHasARole(vs, x, p);
      }
    }
  }

  lemma PointedHasARole(vs: seq<Line>, x: nat, p: nat)
    requires P.Roled(vs) && x < |vs| && p < |vs| && vs[p].ref in Pointers(vs[x])
    ensures !vs[p].role.NoRole?
  {
    hide Pointers;
    assert P.RoledPair(vs[x], vs[p]);
  }

  lemma LinksChain(a: Line, b: Line, c: Line)
    requires SameLinks(a, b) && SameLinks(b, c)
    ensures SameLinks(a, c)
  {
  }

  // ----- the run -----

  /** Between pages: the invariant, the pages done decided, the pages to come as the
      run found them. */
  ghost predicate Between(vs: seq<Line>, ws: seq<Line>, pages: seq<Page>, i: nat) {
    && AllSound(ws) && Evolved(vs, ws)
    && (forall j | 0 <= j < i && j < |pages| :: AllDecided(ws, pages[j].lines))
    && (forall j | i <= j < |pages| :: AllWaiting(vs, ws, pages[j]))
  }

  lemma {:induction false} StartOfARun(vs: seq<Line>, pages: seq<Page>)
    requires Document(vs, pages)
    ensures Between(vs, vs, pages, 0) && DistinctRefs(vs)
  {
    hide PageOk, NoSelfLinks, P.Roled;
    EvolvedReflexive(vs);
    forall k | 0 <= k < |vs| ensures Sound(vs[k]) { assert Untouched(vs[k]); }
  }

  /** What the next page's processing needs. */
  lemma {:induction false} PageIsReady(vs: seq<Line>, ws: seq<Line>, pages: seq<Page>, i: nat, w: Workspace, sources: map<LineRef, string>)
    requires Document(vs, pages) && Between(vs, ws, pages, i) && i < |pages| && Located(ws, w) && w.lines == pages[i].lines && w.page == pages[i].id
    requires SourcesOf(ws, sources)
    ensures InRun(ws, w, pages[i].blocks, sources) && Spots(ws, w.lines)
    ensures |pages[i].routing.tiers| == |w.lines|
    ensures forall p | p in w.lines && p < |ws| && ws[p].role.NoRole? :: !ws[p].status.Fallback?
  {
    hide B.PartitionedBy, P.Roled, NoSelfLinks, Located, Evolves, SameLinks;
    var page := pages[i];
    assert PageOk(vs, page) && AllWaiting(vs, ws, page);
    NamedIsDistinct(vs);
    StepKeepsPlaces(vs, ws, w);
    BlockedStays(vs, ws, w, page.blocks);
    forall p | p in w.lines && p < |ws| && ws[p].role.NoRole? ensures !ws[p].status.Fallback? {
      assert Waiting(vs[p], ws[p]);
      SameRole(vs[p], ws[p]);
      assert Untouched(vs[p]);
    }
  }

  lemma SameRole(a: Line, b: Line)
    requires SameLinks(a, b)
    ensures b.role == a.role
  {
  }

  lemma NamedIsDistinct(vs: seq<Line>)
    requires P.Named(vs)
    ensures DistinctRefs(vs)
  {
  }

  lemma {:induction false} PageDone(vs: seq<Line>, before: seq<Line>, after: seq<Line>, pages: seq<Page>, i: nat, w: Workspace)
    requires Document(vs, pages) && Between(vs, before, pages, i) && i < |pages| && Located(before, w) && w.lines == pages[i].lines && w.page == pages[i].id
    requires forall p | p in w.others :: PointedFrom(before, w.lines, p)
    requires PageStep(before, after, w) && AllDecided(after, w.lines)
    ensures Between(vs, after, pages, i + 1)
  {
    hide PageOk, AllWaiting, P.Roled, NoSelfLinks, Located, PointedFrom, AllDecided, Untouched;
    EvolvedTransitive(vs, before, after);
    forall j | 0 <= j < i ensures AllDecided(after, pages[j].lines) {
      StaysDecided(before, after, pages[j].lines);
    }
    forall j | i + 1 <= j < |pages| ensures AllWaiting(vs, after, pages[j]) {
      PageLines(vs, pages[j]);
      OthersKeepWaiting(vs, before, after, w, pages[j]);
    }
  }

  lemma PageLines(vs: seq<Line>, page: Page)
    requires PageOk(vs, page)
    ensures forall p | p in page.lines :: p < |vs| && vs[p].ref.page == page.id
  {
    forall p | p in page.lines ensures p < |vs| { var k :| 0 <= k < |page.lines| && page.lines[k] == p; }
  }

  // ----- words over a page break -----

  ghost predicate InTurn(pages: seq<Page>, t: nat, h: nat) {
    exists i, j :: 0 <= i < j < |pages| && t in pages[i].lines && h in pages[j].lines
  }

  /** A word of two lines, the first on an earlier page, linked from both its ends and
      not mistaken for another by a bare id; the pair check, which only knows the lines
      of one call, does not name the second line on its own page. */
  ghost predicate Crossing(vs: seq<Line>, pages: seq<Page>, env: Env, sources: map<LineRef, string>, t: nat, h: nat) {
    X.Bound(vs, t, h) && InTurn(pages, t, h) && h < |vs| && X.Unnamed(env, sources, vs[h].ref)
  }

  ghost predicate Done(pages: seq<Page>, n: nat, p: nat) {
    exists i :: 0 <= i < n && i < |pages| && p in pages[i].lines
  }

  /** The word, when `n` pages are done. */
  ghost predicate WordAt(vs: seq<Line>, pages: seq<Page>, n: nat, t: nat, h: nat) {
    X.Bound(vs, t, h) && t < |vs| && h < |vs| && if Done(pages, n, t) then X.Fair(vs, t, h) else X.Waits(vs, t, h)
  }

  ghost predicate AllWordsAt(first: seq<Line>, vs: seq<Line>, pages: seq<Page>, env: Env, sources: map<LineRef, string>, n: nat) {
    forall t: nat, h: nat | Crossing(first, pages, env, sources, t, h) :: WordAt(vs, pages, n, t, h)
  }

  /** Each such word is still linked, and both its lines fell or neither did. */
  ghost predicate WordsAsOne(first: seq<Line>, ws: seq<Line>, pages: seq<Page>, env: Env, sources: map<LineRef, string>) {
    forall t: nat, h: nat | Crossing(first, pages, env, sources, t, h) ::
      F.Together(ws, h, t)
  }

  lemma {:induction false} WordsStart(vs: seq<Line>, pages: seq<Page>, env: Env, sources: map<LineRef, string>)
    requires Document(vs, pages)
    ensures AllWordsAt(vs, vs, pages, env, sources, 0)
  {
    hide X.Unnamed, PageOk, NoSelfLinks, P.Roled, OnAPage, X.OwnIds, X.NoThird;
    forall t: nat, h: nat | Crossing(vs, pages, env, sources, t, h) ensures WordAt(vs, pages, 0, t, h) {
      X.BoundFacts(vs, t, h);
      assert Untouched(vs[h]);
    }
  }

  lemma OneMoreDone(pages: seq<Page>, n: nat, p: nat)
    requires n < |pages|
    ensures Done(pages, n + 1, p) <==> Done(pages, n, p) || p in pages[n].lines
  {
  }

  /** A line is on one page. */
  lemma {:induction false} OnePageEach(vs: seq<Line>, pages: seq<Page>, i: nat, j: nat, p: nat)
    requires Document(vs, pages) && i < |pages| && j < |pages| && p in pages[i].lines && p in pages[j].lines
    ensures i == j
  {
    hide B.PartitionedBy, NoSelfLinks, P.Roled, P.Named, Untouched, OnAPage;
    assert PageOk(vs, pages[i]) && PageOk(vs, pages[j]);
    PageLines(vs, pages[i]);
    PageLines(vs, pages[j]);
  }

  /** A page neither line of the word is on does not touch it. */
  lemma {:induction false} OtherPageKeeps(vs: seq<Line>, ws: seq<Line>, w: Workspace, t: nat, h: nat)
    requires X.Bound(vs, t, h) && PageStep(vs, ws, w) && t !in w.lines && h !in w.lines
    requires forall p | p in w.others :: PointedFrom(vs, w.lines, p)
    ensures |ws| == |vs| && t < |vs| && h < |vs| && ws[t] == vs[t] && ws[h] == vs[h] && X.Bound(ws, t, h)
  {
    hide Pointers, X.OwnIds, ForwardPartner, BackwardPartner, AllSound, Evolves;
    assert t !in w.others && h !in w.others;
    SameLine(vs[t]);
    SameLine(vs[h]);
    hide X.Bound, SameLinks;
    X.LinkedStays(vs, ws, t, h);
  }

  lemma SameLine(l: Line)
    ensures SameLinks(l, l)
  {
  }

  /** On either of its pages the word is lent the line it needs. */
  lemma {:induction false} LentEachOther(vs: seq<Line>, page: Page, w: Workspace, t: nat, h: nat)
    requires X.Bound(vs, t, h) && DistinctRefs(vs) && Located(vs, w) && w.lines == page.lines && w.page == page.id
    requires AllPartners(vs, page, w.others, w.partners)
    ensures t < |vs| && h < |vs|
    ensures t in w.lines ==> X.AtTail(w, t, h)
    ensures h in w.lines ==> X.AtHead(vs, w, t, h)
  {
    hide X.OwnIds, X.NoThird, Pointers, ForwardPartner, BackwardPartner;
    assert h in w.lines ==> PointedFrom(vs, page.lines, t);
    if h in w.lines { LentBack(vs, w, t); }
  }

  lemma LentBack(vs: seq<Line>, w: Workspace, t: nat)
    requires Located(vs, w) && t < |vs| && vs[t].ref in w.partners && t in w.others && DistinctRefs(vs)
    ensures Lookup(w, Some(vs[t].ref)) == Some(t)
  {
  }

  /** What one page's processing is, to a word: its scope, what happened, and that its
      lines are decided in the end. */
  ghost predicate Processed(before: seq<Line>, after: seq<Line>, page: Page, w: Workspace, env: Env, sources: map<LineRef, string>) {
    && Ready(before, w) && SourcesOf(before, sources) && w.lines == page.lines && w.page == page.id
    && (forall p | p in w.others :: PointedFrom(before, page.lines, p)) && AllPartners(before, page, w.others, w.partners)
    && PageStep(before, after, w) && Steps(before, after, w, env) && AllDecided(after, w.lines)
  }

  lemma PageIsProcessed(before: seq<Line>, after: seq<Line>, page: Page, w: Workspace, env: Env, sources: map<LineRef, string>)
    requires InRun(before, w, page.blocks, sources) && w.lines == page.lines && w.page == page.id
    requires (forall p | p in w.others :: PointedFrom(before, page.lines, p)) && AllPartners(before, page, w.others, w.partners)
    requires PageStep(before, after, w) && Steps(before, after, w, env) && AllDecided(after, w.lines)
    ensures Processed(before, after, page, w, env, sources)
  {
    hide PageStep, Steps, PointedFrom, AllPartners, AllDecided;
    InRunFacts(before, w, page.blocks, sources);
  }

  /** The tail's page, the head's page, and any other. */
  lemma {:induction false} WordGoesOn(first: seq<Line>, before: seq<Line>, after: seq<Line>, pages: seq<Page>, n: nat, w: Workspace, env: Env,
                                      sources: map<LineRef, string>, t: nat, h: nat)
    requires Document(first, pages) && Evolved(first, before) && Crossing(first, pages, env, sources, t, h)
    requires n < |pages| && WordAt(before, pages, n, t, h) && Processed(before, after, pages[n], w, env, sources)
    ensures WordAt(after, pages, n + 1, t, h)
  {
    hide Document, X.Bound, X.Unnamed, X.Waits, X.Fair, Evolved, Done, Ready, SourcesOf, PageStep, Steps, AllDecided, AllPartners, PointedFrom, InTurn;
    OneMoreDone(pages, n, t);
    SameRef(first, before, h);
    ReadyFacts(before, w);
    if t in w.lines || h in w.lines {
      LentEachOther(before, pages[n], w, t, h);
      PlaceInTurn(first, pages, n, t, h);
      WordIsKept(before, after, w, env, sources, t, h, Done(pages, n, t));
    } else {
      OtherPageKeeps(before, after, w, t, h);
      SameWord(before, after, t, h);
    }
  }

  lemma SameWord(vs: seq<Line>, ws: seq<Line>, t: nat, h: nat)
    requires t < |vs| && h < |vs| && |ws| == |vs| && ws[t] == vs[t] && ws[h] == vs[h]
    ensures (X.Waits(ws, t, h) <==> X.Waits(vs, t, h)) && (X.Fair(ws, t, h) <==> X.Fair(vs, t, h))
  {
  }

  /** The tail's page comes first. */
  lemma {:induction false} PlaceInTurn(vs: seq<Line>, pages: seq<Page>, n: nat, t: nat, h: nat)
    requires Document(vs, pages) && InTurn(pages, t, h) && n < |pages|
    ensures t in pages[n].lines ==> !Done(pages, n, t) && h !in pages[n].lines
    ensures h in pages[n].lines ==> Done(pages, n, t) && t !in pages[n].lines
  {
    hide Document;
    var i, j :| 0 <= i < j < |pages| && t in pages[i].lines && h in pages[j].lines;
    if t in pages[n].lines { OnePageEach(vs, pages, i, n, t); }
    if h in pages[n].lines { OnePageEach(vs, pages, j, n, h); }
    forall k | 0 <= k < |pages| && t in pages[k].lines ensures k == i { OnePageEach(vs, pages, i, k, t); }
  }

  lemma {:induction false} WordIsKept(before: seq<Line>, after: seq<Line>, w: Workspace, env: Env, sources: map<LineRef, string>,
                                      t: nat, h: nat, done: bool)
    requires X.Bound(before, t, h) && t < |before| && h < |before| && X.Unnamed(env, sources, before[h].ref)
    requires (t in w.lines && X.AtTail(w, t, h) && !done && X.Waits(before, t, h)) || (h in w.lines && t !in w.lines && X.AtHead(before, w, t, h) && done && X.Fair(before, t, h))
    requires Ready(before, w) && SourcesOf(before, sources)
    requires PageStep(before, after, w) && Steps(before, after, w, env) && AllDecided(after, w.lines)
    ensures X.Bound(after, t, h) && t < |after| && h < |after| && X.Fair(after, t, h)
  {
    hide X.Bound, X.Unnamed, X.Waits, X.Fair, SourcesOf, Steps, Lookup, NoSelfLinks, Sound, Evolves, SameLinks, Reach;
    assert X.Kept(before, w, t, h);
    X.StepsKeep(before, after, w, env, sources, t, h);
    X.LentIsNoTarget(before, w, [], t, h);
    assert X.Kept(after, w, t, h);
    if t in w.lines {
      var k :| 0 <= k < |w.lines| && w.lines[k] == t;
      assert AllDecided(after, w.lines) && after[w.lines[k]].corrected.Some?;
      DecidedTailIsFair(after, t, h);
    }
  }

  lemma DecidedTailIsFair(vs: seq<Line>, t: nat, h: nat)
    requires t < |vs| && h < |vs| && X.Waits(vs, t, h) && Sound(vs[t]) && vs[t].corrected.Some?
    ensures X.Fair(vs, t, h)
  {
  }

  lemma {:induction false} WordsGoOn(first: seq<Line>, before: seq<Line>, after: seq<Line>, pages: seq<Page>, n: nat, w: Workspace, env: Env,
                                     sources: map<LineRef, string>)
    requires Document(first, pages) && Evolved(first, before) && AllWordsAt(first, before, pages, env, sources, n)
    requires n < |pages| && Processed(before, after, pages[n], w, env, sources)
    ensures AllWordsAt(first, after, pages, env, sources, n + 1)
  {
    hide Document, Evolved, Crossing, WordAt, Processed;
    forall t: nat, h: nat | Crossing(first, pages, env, sources, t, h) ensures WordAt(after, pages, n + 1, t, h) {
      WordGoesOn(first, before, after, pages, n, w, env, sources, t, h);
    }
  }

  /** When every page is done. */
  lemma {:induction false} WordsEnd(first: seq<Line>, ws: seq<Line>, pages: seq<Page>, env: Env, sources: map<LineRef, string>)
    requires AllWordsAt(first, ws, pages, env, sources, |pages|) && AllSound(ws) && DistinctRefs(ws) && forall k | 0 <= k < |ws| :: ws[k].corrected.Some?
    ensures WordsAsOne(first, ws, pages, env, sources)
  {
    hide X.Bound, X.Unnamed, Crossing, DistinctRefs;
    forall t: nat, h: nat | Crossing(first, pages, env, sources, t, h) ensures F.Together(ws, h, t) {
      assert WordAt(ws, pages, |pages|, t, h);
      X.BoundFacts(ws, t, h);
      assert Sound(ws[t]) && Sound(ws[h]);
    }
  }

  predicate SomeCapped(pages: seq<Page>) {
    exists i :: 0 <= i < |pages| && Capped(pages[i].routing)
  }

  /** `_process_pages`. When nothing breaks the run off, every line of the document is
      decided; without an image cap, only the producer or the caller breaks it off. */
  method ProcessPages(run: Run, doc: array<Line>, pages: seq<Page>, env: Env,
                      ghost known: set<string>, ghost sources: map<LineRef, string>) returns (end: End)
    requires Document(doc[..], pages) && env.Valid(known) && SourcesOf(doc[..], sources) && AllFaithful(run.captured, sources, env.guard)
    modifies run, doc
    ensures AllSound(doc[..]) && Evolved(old(doc[..]), doc[..]) && AllFaithful(run.captured, sources, env.guard)
    ensures end.Completed? ==> forall k | 0 <= k < doc.Length :: doc[k].corrected.Some?
    ensures end.Completed? ==> WordsAsOne(old(doc[..]), doc[..], pages, env, sources)
    ensures end.Broke? && !SomeCapped(pages) ==> Interrupted(run.oracle, run.abort, old(run.calls), run.calls, old(run.polls), run.polls)
  {
    hide Document, Between, AllFaithful, InRun, Located, PointedFrom, AllSound, PageStep, AllDecided, Steps, AllPartners, AllWordsAt, Processed,
         WordsAsOne, SourcesOf, Evolved;
    ghost var vs := doc[..];
    StartOfARun(vs, pages);
    WordsStart(vs, pages, env, sources);
    BetweenFacts(vs, vs, pages, 0);
    var index := IndexLines(doc);
    for i := 0 to |pages|
      invariant old(run.calls) <= run.calls && old(run.polls) <= run.polls
      invariant Between(vs, doc[..], pages, i) && AllFaithful(run.captured, sources, env.guard)
      invariant AllWordsAt(vs, doc[..], pages, env, sources, i)
      invariant DistinctRefs(doc[..]) && SourcesOf(doc[..], sources)
      invariant Indexed(doc[..], index)
    {
      ghost var before := doc[..];
      BetweenFacts(vs, before, pages, i);
      var stop := run.ShouldAbort();
      if stop { return Broke(true); }
      PageShape(vs, before, pages, i);
      var w := BuildWorkspace(doc, pages[i], index);
      PageIsReady(vs, before, pages, i, w, sources);
      var served;
      end, served := ProcessPage(run, doc, w, pages[i].blocks, env, pages[i].routing, known, sources);
      StepFacts(vs, before, doc[..], w, sources);
      if end.Broke? { return; }
      PageDone(vs, before, doc[..], pages, i, w);
      PageIsProcessed(before, doc[..], pages[i], w, env, sources);
      WordsGoOn(vs, before, doc[..], pages, i, w, env, sources);
    }
    end := Completed;
    BetweenFacts(vs, doc[..], pages, |pages|);
    EveryLineDecided(vs, doc[..], pages);
    WordsEnd(vs, doc[..], pages, env, sources);
  }

  lemma BetweenFacts(vs: seq<Line>, ws: seq<Line>, pages: seq<Page>, i: nat)
    requires Between(vs, ws, pages, i)
    ensures AllSound(ws) && Evolved(vs, ws)
  {
  }

  lemma PageShape(vs: seq<Line>, ws: seq<Line>, pages: seq<Page>, i: nat)
    requires Document(vs, pages) && Between(vs, ws, pages, i) && i < |pages|
    ensures Distinct(pages[i].lines) && Spots(ws, pages[i].lines) && forall p | p in pages[i].lines :: p < |ws| && ws[p].ref.page == pages[i].id
  {
    hide AllWaiting, NoSelfLinks, P.Roled, Evolves;
    assert PageOk(vs, pages[i]);
    PageLines(vs, pages[i]);
    forall p | p in pages[i].lines ensures p < |ws| && ws[p].ref.page == pages[i].id { SameRef(vs, ws, p); }
  }

  lemma StepFacts(vs: seq<Line>, before: seq<Line>, after: seq<Line>, w: Workspace, sources: map<LineRef, string>)
    requires Evolved(vs, before) && PageStep(before, after, w) && DistinctRefs(before) && SourcesOf(before, sources)
    ensures AllSound(after) && Evolved(vs, after) && DistinctRefs(after) && SourcesOf(after, sources)
    ensures forall k | 0 <= k < |before| :: after[k].ref == before[k].ref
  {
    hide SameLinks, Reach;
    EvolvedTransitive(vs, before, after);
    forall k | 0 <= k < |before| ensures after[k].ref == before[k].ref && after[k].ocr == before[k].ocr { assert Evolves(before[k], after[k]); }
  }

  lemma {:induction false} EveryLineDecided(vs: seq<Line>, ws: seq<Line>, pages: seq<Page>)
    requires Document(vs, pages) && Between(vs, ws, pages, |pages|)
    ensures forall k | 0 <= k < |ws| :: ws[k].corrected.Some?
  {
    hide PageOk, AllWaiting, NoSelfLinks, P.Roled, Untouched;
    forall k: nat | k < |ws| ensures ws[k].corrected.Some? {
      assert OnAPage(pages, k);
      var i :| 0 <= i < |pages| && k in pages[i].lines;
      assert AllDecided(ws, pages[i].lines);
      var j :| 0 <= j < |pages[i].lines| && pages[i].lines[j] == k;
    }
  }

  /** What a run delivers: the decisions, the corrections set aside and the script of
      what it applied. */
  datatype Delivery = Delivery(decisions: seq<R.Decision>, sidecar: seq<F.Sidecar>, script: S.EditScript)

  /** A run whose producer never fails for good, whose caller never wants out and whose
      producers take any number of images always delivers.
      A run that is not broken off decides every line and delivers; its decisions are
      the document's, in a state every line of which is sound and was only ever
      moved forward from the one it started in. */
  method Correct(run: Run, doc: array<Line>, pages: seq<Page>, env: Env, passes: F.Passes, review: bool,
                 referrals: seq<Line> -> map<LineRef, seq<string>>, digest: S.Digest,
                 ghost known: set<string>, ghost sources: map<LineRef, string>) returns (delivery: Option<Delivery>)
    requires Document(doc[..], pages) && env.Valid(known) && SourcesOf(doc[..], sources) && run.captured == map[]
    requires forall vs :: V.Reasoned(passes.adjacent(vs))
    modifies run, doc
    ensures AllSound(doc[..]) && Evolved(old(doc[..]), doc[..]) && AllFaithful(run.captured, sources, env.guard)
    ensures delivery.Some? ==>
      && delivery.value.decisions == F.DecisionsOf(doc[..])
      && delivery.value.script == R.FinalScript(F.DecisionsOf(doc[..]), run.captured, digest)
      && (forall k | 0 <= k < doc.Length :: doc[k].corrected.Some? && !doc[k].status.Pending?)
    ensures delivery.None? && !SomeCapped(pages) ==> Interrupted(run.oracle, run.abort, old(run.calls), run.calls, old(run.polls), run.polls)
    ensures delivery.Some? && passes.loss.Strict? ==> forall k | 0 <= k < doc.Length :: !F.Unprojectable(doc[k])
    ensures delivery.Some? ==> WordsAsOne(old(doc[..]), doc[..], pages, env, sources)
  {
    hide Document, AllFaithful, F.Unprojectable, F.Reverted, F.RespeltAll, F.Settles, F.OnlyQualified, Sound, Evolves, R.Faithful, WordsAsOne;
    ghost var vs := doc[..];
    StartOfARun(vs, pages);
    NothingCaptured(sources, env.guard);
    var end := ProcessPages(run, doc, pages, env, known, sources);
    if end.Broke? { return None; }
    ghost var us := doc[..];
    F.KeptRefs(vs, us);
    var ds, sidecar;
    ghost var unreviewed, flags, toRefer;
    ds, sidecar, unreviewed, flags, toRefer := F.FinalizeDocument(doc, passes, review, referrals);
    EvolvedTransitive(vs, us, doc[..]);
    StillAllDecided(us, doc[..]);
    WordsDelivered(vs, us, unreviewed, doc[..], pages, env, sources, passes, flags, sidecar);
    var script := R.BuildFinalEditScript(ds.value, run.captured, digest);
    delivery := Some(Delivery(ds.value, sidecar, script));
  }

  /** The document-wide passes keep every word as one. */
  lemma {:induction false} WordsDelivered(first: seq<Line>, us: seq<Line>, unreviewed: seq<Line>, ws: seq<Line>, pages: seq<Page>, env: Env,
                                          sources: map<LineRef, string>, passes: F.Passes, flags: map<LineRef, string>, sidecar: seq<F.Sidecar>)
    requires WordsAsOne(first, us, pages, env, sources) && |ws| == |unreviewed| && forall k | 0 <= k < |ws| :: F.OnlyQualified(unreviewed[k], ws[k])
    requires F.Settles(F.RespeltAll(F.Reverted(us, passes.adjacent(us), F.ADJACENCY), passes.isAlpha), unreviewed, passes.loss, flags, sidecar)
    ensures WordsAsOne(first, ws, pages, env, sources)
  {
    hide F.Together, F.OnlyQualified, F.Settles, F.RespeltAll, F.Reverted, Crossing;
    forall t: nat, h: nat | Crossing(first, pages, env, sources, t, h) ensures F.Together(ws, h, t) {
      F.FinalizedTogether(us, unreviewed, ws, passes, flags, sidecar, h, t);
    }
  }

  lemma NothingCaptured(sources: map<LineRef, string>, guard: Proposals.Editing.Guard)
    ensures AllFaithful(map[], sources, guard)
  {
  }

  lemma StillAllDecided(vs: seq<Line>, ws: seq<Line>)
    requires Evolved(vs, ws) && AllSound(ws) && forall k | 0 <= k < |vs| :: vs[k].corrected.Some?
    ensures forall k | 0 <= k < |ws| :: ws[k].corrected.Some? && !ws[k].status.Pending?
  {
    forall k | 0 <= k < |ws| ensures ws[k].corrected.Some? && !ws[k].status.Pending? {
      assert Evolves(vs[k], ws[k]) && Sound(ws[k]);
    }
  }

  ghost predicate Replayable(l: Line, capture: R.Capture, guard: Proposals.Editing.Guard)
    requires l.corrected.Some?
  {
    R.SpansSurvive(F.DecisionOf(l), capture) || R.PassesWhole(l.ocr, l.corrected.value, guard)
  }

  /** Replaying a run's script on one of its pages gives each line the text the run
      delivered, exactly when its ops survived as spans or its text passes the
      whole-line checks, and never touches a fallen line; lines of other pages may
      share its id. */
  lemma {:induction false} ARunReplays(vs: seq<Line>, captured: map<LineRef, R.Capture>, sources: map<LineRef, string>,
                                       guard: Proposals.Editing.Guard, digest: S.Digest, target: S.Target, k: nat)
    requires AllSound(vs) && DistinctRefs(vs) && SourcesOf(vs, sources) && AllFaithful(captured, sources, guard) && k < |vs|
    requires vs[k].corrected.Some? && R.IsPage(target, F.DecisionsOf(vs), vs[k].ref.page)
    ensures var out := S.Outcome(R.FinalScript(F.DecisionsOf(vs), captured, digest), target, digest, guard, vs[k].ref.line);
      && (out.Some? ==> out == vs[k].corrected)
      && (vs[k].status.Fallback? ==> out.None?)
      && (!vs[k].status.Fallback? && vs[k].ref in captured ==>
            (out.Some? <==> Replayable(vs[k], captured[vs[k].ref], guard)))
  {
    hide S.Outcome, R.FinalScript, R.PassesWhole, R.SpansSurvive, Sound, R.IsPage;
    var ds := F.DecisionsOf(vs);
    assert Sound(vs[k]);
    F.DecisionMeans(vs[k]);
    forall i, j | 0 <= i < |ds| && ds[i].ref in captured && 0 <= j < |captured[ds[i].ref].ops|
      ensures captured[ds[i].ref].ops[j].line == ds[i].ref.line
    {
      FaithfulOps(captured[ds[i].ref], ds[i].ref.line, sources[ds[i].ref], guard, j);
    }
    hide R.Faithful;
    R.ReplayGivesTheFinalText(ds, captured, digest, guard, target, k, NoRole);
  }

  lemma FaithfulOps(capture: R.Capture, line: string, source: string, guard: Proposals.Editing.Guard, j: nat)
    requires R.Faithful(capture, line, NoRole, source, guard) && j < |capture.ops|
    ensures capture.ops[j].line == line
  {
  }
}

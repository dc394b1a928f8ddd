/** `pairing.py` and `split_forward_link` (`units.py`): building and severing the
    directed hyphen links. A list of lines is a list of positions in `doc`. */
module Pairing {
  import opened Prelude
  import opened Manifest

  type Policy = (Line, Line) -> bool

  predicate OpensAWord(l: Line) {
    l.role.Part1? || l.role.Both?
  }

  // ----- one step of the linker, as a function of the lines -----

  /** The candidate once its role admits a backward side. */
  function Promote(line: Line, candidate: Line): Line {
    var heard := if line.role.Both? then line.fwdExplicit else line.explicit;
    match candidate.role
    case Part1 => candidate.(fwdExplicit := candidate.explicit, fwdSubs := candidate.subs, subs := "",
                             role := Both, explicit := heard)
    case NoRole => candidate.(role := Part2, explicit := heard)
    case _ => candidate
  }

  function Or(a: string, b: string): string {
    if a != "" then a else b
  }

  /** The pair once both pointers are set. */
  function Link(line: Line, candidate: Line): (Line, Line) {
    var c := Promote(line, candidate);
    var subs := Or(if line.role.Both? then line.fwdSubs else line.subs, c.subs);
    var c' := c.(pairLine := line.ref.line, pairPage := line.ref.page, subs := Or(subs, c.subs));
    if line.role.Both?
    then (line.(fwdLine := c.ref.line, fwdPage := c.ref.page, fwdSubs := Or(subs, line.fwdSubs)), c')
    else (line.(pairLine := c.ref.line, pairPage := c.ref.page, subs := Or(subs, line.subs)), c')
  }

  predicate Links(vs: seq<Line>, a: nat, b: nat, can: Policy)
    requires a < |vs| && b < |vs|
  {
    OpensAWord(vs[a]) && can(vs[a], vs[b])
  }

  function LinkStep(vs: seq<Line>, a: nat, b: nat, can: Policy): (r: seq<Line>)
    requires a < |vs| && b < |vs| && a != b
    ensures |r| == |vs|
  {
    if !Links(vs, a, b, can) then vs
    else var (x, y) := Link(vs[a], vs[b]); vs[a := x][b := y]
  }

  /** The first `i` steps over the non-blank lines. */
  function LinkUpTo(vs: seq<Line>, sub: seq<nat>, i: nat, can: Policy): (r: seq<Line>)
    requires i <= |sub| && Positions(vs, sub)
    ensures |r| == |vs|
  {
    if i == 0 then vs
    else
      var before := LinkUpTo(vs, sub, i - 1, can);
      if i == |sub| then before else LinkStep(before, sub[i - 1], sub[i], can)
  }

  predicate Positions(vs: seq<Line>, at: seq<nat>) {
    && (forall k | 0 <= k < |at| :: at[k] < |vs|)
    && forall i, j | 0 <= i < j < |at| :: at[i] != at[j]
  }

  /** The lines that carry text, in order. */
  function Substantive(vs: seq<Line>, lines: seq<nat>): (sub: seq<nat>)
    requires Positions(vs, lines)
    ensures Positions(vs, sub)
    ensures forall k :: k in sub <==> k in lines && k < |vs| && !Blank(vs[k].ocr)
  {
    if lines == [] then []
    else
      var front, last := lines[..|lines| - 1], lines[|lines| - 1];
      assert lines == front + [last];
      var rest := Substantive(vs, front);
      if Blank(vs[last].ocr) then rest else rest + [last]
  }

  /** `link_hyphen_pairs`. */
  method LinkHyphenPairs(doc: array<Line>, lines: seq<nat>, can: Policy)
    requires Positions(doc[..], lines)
    modifies doc
    ensures var sub := Substantive(old(doc[..]), lines);
      doc[..] == LinkUpTo(old(doc[..]), sub, |sub|, can)
  {
    hide LinkStep, Substantive;
    var sub := CollectSubstantive(doc, lines);
    ghost var vs := doc[..];
    for i := 0 to |sub|
      invariant doc[..] == LinkUpTo(vs, sub, i, can)
    {
      LinkOne(doc, sub, i, can);
    }
  }

  method CollectSubstantive(doc: array<Line>, lines: seq<nat>) returns (sub: seq<nat>)
    requires Positions(doc[..], lines)
    ensures sub == Substantive(doc[..], lines)
  {
    sub := [];
    for k := 0 to |lines|
      invariant sub == Substantive(doc[..], lines[..k])
    {
      assert lines[..k + 1][..k] == lines[..k];
      if !Blank(doc[lines[k]].ocr) { sub := sub + [lines[k]]; }
    }
    assert lines[..|lines|] == lines;
  }

  /** One turn of the loop. */
  method LinkOne(doc: array<Line>, sub: seq<nat>, i: nat, can: Policy)
    requires i < |sub| && Positions(doc[..], sub)
    modifies doc
    ensures doc[..] == if i + 1 == |sub| then old(doc[..]) else LinkStep(old(doc[..]), sub[i], sub[i + 1], can)
  {
    hide Link;
    var line := doc[sub[i]];
    if !line.role.Part1? && !line.role.Both? { return; }
    if i + 1 >= |sub| { return; }
    var candidate := doc[sub[i + 1]];
    if !can(line, candidate) { return; }
    line, candidate := LinkTwo(line, candidate);
    doc[sub[i]] := line;
    doc[sub[i + 1]] := candidate;
  }

  /** The two lines of an accepted turn: field by field, as the source writes them. */
  method LinkTwo(opening: Line, next: Line) returns (line: Line, candidate: Line)
    ensures (line, candidate) == Link(opening, next)
  {
    line, candidate := opening, next;
    if candidate.role.Part1? {
      candidate := candidate.(fwdExplicit := candidate.explicit, fwdSubs := candidate.subs);
      candidate := candidate.(subs := "", role := Both);
      candidate := candidate.(explicit := if line.role.Both? then line.fwdExplicit else line.explicit);
    }
    if candidate.role.NoRole? {
      if line.role.Both? {
        candidate := candidate.(role := Part2, explicit := line.fwdExplicit);
      } else {
        candidate := candidate.(role := Part2, explicit := line.explicit);
      }
    }
    if line.role.Both? {
      var subs := Or(line.fwdSubs, candidate.subs);
      line := line.(fwdLine := candidate.ref.line, fwdPage := candidate.ref.page);
      if subs != "" { line := line.(fwdSubs := subs); }
      candidate := candidate.(pairLine := line.ref.line, pairPage := line.ref.page);
      if subs != "" { candidate := candidate.(subs := subs); }
    } else {
      var subs := Or(line.subs, candidate.subs);
      line := line.(pairLine := candidate.ref.line, pairPage := candidate.ref.page);
      candidate := candidate.(pairLine := line.ref.line, pairPage := line.ref.page);
      if subs != "" {
        line := line.(subs := subs);
        candidate := candidate.(subs := subs);
      }
    }
  }

  // ----- what a well-linked document is -----

  ghost predicate Named(vs: seq<Line>) {
    && (forall k | 0 <= k < |vs| :: vs[k].ref.page != "" && vs[k].ref.line != "")
    && forall i, j | 0 <= i < j < |vs| :: vs[i].ref != vs[j].ref
  }

  /** No slot is in use that the role does not read. */
  ghost predicate Tidy(vs: seq<Line>) {
    forall k | 0 <= k < |vs| :: TidyLine(vs[k])
  }

  predicate TidyLine(l: Line) {
    (l.fwdLine != "" ==> l.role.Both?) && (l.pairLine != "" ==> !l.role.NoRole?)
  }

  /** a's word continues onto b exactly when b is continued into from a. */
  ghost predicate Symmetric(vs: seq<Line>) {
    forall a, b | 0 <= a < |vs| && 0 <= b < |vs| :: Matched(vs, a, b)
  }

  /** Every forward link is there from its other end too. A cross-page chain can leave
      a page where the converse fails. */
  ghost predicate Answered(vs: seq<Line>) {
    forall a, b | 0 <= a < |vs| && 0 <= b < |vs| :: Answers(vs, a, b)
  }

  ghost predicate Answers(vs: seq<Line>, a: nat, b: nat)
    requires a < |vs| && b < |vs|
  {
    ForwardPartner(vs[a]) == Some(vs[b].ref) ==> BackwardPartner(vs[b]) == Some(vs[a].ref)
  }

  lemma SymmetricIsAnswered(vs: seq<Line>)
    requires Symmetric(vs)
    ensures Answered(vs)
  {
    hide ForwardPartner, BackwardPartner;
    forall a, b | 0 <= a < |vs| && 0 <= b < |vs| ensures Answers(vs, a, b) { assert Matched(vs, a, b); }
  }

  ghost predicate Matched(vs: seq<Line>, a: nat, b: nat)
    requires a < |vs| && b < |vs|
  {
    ForwardPartner(vs[a]) == Some(vs[b].ref) <==> BackwardPartner(vs[b]) == Some(vs[a].ref)
  }

  /** Everything about a line except its hyphen state. */
  ghost predicate SameText(a: Line, b: Line) {
    && a.ref == b.ref && a.block == b.block && a.order == b.order && a.ocr == b.ocr
    && a.corrected == b.corrected && a.status == b.status && a.reason == b.reason && a.reviews == b.reviews
    && a.wordCount == b.wordCount && a.sourceWords == b.sourceWords
  }

  ghost predicate SameTexts(vs: seq<Line>, ws: seq<Line>) {
    |vs| == |ws| && forall k | 0 <= k < |vs| :: SameText(vs[k], ws[k])
  }

  // ----- the linker on lines with no pointers yet -----

  ghost predicate Fresh(l: Line) {
    l.pairLine == "" && l.fwdLine == ""
  }

  /** Position k after the chosen links, in both directions. */
  ghost predicate At(vs: seq<Line>, ws: seq<Line>, sub: seq<nat>, chosen: set<nat>, k: int)
    requires |vs| == |ws| && Positions(vs, sub) && 0 <= k < |sub| && Choice(sub, chosen)
  {
    var l := ws[sub[k]];
    && ForwardPartner(l) == (if k in chosen then Some(vs[sub[k + 1]].ref) else None)
    && BackwardPartner(l) == (if k - 1 in chosen then Some(vs[sub[k - 1]].ref) else None)
    && TidyLine(l) && SameText(vs[sub[k]], l)
  }

  ghost predicate Choice(sub: seq<nat>, chosen: set<nat>) {
    forall k: int | k in chosen :: 0 <= k && k + 1 < |sub|
  }

  /** After `i` steps: the chosen links, and nothing else. */
  ghost predicate Linked(vs: seq<Line>, ws: seq<Line>, sub: seq<nat>, i: nat, chosen: set<nat>)
    requires |vs| == |ws| && Positions(vs, sub)
  {
    && Choice(sub, chosen) && (forall k | k in chosen :: k < i)
    && (forall k {:trigger At(vs, ws, sub, chosen, k)} | 0 <= k < |sub| :: At(vs, ws, sub, chosen, k))
    && (forall k | 0 <= k < |vs| && k !in sub :: ws[k] == vs[k])
    && (forall k | i < k < |sub| :: ws[sub[k]] == vs[sub[k]])
  }

  /** What linking two lines does to the first ... */
  lemma {:induction false} LinkTail(x: Line, y: Line)
    requires y.ref.page != "" && y.ref.line != ""
    requires TidyLine(x) && OpensAWord(x)
    ensures var x' := Link(x, y).0;
      && ForwardPartner(x') == Some(y.ref) && BackwardPartner(x') == BackwardPartner(x)
      && TidyLine(x') && SameText(x, x')
  {
    assert Promote(x, y).ref == y.ref;
    hide Promote, Or;
  }

  /** ... and to the second. A PART1 candidate gives up its own forward link:
      its pair slot is taken over. */
  lemma {:induction false} LinkHead(x: Line, y: Line)
    requires x.ref.page != "" && x.ref.line != "" && TidyLine(y)
    ensures var y' := Link(x, y).1;
      && BackwardPartner(y') == Some(x.ref)
      && ForwardPartner(y') == (if y.role.Part1? then None else ForwardPartner(y))
      && TidyLine(y') && SameText(y, y')
  {
    PromoteFacts(x, y);
    hide Promote, Or;
  }

  lemma {:induction false} PromoteFacts(x: Line, y: Line)
    requires TidyLine(y)
    ensures var c := Promote(x, y);
      && (c.role.Part2? || c.role.Both?) && SameText(y, c)
      && c.fwdLine == y.fwdLine && c.fwdPage == y.fwdPage && (c.fwdLine != "" ==> c.role.Both?)
      && ForwardPartner(c) == (if y.role.Part1? then None else ForwardPartner(y))
  {
  }

  ghost predicate AllFresh(vs: seq<Line>, at: seq<nat>) {
    forall k | 0 <= k < |at| :: at[k] < |vs| && Fresh(vs[at[k]])
  }

  /** On lines with no pointers yet, the linker draws exactly the links it
      accepted, each in both directions, between consecutive non-blank lines. */
  lemma {:induction false} FreshLinks(vs: seq<Line>, sub: seq<nat>, i: nat, can: Policy) returns (chosen: set<nat>)
    requires Positions(vs, sub) && i <= |sub| && Named(vs) && AllFresh(vs, sub)
    ensures Linked(vs, LinkUpTo(vs, sub, i, can), sub, i, chosen)
    ensures forall k: nat :: k in chosen <==> k < i && k + 1 < |sub| && Accepted(vs, sub, k, can)
  {
    hide Linked, LinkStep, Links;
    if i == 0 {
      chosen := {};
      NothingLinked(vs, sub);
    } else {
      chosen := FreshLinks(vs, sub, i - 1, can);
      var ws := LinkUpTo(vs, sub, i - 1, can);
      if i < |sub| && Accepted(vs, sub, i - 1, can) {
        LinkKeepsLinked(vs, ws, sub, i - 1, chosen, can);
        chosen := chosen + {i - 1};
      } else {
        NoLinkKeepsLinked(vs, ws, sub, i - 1, chosen, can);
      }
    }
  }

  /** Step k of the linker found an opening line and a policy that agrees. */
  ghost predicate Accepted(vs: seq<Line>, sub: seq<nat>, k: nat, can: Policy)
    requires Positions(vs, sub) && k + 1 < |sub|
  {
    Links(LinkUpTo(vs, sub, k, can), sub[k], sub[k + 1], can)
  }

  lemma {:induction false} NothingLinked(vs: seq<Line>, sub: seq<nat>)
    requires Positions(vs, sub) && AllFresh(vs, sub)
    ensures Linked(vs, vs, sub, 0, {})
  {
    forall k | 0 <= k < |sub| ensures At(vs, vs, sub, {}, k) {
      assert Fresh(vs[sub[k]]);
    }
  }

  lemma {:induction false} NoLinkKeepsLinked(vs: seq<Line>, ws: seq<Line>, sub: seq<nat>, i: nat, chosen: set<nat>, can: Policy)
    requires |vs| == |ws| && Positions(vs, sub) && i < |sub| && Linked(vs, ws, sub, i, chosen)
    requires i + 1 < |sub| ==> !Links(ws, sub[i], sub[i + 1], can)
    ensures Linked(vs, if i + 1 == |sub| then ws else LinkStep(ws, sub[i], sub[i + 1], can), sub, i + 1, chosen)
  {
    hide At, Links;
  }

  lemma {:induction false} LinkKeepsLinked(vs: seq<Line>, ws: seq<Line>, sub: seq<nat>, i: nat, chosen: set<nat>, can: Policy)
    requires |vs| == |ws| && Positions(vs, sub) && Named(vs) && i + 1 < |sub| && Fresh(vs[sub[i + 1]])
    requires Linked(vs, ws, sub, i, chosen) && Links(ws, sub[i], sub[i + 1], can)
    ensures Linked(vs, LinkStep(ws, sub[i], sub[i + 1], can), sub, i + 1, chosen + {i})
  {
    var a, b := sub[i], sub[i + 1];
    var zs, more := LinkStep(ws, a, b, can), chosen + {i};
    assert At(vs, ws, sub, chosen, i) && ws[b] == vs[b];
    LinkTail(ws[a], ws[b]);
    LinkHead(ws[a], ws[b]);
    assert zs[a] == Link(ws[a], ws[b]).0 && zs[b] == Link(ws[a], ws[b]).1;
    assert forall p | 0 <= p < |ws| && p != a && p != b :: zs[p] == ws[p];
    assert ForwardPartner(ws[b]) == None;
    hide Link, LinkStep, ForwardPartner, BackwardPartner, TidyLine, SameText;
    forall k | 0 <= k < |sub| ensures At(vs, zs, sub, more, k) {
      assert At(vs, ws, sub, chosen, k);
      if k != i && k != i + 1 { AtElsewhere(vs, ws, zs, sub, chosen, i, k); }
    }
  }

  lemma AtElsewhere(vs: seq<Line>, ws: seq<Line>, zs: seq<Line>, sub: seq<nat>, chosen: set<nat>, i: nat, k: nat)
    requires |vs| == |ws| == |zs| && Positions(vs, sub) && Choice(sub, chosen) && i + 1 < |sub| && k < |sub| && k != i && k != i + 1
    requires At(vs, ws, sub, chosen, k) && forall p | 0 <= p < |ws| && p != sub[i] && p != sub[i + 1] :: zs[p] == ws[p]
    ensures Choice(sub, chosen + {i}) && At(vs, zs, sub, chosen + {i}, k)
  {
    hide ForwardPartner, BackwardPartner, TidyLine, SameText;
    assert zs[sub[k]] == ws[sub[k]];
  }

  /** The links of the list's lines join consecutive ones of them. */
  ghost predicate OnlyConsecutive(ws: seq<Line>, sub: seq<nat>)
    requires Positions(ws, sub)
  {
    forall a | a in sub && a < |ws| && ForwardPartner(ws[a]).Some? :: NextOf(ws, sub, a)
  }

  ghost predicate NextOf(ws: seq<Line>, sub: seq<nat>, a: nat)
    requires Positions(ws, sub) && a < |ws|
  {
    exists k: nat :: k + 1 < |sub| && sub[k] == a && ForwardPartner(ws[a]) == Some(ws[sub[k + 1]].ref)
  }

  /** No link enters the first line of the list, and none leaves the last. */
  ghost predicate FreeEnds(ws: seq<Line>, sub: seq<nat>)
    requires Positions(ws, sub)
  {
    sub != [] ==> ForwardPartner(ws[sub[|sub| - 1]]) == None && BackwardPartner(ws[sub[0]]) == None
  }

  /** `link_hyphen_pairs` on lines with no pointers, whatever the policy, in a document
      already linked elsewhere: the graph is symmetric, the new links join only
      neighbours, no text moves, and the other lines are untouched. */
  lemma {:induction false} LinkerIsSymmetric(vs: seq<Line>, lines: seq<nat>, can: Policy)
    requires Positions(vs, lines) && Named(vs) && Graph(vs) && AllFresh(vs, lines)
    ensures var sub := Substantive(vs, lines); WellLinked(vs, LinkUpTo(vs, sub, |sub|, can), sub)
  {
    var sub := Substantive(vs, lines);
    forall k | 0 <= k < |sub| ensures sub[k] < |vs| && Fresh(vs[sub[k]]) {
      assert sub[k] in sub;
      var i :| 0 <= i < |lines| && lines[i] == sub[k];
    }
    LinkerIsSymmetricOn(vs, sub, can);
  }

  /** A link graph that is symmetric, of slots the roles read, between lines of the
      document. */
  ghost predicate Graph(vs: seq<Line>) {
    Symmetric(vs) && Tidy(vs) && Resolved(vs)
  }

  lemma {:induction false} FreshIsAGraph(vs: seq<Line>)
    requires forall k | 0 <= k < |vs| :: Fresh(vs[k])
    ensures Graph(vs)
  {
    forall k | 0 <= k < |vs| ensures ForwardPartner(vs[k]) == None && BackwardPartner(vs[k]) == None { NoLinks(vs[k]); }
    forall k | 0 <= k < |vs| ensures TidyLine(vs[k]) { assert Fresh(vs[k]); }
    hide ForwardPartner, BackwardPartner, TidyLine, Fresh;
  }

  ghost predicate WellLinked(vs: seq<Line>, ws: seq<Line>, sub: seq<nat>)
    requires Positions(ws, sub)
  {
    && Graph(ws) && SameTexts(vs, ws) && OnlyConsecutive(ws, sub) && FreeEnds(ws, sub)
    && forall k: nat | k < |vs| && k !in sub :: ws[k] == vs[k]
  }

  lemma {:induction false} LinkerIsSymmetricOn(vs: seq<Line>, sub: seq<nat>, can: Policy)
    requires Positions(vs, sub) && Named(vs) && Graph(vs) && AllFresh(vs, sub)
    ensures WellLinked(vs, LinkUpTo(vs, sub, |sub|, can), sub)
  {
    var ws := LinkUpTo(vs, sub, |sub|, can);
    var chosen := FreshLinks(vs, sub, |sub|, can);
    hide LinkUpTo;
    LinkedLines(vs, ws, sub, chosen);
    LinkedNeighbours(vs, ws, sub, chosen);
    hide Linked, NextOf, TidyLine, SameText;
    forall a, b | 0 <= a < |ws| && 0 <= b < |ws| ensures Matched(ws, a, b) {
      PairMatched(vs, ws, sub, chosen, a, b);
    }
    ResolvedByNext(vs, ws, sub);
  }

  lemma {:induction false} LinkedLines(vs: seq<Line>, ws: seq<Line>, sub: seq<nat>, chosen: set<nat>)
    requires |vs| == |ws| && Positions(vs, sub) && Linked(vs, ws, sub, |sub|, chosen) && Tidy(vs)
    ensures SameTexts(vs, ws) && Tidy(ws)
  {
    forall k | 0 <= k < |ws| ensures TidyLine(ws[k]) && SameText(vs[k], ws[k]) {
      assert TidyLine(vs[k]);
      if k in sub {
        var j :| 0 <= j < |sub| && sub[j] == k;
        assert At(vs, ws, sub, chosen, j);
      } else {
        SameTextReflexive(vs[k]);
      }
    }
  }

  lemma {:induction false} LinkedNeighbours(vs: seq<Line>, ws: seq<Line>, sub: seq<nat>, chosen: set<nat>)
    requires |vs| == |ws| && Positions(vs, sub) && Linked(vs, ws, sub, |sub|, chosen) && SameTexts(vs, ws)
    ensures OnlyConsecutive(ws, sub) && FreeEnds(ws, sub)
  {
    forall a | a in sub && a < |ws| && ForwardPartner(ws[a]).Some? ensures NextOf(ws, sub, a) {
      var j :| 0 <= j < |sub| && sub[j] == a;
      assert At(vs, ws, sub, chosen, j);
      assert SameText(vs[sub[j + 1]], ws[sub[j + 1]]);
    }
    if sub != [] {
      assert At(vs, ws, sub, chosen, 0) && At(vs, ws, sub, chosen, |sub| - 1);
    }
  }

  /** Every partner is a line of the document. */
  ghost predicate Resolved(vs: seq<Line>) {
    forall a | 0 <= a < |vs| && ForwardPartner(vs[a]).Some? :: Holds(vs, ForwardPartner(vs[a]).value)
  }

  ghost predicate Holds(vs: seq<Line>, r: LineRef) {
    exists b :: 0 <= b < |vs| && vs[b].ref == r
  }

  lemma SameTextsHold(vs: seq<Line>, ws: seq<Line>, r: LineRef)
    requires SameTexts(vs, ws)
    ensures Holds(vs, r) <==> Holds(ws, r)
  {
    hide SameText;
    forall b | 0 <= b < |vs| ensures ws[b].ref == vs[b].ref { SameTextRef(vs[b], ws[b]); }
  }

  lemma {:induction false} ResolvedByNext(vs: seq<Line>, ws: seq<Line>, sub: seq<nat>)
    requires Positions(ws, sub) && OnlyConsecutive(ws, sub) && Resolved(vs) && SameTexts(vs, ws)
    requires forall k: nat | k < |vs| && k !in sub :: ws[k] == vs[k]
    ensures Resolved(ws)
  {
    hide ForwardPartner, SameTexts;
    assert |ws| == |vs| by { SameLengths(vs, ws); }
    forall a: nat | a < |ws| && ForwardPartner(ws[a]).Some?
      ensures Holds(ws, ForwardPartner(ws[a]).value)
    {
      if a in sub {
        assert NextOf(ws, sub, a);
        var k: nat :| k + 1 < |sub| && sub[k] == a && ForwardPartner(ws[a]) == Some(ws[sub[k + 1]].ref);
      } else {
        SameTextsHold(vs, ws, ForwardPartner(ws[a]).value);
      }
    }
  }

  lemma SameLengths(vs: seq<Line>, ws: seq<Line>)
    requires SameTexts(vs, ws)
    ensures |ws| == |vs|
  {
  }

  lemma {:induction false} PairMatched(vs: seq<Line>, ws: seq<Line>, sub: seq<nat>, chosen: set<nat>, a: nat, b: nat)
    requires |vs| == |ws| && Positions(vs, sub) && Named(vs) && Symmetric(vs) && AllFresh(vs, sub) && a < |vs| && b < |vs|
    requires Linked(vs, ws, sub, |sub|, chosen) && SameTexts(vs, ws)
    ensures Matched(ws, a, b)
  {
    assert SameText(vs[a], ws[a]) && SameText(vs[b], ws[b]);
    SameTextRef(vs[a], ws[a]);
    SameTextRef(vs[b], ws[b]);
    assert Matched(vs, a, b);
    hide At, SameText, SameTexts, Fresh, Matched, Symmetric, Named;
    if a in sub && b in sub {
      var i :| 0 <= i < |sub| && sub[i] == a;
      var j :| 0 <= j < |sub| && sub[j] == b;
      BothMatched(vs, ws, sub, chosen, i, j);
    } else if a in sub {
      var i :| 0 <= i < |sub| && sub[i] == a;
      assert i + 1 < |sub| ==> sub[i + 1] in sub;
      TailMatched(vs, ws, sub, chosen, i, b);
    } else if b in sub {
      var j :| 0 <= j < |sub| && sub[j] == b;
      assert j >= 1 ==> sub[j - 1] in sub;
      HeadMatched(vs, ws, sub, chosen, a, j);
    } else {
      assert ws[a] == vs[a] && ws[b] == vs[b];
      SameMatched(vs, ws, a, b);
    }
  }

  lemma SameMatched(vs: seq<Line>, ws: seq<Line>, a: nat, b: nat)
    requires |ws| == |vs| && a < |vs| && b < |vs| && ws[a] == vs[a] && ws[b] == vs[b] && Matched(vs, a, b)
    ensures Matched(ws, a, b)
  {
  }

  lemma NoLinks(l: Line)
    requires Fresh(l)
    ensures ForwardPartner(l) == None && BackwardPartner(l) == None
  {
  }

  lemma {:induction false} BothMatched(vs: seq<Line>, ws: seq<Line>, sub: seq<nat>, chosen: set<nat>, i: nat, j: nat)
    requires |vs| == |ws| && Positions(vs, sub) && Named(vs) && i < |sub| && j < |sub| && Choice(sub, chosen)
    requires At(vs, ws, sub, chosen, i) && At(vs, ws, sub, chosen, j)
    requires ws[sub[i]].ref == vs[sub[i]].ref && ws[sub[j]].ref == vs[sub[j]].ref
    ensures Matched(ws, sub[i], sub[j])
  {
    hide ForwardPartner, BackwardPartner, TidyLine, SameText;
    assert i in chosen ==> (vs[sub[i + 1]].ref == vs[sub[j]].ref <==> i + 1 == j);
    assert j - 1 in chosen ==> (vs[sub[j - 1]].ref == vs[sub[i]].ref <==> j - 1 == i);
  }

  /** A line outside the list keeps its links, and no line of the list links to it. */
  lemma {:induction false} TailMatched(vs: seq<Line>, ws: seq<Line>, sub: seq<nat>, chosen: set<nat>, i: nat, b: nat)
    requires |vs| == |ws| && Positions(vs, sub) && Named(vs) && i < |sub| && b < |vs| && Choice(sub, chosen)
    requires At(vs, ws, sub, chosen, i) && ws[b] == vs[b] && (i + 1 < |sub| ==> sub[i + 1] != b)
    requires Fresh(vs[sub[i]]) && Matched(vs, sub[i], b) && ws[sub[i]].ref == vs[sub[i]].ref
    ensures Matched(ws, sub[i], b)
  {
    NoLinks(vs[sub[i]]);
    hide ForwardPartner, BackwardPartner, TidyLine, SameText, Fresh;
  }

  lemma {:induction false} HeadMatched(vs: seq<Line>, ws: seq<Line>, sub: seq<nat>, chosen: set<nat>, a: nat, j: nat)
    requires |vs| == |ws| && Positions(vs, sub) && Named(vs) && j < |sub| && a < |vs| && Choice(sub, chosen)
    requires At(vs, ws, sub, chosen, j) && ws[a] == vs[a] && (j >= 1 ==> sub[j - 1] != a)
    requires Fresh(vs[sub[j]]) && Matched(vs, a, sub[j]) && ws[sub[j]].ref == vs[sub[j]].ref
    ensures Matched(ws, a, sub[j])
  {
    NoLinks(vs[sub[j]]);
    hide ForwardPartner, BackwardPartner, TidyLine, SameText, Fresh;
  }

  // ----- across a page break -----

  predicate NeedsForwardLink(l: Line) {
    (l.role.Part1? && l.pairLine == "") || (l.role.Both? && l.fwdLine == "")
  }

  /** Each seam lies between two different lines. */
  predicate SeamPlaces(vs: seq<Line>, ends: seq<(nat, nat)>) {
    forall k | 0 <= k < |ends| :: ends[k].0 < |vs| && ends[k].1 < |vs| && ends[k].0 != ends[k].1
  }

  /** The seams between consecutive pages that carry text. */
  function SeamsUpTo(vs: seq<Line>, ends: seq<(nat, nat)>, i: nat, can: Policy): (r: seq<Line>)
    requires i <= |ends| && SeamPlaces(vs, ends)
    ensures |r| == |vs|
  {
    if i == 0 then vs
    else
      var before := SeamsUpTo(vs, ends, i - 1, can);
      var (a, b) := ends[i - 1];
      if NeedsForwardLink(before[a]) then LinkStep(before, a, b, can) else before
  }

  /** `link_cross_page_hyphens`: the last and first non-blank lines of each seam. */
  method LinkCrossPageHyphens(doc: array<Line>, ends: seq<(nat, nat)>, can: Policy)
    requires SeamPlaces(doc[..], ends)
    requires forall k | 0 <= k < |ends| :: !Blank(doc[ends[k].0].ocr) && !Blank(doc[ends[k].1].ocr)
    modifies doc
    ensures doc[..] == SeamsUpTo(old(doc[..]), ends, |ends|, can)
  {
    ghost var vs := doc[..];
    for i := 0 to |ends|
      invariant doc[..] == SeamsUpTo(vs, ends, i, can)
    {
      var (a, b) := ends[i];
      if NeedsForwardLink(doc[a]) {
        LinkOne(doc, [a, b], 0, can);
      }
    }
  }

  /** At one seam: linking keeps the graph symmetric exactly when the first line
      of the later page is not the opening half of a link already drawn. */
  lemma {:induction false} SeamKeepsSymmetryIff(vs: seq<Line>, a: nat, b: nat, can: Policy)
    requires Named(vs) && Graph(vs)
    requires a < |vs| && b < |vs| && a != b
    requires NeedsForwardLink(vs[a]) && Links(vs, a, b, can) && BackwardPartner(vs[b]) == None
    ensures Symmetric(LinkStep(vs, a, b, can)) <==> !(vs[b].role.Part1? && vs[b].pairLine != "")
  {
    var ws := LinkStep(vs, a, b, can);
    assert TidyLine(vs[a]) && TidyLine(vs[b]);
    LinkTail(vs[a], vs[b]);
    LinkHead(vs[a], vs[b]);
    assert ForwardPartner(vs[a]) == None;
    var lost := vs[b].role.Part1? && vs[b].pairLine != "";
    assert ForwardPartner(vs[b]).Some? && vs[b].role.Part1? <==> lost;
    SameTextRef(vs[a], ws[a]);
    SameTextRef(vs[b], ws[b]);
    hide Link, Links, ForwardPartner, BackwardPartner, LinkStep, TidyLine, Named, SameText, NeedsForwardLink, Symmetric;
    if lost { LinkLost(vs, ws, a, b); } else { LinkGained(vs, ws, a, b); }
  }

  lemma {:induction false} LinkLost(vs: seq<Line>, ws: seq<Line>, a: nat, b: nat)
    requires Symmetric(vs) && Resolved(vs) && |ws| == |vs| && a < |vs| && b < |vs|
    requires (forall k | 0 <= k < |vs| && k != a && k != b :: ws[k] == vs[k]) && ws[a].ref == vs[a].ref && ws[b].ref == vs[b].ref
    requires ForwardPartner(vs[b]).Some? && ForwardPartner(ws[b]) == None
    requires BackwardPartner(vs[b]) == None && BackwardPartner(ws[a]) == BackwardPartner(vs[a])
    ensures !Symmetric(ws)
  {
    hide ForwardPartner, BackwardPartner;
    assert Holds(vs, ForwardPartner(vs[b]).value);
    var c :| 0 <= c < |vs| && vs[c].ref == ForwardPartner(vs[b]).value;
    assert Matched(vs, b, c);
    assert c != b;
    assert !Matched(ws, b, c);
  }

  lemma {:induction false} LinkGained(vs: seq<Line>, ws: seq<Line>, a: nat, b: nat)
    requires Named(vs) && Symmetric(vs) && |ws| == |vs| && a < |vs| && b < |vs| && a != b
    requires (forall k | 0 <= k < |vs| && k != a && k != b :: ws[k] == vs[k]) && ws[a].ref == vs[a].ref && ws[b].ref == vs[b].ref
    requires ForwardPartner(vs[a]) == None && ForwardPartner(ws[a]) == Some(vs[b].ref) && BackwardPartner(ws[a]) == BackwardPartner(vs[a])
    requires BackwardPartner(vs[b]) == None && BackwardPartner(ws[b]) == Some(vs[a].ref) && ForwardPartner(ws[b]) == ForwardPartner(vs[b])
    ensures Symmetric(ws)
  {
    hide ForwardPartner, BackwardPartner;
    forall x, y | 0 <= x < |ws| && 0 <= y < |ws| ensures Matched(ws, x, y) {
      assert Matched(vs, x, y) && Matched(vs, a, y) && Matched(vs, x, b);
      assert ws[x].ref == vs[x].ref && ws[y].ref == vs[y].ref;
    }
  }

  function Plain(page: string, id: string, text: string, role: Role): Line {
    Line(LineRef(page, id), "b", 0, text, None, None, None, Pending, "", [], role, "", "", "", false, "", "", "", false)
  }

  /** The failing case exists: a word broken over the page end whose second half
      is broken again. The third line still points back at the second, which no
      longer continues anywhere. */
  lemma {:induction false} CrossPageChainLosesALink(can: Policy)
    requires forall x, y :: can(x, y)
    ensures var page2 := LinkUpTo(BrokenTwice(), [1, 2], 2, can);
      Symmetric(page2) && !Symmetric(SeamsUpTo(page2, [(0, 1)], 1, can))
  {
    hide LinkUpTo, LinkStep, Symmetric, Link, SeamsUpTo;
    var page2 := LinkUpTo(BrokenTwice(), [1, 2], 2, can);
    BrokenPage2(can);
    SeamKeepsSymmetryIff(page2, 0, 1, can);
    OneSeam(page2, 0, 1, can);
  }

  lemma {:induction false} BrokenPage2(can: Policy)
    requires forall x, y :: can(x, y)
    ensures var vs := BrokenTwice(); var page2 := LinkUpTo(vs, [1, 2], 2, can);
      && Graph(page2) && Named(page2) && BackwardPartner(page2[1]) == None
      && page2[0] == vs[0] && page2[1].role.Part1? && page2[1].pairLine == "l2"
  {
    BrokenFacts();
    FreshIsAGraph(BrokenTwice());
    LinkerIsSymmetricOn(BrokenTwice(), [1, 2], can);
    var vs := BrokenTwice();
    hide Graph, Link, BrokenTwice, Named, ForwardPartner, BackwardPartner;
    assert LinkUpTo(vs, [1, 2], 1, can) == LinkStep(LinkUpTo(vs, [1, 2], 0, can), 1, 2, can);
    assert LinkUpTo(vs, [1, 2], 2, can) == LinkStep(vs, 1, 2, can);
    BrokenLinked(vs, can);
  }

  lemma BrokenFacts()
    ensures var vs := BrokenTwice();
      && Named(vs) && (forall k | 0 <= k < |vs| :: Fresh(vs[k])) && AllFresh(vs, [1, 2]) && |vs| == 3 && vs[1].role.Part1? && vs[2].ref.line == "l2"
  {
  }

  lemma BrokenLinked(vs: seq<Line>, can: Policy)
    requires |vs| == 3 && Named(vs) && vs[1].role.Part1? && vs[2].ref.line == "l2" && forall x, y :: can(x, y)
    ensures var ws := LinkStep(vs, 1, 2, can);
      |ws| == 3 && ws[0] == vs[0] && ws[1].role.Part1? && ws[1].pairLine == "l2" && Named(ws)
  {
    assert Promote(vs[1], vs[2]).ref == vs[2].ref;
    hide Promote, Or;
    assert Link(vs[1], vs[2]).0.ref == vs[1].ref && Link(vs[1], vs[2]).1.ref == vs[2].ref;
  }

  function BrokenTwice(): seq<Line> {
    [Plain("p1", "l1", "inter-", Part1), Plain("p2", "l1", "natio-", Part1), Plain("p2", "l2", "nal", NoRole)]
  }

  lemma OneSeam(vs: seq<Line>, a: nat, b: nat, can: Policy)
    requires a < |vs| && b < |vs| && a != b && NeedsForwardLink(vs[a])
    ensures SeamsUpTo(vs, [(a, b)], 1, can) == LinkStep(vs, a, b, can)
  {
    assert SeamsUpTo(vs, [(a, b)], 0, can) == vs;
  }

  // ----- whoever points or is pointed at has a role -----

  /** Every line that points at a line of the document has a hyphen role, and so has
      the line it points at. */
  ghost predicate Roled(vs: seq<Line>) {
    forall x, p {:trigger RoledPair(vs[x], vs[p])} | 0 <= x < |vs| && 0 <= p < |vs| :: RoledPair(vs[x], vs[p])
  }

  ghost predicate RoledPair(x: Line, p: Line) {
    p.ref in Pointers(x) ==> !x.role.NoRole? && !p.role.NoRole?
  }

  lemma {:induction false} FreshIsRoled(vs: seq<Line>)
    requires forall k | 0 <= k < |vs| :: Fresh(vs[k])
    ensures Roled(vs) && NoSelfLinks(vs)
  {
    forall x | 0 <= x < |vs| ensures Pointers(vs[x]) == [] { assert Fresh(vs[x]); }
    hide Pointers;
  }

  /** What one link adds: a pointer each way, between two lines that have roles. */
  lemma {:induction false} LinkPointers(x: Line, y: Line)
    requires x.ref.page != "" && y.ref.page != "" && OpensAWord(x)
    ensures var (x', y') := Link(x, y);
      && x'.ref == x.ref && y'.ref == y.ref && !x'.role.NoRole? && !y'.role.NoRole? && !x.role.NoRole?
      && (forall r | r in Pointers(x') :: r in Pointers(x) || r == y.ref)
      && (forall r | r in Pointers(y') :: r in Pointers(y) || r == x.ref)
  {
    PromotePointers(x, y);
    hide Promote, Or;
  }

  lemma PromotePointers(x: Line, y: Line)
    ensures var c := Promote(x, y);
      && c.ref == y.ref && !c.role.NoRole? && c.pairLine == y.pairLine && c.pairPage == y.pairPage
      && c.fwdLine == y.fwdLine && c.fwdPage == y.fwdPage
  {
  }

  /** A line before and after a link: its reference stays, a role is not lost, and the
      pointers gained are `more`. */
  ghost predicate Grew(l: Line, m: Line, more: set<LineRef>) {
    m.ref == l.ref && (!l.role.NoRole? ==> !m.role.NoRole?) && forall r | r in Pointers(m) :: r in Pointers(l) || r in more
  }

  ghost function Gained(vs: seq<Line>, a: nat, b: nat, k: nat): set<LineRef>
    requires a < |vs| && b < |vs|
  {
    if k == a then {vs[b].ref} else if k == b then {vs[a].ref} else {}
  }

  lemma {:induction false} LinkStepGrows(vs: seq<Line>, a: nat, b: nat, can: Policy, k: nat)
    requires Named(vs) && a < |vs| && b < |vs| && a != b && Links(vs, a, b, can) && k < |vs|
    ensures var ws := LinkStep(vs, a, b, can);
      !ws[a].role.NoRole? && !ws[b].role.NoRole? && Grew(vs[k], ws[k], Gained(vs, a, b, k))
  {
    LinkPointers(vs[a], vs[b]);
    hide Link, Pointers;
    var ws := LinkStep(vs, a, b, can);
    assert ws[a] == Link(vs[a], vs[b]).0 && ws[b] == Link(vs[a], vs[b]).1;
  }

  lemma {:induction false} PairStaysRoled(vs: seq<Line>, ws: seq<Line>, a: nat, b: nat, x: nat, p: nat)
    requires |ws| == |vs| && Named(vs) && a < |vs| && b < |vs| && x < |vs| && p < |vs| && a != b
    requires RoledPair(vs[x], vs[p]) && !ws[a].role.NoRole? && !ws[b].role.NoRole?
    requires Grew(vs[x], ws[x], Gained(vs, a, b, x)) && Grew(vs[p], ws[p], Gained(vs, a, b, p))
    ensures RoledPair(ws[x], ws[p])
  {
    hide Pointers;
  }

  lemma {:induction false} LineStaysRoled(vs: seq<Line>, a: nat, b: nat, can: Policy, k: nat)
    requires Named(vs) && NoSelfLinks(vs) && a < |vs| && b < |vs| && a != b && Links(vs, a, b, can) && k < |vs|
    ensures var l := LinkStep(vs, a, b, can)[k]; l.ref == vs[k].ref && l.ref !in Pointers(l)
  {
    LinkStepGrows(vs, a, b, can, k);
    hide LinkStep, Links, Pointers;
  }

  lemma {:induction false} LinkStepRoled(vs: seq<Line>, a: nat, b: nat, can: Policy, x: nat, p: nat)
    requires Named(vs) && Roled(vs) && a < |vs| && b < |vs| && a != b && Links(vs, a, b, can) && x < |vs| && p < |vs|
    ensures RoledPair(LinkStep(vs, a, b, can)[x], LinkStep(vs, a, b, can)[p])
  {
    hide LinkStep, Links, RoledPair, Grew, Gained, Named;
    LinkStepGrows(vs, a, b, can, x);
    LinkStepGrows(vs, a, b, can, p);
    PairStaysRoled(vs, LinkStep(vs, a, b, can), a, b, x, p);
  }

  lemma {:induction false} LinkStepKeepsNames(vs: seq<Line>, a: nat, b: nat, can: Policy)
    requires Named(vs) && NoSelfLinks(vs) && a < |vs| && b < |vs| && a != b && Links(vs, a, b, can)
    ensures var ws := LinkStep(vs, a, b, can);
      && (forall k | 0 <= k < |vs| :: ws[k].ref == vs[k].ref) && NoSelfLinks(ws)
  {
    hide LinkStep, Links, Pointers, Named;
    forall k | 0 <= k < |vs|
      ensures var l := LinkStep(vs, a, b, can)[k]; l.ref == vs[k].ref && l.ref !in Pointers(l)
    {
      LineStaysRoled(vs, a, b, can, k);
    }
  }

  lemma SameRefsNamed(vs: seq<Line>, ws: seq<Line>)
    requires Named(vs) && |ws| == |vs| && forall k | 0 <= k < |vs| :: ws[k].ref == vs[k].ref
    ensures Named(ws)
  {
  }

  lemma {:induction false} LinkStepKeepsRoled(vs: seq<Line>, a: nat, b: nat, can: Policy)
    requires Named(vs) && Roled(vs) && NoSelfLinks(vs) && a < |vs| && b < |vs| && a != b
    ensures var ws := LinkStep(vs, a, b, can);
      && Named(ws) && Roled(ws) && NoSelfLinks(ws) && forall k | 0 <= k < |vs| :: ws[k].ref == vs[k].ref
  {
    if Links(vs, a, b, can) {
      hide LinkStep, Links, RoledPair, Named, NoSelfLinks;
      var ws := LinkStep(vs, a, b, can);
      LinkStepKeepsNames(vs, a, b, can);
      SameRefsNamed(vs, ws);
      forall x, p | 0 <= x < |ws| && 0 <= p < |ws| ensures RoledPair(ws[x], ws[p]) { LinkStepRoled(vs, a, b, can, x, p); }
    } else {
      assert LinkStep(vs, a, b, can) == vs;
    }
  }

  /** Whatever the policy and the breaks, the linker of a page ... */
  lemma {:induction false} LinkerKeepsRoled(vs: seq<Line>, sub: seq<nat>, i: nat, can: Policy)
    requires Positions(vs, sub) && i <= |sub| && Named(vs) && Roled(vs) && NoSelfLinks(vs)
    ensures var ws := LinkUpTo(vs, sub, i, can);
      && Named(ws) && Roled(ws) && NoSelfLinks(ws) && forall k | 0 <= k < |vs| :: ws[k].ref == vs[k].ref
  {
    hide Named, Roled, NoSelfLinks, LinkStep;
    if i > 0 {
      LinkerKeepsRoled(vs, sub, i - 1, can);
      if i < |sub| { LinkStepKeepsRoled(LinkUpTo(vs, sub, i - 1, can), sub[i - 1], sub[i], can); }
    }
  }

  /** ... and the linker of the seams leave every line at either end of a pointer with
      a role, and none pointing at itself: even where a chain over a page break has
      cost a link. */
  lemma {:induction false} SeamsKeepRoled(vs: seq<Line>, ends: seq<(nat, nat)>, i: nat, can: Policy)
    requires SeamPlaces(vs, ends) && i <= |ends| && Named(vs) && Roled(vs) && NoSelfLinks(vs)
    ensures var ws := SeamsUpTo(vs, ends, i, can);
      && Named(ws) && Roled(ws) && NoSelfLinks(ws) && forall k | 0 <= k < |vs| :: ws[k].ref == vs[k].ref
  {
    hide Named, Roled, NoSelfLinks, LinkStep;
    if i > 0 {
      SeamsKeepRoled(vs, ends, i - 1, can);
      var (a, b) := ends[i - 1];
      LinkStepKeepsRoled(SeamsUpTo(vs, ends, i - 1, can), a, b, can);
    }
  }

  // ----- severing a link -----

  function SeverTail(t: Line): Line {
    if t.role.Both? then t.(role := Part2, fwdLine := "", fwdPage := "", fwdSubs := "")
    else t.(role := NoRole, pairLine := "", pairPage := "", subs := "")
  }

  function SeverHead(h: Line): Line {
    if h.role.Both? then
      h.(role := Part1, pairLine := h.fwdLine, pairPage := h.fwdPage, subs := h.fwdSubs, explicit := h.fwdExplicit,
         fwdLine := "", fwdPage := "", fwdSubs := "")
    else h.(role := NoRole, pairLine := "", pairPage := "", subs := "")
  }

  function Sever(vs: seq<Line>, t: nat, h: nat): (r: seq<Line>)
    requires t < |vs| && h < |vs| && t != h
    ensures |r| == |vs|
  {
    vs[t := SeverTail(vs[t])][h := SeverHead(vs[h])]
  }

  datatype HyphenSplit = HyphenSplit(page: string, tail: string, head: string)

  function ForwardPartnerId(l: Line): string {
    if ForwardPartner(l).Some? then ForwardPartner(l).value.line else ""
  }

  /** `split_forward_link`: refuses a link that is not there. */
  method SplitForwardLink(doc: array<Line>, t: nat, h: nat) returns (split: Option<HyphenSplit>)
    requires t < doc.Length && h < doc.Length && t != h
    modifies doc
    ensures split.Some? <==> ForwardPartner(old(doc[t])).Some? && ForwardPartnerId(old(doc[t])) == old(doc[h]).ref.line
    ensures split.Some? ==> split.value == HyphenSplit(old(doc[t]).ref.page, old(doc[t]).ref.line, old(doc[h]).ref.line)
    ensures doc[..] == if split.Some? then Sever(old(doc[..]), t, h) else old(doc[..])
  {
    var tail, head := doc[t], doc[h];
    if !(ForwardPartner(tail).Some? && ForwardPartnerId(tail) == head.ref.line) {
      return None;
    }
    if tail.role.Both? {
      tail := tail.(role := Part2);
      tail := tail.(fwdLine := "", fwdPage := "", fwdSubs := "");
    } else {
      tail := tail.(role := NoRole);
      tail := tail.(pairLine := "", pairPage := "", subs := "");
    }
    if head.role.Both? {
      head := head.(role := Part1);
      head := head.(pairLine := head.fwdLine, pairPage := head.fwdPage);
      head := head.(subs := head.fwdSubs, explicit := head.fwdExplicit);
      head := head.(fwdLine := "", fwdPage := "", fwdSubs := "");
    } else {
      head := head.(role := NoRole);
      head := head.(pairLine := "", pairPage := "", subs := "");
    }
    doc[t] := tail;
    doc[h] := head;
    split := Some(HyphenSplit(tail.ref.page, tail.ref.line, head.ref.line));
  }

  lemma {:induction false} SeverFacts(t: Line, h: Line)
    requires TidyLine(t) && TidyLine(h) && ForwardPartner(t).Some? && BackwardPartner(h).Some?
    ensures ForwardPartner(SeverTail(t)) == None && BackwardPartner(SeverTail(t)) == BackwardPartner(t)
    ensures ForwardPartner(SeverHead(h)) == ForwardPartner(h) && BackwardPartner(SeverHead(h)) == None
    ensures TidyLine(SeverTail(t)) && TidyLine(SeverHead(h))
    ensures SameText(t, SeverTail(t)) && SameText(h, SeverHead(h))
  {
  }

  /** A split removes exactly the one link, in both directions; the rest of the
      graph, its symmetry and every text stay. */
  lemma {:induction false} SplitRemovesOneLink(vs: seq<Line>, t: nat, h: nat)
    requires Named(vs) && Tidy(vs) && Answered(vs)
    requires t < |vs| && h < |vs| && t != h && ForwardPartner(vs[t]) == Some(vs[h].ref)
    ensures var ws := Sever(vs, t, h);
      && Answered(ws) && (Symmetric(vs) ==> Symmetric(ws)) && Tidy(ws) && SameTexts(vs, ws)
      && (forall x | 0 <= x < |vs| :: ForwardPartner(ws[x]) == if x == t then None else ForwardPartner(vs[x]))
      && (forall x | 0 <= x < |vs| :: BackwardPartner(ws[x]) == if x == h then None else BackwardPartner(vs[x]))
  {
    var ws := Sever(vs, t, h);
    assert Answers(vs, t, h);
    assert TidyLine(vs[t]) && TidyLine(vs[h]);
    SeverFacts(vs[t], vs[h]);
    hide SeverTail, SeverHead, ForwardPartner, BackwardPartner, TidyLine, SameText;
    forall k | 0 <= k < |ws| ensures SameText(vs[k], ws[k]) && ws[k].ref == vs[k].ref {
      if k != t && k != h { SameTextReflexive(vs[k]); }
      SameTextRef(vs[k], ws[k]);
    }
    SplitAnswers(vs, ws, t, h);
    if Symmetric(vs) { SplitMatches(vs, ws, t, h); }
  }

  lemma {:induction false} SplitAnswers(vs: seq<Line>, ws: seq<Line>, t: nat, h: nat)
    requires Named(vs) && Answered(vs) && t < |vs| && h < |vs| && ForwardPartner(vs[t]) == Some(vs[h].ref)
    requires |ws| == |vs| && forall k | 0 <= k < |vs| :: ws[k].ref == vs[k].ref
    requires forall x | 0 <= x < |vs| :: ForwardPartner(ws[x]) == if x == t then None else ForwardPartner(vs[x])
    requires forall x | 0 <= x < |vs| :: BackwardPartner(ws[x]) == if x == h then None else BackwardPartner(vs[x])
    ensures Answered(ws)
  {
    hide ForwardPartner, BackwardPartner;
    forall x, y | 0 <= x < |ws| && 0 <= y < |ws| ensures Answers(ws, x, y) {
      assert Answers(vs, x, y) && Answers(vs, t, h);
    }
  }

  lemma {:induction false} SplitMatches(vs: seq<Line>, ws: seq<Line>, t: nat, h: nat)
    requires Named(vs) && Symmetric(vs) && t < |vs| && h < |vs| && ForwardPartner(vs[t]) == Some(vs[h].ref)
    requires |ws| == |vs| && forall k | 0 <= k < |vs| :: ws[k].ref == vs[k].ref
    requires forall x | 0 <= x < |vs| :: ForwardPartner(ws[x]) == if x == t then None else ForwardPartner(vs[x])
    requires forall x | 0 <= x < |vs| :: BackwardPartner(ws[x]) == if x == h then None else BackwardPartner(vs[x])
    ensures Symmetric(ws)
  {
    hide ForwardPartner, BackwardPartner;
    forall x, y | 0 <= x < |ws| && 0 <= y < |ws| ensures Matched(ws, x, y) {
      assert Matched(vs, x, y) && Matched(vs, t, y) && Matched(vs, x, h);
    }
  }

  lemma SameTextReflexive(l: Line)
    ensures SameText(l, l)
  {
  }

  lemma SameTextsReflexive(vs: seq<Line>)
    ensures SameTexts(vs, vs)
  {
  }

  lemma SameTextRef(a: Line, b: Line)
    requires SameText(a, b)
    ensures a.ref == b.ref
  {
  }
}

/** The document as a run sees it (`schemas/manifest.py`) and the primitives that
    read a line's two link slots (`pairing.py`). A line is a record; the lists
    and maps that share a line in the source share its reference here. */
module Manifest {
  import opened Prelude

  /** Page-qualified identity (`identity.py`). */
  datatype LineRef = LineRef(page: string, line: string)

  datatype Role = NoRole | Part1 | Part2 | Both

  datatype Status = Pending | Corrected | ReviewRequired | Fallback | Failed

  /** One line with its correction state, its trace's decision fields and its
      hyphen state. An unset pointer, page or SUBS_CONTENT is the empty string,
      as the source's truthiness tests read it. */
  datatype Line = Line(
    ref: LineRef, block: string, order: int, ocr: string,
    wordCount: Option<int>, sourceWords: Option<seq<string>>,
    corrected: Option<string>, status: Status, reason: string, reviews: seq<string>,
    role: Role,
    pairLine: string, pairPage: string, subs: string, explicit: bool,
    fwdLine: string, fwdPage: string, fwdSubs: string, fwdExplicit: bool)

  /** `pair_ref`: the PAIR slot; an unset page means the line's own. */
  function PairRef(l: Line): Option<LineRef> {
    if l.pairLine == "" then None
    else Some(LineRef(if l.pairPage == "" then l.ref.page else l.pairPage, l.pairLine))
  }

  /** `forward_ref`: the FORWARD slot. */
  function ForwardRef(l: Line): Option<LineRef> {
    if l.fwdLine == "" then None
    else Some(LineRef(if l.fwdPage == "" then l.ref.page else l.fwdPage, l.fwdLine))
  }

  /** `forward_partner_ref`: the line this line's word continues onto. */
  function ForwardPartner(l: Line): Option<LineRef> {
    if l.role.Part1? then PairRef(l) else if l.role.Both? then ForwardRef(l) else None
  }

  /** `backward_partner_ref`: the line whose word continues onto this one. */
  function BackwardPartner(l: Line): Option<LineRef> {
    if l.role.Part2? || l.role.Both? then PairRef(l) else None
  }

  /** Every pointer a line carries, whatever its role. */
  function Pointers(l: Line): seq<LineRef> {
    (if PairRef(l).Some? then [PairRef(l).value] else [])
    + (if ForwardRef(l).Some? then [ForwardRef(l).value] else [])
  }

  /** No line points at itself. */
  ghost predicate NoSelfLinks(lines: seq<Line>) {
    forall p | 0 <= p < |lines| :: lines[p].ref !in Pointers(lines[p])
  }

  /** `_links_explicit`. */
  predicate LinksExplicit(l: Line) {
    && !(l.pairLine != "" && !l.explicit)
    && !(l.fwdLine != "" && !l.fwdExplicit)
  }

  /** `str.isspace` on one character. */
  predicate IsSpace(c: char) {
    || '\t' <= c <= '\r' || '\U{1c}' <= c <= ' ' || c == '\U{85}' || c == '\U{a0}' || c == '\U{1680}'
    || '\U{2000}' <= c <= '\U{200a}' || c == '\U{2028}' || c == '\U{2029}' || c == '\U{202f}'
    || c == '\U{205f}' || c == '\U{3000}'
  }

  predicate Blank(text: string) {
    forall k | 0 <= k < |text| :: IsSpace(text[k])
  }

  /** A dictionary built by one assignment per line: the last one wins. */
  function ByRef(lines: seq<Line>): (m: map<LineRef, Line>)
    ensures forall r | r in m :: m[r].ref == r
  {
    if lines == [] then map[]
    else ByRef(lines[..|lines| - 1])[lines[|lines| - 1].ref := lines[|lines| - 1]]
  }

  function RefsOf(lines: seq<Line>): set<LineRef> {
    set l | l in lines :: l.ref
  }

  lemma {:induction false} ByRefKeys(lines: seq<Line>)
    ensures ByRef(lines).Keys == RefsOf(lines)
  {
    if lines != [] {
      var front, last := lines[..|lines| - 1], lines[|lines| - 1];
      ByRefKeys(front);
      assert forall l :: l in lines <==> l in front || l == last;
    }
  }
}

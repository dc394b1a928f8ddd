/** `reproject_page_lines` (`page_alignment.py`): the returned page, as one
    stream, re-cut onto the source lines by the opcodes of a matcher. */
module Reprojection {

  /** One block of the matcher: source [i1, i2) against returned [j1, j2). */
  datatype Opcode = Opcode(i1: nat, i2: nat, j1: nat, j2: nat)

  /** What `get_opcodes` promises: the blocks tile both streams in step. */
  ghost predicate Tiles(ops: seq<Opcode>, n: nat, m: nat) {
    if ops == [] then n == 0 && m == 0
    else
      var last := ops[|ops| - 1];
      last.i1 <= last.i2 == n && last.j1 <= last.j2 == m && Tiles(ops[..|ops| - 1], last.i1, last.j1)
  }

  function Join(lines: seq<string>): string {
    if lines == [] then "" else if |lines| == 1 then lines[0] else lines[0] + "\n" + Join(lines[1..])
  }

  /** Where line k starts in the joined stream. */
  function Offset(lines: seq<string>, k: nat): nat
    requires k <= |lines|
  {
    if k == 0 then 0 else Offset(lines, k - 1) + |lines[k - 1]| + 1
  }

  predicate Covers(op: Opcode, mark: nat) {
    op.i1 <= mark <= op.i2
  }

  function CarryThrough(op: Opcode, mark: nat): int {
    op.j1 + Min(mark - op.i1, op.j2 - op.j1)
  }

  function Min(x: int, y: int): int { if x <= y then x else y }
  function Max(x: int, y: int): int { if x >= y then x else y }

  /** Where a source boundary lands in the returned stream: in the last block
      that touches it, or where it was when none does. */
  function Carry(ops: seq<Opcode>, mark: nat): int {
    if ops == [] then mark
    else if Covers(ops[|ops| - 1], mark) then CarryThrough(ops[|ops| - 1], mark)
    else Carry(ops[..|ops| - 1], mark)
  }

  /** `str.strip("\n")`. */
  function StripLeft(s: string): string {
    if s != [] && s[0] == '\n' then StripLeft(s[1..]) else s
  }

  function StripRight(s: string): string {
    if s != [] && s[|s| - 1] == '\n' then StripRight(s[..|s| - 1]) else s
  }

  function Strip(s: string): string {
    StripRight(StripLeft(s))
  }

  /** The boundaries of the pieces in the returned stream. */
  ghost predicate Cuts(cuts: seq<int>, lines: seq<string>, ops: seq<Opcode>, m: nat) {
    && |cuts| == |lines| + 1 && lines != []
    && cuts[0] == 0 && cuts[|lines|] == m
    && (forall k | 0 < k < |lines| :: cuts[k] == Carry(ops, Offset(lines, k)))
    && Ordered(cuts)
  }

  ghost predicate Ordered(cuts: seq<int>) {
    forall a, b | 0 <= a <= b < |cuts| :: cuts[a] <= cuts[b]
  }

  /** The pieces the boundaries cut the text into. */
  function Pieces(text: string, cuts: seq<int>): (p: seq<string>)
    requires cuts != [] && Ordered(cuts) && cuts[0] >= 0 && cuts[|cuts| - 1] <= |text|
    ensures |p| == |cuts| - 1
  {
    if |cuts| == 1 then []
    else
      var front, n := cuts[..|cuts| - 1], |cuts| - 1;
      assert cuts[0] <= cuts[n - 1] <= cuts[n];
      OrderedFront(cuts);
      Pieces(text, front) + [text[cuts[n - 1]..cuts[n]]]
  }

  lemma {:induction false} PieceAt(text: string, cuts: seq<int>, k: nat)
    requires Ordered(cuts) && k + 1 < |cuts| && cuts[0] >= 0 && cuts[|cuts| - 1] <= |text|
    ensures 0 <= cuts[k] <= cuts[k + 1] <= |text|
    ensures Pieces(text, cuts)[k] == text[cuts[k]..cuts[k + 1]]
    decreases |cuts|
  {
    var front := cuts[..|cuts| - 1];
    assert cuts[0] <= cuts[k] <= cuts[k + 1] <= cuts[|front|] && cuts[|front| - 1] <= cuts[|front|];
    OrderedFront(cuts);
    if k + 1 < |front| {
      PieceAt(text, front, k);
    }
  }

  lemma {:induction false} OrderedFront(cuts: seq<int>)
    requires cuts != [] && Ordered(cuts)
    ensures Ordered(cuts[..|cuts| - 1])
  {
    var front := cuts[..|cuts| - 1];
    forall a, b | 0 <= a <= b < |front| ensures front[a] <= front[b] { assert cuts[a] <= cuts[b]; }
  }

  /** One piece per source line; the boundaries are the carried source
      boundaries, already in order, so the running maximum moves none of them. */
  method ReprojectPageLines(sourceLines: seq<string>, returnedLines: seq<string>, ops: seq<Opcode>)
    returns (result: seq<string>, ghost cuts: seq<int>)
    requires Tiles(ops, |Join(sourceLines)|, |Join(returnedLines)|)
    ensures |result| == |sourceLines|
    ensures sourceLines != [] ==> Cuts(cuts, sourceLines, ops, |Join(returnedLines)|)
    ensures sourceLines != [] ==> forall k | 0 <= k < |sourceLines| ::
      result[k] == Strip(Pieces(Join(returnedLines), cuts)[k])
  {
    hide Join, Carry, Offset, Strip, Tiles, Pieces;
    if sourceLines == [] {
      return [], [];
    }
    var tgt := Join(returnedLines);
    var n := |sourceLines|;
    var marks := Marks(sourceLines);
    var mapped := MapMarks(ops, marks);
    var cutList: seq<int> := [0];
    for x := 0 to n - 1
      invariant |cutList| == x + 1 && cutList[0] == 0
      invariant forall y | 0 < y <= x :: cutList[y] == Carry(ops, Offset(sourceLines, y))
    {
      assert marks[x] in marks;
      cutList := cutList + [if marks[x] in mapped then mapped[marks[x]] else marks[x]];
    }
    cutList := cutList + [|tgt|];
    CarriedInOrder(sourceLines, ops, |tgt|, cutList);
    cuts := cutList;
    for i := 1 to n + 1
      invariant cutList == cuts
    {
      assert cuts[i - 1] <= cuts[i];
      cutList := cutList[i := Max(cutList[i], cutList[i - 1])];
    }
    result := [];
    for k := 0 to n
      invariant |result| == k
      invariant forall x | 0 <= x < k :: result[x] == Strip(Pieces(tgt, cuts)[x])
    {
      PieceAt(tgt, cuts, k);
      result := result + [Strip(tgt[cutList[k]..cutList[k + 1]])];
    }
  }

  /** Line boundaries in the source stream. */
  method Marks(lines: seq<string>) returns (marks: seq<nat>)
    requires lines != []
    ensures |marks| == |lines| - 1
    ensures forall x | 0 <= x < |marks| :: marks[x] == Offset(lines, x + 1)
  {
    var pos;
    marks, pos := [], 0;
    for k := 0 to |lines| - 1
      invariant |marks| == k && pos == Offset(lines, k)
      invariant forall x | 0 <= x < k :: marks[x] == Offset(lines, x + 1)
    {
      pos := pos + |lines[k]| + 1;
      marks := marks + [pos];
    }
  }

  /** The loop over opcodes and marks: later blocks overwrite earlier ones. */
  method MapMarks(ops: seq<Opcode>, marks: seq<nat>) returns (mapped: map<nat, int>)
    ensures forall mark | mark in marks ::
      Carry(ops, mark) == if mark in mapped then mapped[mark] else mark
  {
    mapped := map[];
    for a := 0 to |ops|
      invariant forall mark | mark in marks ::
        Carry(ops[..a], mark) == if mark in mapped then mapped[mark] else mark
    {
      var op := ops[a];
      ghost var before := mapped;
      assert ops[..a + 1][..a] == ops[..a];
      for b := 0 to |marks|
        invariant forall mark | mark in marks ::
          (mark in marks[..b] && Covers(op, mark) ==> mark in mapped && mapped[mark] == CarryThrough(op, mark))
        invariant forall mark | mark in marks && !(mark in marks[..b] && Covers(op, mark)) ::
          (mark in mapped <==> mark in before) && (mark in mapped ==> mapped[mark] == before[mark])
      {
        var mark := marks[b];
        if op.i1 <= mark <= op.i2 {
          mapped := mapped[mark := op.j1 + Min(mark - op.i1, op.j2 - op.j1)];
        }
        assert marks[..b + 1] == marks[..b] + [mark];
      }
      assert marks[..|marks|] == marks;
    }
    assert ops[..|ops|] == ops;
  }

  // ----- carried boundaries stay in range and in order -----

  lemma {:induction false} CarryBounds(ops: seq<Opcode>, n: nat, m: nat, mark: nat)
    requires Tiles(ops, n, m) && mark <= n
    ensures 0 <= Carry(ops, mark) <= m
  {
    if ops != [] {
      var last := ops[|ops| - 1];
      if !Covers(last, mark) {
        CarryBounds(ops[..|ops| - 1], last.i1, last.j1, mark);
      }
    }
  }

  lemma {:induction false} CarryMonotone(ops: seq<Opcode>, n: nat, m: nat, a: nat, b: nat)
    requires Tiles(ops, n, m) && a <= b <= n
    ensures Carry(ops, a) <= Carry(ops, b)
  {
    if ops != [] {
      var last := ops[|ops| - 1];
      if !Covers(last, a) {
        CarryBounds(ops[..|ops| - 1], last.i1, last.j1, a);
        if !Covers(last, b) {
          CarryMonotone(ops[..|ops| - 1], last.i1, last.j1, a, b);
        }
      }
    }
  }

  lemma {:induction false} OffsetMonotone(lines: seq<string>, a: nat, b: nat)
    requires a <= b <= |lines|
    ensures Offset(lines, a) <= Offset(lines, b)
  {
    if a < b { OffsetMonotone(lines, a, b - 1); }
  }

  lemma {:induction false} JoinLength(lines: seq<string>)
    requires lines != []
    ensures |Join(lines)| + 1 == Offset(lines, |lines|)
  {
    if |lines| > 1 {
      JoinLength(lines[1..]);
      OffsetShift(lines, |lines|);
    }
  }

  lemma {:induction false} OffsetShift(lines: seq<string>, k: nat)
    requires 0 < k <= |lines|
    ensures Offset(lines, k) == |lines[0]| + 1 + Offset(lines[1..], k - 1)
  {
    if k > 1 { OffsetShift(lines, k - 1); }
  }

  lemma {:induction false} CarriedInOrder(lines: seq<string>, ops: seq<Opcode>, m: nat, cuts: seq<int>)
    requires lines != [] && Tiles(ops, |Join(lines)|, m)
    requires |cuts| == |lines| + 1 && cuts[0] == 0 && cuts[|lines|] == m
    requires forall k | 0 < k < |lines| :: cuts[k] == Carry(ops, Offset(lines, k))
    ensures Ordered(cuts)
  {
    hide Carry, Offset, Join, Tiles;
    var n := |Join(lines)|;
    JoinLength(lines);
    forall a, b | 0 <= a <= b < |cuts| ensures cuts[a] <= cuts[b] {
      if 0 < a < |lines| { OffsetMonotone(lines, a, |lines| - 1); LastStartsInside(lines); CarryBounds(ops, n, m, Offset(lines, a)); }
      if 0 < b < |lines| { OffsetMonotone(lines, b, |lines| - 1); LastStartsInside(lines); CarryBounds(ops, n, m, Offset(lines, b)); }
      if 0 < a && b < |lines| {
        OffsetMonotone(lines, a, b);
        CarryMonotone(ops, n, m, Offset(lines, a), Offset(lines, b));
      }
    }
  }

  lemma {:induction false} LastStartsInside(lines: seq<string>)
    requires lines != []
    ensures Offset(lines, |lines| - 1) <= |Join(lines)|
  {
    JoinLength(lines);
  }

  // ----- the stream is conserved -----

  function Concat(pieces: seq<string>): string {
    if pieces == [] then "" else Concat(pieces[..|pieces| - 1]) + pieces[|pieces| - 1]
  }

  /** Before newline stripping the pieces are the returned text, in order. */
  lemma {:induction false} PiecesAreTheStream(text: string, cuts: seq<int>)
    requires cuts != [] && Ordered(cuts) && cuts[0] == 0 && cuts[|cuts| - 1] <= |text|
    ensures Concat(Pieces(text, cuts)) == text[..cuts[|cuts| - 1]]
    decreases |cuts|
  {
    if |cuts| > 1 {
      var front := cuts[..|cuts| - 1];
      OrderedFront(cuts);
      assert cuts[|cuts| - 2] <= cuts[|cuts| - 1];
      PiecesAreTheStream(text, front);
      var p := Pieces(text, cuts);
      assert p[..|p| - 1] == Pieces(text, front);
    }
  }

  /** The characters of a text other than its newlines. */
  function Letters(s: string): string {
    if s == [] then [] else Letters(s[..|s| - 1]) + if s[|s| - 1] == '\n' then [] else [s[|s| - 1]]
  }

  lemma {:induction false} LettersConcat(a: string, b: string)
    ensures Letters(a + b) == Letters(a) + Letters(b)
    decreases |b|
  {
    if b == [] {
      assert a + b == a;
    } else {
      LettersConcat(a, b[..|b| - 1]);
      assert (a + b)[..|a + b| - 1] == a + b[..|b| - 1];
    }
  }

  lemma {:induction false} StripKeepsLetters(s: string)
    ensures Letters(Strip(s)) == Letters(s)
  {
    StripLeftKeepsLetters(s);
    StripRightKeepsLetters(StripLeft(s));
  }

  lemma {:induction false} StripLeftKeepsLetters(s: string)
    ensures Letters(StripLeft(s)) == Letters(s)
  {
    if s != [] && s[0] == '\n' {
      StripLeftKeepsLetters(s[1..]);
      LettersConcat(['\n'], s[1..]);
      assert ['\n'] + s[1..] == s;
    }
  }

  lemma {:induction false} StripRightKeepsLetters(s: string)
    ensures Letters(StripRight(s)) == Letters(s)
  {
    if s != [] && s[|s| - 1] == '\n' {
      StripRightKeepsLetters(s[..|s| - 1]);
    }
  }

  lemma {:induction false} StrippedConcat(pieces: seq<string>, result: seq<string>)
    requires |result| == |pieces| && forall k | 0 <= k < |pieces| :: result[k] == Strip(pieces[k])
    ensures Letters(Concat(result)) == Letters(Concat(pieces))
  {
    if pieces != [] {
      var n := |pieces| - 1;
      StrippedConcat(pieces[..n], result[..n]);
      StripKeepsLetters(pieces[n]);
      LettersConcat(Concat(pieces[..n]), pieces[n]);
      LettersConcat(Concat(result[..n]), result[n]);
    }
  }

  /** For any tiling of the two streams, no returned character is lost, copied
      or reordered: apart from line breaks, the lines delivered read exactly
      like the lines returned. */
  lemma {:induction false} StreamIsConserved(sourceLines: seq<string>, returnedLines: seq<string>, ops: seq<Opcode>,
                          cuts: seq<int>, result: seq<string>)
    requires Cuts(cuts, sourceLines, ops, |Join(returnedLines)|)
    requires |result| == |sourceLines|
    requires forall k | 0 <= k < |sourceLines| :: result[k] == Strip(Pieces(Join(returnedLines), cuts)[k])
    ensures Concat(Pieces(Join(returnedLines), cuts)) == Join(returnedLines)
    ensures Letters(Concat(result)) == Letters(Join(returnedLines))
  {
    var text := Join(returnedLines);
    PiecesAreTheStream(text, cuts);
    assert text[..|text|] == text;
    StrippedConcat(Pieces(text, cuts), result);
  }

  // ----- the identity -----

  lemma {:induction false} JoinAt(lines: seq<string>, k: nat)
    requires k < |lines|
    ensures Offset(lines, k) + |lines[k]| <= |Join(lines)|
    ensures Join(lines)[Offset(lines, k)..Offset(lines, k) + |lines[k]|] == lines[k]
    ensures k + 1 < |lines| ==> Offset(lines, k) + |lines[k]| < |Join(lines)|
    ensures k + 1 < |lines| ==> Join(lines)[Offset(lines, k) + |lines[k]|] == '\n'
    decreases k
  {
    if k == 0 {
      if |lines| > 1 { assert Join(lines) == lines[0] + "\n" + Join(lines[1..]); }
    } else {
      var tail, head := lines[1..], lines[0] + "\n";
      JoinAt(tail, k - 1);
      OffsetShift(lines, k);
      assert Join(lines) == head + Join(tail);
      var o, len := Offset(tail, k - 1), |lines[k]|;
      SliceShift(head, Join(tail), o, o + len);
    }
  }

  lemma {:induction false} SliceShift(head: string, tail: string, a: nat, b: nat)
    requires a <= b <= |tail|
    ensures (head + tail)[|head| + a..|head| + b] == tail[a..b]
  {
  }

  lemma {:induction false} StripOfLine(line: string)
    requires '\n' !in line
    ensures Strip(line) == line && Strip(line + "\n") == line
  {
    var s := line + "\n";
    if line == [] {
      assert s == "\n" && s[1..] == [];
    } else {
      assert s[0] == line[0] && s[..|s| - 1] == line;
      assert line[|line| - 1] != '\n';
    }
  }

  /** A single equal block gives the source lines back. */
  lemma {:induction false} IdentityGivesLinesBack(lines: seq<string>, text: string, ops: seq<Opcode>, cuts: seq<int>, k: nat)
    requires text == Join(lines) && k < |lines|
    requires ops == [Opcode(0, |text|, 0, |text|)] || (ops == [] && text == "")
    requires Cuts(cuts, lines, ops, |text|)
    requires forall i | 0 <= i < |lines| :: '\n' !in lines[i]
    ensures Strip(Pieces(text, cuts)[k]) == lines[k]
  {
    CutsAreOffsets(lines, text, ops, cuts);
    PieceAt(text, cuts, k);
    hide Carry, Offset, Join, Strip, Pieces, Cuts;
    LineOfTheJoin(lines, text, k);
    StripOfLine(lines[k]);
  }

  /** A joined line, up to where the next one starts: itself, with the newline that
      follows it when it is not the last. */
  lemma {:induction false} LineOfTheJoin(lines: seq<string>, text: string, k: nat)
    requires text == Join(lines) && k < |lines|
    ensures var from, to := Offset(lines, k), if k + 1 < |lines| then Offset(lines, k + 1) else |text|;
      from <= to <= |text| && text[from..to] == if k + 1 < |lines| then lines[k] + "\n" else lines[k]
  {
    JoinAt(lines, k);
    OffsetNext(lines, k);
    JoinLength(lines);
    hide Offset, Join;
    var from, to := Offset(lines, k), Offset(lines, k) + |lines[k]|;
    if k + 1 < |lines| { assert text[from..to + 1] == text[from..to] + [text[to]]; }
  }

  lemma {:induction false} OffsetNext(lines: seq<string>, k: nat)
    requires k < |lines|
    ensures Offset(lines, k + 1) == Offset(lines, k) + |lines[k]| + 1
  {
  }

  lemma {:induction false} CutsAreOffsets(lines: seq<string>, text: string, ops: seq<Opcode>, cuts: seq<int>)
    requires text == Join(lines)
    requires ops == [Opcode(0, |text|, 0, |text|)] || (ops == [] && text == "")
    requires Cuts(cuts, lines, ops, |text|)
    ensures forall i | 0 <= i < |lines| :: cuts[i] == Offset(lines, i)
    ensures cuts[|lines|] == |text| == Offset(lines, |lines|) - 1
  {
    JoinLength(lines);
    forall i | 0 < i < |lines| ensures cuts[i] == Offset(lines, i) {
      OffsetMonotone(lines, i, |lines| - 1);
      LastStartsInside(lines);
      if ops != [] { assert Covers(ops[|ops| - 1], Offset(lines, i)); }
    }
  }
}

/** `apply_edit_script` (`editing.py`): a whole script against a document. */
module Scripts {
  import opened Prelude
  import opened Manifest
  import opened Editing
  import opened LineEdits

  datatype LinePrecondition = LinePrecondition(line: string, page: Option<string>, digest: string)

  datatype EditScript = EditScript(ops: seq<Op>, version: Option<string>, preconditions: seq<LinePrecondition>)

  const PROTOCOL: string := "1"

  /** The document a script is applied to: the canonical texts by bare line id, the
      lines that may be edited, the roles when known, and the page it is. */
  datatype Target = Target(canonical: map<string, string>, editable: Option<set<string>>, roles: map<string, Role>, page: Option<string>)

  type Digest = string -> string

  /** An item stamped with another page is out of scope. */
  predicate InScope(stamp: Option<string>, page: Option<string>) {
    !(page.Some? && stamp.Some? && stamp != page)
  }

  function OpsFor(ops: seq<Op>, page: Option<string>, line: string): (r: seq<Op>)
    ensures forall o | o in r :: o in ops && o.line == line
  {
    if ops == [] then []
    else
      var front, last := OpsFor(ops[..|ops| - 1], page, line), ops[|ops| - 1];
      if InScope(last.page, page) && last.line == line then front + [last] else front
  }

  /** The digest recorded for a line; the last record wins. */
  function RecordedDigest(pcs: seq<LinePrecondition>, page: Option<string>, line: string): Option<string> {
    if pcs == [] then None
    else
      var last := pcs[|pcs| - 1];
      if InScope(last.page, page) && last.line == line then Some(last.digest)
      else RecordedDigest(pcs[..|pcs| - 1], page, line)
  }

  function RoleOf(target: Target, line: string): Role {
    if line in target.roles then target.roles[line] else NoRole
  }

  /** Why a line's ops may not be applied at all: E1 and the precondition. */
  function Barred(script: EditScript, target: Target, digest: Digest, line: string): Option<Reason> {
    if line !in target.canonical then Some(UnknownLine)
    else if target.editable.Some? && line !in target.editable.value then Some(ContextLine)
    else
      var expected := RecordedDigest(script.preconditions, target.page, line);
      if expected.Some? && digest(target.canonical[line]) != expected.value then Some(Precondition) else None
  }

  /** The text a line gets from a script. */
  function Outcome(script: EditScript, target: Target, digest: Digest, guard: Guard, line: string): Option<string> {
    var ops := OpsFor(script.ops, target.page, line);
    if ops == [] || Barred(script, target, digest, line).Some? then None
    else LineResult(ops, RoleOf(target, line), target.canonical[line], guard)
  }

  ghost predicate Refuses(rejected: seq<Rejection>, line: string) {
    exists k :: 0 <= k < |rejected| && rejected[k].line == line
  }

  /** A line some of whose ops did not make it into its text. */
  ghost predicate Refused(script: EditScript, target: Target, digest: Digest, guard: Guard, line: string) {
    var ops := OpsFor(script.ops, target.page, line);
    ops != [] && (Barred(script, target, digest, line).Some? || !AllStand(ops, RoleOf(target, line), target.canonical[line], guard))
  }

  ghost predicate Grouping(ops: seq<Op>, page: Option<string>, keys: seq<string>, byLine: map<string, seq<Op>>) {
    && Distinct(keys) && (forall k :: k in keys <==> k in byLine)
    && (forall k :: k in byLine <==> OpsFor(ops, page, k) != [])
    && forall k | k in byLine :: byLine[k] == OpsFor(ops, page, k)
  }

  lemma {:induction false} OpsForSnoc(ops: seq<Op>, page: Option<string>, i: nat, line: string)
    requires i < |ops|
    ensures OpsFor(ops[..i + 1], page, line)
      == if InScope(ops[i].page, page) && ops[i].line == line then OpsFor(ops[..i], page, line) + [ops[i]] else OpsFor(ops[..i], page, line)
  {
    assert ops[..i + 1][..i] == ops[..i];
  }

  lemma {:induction false} OneOpMore(ops: seq<Op>, page: Option<string>, i: nat, keys: seq<string>, byLine: map<string, seq<Op>>)
    requires i < |ops| && Grouping(ops[..i], page, keys, byLine)
    ensures !InScope(ops[i].page, page) ==> Grouping(ops[..i + 1], page, keys, byLine)
    ensures InScope(ops[i].page, page) ==>
      var line := ops[i].line;
      Grouping(ops[..i + 1], page, if line in byLine then keys else keys + [line],
               byLine[line := (if line in byLine then byLine[line] else []) + [ops[i]]])
  {
    hide OpsFor, InScope, Grouping;
    forall k ensures OpsFor(ops[..i + 1], page, k)
      == if InScope(ops[i].page, page) && ops[i].line == k then OpsFor(ops[..i], page, k) + [ops[i]] else OpsFor(ops[..i], page, k)
    {
      OpsForSnoc(ops, page, i, k);
    }
    if InScope(ops[i].page, page) {
      GroupedMore(ops[..i], ops[..i + 1], page, keys, byLine, ops[i]);
    } else {
      GroupedAlike(ops[..i], ops[..i + 1], page, keys, byLine);
    }
  }

  lemma GroupedAlike(ops: seq<Op>, more: seq<Op>, page: Option<string>, keys: seq<string>, byLine: map<string, seq<Op>>)
    requires Grouping(ops, page, keys, byLine) && forall k :: OpsFor(more, page, k) == OpsFor(ops, page, k)
    ensures Grouping(more, page, keys, byLine)
  {
    hide OpsFor;
  }

  lemma GroupedMore(ops: seq<Op>, more: seq<Op>, page: Option<string>, keys: seq<string>, byLine: map<string, seq<Op>>, op: Op)
    requires Grouping(ops, page, keys, byLine)
    requires forall k :: OpsFor(more, page, k) == if op.line == k then OpsFor(ops, page, k) + [op] else OpsFor(ops, page, k)
    ensures Grouping(more, page, if op.line in byLine then keys else keys + [op.line],
                     byLine[op.line := (if op.line in byLine then byLine[op.line] else []) + [op]])
  {
    hide OpsFor;
  }

  /** `ops_by_line`, in the order the lines first appear. */
  method GroupByLine(ops: seq<Op>, page: Option<string>) returns (keys: seq<string>, byLine: map<string, seq<Op>>)
    ensures Grouping(ops, page, keys, byLine)
  {
    hide Grouping, OpsFor, InScope;
    keys, byLine := [], map[];
    assert Grouping(ops[..0], page, keys, byLine) by { NothingGrouped(page); }
    for i := 0 to |ops|
      invariant Grouping(ops[..i], page, keys, byLine)
    {
      var op := ops[i];
      OneOpMore(ops, page, i, keys, byLine);
      if !InScope(op.page, page) { continue; }
      ghost var before := byLine;
      if op.line !in byLine {
        keys := keys + [op.line];
        byLine := byLine[op.line := []];
      }
      byLine := byLine[op.line := byLine[op.line] + [op]];
      assert byLine == before[op.line := (if op.line in before then before[op.line] else []) + [op]];
    }
    assert ops[..|ops|] == ops;
  }

  lemma NothingGrouped(page: Option<string>)
    ensures Grouping([], page, [], map[])
  {
  }

  method RejectAll(line: string, ops: seq<Op>, reason: Reason) returns (rejected: seq<Rejection>)
    ensures AllOf(rejected, line) && |rejected| == |ops|
  {
    rejected := [];
    for i := 0 to |ops|
      invariant AllOf(rejected, line) && |rejected| == i
    {
      rejected := rejected + [Rejection(line, ops[i], reason)];
    }
  }

  /** `apply_edit_script`: every line gets the text its own ops give it against its
      own source text, whatever the script says of the others; a line is among the
      rejections exactly when an op of it was dropped; an unknown protocol version
      is an error. */
  method ApplyEditScript(script: EditScript, target: Target, digest: Digest, guard: Guard)
    returns (r: Result<(map<string, string>, seq<Rejection>), string>)
    ensures r.Err? <==> script.version.Some? && script.version.value != PROTOCOL
    ensures r.Ok? ==> forall line :: line in r.value.0 <==> Outcome(script, target, digest, guard, line).Some?
    ensures r.Ok? ==> forall line | line in r.value.0 :: Some(r.value.0[line]) == Outcome(script, target, digest, guard, line)
    ensures r.Ok? ==> forall line :: Refuses(r.value.1, line) <==> Refused(script, target, digest, guard, line)
  {
    hide OpsFor, RecordedDigest, LineResult, LineOps, AllStand;
    if script.version.Some? && script.version.value != PROTOCOL { return Err("unknown protocol version"); }
    var keys, byLine := GroupByLine(script.ops, target.page);
    var texts: map<string, string>, rejected: seq<Rejection> := map[], [];
    for i := 0 to |keys|
      invariant forall line :: line in texts <==> line in keys[..i] && Outcome(script, target, digest, guard, line).Some?
      invariant forall line | line in texts :: Some(texts[line]) == Outcome(script, target, digest, guard, line)
      invariant forall line :: Refuses(rejected, line) <==> line in keys[..i] && Refused(script, target, digest, guard, line)
    {
      var line := keys[i];
      assert keys[..i + 1] == keys[..i] + [line];
      var ops := byLine[line];
      var barred := Barred(script, target, digest, line);
      var more;
      if barred.Some? {
        more := RejectAll(line, ops, barred.value);
      } else {
        var text;
        text, more := ApplyLineOps(line, ops, RoleOf(target, line), target.canonical[line], guard);
        if text.Some? { texts := texts[line := text.value]; }
      }
      RefusedSoFar(rejected, more, line);
      rejected := rejected + more;
    }
    assert keys[..|keys|] == keys;
    r := Ok((texts, rejected));
  }

  lemma RefusedSoFar(rejected: seq<Rejection>, more: seq<Rejection>, line: string)
    requires AllOf(more, line)
    ensures forall other :: Refuses(rejected + more, other) <==> Refuses(rejected, other) || (other == line && more != [])
  {
    forall other ensures Refuses(rejected + more, other) <==> Refuses(rejected, other) || (other == line && more != []) {
      if Refuses(rejected, other) {
        var k :| 0 <= k < |rejected| && rejected[k].line == other;
        assert (rejected + more)[k].line == other;
      }
      if more != [] { assert (rejected + more)[|rejected|].line == line; }
    }
  }
}

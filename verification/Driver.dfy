/** `driver.py`: a chunk's attempts, its descent to finer granularities on one
    shared budget, and a page's chunks. */
module Driver {
  import opened Prelude
  import opened Manifest
  import opened Chunks
  import opened Decide
  import opened Reconcile
  import opened Acceptance
  import opened Proposals
  import opened Attempt
  import B = BlockPlanner
  import PP = PagePlanner
  import P = Pairing
  import L = LinePlanner
  import W = WindowPlanner
  import R = Routing
  import T = Batching
  import U = Units
  import E = Editing

  /** The policies and guards of a run; the pair check names only ids it knows. */
  datatype Env = Env(cfg: Config, maxAttempts: nat, perChunk: nat, guard: E.Guard, full: bool,
                     check: Sent -> PairCheck, guards: Guards) {
    ghost predicate Valid(known: set<string>) {
      cfg.Valid() && forall sent, t :: check(sent)(t).Some? ==> check(sent)(t).value <= known
    }
  }

  /** How a chunk's processing ended: done, or by an error that a run may absorb, or
      by one it may not. */
  datatype End = Completed | Broke(fatal: bool)

  // ----- a chunk over the document -----

  ghost predicate ChunkIn(w: Workspace, c: Chunk) {
    && Distinct(c.lines) && (forall p | p in c.lines :: p in w.lines)
    && (forall p | p in c.targets :: p in c.lines)
  }

  /** `target_lines`: the owned lines, in the order they are sent. */
  function TargetLines(c: Chunk): seq<nat> {
    R.Pick(c.lines, R.Elements(c.targets))
  }

  lemma TargetLinesFacts(w: Workspace, c: Chunk)
    requires ChunkIn(w, c)
    ensures Targets(w, TargetLines(c)) && forall p :: p in TargetLines(c) <==> p in c.targets
  {
    hide R.Pick;
  }

  function IdsAt(vs: seq<Line>, at: seq<nat>): (ids: seq<string>)
    requires Spots(vs, at)
    ensures |ids| == |at| && forall k | 0 <= k < |at| :: ids[k] == vs[at[k]].ref.line
  {
    seq(|at|, k requires 0 <= k < |at| => vs[at[k]].ref.line)
  }

  function IdSet(ids: seq<string>): set<string> {
    set id | id in ids
  }

  /** What an attempt is given of a chunk. */
  function SentOf(vs: seq<Line>, w: Workspace, c: Chunk): Sent
    requires Located(vs, w) && Spots(vs, c.lines) && Spots(vs, TargetLines(c))
  {
    var ids := IdsAt(vs, c.lines);
    Sent(ids, IdSet(IdsAt(vs, TargetLines(c))),
         map id | id in IdSet(ids) && id in w.byId :: vs[w.byId[id]].ocr,
         map id | id in IdSet(ids) && id in w.byId :: vs[w.byId[id]].role)
  }

  ghost predicate SourcesOf(vs: seq<Line>, sources: map<LineRef, string>) {
    forall k | 0 <= k < |vs| :: vs[k].ref in sources && sources[vs[k].ref] == vs[k].ocr
  }

  lemma {:induction false} SentIsValid(vs: seq<Line>, w: Workspace, c: Chunk, sources: map<LineRef, string>)
    requires Located(vs, w) && ChunkIn(w, c) && SourcesOf(vs, sources)
    ensures Spots(vs, c.lines) && Spots(vs, TargetLines(c)) && SentOf(vs, w, c).Valid() && KnowsSources(SentOf(vs, w, c), w.page, sources)
    ensures forall p | p in TargetLines(c) :: p < |vs| && vs[p].ref.line in SentOf(vs, w, c).targets
  {
    hide TargetLines, Located, SourcesOf, KnowsSources, IdSet, IdsAt;
    ChunkPlaces(vs, w, c);
    var ts := TargetLines(c);
    IdsOfSome(vs, ts, c.lines);
    IdsOfSome(vs, ts, ts);
    IdsOnThePage(vs, w, c.lines);
    SourcesAreKnown(vs, w, c, sources);
    SentIds(vs, w, c);
  }

  lemma SentIds(vs: seq<Line>, w: Workspace, c: Chunk)
    requires Located(vs, w) && Spots(vs, c.lines) && Spots(vs, TargetLines(c))
    requires IdSet(IdsAt(vs, TargetLines(c))) <= IdSet(IdsAt(vs, c.lines)) <= w.byId.Keys
    ensures SentOf(vs, w, c).Valid()
    ensures forall id | id in IdsAt(vs, TargetLines(c)) :: id in SentOf(vs, w, c).targets
  {
    hide TargetLines, Located, IdsAt;
  }

  lemma {:induction false} ChunkPlaces(vs: seq<Line>, w: Workspace, c: Chunk)
    requires Located(vs, w) && ChunkIn(w, c)
    ensures Spots(vs, c.lines) && Spots(vs, TargetLines(c))
    ensures forall p | p in TargetLines(c) :: p in c.lines
    ensures forall p | p in c.lines :: p < |vs| && vs[p].ref.line in w.byId
  {
    hide TargetLines;
    TargetLinesFacts(w, c);
    var ts := TargetLines(c);
    forall k | 0 <= k < |c.lines| ensures c.lines[k] < |vs| { assert c.lines[k] in c.lines; }
    forall k | 0 <= k < |ts| ensures ts[k] < |vs| { assert ts[k] in ts; }
  }

  lemma {:induction false} IdsOnThePage(vs: seq<Line>, w: Workspace, at: seq<nat>)
    requires Spots(vs, at) && forall p | p in at :: p < |vs| && vs[p].ref.line in w.byId
    ensures IdSet(IdsAt(vs, at)) <= w.byId.Keys
  {
    forall k | 0 <= k < |at| ensures IdsAt(vs, at)[k] in w.byId { assert at[k] in at; }
  }

  lemma {:induction false} IdsOfSome(vs: seq<Line>, some: seq<nat>, all: seq<nat>)
    requires Spots(vs, some) && Spots(vs, all) && forall p | p in some :: p in all
    ensures IdSet(IdsAt(vs, some)) <= IdSet(IdsAt(vs, all))
    ensures forall p | p in some :: p < |vs| && vs[p].ref.line in IdsAt(vs, all)
  {
    var ids := IdsAt(vs, all);
    forall p | p in some ensures p < |vs| && vs[p].ref.line in ids {
      var k :| 0 <= k < |all| && all[k] == p;
      assert ids[k] == vs[p].ref.line;
    }
    forall k | 0 <= k < |some| ensures IdsAt(vs, some)[k] in ids { assert some[k] in some; }
  }

  lemma {:induction false} SourcesAreKnown(vs: seq<Line>, w: Workspace, c: Chunk, sources: map<LineRef, string>)
    requires Located(vs, w) && SourcesOf(vs, sources) && Spots(vs, c.lines) && Spots(vs, TargetLines(c))
    ensures KnowsSources(SentOf(vs, w, c), w.page, sources)
  {
    hide TargetLines, IdsAt;
    var sent := SentOf(vs, w, c);
    forall id | id in sent.ocr ensures LineRef(w.page, id) in sources && sources[LineRef(w.page, id)] == sent.ocr[id] {
      assert vs[w.byId[id]].ref == LineRef(w.page, id);
    }
  }

  // ----- the part of a page that descends -----

  /** The page's blocks list each of its lines once. */
  ghost predicate Blocked(vs: seq<Line>, w: Workspace, blocks: seq<B.Block>) {
    Spots(vs, w.lines) && B.PartitionedBy(LinesAt(vs, w.lines), blocks)
  }

  lemma {:induction false} BlockedStays(vs: seq<Line>, ws: seq<Line>, w: Workspace, blocks: seq<B.Block>)
    requires Blocked(vs, w, blocks) && Evolved(vs, ws)
    ensures Blocked(ws, w, blocks)
  {
    hide Evolves;
    var a, b := LinesAt(vs, w.lines), LinesAt(ws, w.lines);
    forall k | 0 <= k < |a| ensures b[k].ref == a[k].ref { SameRef(vs, ws, w.lines[k]); }
    forall k | 0 <= k < |b| ensures B.Listed(blocks, b[k].ref.line) { assert B.Listed(blocks, a[k].ref.line); }
  }

  lemma {:induction false} PartIsOnePage(vs: seq<Line>, w: Workspace, ps: seq<nat>)
    requires Located(vs, w) && DistinctRefs(vs) && Targets(w, ps)
    ensures Spots(vs, ps) && W.OnePage(LinesAt(vs, ps))
  {
    forall k | 0 <= k < |ps| ensures ps[k] < |vs| && vs[ps[k]].ref.page == w.page { assert ps[k] in ps; }
    hide Located;
    forall i, j | 0 <= i < j < |ps| ensures LinesAt(vs, ps)[i].ref.line != LinesAt(vs, ps)[j].ref.line {
      assert vs[ps[i]].ref != vs[ps[j]].ref;
    }
  }

  function KeptOf(lines: seq<Line>): set<string> {
    set l | l in lines :: l.ref.line
  }

  lemma {:induction false} PartIsBlocked(vs: seq<Line>, w: Workspace, ps: seq<nat>, blocks: seq<B.Block>)
    requires Located(vs, w) && DistinctRefs(vs) && Targets(w, ps) && Blocked(vs, w, blocks)
    ensures Spots(vs, ps) && B.PartitionedBy(LinesAt(vs, ps), PP.SubBlocks(blocks, KeptOf(LinesAt(vs, ps))))
  {
    PartIsOnePage(vs, w, ps);
    hide Located, B.PartitionedBy, PP.SubBlocks;
    var part, page := LinesAt(vs, ps), LinesAt(vs, w.lines);
    forall l | l in part ensures l in page {
      var k :| 0 <= k < |part| && part[k] == l;
      assert ps[k] in ps;
      var i :| 0 <= i < |w.lines| && w.lines[i] == ps[k];
      assert page[i] == l;
    }
    PP.SubpageIsPartitioned(page, blocks, part);
  }

  method CopyOut(doc: array<Line>, ps: seq<nat>) returns (part: array<Line>)
    requires Spots(doc[..], ps)
    ensures fresh(part) && part[..] == LinesAt(doc[..], ps)
  {
    var lines := LinesAt(doc[..], ps);
    part := new Line[|lines|](k requires 0 <= k < |lines| => lines[k]);
  }

  /** The planner's page shares its lines with the document: what it severs there it
      severs here. */
  method WriteBack(doc: array<Line>, ps: seq<nat>, part: array<Line>)
    requires Spots(doc[..], ps) && Distinct(ps) && part.Length == |ps| && part != doc
    modifies doc
    ensures forall k | 0 <= k < |ps| :: doc[ps[k]] == part[k]
    ensures forall p: nat | p < doc.Length && p !in ps :: doc[p] == old(doc[p])
  {
    for i := 0 to |ps|
      invariant forall k | 0 <= k < i :: doc[ps[k]] == part[k]
      invariant forall p: nat | p < doc.Length && p !in ps[..i] :: doc[p] == old(doc[p])
    {
      assert ps[..i + 1] == ps[..i] + [ps[i]];
      doc[ps[i]] := part[i];
    }
    assert ps[..|ps|] == ps;
  }

  lemma {:induction false} PlanIsAPageStep(vs: seq<Line>, ws: seq<Line>, w: Workspace, ps: seq<nat>, part: seq<Line>)
    requires AllSound(vs) && Spots(vs, ps) && Targets(w, ps) && |ws| == |vs| && |part| == |ps|
    requires P.SameTexts(LinesAt(vs, ps), part) && L.LinksKept(LinesAt(vs, ps), part)
    requires forall k | 0 <= k < |ps| :: ws[ps[k]] == part[k]
    requires forall p: nat | p < |vs| && p !in ps :: ws[p] == vs[p]
    ensures PageStep(vs, ws, w)
  {
    hide P.SameText, KeepsLinks, Sound, Evolves;
    forall p: nat | p < |vs| ensures Sound(ws[p]) && Evolves(vs[p], ws[p]) {
      EvolvesToItself(vs[p]);
      if p in ps {
        var k :| 0 <= k < |ps| && ps[k] == p;
        assert P.SameText(LinesAt(vs, ps)[k], part[k]) && KeepsLinks(LinesAt(vs, ps)[k], part[k]);
        SameTextEvolves(vs[p], part[k]);
      }
    }
  }

  /** What planning a part again does to the document: nothing, or what a LINE plan of
      that part severs. */
  ghost predicate Replanned(vs: seq<Line>, ws: seq<Line>, w: Workspace, cfg: Config, ps: seq<nat>) {
    && Targets(w, ps) && Spots(vs, ps) && Spots(ws, ps) && |ws| == |vs|
    && (forall p: nat | p < |vs| && p !in ps :: ws[p] == vs[p])
    && (LinesAt(ws, ps) == LinesAt(vs, ps) || LinesAt(ws, ps) == L.LinePlan(LinesAt(vs, ps), cfg, 0).lines)
  }

  lemma ReplannedIs(vs: seq<Line>, ws: seq<Line>, w: Workspace, cfg: Config, ps: seq<nat>, part: seq<Line>)
    requires Targets(w, ps) && Spots(vs, ps) && |ws| == |vs| && |part| == |ps|
    requires part == LinesAt(vs, ps) || part == L.LinePlan(LinesAt(vs, ps), cfg, 0).lines
    requires forall k | 0 <= k < |ps| :: ws[ps[k]] == part[k]
    requires forall p: nat | p < |vs| && p !in ps :: ws[p] == vs[p]
    ensures Replanned(vs, ws, w, cfg, ps)
  {
    hide Targets, L.LinePlan;
    assert LinesAt(ws, ps) == part;
  }

  lemma SameTextEvolves(a: Line, b: Line)
    requires P.SameText(a, b) && KeepsLinks(a, b) && Sound(a)
    ensures Sound(b) && Evolves(a, b)
  {
  }

  // ----- chunks of a part, as chunks of the document -----

  function At(ps: seq<nat>, at: seq<nat>): (r: seq<nat>)
    requires forall k | 0 <= k < |at| :: at[k] < |ps|
    ensures |r| == |at| && forall k | 0 <= k < |at| :: r[k] == ps[at[k]]
  {
    seq(|at|, k requires 0 <= k < |at| => ps[at[k]])
  }

  ghost predicate Fits(ps: seq<nat>, c: Chunk) {
    (forall k | 0 <= k < |c.lines| :: c.lines[k] < |ps|) && forall k | 0 <= k < |c.targets| :: c.targets[k] < |ps|
  }

  function Placed(ps: seq<nat>, c: Chunk): Chunk
    requires Fits(ps, c)
  {
    Chunk(c.grain, At(ps, c.lines), At(ps, c.targets))
  }

  lemma {:induction false} PlanFits(n: nat, chunks: seq<Chunk>, ps: seq<nat>, c: nat)
    requires Conserves(n, chunks) && |ps| == n && c < |chunks|
    ensures Fits(ps, chunks[c])
  {
    forall k | 0 <= k < |chunks[c].targets| ensures chunks[c].targets[k] < n { assert chunks[c].targets[k] in chunks[c].targets; }
    forall k | 0 <= k < |chunks[c].lines| ensures chunks[c].lines[k] < n { assert chunks[c].lines[k] in chunks[c].lines; }
  }

  lemma {:induction false} PlacedIsIn(w: Workspace, n: nat, chunks: seq<Chunk>, ps: seq<nat>, c: nat)
    requires Conserves(n, chunks) && |ps| == n && c < |chunks| && Targets(w, ps) && Distinct(chunks[c].lines)
    ensures Fits(ps, chunks[c]) && ChunkIn(w, Placed(ps, chunks[c])) && Placed(ps, chunks[c]).grain == chunks[c].grain
  {
    PlanFits(n, chunks, ps, c);
    var chunk, placed := chunks[c], Placed(ps, chunks[c]);
    forall p | p in placed.lines ensures p in w.lines {
      var k :| 0 <= k < |placed.lines| && placed.lines[k] == p;
      assert ps[chunk.lines[k]] in ps;
    }
    forall p | p in placed.targets ensures p in placed.lines {
      var k :| 0 <= k < |placed.targets| && placed.targets[k] == p;
      assert chunk.targets[k] in chunk.targets;
      var i :| 0 <= i < |chunk.lines| && chunk.lines[i] == chunk.targets[k];
      assert placed.lines[i] == p;
    }
  }

  /** Once every chunk of a conserving plan is decided, the whole part is. */
  lemma {:induction false} PartIsDecided(vs: seq<Line>, n: nat, chunks: seq<Chunk>, ps: seq<nat>)
    requires Conserves(n, chunks) && |ps| == n && Spots(vs, ps)
    requires forall c | 0 <= c < |chunks| :: Fits(ps, chunks[c]) && AllDecided(vs, Placed(ps, chunks[c]).targets)
    ensures AllDecided(vs, ps)
  {
    forall p | 0 <= p < n ensures ps[p] < |vs| && vs[ps[p]].corrected.Some? {
      assert Owned(chunks, p);
      var c :| 0 <= c < |chunks| && p in chunks[c].targets;
      var k :| 0 <= k < |chunks[c].targets| && chunks[c].targets[k] == p;
      assert AllDecided(vs, Placed(ps, chunks[c]).targets);
      assert Placed(ps, chunks[c]).targets[k] == ps[p];
    }
  }

  lemma {:induction false} SameDecided(vs: seq<Line>, a: seq<nat>, b: seq<nat>)
    requires AllDecided(vs, a) && forall p | p in b :: p in a
    ensures AllDecided(vs, b)
  {
    forall k | 0 <= k < |b| ensures b[k] < |vs| && vs[b[k]].corrected.Some? {
      assert b[k] in b;
      var i :| 0 <= i < |a| && a[i] == b[k];
    }
  }

  // ----- the run's state between steps -----

  ghost predicate InRun(vs: seq<Line>, w: Workspace, blocks: seq<B.Block>, sources: map<LineRef, string>) {
    Ready(vs, w) && Blocked(vs, w, blocks) && SourcesOf(vs, sources)
  }

  lemma {:induction false} StepKeepsRun(vs: seq<Line>, ws: seq<Line>, w: Workspace, blocks: seq<B.Block>, sources: map<LineRef, string>)
    requires InRun(vs, w, blocks, sources) && PageStep(vs, ws, w)
    ensures InRun(ws, w, blocks, sources)
  {
    hide Ready, Blocked;
    StepKeepsReady(vs, ws, w);
    BlockedStays(vs, ws, w, blocks);
    forall k | 0 <= k < |ws| ensures ws[k].ref in sources && sources[ws[k].ref] == ws[k].ocr {
      assert Evolves(vs[k], ws[k]);
    }
  }

  lemma ReadyFacts(vs: seq<Line>, w: Workspace)
    requires Ready(vs, w)
    ensures Located(vs, w) && DistinctRefs(vs) && AllSound(vs)
    ensures Distinct(w.lines) && forall p | p in w.lines :: Reach(w, p)
  {
  }

  const EXHAUSTED: string := "all_attempts_exhausted"

  const DRIFT: string := "pair_drift_fallback"

  const ABSORBED: string := "chunk_error_absorbed"

  /** The lines the attempt loop put back to their source, reported as fallen. */
  function NeutralisedAt(vs: seq<Line>, lines: seq<nat>, neutralised: set<string>): (ws: seq<Line>)
    ensures |ws| == |vs|
    ensures forall p: nat | p < |vs| ::
      ws[p] == if p in lines && vs[p].ref.line in neutralised then FallenBack(vs[p], DRIFT) else vs[p]
  {
    seq(|vs|, p requires 0 <= p < |vs| => if p in lines && vs[p].ref.line in neutralised then FallenBack(vs[p], DRIFT) else vs[p])
  }

  /** The loop after a finished chunk. */
  method FallNeutralised(doc: array<Line>, w: Workspace, lines: seq<nat>, neutralised: set<string>)
    requires Ready(doc[..], w) && Targets(w, lines)
    modifies doc
    ensures PageStep(old(doc[..]), doc[..], w)
    ensures doc[..] == NeutralisedAt(old(doc[..]), lines, neutralised)
  {
    hide Located, NoSelfLinks, Sound, Evolves, Reach, FallenBack;
    ghost var vs := doc[..];
    NoStep(vs, w);
    TargetsInRange(vs, w, lines);
    for k := 0 to |lines|
      invariant PageStep(vs, doc[..], w)
      invariant forall p: nat | p < |vs| ::
        doc[p] == if p in lines[..k] && vs[p].ref.line in neutralised then FallenBack(vs[p], DRIFT) else vs[p]
    {
      ghost var before := doc[..];
      assert lines[..k + 1] == lines[..k] + [lines[k]] && lines[k] in lines && lines[k] !in lines[..k];
      if doc[lines[k]].ref.line in neutralised {
        FallBack(doc, lines[k], DRIFT);
        VerbsKeepTheInvariant(before[lines[k]], "", DRIFT);
        OneLineStep(before, w, lines[k], FallenBack(before[lines[k]], DRIFT));
        PageStepTransitive(vs, before, doc[..], w);
      }
    }
    assert lines[..|lines|] == lines;
  }

  // ----- what can happen to a page -----

  /** The pair check names `id` in some reply. */
  ghost predicate Names(check: PairCheck, id: string) {
    exists texts :: check(texts).Some? && id in check(texts).value
  }

  /** What processing a page does to the document, one thing at a time: a part of the
      page is planned again, the skipped lines are confirmed, a chunk is answered, a
      chunk falls, an error is absorbed. */
  datatype Event =
    | Planned(ps: seq<nat>)
    | Confirming
    | Answering(chunk: Chunk, texts: map<string, string>, neutralised: set<string>)
    | Failing(targets: seq<nat>)
    | Absorbing(undecided: seq<nat>)

  ghost predicate Happens(vs: seq<Line>, ws: seq<Line>, w: Workspace, env: Env, event: Event) {
    && PageStep(vs, ws, w)
    && match event
       case Planned(ps) => Replanned(vs, ws, w, env.cfg, ps)
       case Confirming => forall p: nat | p < |vs| :: p < |ws| && (ws[p] == vs[p] || (p in w.lines && vs[p].role.NoRole? && ws[p] == Accepted(vs[p], vs[p].ocr)))
       case Answering(c, texts, neutralised) =>
         && ChunkIn(w, c) && Runnable(vs, w, c) && FinishedThen(vs, ws, w, c, texts, env.guards, neutralised)
         && forall id | id in neutralised :: Names(env.check(SentOf(vs, w, c)), id)
       case Failing(targets) =>
         Targets(w, targets) && Spots(vs, targets) && Spots(vs, w.Pool()) && ChunkFell(vs, ws, w, targets, EXHAUSTED)
       case Absorbing(undecided) =>
         Spots(vs, undecided) && Spots(vs, w.Pool()) && ws == Fell(vs, InPool(vs, w,
           AllFor(U.Closure(ByRef(LinesAt(vs, w.Pool())), RefsAt(vs, undecided)), ABSORBED)))
  }

  ghost predicate Trace(states: seq<seq<Line>>, events: seq<Event>, vs: seq<Line>, ws: seq<Line>, w: Workspace, env: Env) {
    && |states| == |events| + 1 && states[0] == vs && states[|events|] == ws
    && forall k | 0 <= k < |events| :: Happens(states[k], states[k + 1], w, env, events[k])
  }

  /** Nothing but such events led from one document to the other. */
  ghost predicate Steps(vs: seq<Line>, ws: seq<Line>, w: Workspace, env: Env) {
    exists states, events :: Trace(states, events, vs, ws, w, env)
  }

  /** What the pair check can name, of the ids it knows. */
  ghost function Nameable(check: PairCheck, known: set<string>): (named: set<string>)
    requires forall t :: check(t).Some? ==> check(t).value <= known
    ensures forall t :: check(t).Some? ==> check(t).value <= named
    ensures forall id | id in named :: Names(check, id)
  {
    set id | id in known && Names(check, id)
  }

  lemma AnswerIsAnEvent(vs: seq<Line>, ws: seq<Line>, w: Workspace, env: Env, c: Chunk, texts: map<string, string>, neutralised: set<string>,
                        known: set<string>)
    requires env.Valid(known) && PageStep(vs, ws, w) && ChunkIn(w, c) && Runnable(vs, w, c)
    requires FinishedThen(vs, ws, w, c, texts, env.guards, neutralised) && neutralised <= Nameable(env.check(SentOf(vs, w, c)), known)
    ensures Steps(vs, ws, w, env)
  {
    hide PageStep, ChunkIn, Located, TargetLines, FinishedThen, SentOf, Names, Steps;
    OneEvent(vs, ws, w, env, Answering(c, texts, neutralised));
  }

  lemma NoEvent(vs: seq<Line>, w: Workspace, env: Env)
    ensures Steps(vs, vs, w, env)
  {
    assert Trace([vs], [], vs, vs, w, env);
  }

  lemma OneEvent(vs: seq<Line>, ws: seq<Line>, w: Workspace, env: Env, event: Event)
    requires Happens(vs, ws, w, env, event)
    ensures Steps(vs, ws, w, env)
  {
    hide Happens;
    assert Trace([vs, ws], [event], vs, ws, w, env);
  }

  lemma {:induction false} StepsTransitive(us: seq<Line>, vs: seq<Line>, ws: seq<Line>, w: Workspace, env: Env)
    requires Steps(us, vs, w, env) && Steps(vs, ws, w, env)
    ensures Steps(us, ws, w, env)
  {
    hide Happens;
    var states1, events1 :| Trace(states1, events1, us, vs, w, env);
    var states2, events2 :| Trace(states2, events2, vs, ws, w, env);
    assert Trace(states1 + states2[1..], events1 + events2, us, ws, w, env);
  }

  // ----- one chunk -----

  /** The attempts a chunk may make. */
  function Cap(env: Env, purse: int): nat {
    var left := if purse > 0 then purse else 0;
    if env.maxAttempts < left then env.maxAttempts else left
  }

  ghost predicate Runnable(vs: seq<Line>, w: Workspace, c: Chunk) {
    Located(vs, w) && Spots(vs, c.lines) && Spots(vs, TargetLines(c)) && Spots(vs, w.Pool()) && SentOf(vs, w, c).Valid()
  }

  /** A chunk that got no answer is tried again at a finer granularity. */
  predicate MayDescend(c: Chunk, canDowngrade: bool, left: int) {
    canDowngrade && !c.grain.LineGrain? && left > 0
  }

  /** What became of a chunk, from what the attempt loop says of it: the document is
      the finished one, with the pair that fell alone put back, or the failed one,
      or just as it was when an error went through. The descent has its own. */
  ghost predicate Ran(vs: seq<Line>, ws: seq<Line>, w: Workspace, env: Env, c: Chunk, oracle: nat -> Reply, start: nat, asked: nat, calls: nat,
                      purse: int, out: Outcome, end: End)
    requires Runnable(vs, w, c)
    decreases 4 - Level(c.grain), 4
  {
    && Explains(oracle, start, asked, Cap(env, purse), SentOf(vs, w, c), env.full, env.guard, env.check(SentOf(vs, w, c)), out)
    && asked <= calls
    && match out
       case Answered(texts, used, neutralised) =>
         end == Completed && calls == asked && FinishedThen(vs, ws, w, c, texts, env.guards, neutralised)
       case Raised(fatal) => end == Broke(fatal) && calls == asked && ws == vs
       case GaveUp(used, canDowngrade) =>
         if MayDescend(c, canDowngrade, purse - used) then end == Completed ==> DescentRan(vs, ws, w, env, c, oracle, asked, calls, purse - used)
         else end == Completed && calls == asked && ChunkFell(vs, ws, w, TargetLines(c), EXHAUSTED)
  }

  ghost predicate FinishedThen(vs: seq<Line>, ws: seq<Line>, w: Workspace, c: Chunk, texts: map<string, string>, guards: Guards, neutralised: set<string>)
    requires Runnable(vs, w, c)
  {
    exists us :: Finished(vs, us, w, TargetLines(c), texts, guards) && ws == NeutralisedAt(us, c.lines, neutralised)
  }

  /** One chunk of a descent: it is run while the budget lasts, and falls after. */
  ghost predicate SubRan(vs: seq<Line>, ws: seq<Line>, w: Workspace, env: Env, c: Chunk, oracle: nat -> Reply, start: nat, calls: nat, purse: int)
    decreases 4 - Level(c.grain), 5
  {
    && Runnable(vs, w, c)
    && if purse <= 0 then calls == start && ChunkFell(vs, ws, w, TargetLines(c), EXHAUSTED)
       else if c.lines == [] then calls == start && ws == vs
       else exists out, asked :: Ran(vs, ws, w, env, c, oracle, start, asked, calls, purse, out, Completed)
  }

  /** Some conserving plan of the chunk's own lines, all of it finer, was run to the end. */
  ghost predicate DescentRan(vs: seq<Line>, ws: seq<Line>, w: Workspace, env: Env, c: Chunk, oracle: nat -> Reply, start: nat, calls: nat,
                             purse: int)
    decreases 4 - Level(c.grain), 3
  {
    exists chunks, states, counts :: Descent(vs, ws, w, env, c, chunks, oracle, start, calls, purse, states, counts)
  }

  ghost predicate Descent(vs: seq<Line>, ws: seq<Line>, w: Workspace, env: Env, c: Chunk, chunks: seq<Chunk>, oracle: nat -> Reply,
                          start: nat, calls: nat, purse: int, states: seq<seq<Line>>, counts: seq<nat>)
    decreases 4 - Level(c.grain), 2
  {
    Conserves(|TargetLines(c)|, chunks) && Descended(vs, ws, w, env, c, TargetLines(c), chunks, oracle, start, calls, purse, states, counts)
  }

  /** A descent, chunk by chunk: the document and the calls made before each. */
  ghost predicate Descended(vs: seq<Line>, ws: seq<Line>, w: Workspace, env: Env, c: Chunk, ps: seq<nat>, chunks: seq<Chunk>,
                            oracle: nat -> Reply, start: nat, calls: nat, purse: int, states: seq<seq<Line>>, counts: seq<nat>)
    decreases 4 - Level(c.grain), 1
  {
    && |states| == |counts| == |chunks| + 1 && PageStep(vs, states[0], w) && counts[0] == start
    && states[|chunks|] == ws && counts[|chunks|] == calls
    && (forall k: nat | k < |chunks| :: Fits(ps, chunks[k]) && Level(chunks[k].grain) > Level(c.grain))
    && (forall k: nat | k < |chunks| ::
          SubRan(states[k], states[k + 1], w, env, Placed(ps, chunks[k]), oracle, counts[k], counts[k + 1], purse - (counts[k] - start)))
  }

  /** `_run_chunk`. The producer is called at most as often as the budget had left,
      whatever the descent; the budget never goes negative and is charged for every
      call of a chunk that completes, and a chunk that completes leaves every line
      it owns decided. What the document becomes is what the attempt loop's outcome
      asks for, and only the producer or the caller breaks a run off. */
  method RunChunk(run: Run, budget: ChunkBudget, doc: array<Line>, w: Workspace, blocks: seq<B.Block>, env: Env, chunk: Chunk,
                  ghost known: set<string>, ghost sources: map<LineRef, string>) returns (end: End, ghost out: Outcome, ghost asked: nat)
    requires env.Valid(known) && ChunkIn(w, chunk) && InRun(doc[..], w, blocks, sources)
    requires AllFaithful(run.captured, sources, env.guard) && budget.remaining >= 0
    modifies run, budget, doc
    ensures PageStep(old(doc[..]), doc[..], w) && AllFaithful(run.captured, sources, env.guard)
    ensures 0 <= budget.remaining && old(run.calls) <= run.calls <= old(run.calls) + old(budget.remaining)
    ensures end.Completed? ==> run.calls - old(run.calls) == old(budget.remaining) - budget.remaining && AllDecided(doc[..], chunk.targets)
    ensures Runnable(old(doc[..]), w, chunk)
    ensures if chunk.lines == [] then end.Completed? && doc[..] == old(doc[..]) && run.calls == old(run.calls)
            else Ran(old(doc[..]), doc[..], w, env, chunk, run.oracle, old(run.calls), asked, run.calls, old(budget.remaining), out, end)
    ensures Steps(old(doc[..]), doc[..], w, env)
    ensures old(run.polls) <= run.polls
    ensures end == Broke(true) ==> Interrupted(run.oracle, run.abort, old(run.calls), run.calls, old(run.polls), run.polls)
    ensures end == Broke(false) ==> run.calls > old(run.calls)
    decreases 4 - Level(chunk.grain), 2
  {
    hide InRun, Ready, PageStep, AllFaithful, KnowsSources, Located, TargetLines, Explains, Finished, ChunkFell, SentOf, Mine, OnPage,
         DescentRan, FinishedThen, R.Elements, Steps, Names, ChunkIn, Nameable, SourcesOf, DistinctRefs, AllSound;
    ghost var vs := doc[..];
    InRunFacts(vs, w, blocks, sources);
    NoStep(vs, w);
    NoEvent(vs, w, env);
    SubIsRunnable(vs, w, chunk, sources);
    out, asked := GaveUp(0, false), run.calls;
    if chunk.lines == [] {
      NothingSent(vs, w, chunk);
      end := Completed;
      return;
    }
    var cap := budget.AttemptsAllowed(env.maxAttempts);
    var answer := Ask(run, doc[..], w, env, chunk, cap, known, sources);
    out, asked := answer, run.calls;
    if answer.Raised? { end := Broke(answer.fatal); return; }
    budget.Spend(answer.used);
    if answer.Answered? {
      FinishAnswered(doc, w, env, chunk, answer.texts, answer.neutralised, known);
      end := Completed;
      return;
    }
    end := HandleFailure(run, budget, doc, w, blocks, env, chunk, answer.canDowngrade, known, sources);
  }

  lemma NothingSent(vs: seq<Line>, w: Workspace, c: Chunk)
    requires ChunkIn(w, c) && c.lines == []
    ensures AllDecided(vs, c.targets)
  {
    FirstIsIn(c.targets);
  }

  /** The attempts a chunk gets, on the lines as they are. */
  method Ask(run: Run, vs: seq<Line>, w: Workspace, env: Env, chunk: Chunk, most: nat, ghost known: set<string>,
             ghost sources: map<LineRef, string>) returns (answer: Outcome)
    requires env.Valid(known) && ChunkIn(w, chunk) && Located(vs, w) && SourcesOf(vs, sources) && Runnable(vs, w, chunk)
    requires AllFaithful(run.captured, sources, env.guard)
    modifies run`calls, run`retries, run`captured
    ensures AllFaithful(run.captured, sources, env.guard)
    ensures var sent := SentOf(vs, w, chunk);
      && Explains(run.oracle, old(run.calls), run.calls, most, sent, env.full, env.guard, env.check(sent), answer)
      && (answer.Answered? ==> answer.neutralised <= Nameable(env.check(sent), known))
    ensures answer.Answered? ==> forall p | p in TargetLines(chunk) :: p < |vs| && vs[p].ref.line in answer.texts
    ensures old(run.calls) <= run.calls <= old(run.calls) + most
    ensures !answer.Raised? ==> run.calls == old(run.calls) + answer.used && answer.used <= most && (answer.Answered? ==> 1 <= answer.used)
    ensures answer.Raised? ==> old(run.calls) < run.calls && (answer.fatal ==> Fatal(run.oracle(run.calls)))
    ensures answer.GaveUp? ==> answer.used == most && (answer.canDowngrade <==> most > 0)
  {
    hide AllFaithful, KnowsSources, Located, TargetLines, Explains, SentOf, Mine, OnPage, Names, ChunkIn, Nameable, SourcesOf;
    SentIsValid(vs, w, chunk, sources);
    var sent := SentOf(vs, w, chunk);
    answer := AttemptChunk(run, sent, env.full, env.guard, env.check(sent), w.page, most, Nameable(env.check(sent), known), sources);
    ExplainedFacts(run.oracle, old(run.calls), run.calls, most, sent, env.full, env.guard, env.check(sent), answer);
  }

  lemma FinishedThenIs(vs: seq<Line>, us: seq<Line>, ws: seq<Line>, w: Workspace, c: Chunk, texts: map<string, string>, guards: Guards,
                       neutralised: set<string>)
    requires Runnable(vs, w, c) && Finished(vs, us, w, TargetLines(c), texts, guards) && ws == NeutralisedAt(us, c.lines, neutralised)
    ensures FinishedThen(vs, ws, w, c, texts, guards, neutralised)
  {
    hide Runnable, Finished, TargetLines;
  }

  /** The chunk is finished, then the lines the attempt loop put back fall. */
  method FinishAnswered(doc: array<Line>, w: Workspace, env: Env, chunk: Chunk, texts: map<string, string>, neutralised: set<string>,
                        ghost known: set<string>)
    requires Ready(doc[..], w) && ChunkIn(w, chunk) && Runnable(doc[..], w, chunk)
    requires env.Valid(known) && neutralised <= Nameable(env.check(SentOf(doc[..], w, chunk)), known)
    requires forall p | p in TargetLines(chunk) :: p < doc.Length && doc[p].ref.line in texts
    modifies doc
    ensures PageStep(old(doc[..]), doc[..], w) && AllDecided(doc[..], chunk.targets)
    ensures FinishedThen(old(doc[..]), doc[..], w, chunk, texts, env.guards, neutralised)
    ensures Steps(old(doc[..]), doc[..], w, env)
  {
    hide Ready, PageStep, Located, TargetLines, Runnable, Finished, FinishedThen, R.Elements, Steps, Nameable, SentOf;
    ghost var vs := doc[..];
    TargetLinesFacts(w, chunk);
    FinishChunk(doc, w, TargetLines(chunk), texts, env.guards);
    ghost var us := doc[..];
    StepKeepsReady(vs, us, w);
    FallNeutralised(doc, w, chunk.lines, neutralised);
    PageStepTransitive(vs, us, doc[..], w);
    StepDecided(us, doc[..], w, TargetLines(chunk));
    SameDecided(doc[..], TargetLines(chunk), chunk.targets);
    FinishedThenIs(vs, us, doc[..], w, chunk, texts, env.guards, neutralised);
    AnswerIsAnEvent(vs, doc[..], w, env, chunk, texts, neutralised, known);
  }

  /** A chunk with something to send and a budget is put to the producer. */
  lemma RanAsked(vs: seq<Line>, ws: seq<Line>, w: Workspace, env: Env, c: Chunk, oracle: nat -> Reply, start: nat, asked: nat, calls: nat,
                 purse: int, out: Outcome, end: End)
    requires Runnable(vs, w, c) && Ran(vs, ws, w, env, c, oracle, start, asked, calls, purse, out, end)
    ensures env.maxAttempts > 0 && purse > 0 ==> calls > start
  {
    hide Explains, SentOf, TargetLines, Located, FinishedThen, ChunkFell;
    var sent := SentOf(vs, w, c);
    ExplainedFacts(oracle, start, asked, Cap(env, purse), sent, env.full, env.guard, env.check(sent), out);
  }

  /** What the budget needs to know of the attempt loop's record. */
  lemma ExplainedFacts(oracle: nat -> Reply, start: nat, calls: nat, most: nat, sent: Sent, full: bool, guard: E.Guard, check: PairCheck, out: Outcome)
    requires sent.Valid() && Explains(oracle, start, calls, most, sent, full, guard, check, out)
    ensures start <= calls <= start + most
    ensures !out.Raised? ==> calls == start + out.used && out.used <= most && (out.Answered? ==> 1 <= out.used)
    ensures out.Raised? ==> start < calls && (out.fatal ==> Fatal(oracle(calls)))
    ensures out.GaveUp? ==> out.used == most && (out.canDowngrade <==> most > 0)
  {
    hide Reads, Retried, RefusesPair, StandsFor, AllRetried;
  }

  lemma InRunFacts(vs: seq<Line>, w: Workspace, blocks: seq<B.Block>, sources: map<LineRef, string>)
    requires InRun(vs, w, blocks, sources)
    ensures Ready(vs, w) && Located(vs, w) && SourcesOf(vs, sources) && AllSound(vs) && Blocked(vs, w, blocks) && DistinctRefs(vs)
  {
  }

  /** `_handle_chunk_failure`: descend when a finer grain may help, exists, and can
      be paid for; fall back to OCR otherwise. */
  method HandleFailure(run: Run, budget: ChunkBudget, doc: array<Line>, w: Workspace, blocks: seq<B.Block>, env: Env, chunk: Chunk,
                       canDowngrade: bool, ghost known: set<string>, ghost sources: map<LineRef, string>) returns (end: End)
    requires env.Valid(known) && ChunkIn(w, chunk) && InRun(doc[..], w, blocks, sources)
    requires AllFaithful(run.captured, sources, env.guard) && budget.remaining >= 0
    modifies run, budget, doc
    ensures PageStep(old(doc[..]), doc[..], w) && AllFaithful(run.captured, sources, env.guard)
    ensures 0 <= budget.remaining && old(run.calls) <= run.calls <= old(run.calls) + old(budget.remaining)
    ensures end.Completed? ==> run.calls - old(run.calls) == old(budget.remaining) - budget.remaining && AllDecided(doc[..], chunk.targets)
    ensures Spots(old(doc[..]), TargetLines(chunk)) && Spots(old(doc[..]), w.Pool())
    ensures if MayDescend(chunk, canDowngrade, old(budget.remaining))
      then end.Completed? ==> DescentRan(old(doc[..]), doc[..], w, env, chunk, run.oracle, old(run.calls), run.calls, old(budget.remaining))
      else end.Completed? && run.calls == old(run.calls) && ChunkFell(old(doc[..]), doc[..], w, TargetLines(chunk), EXHAUSTED)
    ensures Steps(old(doc[..]), doc[..], w, env)
    ensures old(run.polls) <= run.polls
    ensures end == Broke(true) ==> Interrupted(run.oracle, run.abort, old(run.calls), run.calls, old(run.polls), run.polls)
    ensures end == Broke(false) ==> run.calls > old(run.calls)
    decreases 4 - Level(chunk.grain), 1
  {
    hide InRun, Ready, PageStep, AllFaithful, Located, TargetLines, ChunkFell, Descended, DescentRan, Conserves, Steps, Targets;
    InRunFacts(doc[..], w, blocks, sources);
    TargetLinesFacts(w, chunk);
    TargetsInRange(doc[..], w, TargetLines(chunk));
    PoolPlaces(doc[..], w);
    ghost var vs := doc[..];
    var next := Downgrade(chunk.grain);
    if canDowngrade && next.Some? && !budget.Exhausted() {
      ghost var chunks, states, counts;
      end, chunks, states, counts := Descend(run, budget, doc, w, blocks, env, chunk, next.value, known, sources);
      if end.Completed? {
        DescentIs(vs, doc[..], w, env, chunk, chunks, run.oracle, old(run.calls), run.calls, old(budget.remaining), states, counts);
      }
    } else {
      FallBackChunk(doc, w, TargetLines(chunk), EXHAUSTED);
      OneEvent(vs, doc[..], w, env, Failing(TargetLines(chunk)));
      SameDecided(doc[..], TargetLines(chunk), chunk.targets);
      run.fallbackChunks := run.fallbackChunks + 1;
      end := Completed;
    }
  }

  lemma DescentIs(vs: seq<Line>, ws: seq<Line>, w: Workspace, env: Env, c: Chunk, chunks: seq<Chunk>, oracle: nat -> Reply,
                  start: nat, calls: nat, purse: int, states: seq<seq<Line>>, counts: seq<nat>)
    requires Conserves(|TargetLines(c)|, chunks)
    requires Descended(vs, ws, w, env, c, TargetLines(c), chunks, oracle, start, calls, purse, states, counts)
    ensures DescentRan(vs, ws, w, env, c, oracle, start, calls, purse)
  {
    hide Conserves, Descended, TargetLines;
    assert Descent(vs, ws, w, env, c, chunks, oracle, start, calls, purse, states, counts);
  }

  /** `_descend_granularity`: only the chunk's own lines are planned again, one
      granularity finer, and their chunks share the budget, in order; once it is
      spent the rest fall back. */
  method Descend(run: Run, budget: ChunkBudget, doc: array<Line>, w: Workspace, blocks: seq<B.Block>, env: Env, chunk: Chunk,
                 next: Granularity, ghost known: set<string>, ghost sources: map<LineRef, string>)
    returns (end: End, ghost chunks: seq<Chunk>, ghost states: seq<seq<Line>>, ghost counts: seq<nat>)
    requires env.Valid(known) && ChunkIn(w, chunk) && InRun(doc[..], w, blocks, sources)
    requires AllFaithful(run.captured, sources, env.guard) && budget.remaining >= 0 && Level(next) == Level(chunk.grain) + 1
    modifies run, budget, doc
    ensures PageStep(old(doc[..]), doc[..], w) && AllFaithful(run.captured, sources, env.guard)
    ensures 0 <= budget.remaining && old(run.calls) <= run.calls <= old(run.calls) + old(budget.remaining)
    ensures end.Completed? ==> run.calls - old(run.calls) == old(budget.remaining) - budget.remaining && AllDecided(doc[..], chunk.targets)
    ensures Conserves(|TargetLines(chunk)|, chunks) && forall c | 0 <= c < |chunks| :: Level(chunks[c].grain) >= Level(next)
    ensures end.Completed? ==> Descended(old(doc[..]), doc[..], w, env, chunk, TargetLines(chunk), chunks, run.oracle, old(run.calls), run.calls,
      old(budget.remaining), states, counts)
    ensures Steps(old(doc[..]), doc[..], w, env)
    ensures old(run.polls) <= run.polls
    ensures end == Broke(true) ==> Interrupted(run.oracle, run.abort, old(run.calls), run.calls, old(run.polls), run.polls)
    ensures end == Broke(false) ==> run.calls > old(run.calls)
    decreases 4 - Level(chunk.grain), 0
  {
    hide InRun, Ready, PageStep, AllFaithful, Located, TargetLines, Conserves, ChunkIn, Descended, SubRan, PP.Coarsest, Fits,
         AllDecided, DistinctRefs, Steps, Targets, Replanned, Blocked, SourcesOf, AllSound, Placed, PP.SubBlocks;
    ghost var vs := doc[..];
    InRunFacts(vs, w, blocks, sources);
    TargetLinesFacts(w, chunk);
    var ps := TargetLines(chunk);
    ghost var made;
    var plan;
    plan, made := PlanPart(doc, w, blocks, env.cfg, ps, next);
    ghost var us := doc[..];
    StepKeepsRun(vs, us, w, blocks, sources);
    OneEvent(vs, us, w, env, Planned(ps));
    chunks, states, counts := plan, [us], [run.calls];
    DescentStarts(vs, us, w, env, chunk, ps, run.oracle, run.calls, budget.remaining);
    for k := 0 to |plan|
      invariant PageStep(vs, doc[..], w) && InRun(doc[..], w, blocks, sources) && AllFaithful(run.captured, sources, env.guard)
      invariant Steps(vs, doc[..], w, env)
      invariant 0 <= budget.remaining && run.calls - old(run.calls) == old(budget.remaining) - budget.remaining
      invariant old(run.calls) <= run.calls && old(run.polls) <= run.polls && chunks == plan
      invariant forall c | 0 <= c < k :: Fits(ps, plan[c]) && AllDecided(doc[..], Placed(ps, plan[c]).targets)
      invariant Descended(vs, doc[..], w, env, chunk, ps, plan[..k], run.oracle, old(run.calls), run.calls, old(budget.remaining), states, counts)
    {
      var stop := run.ShouldAbort();
      if stop { end := Broke(true); return; }
      ghost var before, calls, purse := doc[..], run.calls, budget.remaining;
      InRunFacts(before, w, blocks, sources);
      PlacedIsIn(w, |ps|, plan, ps, k);
      var sub := Placed(ps, plan[k]);
      end := RunSub(run, budget, doc, w, blocks, env, sub, known, sources);
      StepsTransitive(vs, before, doc[..], w, env);
      if end.Broke? {
        PageStepTransitive(vs, before, doc[..], w);
        return;
      }
      StepKeepsRun(before, doc[..], w, blocks, sources);
      PageStepTransitive(vs, before, doc[..], w);
      StillDecided(before, doc[..], w, ps, plan, k);
      DescentGoesOn(vs, before, doc[..], w, env, chunk, ps, plan, k, run.oracle, old(run.calls), calls, run.calls, old(budget.remaining), states, counts);
      states, counts := states + [doc[..]], counts + [run.calls];
    }
    end := Completed;
    assert plan[..|plan|] == plan;
    InRunFacts(doc[..], w, blocks, sources);
    TargetsInRange(doc[..], w, ps);
    PartIsDecided(doc[..], |ps|, plan, ps);
    SameDecided(doc[..], ps, chunk.targets);
  }

  /** One chunk of a descent: run on what is left of the budget, or fallen back when
      nothing is. */
  method RunSub(run: Run, budget: ChunkBudget, doc: array<Line>, w: Workspace, blocks: seq<B.Block>, env: Env, sub: Chunk,
                ghost known: set<string>, ghost sources: map<LineRef, string>) returns (end: End)
    requires env.Valid(known) && ChunkIn(w, sub) && InRun(doc[..], w, blocks, sources)
    requires AllFaithful(run.captured, sources, env.guard) && budget.remaining >= 0
    modifies run, budget, doc
    ensures PageStep(old(doc[..]), doc[..], w) && AllFaithful(run.captured, sources, env.guard)
    ensures 0 <= budget.remaining && old(run.calls) <= run.calls <= old(run.calls) + old(budget.remaining)
    ensures end.Completed? ==> run.calls - old(run.calls) == old(budget.remaining) - budget.remaining && AllDecided(doc[..], sub.targets)
    ensures end.Completed? ==> SubRan(old(doc[..]), doc[..], w, env, sub, run.oracle, old(run.calls), run.calls, old(budget.remaining))
    ensures Steps(old(doc[..]), doc[..], w, env)
    ensures old(run.polls) <= run.polls
    ensures end == Broke(true) ==> Interrupted(run.oracle, run.abort, old(run.calls), run.calls, old(run.polls), run.polls)
    ensures end == Broke(false) ==> run.calls > old(run.calls)
    decreases 4 - Level(sub.grain), 3
  {
    hide InRun, Ready, PageStep, AllFaithful, Located, TargetLines, ChunkIn, Ran, Runnable, ChunkFell, Steps, Targets;
    ghost var vs := doc[..];
    InRunFacts(doc[..], w, blocks, sources);
    SubIsRunnable(doc[..], w, sub, sources);
    if budget.Exhausted() {
      TargetLinesFacts(w, sub);
      FallBackChunk(doc, w, TargetLines(sub), EXHAUSTED);
      OneEvent(vs, doc[..], w, env, Failing(TargetLines(sub)));
      SameDecided(doc[..], TargetLines(sub), sub.targets);
      run.fallbackChunks := run.fallbackChunks + 1;
      end := Completed;
    } else {
      ghost var out, asked;
      end, out, asked := RunChunk(run, budget, doc, w, blocks, env, sub, known, sources);
    }
  }

  lemma SubIsRunnable(vs: seq<Line>, w: Workspace, c: Chunk, sources: map<LineRef, string>)
    requires Ready(vs, w) && ChunkIn(w, c) && SourcesOf(vs, sources)
    ensures Runnable(vs, w, c)
  {
    hide Located, NoSelfLinks, ChunkIn, TargetLines, SentOf;
    SentIsValid(vs, w, c, sources);
    PoolPlaces(vs, w);
  }

  lemma DescentStarts(vs: seq<Line>, us: seq<Line>, w: Workspace, env: Env, c: Chunk, ps: seq<nat>, oracle: nat -> Reply, calls: nat, purse: int)
    requires PageStep(vs, us, w)
    ensures Descended(vs, us, w, env, c, ps, [], oracle, calls, calls, purse, [us], [calls])
  {
    hide PageStep;
  }

  lemma {:induction false} DescentGoesOn(vs: seq<Line>, before: seq<Line>, after: seq<Line>, w: Workspace, env: Env, c: Chunk, ps: seq<nat>, plan: seq<Chunk>,
                                         k: nat, oracle: nat -> Reply, start: nat, calls: nat, calls': nat, purse: int,
                                         states: seq<seq<Line>>, counts: seq<nat>)
    requires k < |plan| && Descended(vs, before, w, env, c, ps, plan[..k], oracle, start, calls, purse, states, counts)
    requires Fits(ps, plan[k]) && Level(plan[k].grain) > Level(c.grain) && SubRan(before, after, w, env, Placed(ps, plan[k]), oracle, calls, calls', purse - (calls - start))
    ensures Descended(vs, after, w, env, c, ps, plan[..k + 1], oracle, start, calls', purse, states + [after], counts + [calls'])
  {
    hide PageStep, SubRan, Fits;
    var more, states', counts' := plan[..k + 1], states + [after], counts + [calls'];
    forall j: nat | j < |more|
      ensures Fits(ps, more[j]) && Level(more[j].grain) > Level(c.grain)
      ensures SubRan(states'[j], states'[j + 1], w, env, Placed(ps, more[j]), oracle, counts'[j], counts'[j + 1], purse - (counts'[j] - start))
    {
      if j < k { assert more[j] == plan[..k][j]; }
    }
  }

  lemma {:induction false} StillDecided(vs: seq<Line>, ws: seq<Line>, w: Workspace, ps: seq<nat>, chunks: seq<Chunk>, k: nat)
    requires k <= |chunks| && PageStep(vs, ws, w)
    requires forall c | 0 <= c < k :: Fits(ps, chunks[c]) && AllDecided(vs, Placed(ps, chunks[c]).targets)
    ensures forall c | 0 <= c < k :: AllDecided(ws, Placed(ps, chunks[c]).targets)
  {
    hide PageStep;
    forall c | 0 <= c < k ensures AllDecided(ws, Placed(ps, chunks[c]).targets) {
      StepDecided(vs, ws, w, Placed(ps, chunks[c]).targets);
    }
  }

  /** Re-plan some of the page's lines at a forced granularity. */
  method PlanPart(doc: array<Line>, w: Workspace, blocks: seq<B.Block>, cfg: Config, ps: seq<nat>, next: Granularity)
    returns (chunks: seq<Chunk>, ghost plan: PP.Plan)
    requires cfg.Valid() && Ready(doc[..], w) && Blocked(doc[..], w, blocks) && Targets(w, ps)
    modifies doc
    ensures PageStep(old(doc[..]), doc[..], w) && Conserves(|ps|, chunks)
    ensures forall c | 0 <= c < |chunks| :: Distinct(chunks[c].lines) && Level(chunks[c].grain) >= Level(next)
    ensures Spots(old(doc[..]), ps) && plan.chunks == chunks && PP.Coarsest(LinesAt(old(doc[..]), ps),
      PP.SubBlocks(blocks, KeptOf(LinesAt(old(doc[..]), ps))), cfg, Some(next), plan)
    ensures Replanned(old(doc[..]), doc[..], w, cfg, ps)
  {
    hide Located, NoSelfLinks, PageStep, B.PartitionedBy, W.OnePage, Conserves, P.SameTexts, L.LinksKept, PP.SubBlocks, Blocked,
         L.LinePlan, PP.Coarsest, Targets, Replanned;
    ghost var vs := doc[..];
    TargetsReach(w, ps);
    PartIsOnePage(vs, w, ps);
    PartIsBlocked(vs, w, ps, blocks);
    var part := CopyOut(doc, ps);
    var sub := PP.SubBlocks(blocks, KeptOf(part[..]));
    assert part[..] == LinesAt(vs, ps);
    var made := PP.PlanPage(part, sub, cfg, Some(next));
    WriteBack(doc, ps, part);
    PlanIsAPageStep(vs, doc[..], w, ps, part[..]);
    ReplannedIs(vs, doc[..], w, cfg, ps, part[..]);
    chunks, plan := made.chunks, made;
  }

  // ----- one page -----

  /** `_run_chunk_absorbing`: a domain error costs the chunk's undecided lines, and
      their units, their correction; anything else ends the run. Whatever happens
      short of that, every line the chunk owns is decided. */
  method RunChunkAbsorbing(run: Run, doc: array<Line>, w: Workspace, blocks: seq<B.Block>, env: Env, chunk: Chunk,
                           ghost known: set<string>, ghost sources: map<LineRef, string>) returns (end: End)
    requires env.Valid(known) && ChunkIn(w, chunk) && InRun(doc[..], w, blocks, sources)
    requires AllFaithful(run.captured, sources, env.guard)
    modifies run, doc
    ensures PageStep(old(doc[..]), doc[..], w) && AllFaithful(run.captured, sources, env.guard)
    ensures old(run.calls) <= run.calls <= old(run.calls) + env.perChunk
    ensures end.Completed? ==> AllDecided(doc[..], chunk.targets)
    ensures Steps(old(doc[..]), doc[..], w, env)
    ensures old(run.polls) <= run.polls
    ensures end.Broke? ==> end.fatal && Interrupted(run.oracle, run.abort, old(run.calls), run.calls, old(run.polls), run.polls)
    ensures Runnable(old(doc[..]), w, chunk) && (chunk.lines != [] && env.maxAttempts > 0 && env.perChunk > 0 ==> run.calls > old(run.calls))
  {
    hide InRun, Ready, PageStep, AllFaithful, Located, TargetLines, Runnable, Explains, FinishedThen, ChunkFell, Steps, Targets, ByRef, U.Closure;
    ghost var vs := doc[..];
    var budget := new ChunkBudget(env.perChunk);
    ghost var out, asked;
    end, out, asked := RunChunk(run, budget, doc, w, blocks, env, chunk, known, sources);
    if chunk.lines != [] {
      RanAsked(vs, doc[..], w, env, chunk, run.oracle, old(run.calls), asked, run.calls, env.perChunk, out, end);
    }
    if end.Completed? || end.fatal { return; }
    ghost var us := doc[..];
    StepKeepsRun(vs, us, w, blocks, sources);
    InRunFacts(us, w, blocks, sources);
    TargetLinesFacts(w, chunk);
    var fell;
    ghost var undecided;
    fell, undecided := AbsorbChunkError(doc, w, TargetLines(chunk), ABSORBED);
    PageStepTransitive(vs, us, doc[..], w);
    OneEvent(us, doc[..], w, env, Absorbing(undecided));
    StepsTransitive(vs, us, doc[..], w, env);
    SameDecided(doc[..], TargetLines(chunk), chunk.targets);
    if fell { run.fallbackChunks := run.fallbackChunks + 1; }
    end := Completed;
  }

  /** The skipped ones among the page's first lines. */
  ghost predicate SkippedAt(w: Workspace, skip: set<nat>, upTo: nat, p: nat) {
    exists k :: k in skip && k < upTo && k < |w.lines| && w.lines[k] == p
  }

  ghost predicate Confirmed(a: Line, b: Line, skipped: bool) {
    b == if skipped then Accepted(a, a.ocr) else a
  }

  lemma SkippedMore(w: Workspace, skip: set<nat>, k: nat, p: nat)
    requires k < |w.lines| && Distinct(w.lines)
    ensures SkippedAt(w, skip, k + 1, p) <==> SkippedAt(w, skip, k, p) || (k in skip && w.lines[k] == p)
    ensures !SkippedAt(w, skip, k, w.lines[k])
  {
  }

  /** `_confirm_skipped_lines`: a skipped line's source text is its decision, and no
      other line changes. */
  method ConfirmSkipped(doc: array<Line>, w: Workspace, skip: set<nat>)
    requires Ready(doc[..], w) && Spots(doc[..], w.lines) && forall k | k in skip :: k < |w.lines| && !doc[w.lines[k]].status.Fallback?
    modifies doc
    ensures PageStep(old(doc[..]), doc[..], w)
    ensures forall p: nat | p < doc.Length :: Confirmed(old(doc[p]), doc[p], SkippedAt(w, skip, |w.lines|, p))
    ensures forall k | k in skip :: doc[w.lines[k]].corrected.Some?
  {
    hide Ready, Sound, Evolves, SameLinks, PageStep, Accepted, SkippedAt;
    ghost var vs := doc[..];
    ReadyFacts(vs, w);
    hide Located;
    NoStep(vs, w);
    NoneSkipped(vs, w, skip);
    for k := 0 to |w.lines|
      invariant PageStep(vs, doc[..], w) && AllSound(doc[..])
      invariant forall p: nat | p < doc.Length :: Confirmed(vs[p], doc[p], SkippedAt(w, skip, k, p))
    {
      ghost var before := doc[..];
      var p := w.lines[k];
      assert p in w.lines;
      forall q: nat { SkippedMore(w, skip, k, q); }
      if k in skip {
        assert before[p] == vs[p];
        Accept(doc, p, doc[p].ocr);
        VerbsKeepTheInvariant(before[p], before[p].ocr, "");
        OneLineStep(before, w, p, Accepted(before[p], before[p].ocr));
        PageStepTransitive(vs, before, doc[..], w);
        StepIsSound(before, doc[..], w);
      }
    }
    forall k | k in skip ensures doc[w.lines[k]].corrected.Some? { SkippedIsDecided(vs, doc[..], w, skip, k); }
  }

  lemma StepIsSound(vs: seq<Line>, ws: seq<Line>, w: Workspace)
    requires PageStep(vs, ws, w)
    ensures AllSound(ws)
  {
  }

  lemma NoneSkipped(vs: seq<Line>, w: Workspace, skip: set<nat>)
    ensures forall p: nat | p < |vs| :: Confirmed(vs[p], vs[p], SkippedAt(w, skip, 0, p))
  {
  }

  lemma SkippedIsDecided(vs: seq<Line>, ws: seq<Line>, w: Workspace, skip: set<nat>, k: nat)
    requires |vs| == |ws| && k in skip && k < |w.lines| && w.lines[k] < |vs|
    requires forall p: nat | p < |vs| :: Confirmed(vs[p], ws[p], SkippedAt(w, skip, |w.lines|, p))
    ensures ws[w.lines[k]].corrected.Some?
  {
    assert SkippedAt(w, skip, |w.lines|, w.lines[k]);
  }

  /** How a page's lines are routed (`routing.py`). */
  datatype Routing = Routing(enabled: bool, tiers: seq<R.Tier>, canEscalate: bool, primary: Option<nat>, up: Option<nat>)

  /** Some producer takes only so many images a call. */
  predicate Capped(routing: Routing) {
    routing.primary.Some? || routing.up.Some?
  }

  /** `process_page`. Unless the run itself breaks off, no line of the page is left
      undecided, and no chunk costs more calls than its budget. Without an image cap,
      only the producer or the caller breaks it off. */
  method ProcessPage(run: Run, doc: array<Line>, w: Workspace, blocks: seq<B.Block>, env: Env, routing: Routing,
                     ghost known: set<string>, ghost sources: map<LineRef, string>) returns (end: End, served: nat)
    requires env.Valid(known) && InRun(doc[..], w, blocks, sources) && AllFaithful(run.captured, sources, env.guard)
    requires Spots(doc[..], w.lines) && |routing.tiers| == |w.lines|
    requires forall p | p in w.lines && p < doc.Length && doc[p].role.NoRole? :: !doc[p].status.Fallback?
    modifies run, doc
    ensures PageStep(old(doc[..]), doc[..], w) && AllFaithful(run.captured, sources, env.guard)
    ensures old(run.calls) <= run.calls <= old(run.calls) + env.perChunk * served
    ensures end.Completed? ==> AllDecided(doc[..], w.lines)
    ensures Steps(old(doc[..]), doc[..], w, env)
    ensures old(run.polls) <= run.polls
    ensures end.Broke? ==> end.fatal
    ensures end.Broke? && !Capped(routing) ==> Interrupted(run.oracle, run.abort, old(run.calls), run.calls, old(run.polls), run.polls)
  {
    hide InRun, Ready, PageStep, AllFaithful, Located, W.OnePage, Conserves, T.Listable, R.Once, AllDecided, R.Elements,
         PP.Coarsest, Fits, DistinctRefs, Targets, Steps;
    ghost var vs := doc[..];
    served := 0;
    InRunFacts(vs, w, blocks, sources);
    NoStep(vs, w);
    NoEvent(vs, w, env);
    AllTargets(vs, w);
    PartIsOnePage(vs, w, w.lines);
    var lines := LinesAt(doc[..], w.lines);
    ghost var plan;
    var chunks;
    chunks, plan := PlanWholePage(doc, w, blocks, env.cfg);
    var skip, out := T.Route(lines, chunks, routing.enabled, routing.tiers, routing.canEscalate, routing.primary, routing.up);
    if out.None? { return Broke(true), 0; }
    SkippedCanBeAccepted(vs, w, lines, routing, skip);
    ConfirmSkipped(doc, w, skip);
    ghost var us := doc[..];
    ConfirmingIsAnEvent(vs, us, w, env, lines, skip);
    StepKeepsRun(vs, us, w, blocks, sources);
    InRunFacts(us, w, blocks, sources);
    var items := out.value;
    ItemsAreIn(w, items);
    end, served := RunItems(run, doc, w, blocks, env, items, known, sources);
    PageStepTransitive(vs, us, doc[..], w);
    StepsTransitive(vs, us, doc[..], w, env);
    if end.Completed? { PageIsDecided(us, doc[..], w, items, skip); }
  }

  /** The page's calls, in order, each on a purse of its own. */
  method RunItems(run: Run, doc: array<Line>, w: Workspace, blocks: seq<B.Block>, env: Env, items: seq<R.Item>,
                  ghost known: set<string>, ghost sources: map<LineRef, string>) returns (end: End, served: nat)
    requires env.Valid(known) && InRun(doc[..], w, blocks, sources) && AllFaithful(run.captured, sources, env.guard)
    requires forall k | 0 <= k < |items| :: Fits(w.lines, items[k].chunk) && ChunkIn(w, Placed(w.lines, items[k].chunk))
    modifies run, doc
    ensures PageStep(old(doc[..]), doc[..], w) && AllFaithful(run.captured, sources, env.guard)
    ensures old(run.calls) <= run.calls <= old(run.calls) + env.perChunk * served
    ensures end.Completed? ==> forall k | 0 <= k < |items| :: AllDecided(doc[..], Placed(w.lines, items[k].chunk).targets)
    ensures Steps(old(doc[..]), doc[..], w, env)
    ensures old(run.polls) <= run.polls
    ensures end.Broke? ==> end.fatal && Interrupted(run.oracle, run.abort, old(run.calls), run.calls, old(run.polls), run.polls)
  {
    hide InRun, Ready, PageStep, AllFaithful, Located, AllDecided, Fits, DistinctRefs, Targets, Steps, ChunkIn, Placed;
    ghost var vs := doc[..];
    InRunFacts(vs, w, blocks, sources);
    NoStep(vs, w);
    NoEvent(vs, w, env);
    served := 0;
    while served < |items|
      invariant served <= |items| && PageStep(vs, doc[..], w) && Steps(vs, doc[..], w, env)
      invariant InRun(doc[..], w, blocks, sources) && AllFaithful(run.captured, sources, env.guard)
      invariant old(run.calls) <= run.calls <= old(run.calls) + env.perChunk * served && old(run.polls) <= run.polls
      invariant forall k | 0 <= k < served :: AllDecided(doc[..], Placed(w.lines, items[k].chunk).targets)
    {
      var stop := run.ShouldAbort();
      if stop { return Broke(true), served; }
      ghost var before := doc[..];
      OneMoreTimes(env.perChunk, served);
      end := RunChunkAbsorbing(run, doc, w, blocks, env, Placed(w.lines, items[served].chunk), known, sources);
      PageStepTransitive(vs, before, doc[..], w);
      StepsTransitive(vs, before, doc[..], w, env);
      served := served + 1;
      if end.Broke? { return; }
      StepKeepsRun(before, doc[..], w, blocks, sources);
      ItemsStillDecided(before, doc[..], w, items, served - 1);
    }
    end := Completed;
  }

  lemma {:induction false} ItemsAreIn(w: Workspace, items: seq<R.Item>)
    requires Targets(w, w.lines) && forall k | 0 <= k < |items| :: T.Wellformed(items[k]) && T.InPage(|w.lines|, items[k])
    ensures forall k | 0 <= k < |items| :: Fits(w.lines, items[k].chunk) && ChunkIn(w, Placed(w.lines, items[k].chunk))
  {
    hide *;
    forall k | 0 <= k < |items| ensures Fits(w.lines, items[k].chunk) && ChunkIn(w, Placed(w.lines, items[k].chunk)) { ItemIsIn(w, items, k); }
  }

  /** The page's first plan, at the granularity its size allows. */
  method PlanWholePage(doc: array<Line>, w: Workspace, blocks: seq<B.Block>, cfg: Config) returns (chunks: seq<Chunk>, ghost plan: PP.Plan)
    requires cfg.Valid() && Ready(doc[..], w) && Blocked(doc[..], w, blocks)
    ensures Conserves(|w.lines|, chunks) && T.Listable(chunks)
    ensures Spots(doc[..], w.lines) && plan.chunks == chunks && PP.Coarsest(LinesAt(doc[..], w.lines), blocks, cfg, None, plan)
  {
    hide Located, NoSelfLinks, B.PartitionedBy, W.OnePage, Conserves, P.SameTexts, L.LinksKept, L.LinePlan, PP.Coarsest;
    AllTargets(doc[..], w);
    PartIsOnePage(doc[..], w, w.lines);
    var part := CopyOut(doc, w.lines);
    assert part[..] == LinesAt(doc[..], w.lines);
    var made := PP.PlanPage(part, blocks, cfg, None);
    chunks, plan := made.chunks, made;
  }

  lemma SkippedCanBeAccepted(vs: seq<Line>, w: Workspace, lines: seq<Line>, routing: Routing, skip: set<nat>)
    requires Spots(vs, w.lines) && lines == LinesAt(vs, w.lines) && |routing.tiers| == |lines|
    requires forall p: nat :: p in skip <==> routing.enabled && p < |lines| && lines[p].role.NoRole? && routing.tiers[p].Skip?
    requires forall p | p in w.lines && p < |vs| && vs[p].role.NoRole? :: !vs[p].status.Fallback?
    ensures forall k | k in skip :: k < |w.lines| && !vs[w.lines[k]].status.Fallback?
  {
    forall k | k in skip ensures k < |w.lines| && !vs[w.lines[k]].status.Fallback? { assert w.lines[k] in w.lines; }
  }

  lemma {:induction false} ConfirmingIsAnEvent(vs: seq<Line>, ws: seq<Line>, w: Workspace, env: Env, lines: seq<Line>, skip: set<nat>)
    requires PageStep(vs, ws, w) && |ws| == |vs| && Spots(vs, w.lines) && lines == LinesAt(vs, w.lines)
    requires forall k | k in skip :: k < |lines| && lines[k].role.NoRole?
    requires forall p: nat | p < |vs| :: Confirmed(vs[p], ws[p], SkippedAt(w, skip, |w.lines|, p))
    ensures Steps(vs, ws, w, env)
  {
    hide PageStep, Steps;
    OneEvent(vs, ws, w, env, Confirming);
  }

  lemma {:induction false} ItemIsIn(w: Workspace, items: seq<R.Item>, k: nat)
    requires k < |items| && T.Wellformed(items[k]) && T.InPage(|w.lines|, items[k]) && Targets(w, w.lines)
    ensures Fits(w.lines, items[k].chunk) && ChunkIn(w, Placed(w.lines, items[k].chunk))
  {
    var chunk := items[k].chunk;
    forall i | 0 <= i < |chunk.lines| ensures chunk.lines[i] < |w.lines| { assert chunk.lines[i] in chunk.lines; }
    forall i | 0 <= i < |chunk.targets| ensures chunk.targets[i] < |w.lines| { assert chunk.targets[i] in chunk.targets; }
    var placed := Placed(w.lines, chunk);
    forall p | p in placed.lines ensures p in w.lines {
      var i :| 0 <= i < |placed.lines| && placed.lines[i] == p;
    }
    forall p | p in placed.targets ensures p in placed.lines {
      var i :| 0 <= i < |placed.targets| && placed.targets[i] == p;
      assert chunk.targets[i] in chunk.targets;
      var j :| 0 <= j < |chunk.lines| && chunk.lines[j] == chunk.targets[i];
      assert placed.lines[j] == p;
    }
  }

  lemma {:induction false} ItemsStillDecided(vs: seq<Line>, ws: seq<Line>, w: Workspace, items: seq<R.Item>, k: nat)
    requires k <= |items| && PageStep(vs, ws, w) && forall i | 0 <= i < k :: Fits(w.lines, items[i].chunk)
    requires forall i | 0 <= i < k :: AllDecided(vs, Placed(w.lines, items[i].chunk).targets)
    ensures forall i | 0 <= i < k :: AllDecided(ws, Placed(w.lines, items[i].chunk).targets)
  {
    hide PageStep, AllDecided, Placed, Fits;
    forall i | 0 <= i < k ensures AllDecided(ws, Placed(w.lines, items[i].chunk).targets) {
      StepDecided(vs, ws, w, Placed(w.lines, items[i].chunk).targets);
    }
  }

  /** Every line is skipped, and so confirmed, or owned by one of the items. */
  lemma {:induction false} PageIsDecided(us: seq<Line>, vs: seq<Line>, w: Workspace, items: seq<R.Item>, skip: set<nat>)
    requires R.Once(R.ItemTargets(items), R.Elements(Iota(|w.lines|)) - skip)
    requires Spots(us, w.lines) && PageStep(us, vs, w) && forall k | k in skip :: k < |w.lines| && us[w.lines[k]].corrected.Some?
    requires forall i | 0 <= i < |items| :: Fits(w.lines, items[i].chunk) && AllDecided(vs, Placed(w.lines, items[i].chunk).targets)
    ensures AllDecided(vs, w.lines)
  {
    forall k: nat | k < |w.lines| ensures w.lines[k] < |vs| && vs[w.lines[k]].corrected.Some? {
      if k in skip {
        assert Evolves(us[w.lines[k]], vs[w.lines[k]]);
      } else {
        assert Iota(|w.lines|)[k] == k;
        assert InSome(R.ItemTargets(items), k);
        var i :| 0 <= i < |items| && k in R.ItemTargets(items)[i];
        var j :| 0 <= j < |items[i].chunk.targets| && items[i].chunk.targets[j] == k;
        assert AllDecided(vs, Placed(w.lines, items[i].chunk).targets);
        assert Placed(w.lines, items[i].chunk).targets[j] == w.lines[k];
      }
    }
  }

  lemma OneMoreTimes(a: nat, n: nat)
    ensures a * (n + 1) == a * n + a
  {
  }

  lemma AllTargets(vs: seq<Line>, w: Workspace)
    requires Located(vs, w)
    ensures Targets(w, w.lines)
  {
  }
}

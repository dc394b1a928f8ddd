# Saknussemm, modelled and proved in Dafny

Saknussemm takes the OCR lines of a document, asks an edit producer (a language
model, a vision model or a rule engine) for corrections, and delivers lines under
three promises: every line keeps its identity, a word broken over several lines is
decided as one, and every line ends with a decision. This project models the code
those promises rest on and proves what they come to.

| modules | what they hold |
|---|---|
| `EditDistance`, `Alignment`, `Readback`, `PageAlignment`, `Reprojection`, `WordBoundaries` | the two-row Levenshtein loop, the banded alignment table and its backtrack, matching and re-cutting a page |
| `Manifest`, `UnionFind`, `Units`, `Pairing` | lines with their two pointer slots, the sequential linker, the cross-page linker, hyphen units as components, the split of one link |
| `DocumentLinks`, `LinkedPages` | a whole document linked as the parsers do it, and what that leaves of each page |
| `Chunks`, `WindowPlanner`, `LinePlanner`, `Coalescing`, `BlockPlanner`, `PagePlanner`, `Routing`, `Batching` | the four granularities, the choice between them, routing to producers, batches under an image cap |
| `Editing`, `LineEdits`, `Scripts`, `Replay`, `Rules` | anchors, the overlap filter, substitution, an edit script on a page, the final script and its replay, the rule producer |
| `Decide`, `Reverts`, `Proposals`, `Attempt`, `Reconcile`, `Acceptance`, `Atomicity`, `Driver`, `CrossPage`, `LossGate`, `Finalize`, `Pipeline`, `Approval` | the run: the four verbs, a producer's reply, retries, descent on one budget, pair reconciliation, acceptance, the document-wide passes, delivery, human approval |

## How it is modelled

- A line is a record; the line objects a document shares and mutates are the cells of
  an `array<Line>`, so an array position is an object's identity. A method that
  mutates lines in the source is a method with `modifies` here, tied to a function of
  the old lines, and the promises are lemmas about that function. The union-find, the
  chunk budget, the run record and the alignment read-back are classes.
- The producer is an oracle from the number of the call to a script or a classified
  error; whether the caller wants out is another, over the times it is asked.
- Costs and scores are exact reals; the backtrack keeps the source's 1e-9 tolerance, so
  optimality is stated up to 1e-9 a token.
- `similarity` is any function into [0, 1]. Pairing policies, text guards, the
  hyphen-integrity check, digests, the alphabet and folding are parameters: every
  result holds for all of them.
- The run's invariant is `Decide.Sound` on each line and `Decide.Evolves` between any
  two moments: PENDING exactly when there is no text, FALLBACK means the source text
  with a reason, REVIEW_REQUIRED has reasons, and a decision, a fall and a first reason
  are never undone. Each step of a page is a `Reconcile.PageStep`, and steps compose.

## What is false, and exactly when

- Linking a document leaves a symmetric link graph if and only if no seam is linked onto
  a page's first line that is the opening half of a pair already
  (`DocumentLinks.LinkedDocumentSymmetricIff`; seam by seam
  `Pairing.SeamKeepsSymmetryIff`). Input: `Pairing.CrossPageChainLosesALink`.
- A failed chunk takes its whole hyphen units down if and only if every other member
  that shares a bare line id with one of its lines was down before
  (`Acceptance.UnitFallsWholeIff`). Input: `Atomicity.TwinStandsAlone`.
- A broken word is decided as one under every answer and every guard if and only if it
  has two lines and one of them continues onto the other (`Atomicity.DecidedAsOneIff`,
  for a unit of undecided lines one chunk owns, whatever its links;
  `Atomicity.WalkDecidesAsOneIff` for each way the chunk's joins can be walked, the
  reading order among them): longer words are decided join by join, and a word linked
  from its second line only line by line. Inputs: `Atomicity.ChainCanEndMixed`,
  `Atomicity.HalfLinkCanEndMixed`. Each revert pass is atomic on whole units
  (`Reverts.RevertsAreUnitAtomic`).
- On a page as the linkers leave it (`LinkedPages.LinkedPagesAreLinkable`) the LINE plan
  severs links only, under a given configuration, if and only if no piece of the page,
  cut where its chains end or are full, ends on a word that leaves the page under the
  bare id of a line outside the piece (`LinePlanner.PlanSeversOnlyLinksIff`); under
  every configuration if and only if no word leaves the page under the bare id of
  another of its lines (`LinePlanner.SeversOnlyLinksIff`). Input:
  `LinePlanner.NamesakeIsSevered`.
- A unit is targeted in one window under every configuration if and only if forward
  links bridge the page without a gap from its first line, or one before it, to its
  last, within eleven lines (`WindowPlanner.TargetedTogetherIff`, whatever the page's
  links). Input: `LinkedPages.LostUnitIsSplit`.
- Replaying the final script reproduces a delivered line if and only if it carries a
  correction that came from spans or whose text passes the whole-line checks: in a run
  whole-line ops never meet the E3/E4 checks that replay applies
  (`Replay.ReplayGivesTheFinalText`). Input: `Proposals.LongAnswerIsNotReplayed`.
- `char_similarity` is 0 if and only if no order-preserving matching of equal characters
  has more matches than it costs deletions of the shorter token
  (`EditDistance.ZeroWhenNoMatchingPays`), not only for tokens that share nothing.
  Input: `EditDistance.SharedLettersMayScoreZero`.
- Accepting a line keeps the run's invariant if and only if it has not fallen
  (`Decide.AcceptKeepsIff`).

What a whole run leaves of a word over a page break: its two lines are decided, and
delivered, as one (`Pipeline.ProcessPages`, `Pipeline.Correct`) when the second line
names the first, no third line names either, no line of the second line's page has the
first one's bare id or points at the second one's, and the pair check of that page does
not name the second line. Whether the first line still has its own link, and the ids of
its page, do not matter. Where the two share a bare id a failed chunk can part them
(`Atomicity.TwinStandsAlone`).

Where a docstring and its code differ, the code is followed: `units_containing` lists
the seeds first and then the other members in pool order.

## Model

| member | source | states |
|---|---|---|
| EditDistance.Distance | src/saknussemm/core/alignment.py:81-96 | the two-row loop returns Levenshtein's recurrence, for any two sequences |
| EditDistance.LevIsLowerBound | src/saknussemm/core/alignment.py:81-96 | no chain of single-character edits from one sequence to the other is shorter than the distance |
| EditDistance.LevIsReached | src/saknussemm/core/alignment.py:81-96 | some chain of single-character edits is exactly as long as the distance, so the recurrence is the true minimum |
| EditDistance.LevBounds | src/saknussemm/core/alignment.py:81-96 | the distance is at most the longer length, at least the length difference, and 0 exactly on equal sequences |
| EditDistance.LevSymmetric | src/saknussemm/core/alignment.py:81-96 | the distance is the same both ways |
| EditDistance.LevTriangle | src/saknussemm/core/alignment.py:81-96 | the distance obeys the triangle inequality |
| EditDistance.LevFramed | src/saknussemm/core/alignment.py:81-96 | a common prefix and a common suffix leave the distance exactly as it is |
| EditDistance.CharSimilarityIsASimilarity | src/saknussemm/core/alignment.py:68-78 | `char_similarity` lies in [0, 1], is symmetric, and is 1 exactly on equal tokens |
| EditDistance.NothingSharedScoresZero | src/saknussemm/core/alignment.py:68-78 | tokens sharing no character score 0 |
| EditDistance.ZeroWhenNoMatchingPays | src/saknussemm/core/alignment.py:68-78 | a similarity is 0 exactly when no order-preserving matching of equal characters has more matches than the deletions it costs the shorter token |
| EditDistance.SharedInReachScores | src/saknussemm/core/alignment.py:68-78 | one shared character facing its twin at no more than the length difference is enough to score |
| EditDistance.SharedLettersMayScoreZero | src/saknussemm/core/alignment.py:220-236 | the failing case exists: two tokens made of the same letters score 0 |
| EditDistance.ChangedChars | src/saknussemm/core/editing.py:300-327 | the loop measures the window left by trimming the longest common prefix, then the longest common suffix of the rest; never below the edit distance, never above the longer length, 0 exactly on equal texts |
| EditDistance.InsertionIsMeasuredExactly | src/saknussemm/core/editing.py:300-327 | on any pure insertion, and any pure deletion, the measure is the length of the text inserted or deleted and equals the edit distance, whatever repetitions surround it |
| Alignment.CentreStep | src/saknussemm/core/alignment.py:176-186 | from one row to the next the rounded diagonal never goes back and never jumps more than the widened band plus two |
| Alignment.Task.Corridor | src/saknussemm/core/alignment.py:176-186 | for every n, m and band >= 0 the rows of the corridor start at (0, 0), hold the far corner, are never empty, never move back and overlap |
| Alignment.Task.CellFinite | src/saknussemm/core/alignment.py:189-245 | a cell of the banded table is finite exactly when it is inside the corridor |
| Alignment.FillCostBand | src/saknussemm/core/alignment.py:189-245 | the loop with its per-row offsets fills the table with the banded recurrence, cell by cell |
| Alignment.Task.TwoGaps | src/saknussemm/core/alignment.py:340-351 | next to a diagonal step inside the corridor there is always room for the two gaps that replace it |
| Alignment.Task.InsertionForced | src/saknussemm/core/alignment.py:330-351 | when neither a match nor a deletion explains a cell, an insertion does, exactly, and stays in the corridor; the zero-evidence rule never strands the backtrack |
| Alignment.Task.MoveSound | src/saknussemm/core/alignment.py:330-351 | whatever the tie rule picks, the move stays in the corridor, above index 0, and pays for itself up to the tolerance |
| Alignment.Task.BackStep | src/saknussemm/core/alignment.py:330-351 | one turn of the backtrack: a strictly smaller cell of the corridor, one pair more, the edge flag updated |
| Alignment.Backtrack | src/saknussemm/core/alignment.py:311-351 | the loop from the far corner terminates at (0, 0), never reads outside the corridor, and reports the edge exactly when the walk meets it |
| Alignment.Task.TraceIsAlignment | src/saknussemm/core/alignment.py:311-351 | the pairs are a monotone alignment inside the corridor, found in at most n + m steps, and no match has similarity 0 |
| Alignment.Task.TraceCost | src/saknussemm/core/alignment.py:330-351 | the cost of the pairs is within 1e-9 a step of what the table says |
| Alignment.Task.AlignsIffLists | src/saknussemm/core/alignment.py:100-110 | a sequence of pairs is a walk of matches, deletions and insertions exactly when it lists every source index and every target index once, in order |
| Alignment.Task.CellIsLowerBound | src/saknussemm/core/alignment.py:189-245 | no alignment inside the corridor costs less than the table says |
| Alignment.Task.CellIsReached | src/saknussemm/core/alignment.py:189-245 | some alignment inside the corridor costs exactly what the table says |
| Alignment.AlignTokens | src/saknussemm/core/alignment.py:278-364 | the method returns the backtrack's pairs, the score, the edge flag and the move flag of the alignment its arguments ask for |
| Alignment.BestInsideTheBand | src/saknussemm/core/alignment.py:278-364 | within its corridor the result is at most (n + m) * 1e-9 above the cheapest alignment |
| Alignment.UnbandedIsOptimal | src/saknussemm/core/alignment.py:278-364 | without a band every index is listed exactly once in order and the cost is within (n + m) * 1e-9 of the minimum over all monotone alignments |
| Alignment.CornerIsTheMinimum | src/saknussemm/core/alignment.py:189-245 | the unbanded corner is the minimum over all monotone alignments, and is reached by one |
| Alignment.BandNeverBeatsTheOptimum | src/saknussemm/core/alignment.py:278-364 | a banded result is a complete monotone alignment and never costs less than the unbanded optimum |
| Alignment.WideBandIsExact | src/saknussemm/core/alignment.py:278-364 | a band at least as long as both sequences gives the unbanded pairs and the unbanded move flag, and never reports itself exhausted |
| Alignment.SuspectMove | src/saknussemm/core/alignment.py:248-275 | the move flag is raised exactly when an unsettled source token has a near-identical twin at another index inside the corridor |
| Alignment.ScoreMeansEquality | src/saknussemm/core/alignment.py:278-364 | for any band the score lies in [0, 1]; under a similarity that is 1 only on equal tokens it is 1 exactly on equal non-empty sequences |
| Alignment.EqualAlignsExactly | src/saknussemm/core/alignment.py:248-364 | equal sequences align token by token, raise no move flag and score 1 |
| Readback.TokenAlignment.SourceForTarget | src/saknussemm/core/alignment.py:155-173 | the lazily built index answers every question the same whether it is the first or a later one |
| Readback.ReadbackIsTheAlignment | src/saknussemm/core/alignment.py:155-173 | on a complete alignment it answers each target token with its own pair, knows no other, and the sources it names strictly increase |
| PageAlignment.LineSimilarityIsEvidence | src/saknussemm/core/page_alignment.py:78-106 | `line_similarity` lies in [0, 1], is symmetric, and is positive exactly for lines of close token counts that are both empty or share a token |
| PageAlignment.AlignPageLines | src/saknussemm/core/page_alignment.py:138-169 | the matching is a strictly increasing partial injection between lines with evidence, is exactly what the alignment lists, and `unclaimed` is its complement in order |
| Reprojection.ReprojectPageLines | src/saknussemm/core/page_alignment.py:181-247 | for any tiling opcodes there is one piece per source line, cut where the source boundaries land, the cuts in range and in order |
| Reprojection.PiecesAreTheStream | src/saknussemm/core/page_alignment.py:240-247 | before newlines are stripped the pieces concatenate to the text they were cut from |
| Reprojection.StreamIsConserved | src/saknussemm/core/page_alignment.py:181-247 | for any tiling no returned character other than a newline is lost, copied or reordered |
| Reprojection.IdentityGivesLinesBack | src/saknussemm/core/page_alignment.py:181-247 | a single equal block gives every source line back, when they contain no newline |
| UnionFind.Forest.Find | src/saknussemm/core/units.py:86-90 | path halving returns the representative and changes no representative |
| UnionFind.Forest.Union | src/saknussemm/core/units.py:92-93 | hanging one root below the other merges exactly their two classes |
| UnionFind.WalkKeeps | src/saknussemm/core/units.py:67-131 | what every edge keeps, every walk along edges keeps |
| UnionFind.MergeDecides | src/saknussemm/core/units.py:92-110 | representatives that decide connectivity still do after one edge more, in both directions |
| Units.DeriveHyphenGroups | src/saknussemm/core/units.py:67-131 | the groups are exactly the connected components of at least two lines of the pointer graph restricted to the input, disjoint, in reading order, and `complete` exactly when no pointer of a member leaves the set |
| Units.LinkAll | src/saknussemm/core/units.py:95-110 | one walk over the lines unions exactly the pointers that resolve and records exactly the lines one of whose pointers does not |
| Units.Components | src/saknussemm/core/units.py:112-114 | the lists hold each class of the forest once |
| Units.GroupByLine | src/saknussemm/core/units.py:143-151 | a line is indexed exactly when some group lists it, by that group |
| Units.SameUnitIsAnEquivalence | src/saknussemm/core/units.py:67-131 | travelling together is reflexive, symmetric and transitive |
| Units.ClosureIsExtensive | src/saknussemm/core/units.py:154-192 | the closure contains its seeds |
| Units.ClosureIsMonotone | src/saknussemm/core/units.py:154-192 | more seeds give no smaller closure |
| Units.ClosureIsIdempotent | src/saknussemm/core/units.py:154-192 | closing twice adds nothing |
| Units.ClosureIsClosed | src/saknussemm/core/units.py:154-192 | a closure of lines of the pool is a union of whole units |
| Units.UnitsContaining | src/saknussemm/core/units.py:154-192 | returns exactly the closure of the seeds over the pool's units, each line once |
| Pairing.LinkHyphenPairs | src/saknussemm/core/pairing.py:306-424 | the mutable sequential linker, slot by slot, leaves the lines its step function gives |
| Pairing.LinkOne | src/saknussemm/core/pairing.py:336-424 | one turn of the loop: promotion of the candidate and both pointer writes |
| Pairing.LinkTail | src/saknussemm/core/pairing.py:378-424 | the opening line gains its forward link, keeps its backward one and its text |
| Pairing.LinkHead | src/saknussemm/core/pairing.py:367-420 | the candidate gains its backward link; one that opened a pair already loses that forward link |
| Pairing.FreshLinks | src/saknussemm/core/pairing.py:336-424 | on lines without pointers the links drawn are exactly the accepted steps, each in both directions |
| Pairing.LinkerIsSymmetric | src/saknussemm/core/pairing.py:306-424 | on lines without pointers, under any pairing predicate, forward(a) = b exactly when backward(b) = a, links join only consecutive non-blank lines, and no text moves |
| Pairing.LinkCrossPageHyphens | src/saknussemm/core/pairing.py:481-515 | the seams between consecutive pages are linked in order, by the same step |
| Pairing.SeamKeepsSymmetryIff | src/saknussemm/core/pairing.py:367-420 | linking one seam across a page break keeps the graph symmetric if and only if the next page's first line is not the opening half of a link already drawn |
| Pairing.CrossPageChainLosesALink | src/saknussemm/core/pairing.py:367-376 | the failing case exists: a word broken over a page break whose second half is broken again loses a link |
| Pairing.SplitForwardLink | src/saknussemm/core/units.py:195-251 | severs the link it names and refuses one that is not there; the role and slot updates are those of `Sever` |
| Pairing.SplitRemovesOneLink | src/saknussemm/core/units.py:217-251 | exactly one link goes, in both directions; every other link and every text stay, forward links stay answered, and a symmetric graph stays symmetric |
| Pairing.LinkerKeepsRoled | src/saknussemm/core/pairing.py:336-424 | whatever the policy, the page linker leaves every line at either end of a pointer with a hyphen role and none pointing at itself |
| Pairing.SeamsKeepRoled | src/saknussemm/core/pairing.py:481-515 | so does the cross-page linker, also where it loses a link |
| DocumentLinks.SeamsKeepSymmetryIff | src/saknussemm/core/pairing.py:481-515 | over all the seams of a document the graph stays symmetric if and only if no seam was linked onto a first line that opened a link already; names, texts and tidy slots stay in any case |
| DocumentLinks.LinkDocument | src/saknussemm/core/pairing.py:306-515 | the two linkers in the parsers' order: every page's lines, then the seams of the pages that carry text |
| DocumentLinks.LinkedDocumentSymmetricIff | src/saknussemm/core/pairing.py:306-515 | from lines without pointers to the linked document: its graph is symmetric under exactly that condition, no text moved, and whoever points or is pointed at has a role |
| Chunks.Downgrade | src/saknussemm/core/planner.py:46-51 | each step is exactly one granularity finer, and LINE is the last |
| Chunks.ListingConserves | src/saknussemm/core/planner.py:105-121 | chunks that target all they send own each line once when they list each once |
| WindowPlanner.UnitReach | src/saknussemm/core/planner.py:63-102 | the reach is the least end that holds every forward link leaving the window |
| WindowPlanner.Extend | src/saknussemm/core/planner.py:376-389 | a window grows until no link leaves it or its limit is met, and stops nowhere a link still left it before |
| WindowPlanner.CutWindows | src/saknussemm/core/planner.py:361-414 | the loop terminates for any overlap, even one at least the window size; each core is forced by size and budget |
| WindowPlanner.CoreHolds | src/saknussemm/core/planner.py:361-414 | every line of the page lies in the core of some window |
| WindowPlanner.StartsIncrease | src/saknussemm/core/planner.py:361-414 | window starts strictly increase |
| WindowPlanner.WindowSizeBound | src/saknussemm/core/planner.py:383-389 | no window has more than max(max_lines_per_request, line_window_size + 10) lines |
| WindowPlanner.AssignTargets | src/saknussemm/core/planner.py:124-177 | a unit some window holds belongs whole to the last such window, any other line to the last window holding it |
| WindowPlanner.TryWindow | src/saknussemm/core/planner.py:341-431 | the windows with their owned lines form a conserving plan |
| WindowPlanner.WindowsConserve | src/saknussemm/core/planner.py:341-431 | every line is a target of exactly one window, and that window contains it |
| WindowPlanner.ShortUnitFitsAWindow | src/saknussemm/core/planner.py:63-102 | a unit lying within eleven consecutive lines is held by some window, whatever the budgets |
| WindowPlanner.ShortUnitIsTargetedTogether | src/saknussemm/core/planner.py:124-177 | all lines of such a unit are targets of one and the same window, on a page that lost no link |
| WindowPlanner.BridgedIsHeld | src/saknussemm/core/planner.py:63-102 | forward links that bridge the page without a gap from a unit's first line, or one before it, to its last, within eleven lines, keep the unit in one window, whatever the budgets |
| WindowPlanner.UnbridgedIsSplit | src/saknussemm/core/planner.py:124-177 | without such a bridge windows of one line each target the unit's lines apart |
| WindowPlanner.TargetedTogetherIff | src/saknussemm/core/planner.py:63-177 | on any page, whatever its links, a unit is targeted in one window under every configuration if and only if it is bridged so |
| LinePlanner.FollowChain | src/saknussemm/core/planner.py:459-484 | a chunk stops at a line whose partner would exceed the cap, or at the end of its chain |
| LinePlanner.PlanLine | src/saknussemm/core/planner.py:439-519 | the chunks, the recorded splits and the severed lines are those of the plan function, whatever the links; severing never refuses |
| LinePlanner.PlanCovers | src/saknussemm/core/planner.py:439-519 | whatever the links, the chunks list the page in order, each within the cap; no text moves and no line gains a link |
| LinePlanner.PlanSeversLinks | src/saknussemm/core/planner.py:470-519 | on a page the linkers leave with no namesake of an off-page partner: the recorded splits are exactly the links that went, each where the chunk was full, and every link left lies inside one chunk |
| LinePlanner.SeversOnlyLinksIff | src/saknussemm/core/planner.py:457-519 | on a page as the linkers leave it the plan severs links only, under every valid configuration, if and only if no word leaves the page under the bare id of another of its lines |
| LinePlanner.PlanSeversOnlyLinksIff | src/saknussemm/core/planner.py:457-519 | on such a page and under the given configuration the plan severs links only if and only if, cutting the page where its chains end or are full, no piece ends on a word that leaves the page under the bare id of a line outside the piece |
| LinePlanner.NamesakeIsSevered | src/saknussemm/core/planner.py:457-519 | the failing case exists: the plan severs a word of the page for a partner on the next one, leaves the other half pointing back, and records a split of a link that never was |
| LinePlanner.LineChunksConserve | src/saknussemm/core/planner.py:439-519 | each line is a target of exactly one chunk |
| LinePlanner.LinkerGivesALinkedPage | src/saknussemm/core/pairing.py:306-424 | the linker over one page's fresh lines leaves a symmetric page that meets every hypothesis of the LINE planner |
| LinePlanner.LinkedPageLinksForward | src/saknussemm/core/planner.py:63-102 | on a page no link of which was lost every pointer between two lines is the forward link of the earlier one |
| LinkedPages.LinkedPagesAreLinkable | src/saknussemm/core/pairing.py:306-515 | every page of a parsed document, once its pages and seams are linked, meets the hypothesis of the LINE planner's exact results, also where a seam lost a link |
| LinkedPages.SeamsStayAnswered | src/saknussemm/core/pairing.py:367-420 | the seams leave every forward link answered by the backward pointer of its other end |
| LinkedPages.PageIsNeat | src/saknussemm/core/pairing.py:306-424 | each page's links go forward and do not overlap, however many pages are linked |
| LinkedPages.LostUnitIsSplit | src/saknussemm/core/planner.py:124-177 | the failing case exists: the word of two lines whose forward link a seam took, in the document of `CrossPageChainLosesALink`, is a unit of its page, and windows of one line each target its lines apart |
| Coalescing.Coalesce | src/saknussemm/core/planner.py:308-333 | ids and lines keep their concatenation, every merged chunk is within both budgets, and no in-order merge within both budgets uses fewer chunks |
| Coalescing.GreedyStaysAhead | src/saknussemm/core/planner.py:321-333 | after each group the greedy merge has no more chunks than any other merge, and a last chunk no longer than that of any merge with as many |
| Coalescing.SuffixFits | src/saknussemm/core/planner.py:321-333 | dropping groups from a chunk that fits leaves one that fits |
| BlockPlanner.JoinBlocks | src/saknussemm/core/planner.py:230-257 | two blocks share a representative exactly when hyphen units connect them |
| BlockPlanner.GroupBlocks | src/saknussemm/core/planner.py:259-267 | the groups are the classes, each in page order, in the order their first blocks appear |
| BlockPlanner.TryBlock | src/saknussemm/core/planner.py:214-305 | refuses exactly when there is no block or some class of connected blocks breaks a budget; otherwise the chunks are runs of classes within both budgets, as few as possible when coalescing |
| BlockPlanner.GroupsListThePage | src/saknussemm/core/planner.py:259-281 | when the blocks partition the page the groups list each line once, whatever the units |
| BlockPlanner.BlocksConserve | src/saknussemm/core/planner.py:269-305 | when the blocks partition the page every line is a target of exactly one chunk, coalesced or not |
| BlockPlanner.UnitInOneChunk | src/saknussemm/core/planner.py:246-281 | no BLOCK plan puts two lines of one unit in different chunks |
| PagePlanner.PlanPage | src/saknussemm/core/planner.py:527-563 | the plan is of the coarsest granularity that is neither coarser than forced nor above a budget, is built as that granularity is, and conserves the page; only the LINE plan touches the lines |
| PagePlanner.SubBlocksFrom | src/saknussemm/core/reconcile.py:48-77 | the synthetic page's blocks are the page's, in order, restricted to the kept lines, none of them empty and none missing |
| PagePlanner.SubpageIsPartitioned | src/saknussemm/core/reconcile.py:48-77 | the blocks of a cut-out part still list each of its lines once, so every finer plan conserves it |
| Routing.UnitMap | src/saknussemm/core/reconcile.py:131-197 | a line's unit is the positions of its group, for the selected groups and no other line |
| Routing.ScoreTiers | src/saknussemm/core/routing.py:175-208 | exactly the lines without a role that scored SKIP are skipped, and exactly the lines raised by themselves or by their unit escalate |
| Routing.UnitsMoveWhole | src/saknussemm/core/routing.py:193-208 | a unit wholly on the page escalates whole or not at all, an incomplete one never, and no member of a unit is skipped |
| Routing.MembersHaveRoles | src/saknussemm/core/routing.py:193-208 | where every line at either end of a pointer has a role so has every member of a unit, and the rule above applies |
| Routing.ServeChunk | src/saknussemm/core/routing.py:253-282 | each item serves targets of the chunk by the producer their tier asks for, and every target that is not skipped is served by exactly one item |
| Routing.WorkItems | src/saknussemm/core/routing.py:236-282 | every target that is not skipped is a target of exactly one item, of the escalation producer exactly when it escalates |
| Batching.PageUnitsAreClasses | src/saknussemm/core/batching.py:69-98 | on a page whose unit members have roles, sharing a call is an equivalence |
| Batching.SplitChunk | src/saknussemm/core/batching.py:78-114 | refuses only when some unit needs more images than one call takes, and exactly then where units are classes; otherwise every batch is within the cap, keeps the sent members of each unit together, and each target is placed once |
| Batching.SplitForImageCap | src/saknussemm/core/batching.py:32-130 | whatever the links every target is still served exactly once and no call is above its producer's cap; where units are classes the refusal is exact and calls of a cut chunk keep units whole |
| Batching.Route | src/saknussemm/core/routing.py:81-172 | on any page, whatever its links, each line is either skipped or a target of exactly one call, within every cap; without a cap routing never refuses |
| Editing.AllOccurrences | src/saknussemm/core/editing.py:267-271 | the search loop finds every occurrence, overlapping ones included, in order |
| Editing.NormalizeAnchor | src/saknussemm/core/editing.py:252-285 | the method resolves an anchor to its range or to the reason it has none |
| Editing.ResolvedAnchor | src/saknussemm/core/editing.py:252-285 | a resolved range is in bounds; a match anchor's range holds the matched text, and without an occurrence index it is the only one there is |
| Editing.KeptIsSeparated | src/saknussemm/core/editing.py:570-596 | what the overlap filter keeps has strictly increasing starts, each at or after the end before it, all in range |
| Editing.ApplySpans | src/saknussemm/core/editing.py:428-433 | right-to-left application over the original offsets equals the left-to-right interleaving of untouched gaps and replacements |
| Editing.RightToLeft | src/saknussemm/core/editing.py:428-433 | sorting accepted spans by descending start reverses them |
| Editing.UntouchedSurvive | src/saknussemm/core/editing.py:428-433 | each character outside every replaced range survives, moved only by what the replacements before it added or took |
| LineEdits.AdmitAll | src/saknussemm/core/editing.py:542-565 | a span is kept exactly when it holds no newline, its anchor resolves and it does not grow its range too much; each other one is rejected |
| LineEdits.FilterOverlaps | src/saknussemm/core/editing.py:570-596 | the loop keeps what the overlap filter keeps, rejects the rest, and sums what the kept spans change |
| LineEdits.ApplyLineOps | src/saknussemm/core/editing.py:519-622 | the line gets the text its verdict gives, and there is a rejection exactly when some op did not make it into that text |
| LineEdits.AcceptedIsWithinBudget | src/saknussemm/core/editing.py:463-496 | however a line is edited, an accepted text is at most the E4 budget away from its source in edit distance, and never blank |
| LineEdits.RolesOnlyRefuse | src/saknussemm/core/editing.py:499-516 | the hyphen checks only ever refuse: without roles the same accepted text stands |
| LineEdits.AcceptedIsOneLine | src/saknussemm/core/editing.py:293-297 | a one-line source stays one line |
| Scripts.GroupByLine | src/saknussemm/core/editing.py:708-712 | ops in scope are grouped by line, in the order lines first appear, each line's ops in script order |
| Scripts.ApplyEditScript | src/saknussemm/core/editing.py:654-754 | each line gets exactly the text its own in-scope ops give it when E1 and its precondition allow, is among the rejections exactly when an op of it was dropped, and an unknown protocol version is an error |
| Replay.BuildFinalEditScript | src/saknussemm/core/report.py:42-123 | the loop emits, for each line that carries a correction, its own surviving spans or one whole-line op, stamped with its page, with its source digest |
| Replay.OwnOpsOnly | src/saknussemm/core/report.py:80-123 | on its page a line meets exactly its own ops and its own digest, even when pages reuse line ids |
| Replay.ReplayGivesTheFinalText | src/saknussemm/core/report.py:80-123 | replaying the final script on a page without roles gives a decided line its final text if and only if it carries a correction whose spans survived or whose text passes the whole-line checks, and none otherwise |
| Replay.OtherLinesAreLeftAlone | src/saknussemm/core/report.py:80-123 | a line of the page nothing was decided of gets no text and no rejection |
| Rules.TokenBounds | src/saknussemm/producers/rules.py:62-70 | the bounds of the token around a match: up to the nearest whitespace on either side |
| Rules.ChosenAreApart | src/saknussemm/producers/rules.py:154-164 | the spans selected by the overlap rule are disjoint and in order |
| Rules.Compose | src/saknussemm/producers/rules.py:189-199 | the running composition is the token with its edits applied together |
| Rules.Rejected | src/saknussemm/producers/rules.py:166-205 | the rejected tokens are exactly those with a guarded edit among several whose composition is not a word |
| Rules.SpansForLine | src/saknussemm/producers/rules.py:154-164 | emits exactly the chosen edits of the tokens that were not rejected |
| Rules.EmittedPassTheFilter | src/saknussemm/core/editing.py:542-596 | every emitted span resolves to itself and survives the overlap filter: the protocol refuses none for its anchor or for E2 |
| Rules.GuardedTokensAreWords | src/saknussemm/producers/rules.py:129-205 | when matches hold no whitespace, every token that receives a guarded edit is a lexicon entry once all its emitted edits are applied together |
| Rules.SpoiledTokensAreUntouched | src/saknussemm/producers/rules.py:166-205 | no edit of a token whose composition fails is emitted |
| Decide.Accept | src/saknussemm/core/decide.py:172-194 | writes the text and CORRECTED on one line, nothing else |
| Decide.FallBack | src/saknussemm/core/decide.py:197-223 | writes the source text and FALLBACK, and the reason only when there is none yet |
| Decide.Refer | src/saknussemm/core/decide.py:226-277 | refuses a line that carries no correction; otherwise REVIEW_REQUIRED and the reason once |
| Decide.Renormalise | src/saknussemm/core/decide.py:280-289 | writes the text alone |
| Decide.VerbsKeepTheInvariant | src/saknussemm/core/decide.py:172-289 | each verb keeps: PENDING exactly when there is no text, FALLBACK means the source text and a reason, a reason belongs to a fallen line, a referral has a reason to be reviewed; and undoes no decision, fall or first reason |
| Decide.AcceptKeepsIff | src/saknussemm/core/decide.py:172-194 | accepting keeps the invariant if and only if the line has not fallen |
| Decide.OneLineMoves | src/saknussemm/core/decide.py:172-289 | a document whose lines are sound stays so when one line evolves into a sound one |
| Decide.FallNamed | src/saknussemm/core/acceptance.py:529-533 | exactly the named lines of the pool fall, each with its own reason |
| Reverts.PullUnits | src/saknussemm/core/acceptance.py:520-527 | the flagged lines keep their entry and the rest of their whole units gets the common one, and no other line has any |
| Reverts.ApplyUnitReverts | src/saknussemm/core/acceptance.py:495-534 | exactly those lines fall back, the rest of the document is unchanged |
| Reverts.RevertsAreUnitAtomic | src/saknussemm/core/acceptance.py:495-534 | once one member of a unit is flagged every member of it in the pool is at its source text, and keeps an earlier reason |
| Reverts.RevertsKeepTheInvariant | src/saknussemm/core/acceptance.py:495-534 | a revert pass keeps every line sound and undoes no decision |
| Reverts.ReviewPass | src/saknussemm/core/acceptance.py:431-492 | exactly the flagged corrections and the corrections of their units are referred; the verb never refuses |
| Reverts.ReviewChangesNoText | src/saknussemm/core/acceptance.py:431-492 | whatever is referred, no text, source or reason changes and a status moves only from CORRECTED to REVIEW_REQUIRED |
| Proposals.ScriptToRaw | src/saknussemm/core/attempt.py:120-181 | the raw reply is the whole-line proposals as they came, then each line's applied spans once, then, for a producer that owes nothing, the lines nothing was said of |
| Proposals.Validate | src/saknussemm/core/validator.py:77-218 | a reply is refused exactly when it is not well formed; otherwise the texts read off it go to the pair check, whose refusal names the pair |
| Proposals.CaptureIsFaithful | src/saknussemm/core/attempt.py:266-299 | what is captured of a line replays to what the reply said of it: one whole-line op, or spans that all applied |
| Proposals.Propose | src/saknussemm/core/attempt.py:411-440 | the verdict is the validator's on the raw reply; an accepted script captures exactly the ops of the owned lines none of whose ops were refused |
| Proposals.WithoutPairs | src/saknussemm/core/attempt.py:354-408 | the loop terminates; what it returns is the reading of the script with the dropped lines put back, and it gives up only on a script that does not stand |
| Proposals.RunTakesTheAnswer | src/saknussemm/core/attempt.py:411-440 | a run accepts and captures any whole-line answer that is one line and not blank, whatever its length |
| Proposals.LongAnswerIsNotReplayed | src/saknussemm/core/report.py:80-123 | the failing case exists: an accepted answer that adds more than the E4 budget is in the final script, and its replay gives no text |
| Attempt.ChunkBudget.Spend | src/saknussemm/core/retry.py:113-117 | charges the attempts |
| Attempt.ChunkBudget.AttemptsAllowed | src/saknussemm/core/retry.py:123-126 | never more than the cap nor than what is left, and none exactly when either is exhausted |
| Attempt.ReadScript | src/saknussemm/core/attempt.py:443-468 | a script stands, or stands without its refused pair on the last attempt only, or does not stand |
| Attempt.AttemptChunk | src/saknussemm/core/attempt.py:627-726 | every reply but the last was one to ask again after and the last explains the outcome; at most the allowed attempts are made, giving up means all of them were, and an answer is what the validator read in the last reply, covering every owned line |
| Reconcile.JoinIsOwnedByOneSide | src/saknussemm/core/reconcile.py:386-453 | a join is claimed by the chunk that owns its tail when it stays on the page, and by the chunk that owns its head when it crosses a page break; only the pointer that side reads has to be there |
| Reconcile.ClaimJoins | src/saknussemm/core/reconcile.py:386-453 | the claimed joins and their lines, in the order they were claimed, are the fold over the chunk's lines; exactly joins the chunk owns, and no line's own join is missed |
| Reconcile.ReconcileOnePair | src/saknussemm/core/reconcile.py:218-313 | the two lines become what the pair's decision gives, and no other line changes |
| Reconcile.PairIsDecidedAsOne | src/saknussemm/core/reconcile.py:238-301 | whatever the guards say both lines fall to their source or neither does; a fallen member takes the other with it, and the invariant stands |
| Reconcile.WalkUnits | src/saknussemm/core/reconcile.py:486-524 | unit by unit and member by member, both in reading order, claimed joins are reconciled one after the other, each tail and each head once, and none is left out unless another join wrote its head |
| Reconcile.ReconcileAllKeeps | src/saknussemm/core/reconcile.py:486-524 | however many joins in whatever order, every end is decided, every line stays sound and every other line is as it was |
| Reconcile.ReconcileChunk | src/saknussemm/core/reconcile.py:326-377 | the walk is over the joins the chunk claims and no other, in reading order, each claimed tail walked unless another join wrote its head; nothing out of the page's reach changes |
| Acceptance.AcceptOne | src/saknussemm/core/acceptance.py:109-149 | an undecided line becomes what the guards, its own break and its partners' fall make of it |
| Acceptance.JudgeTargets | src/saknussemm/core/acceptance.py:73-153 | targets are judged in order against the document as the earlier ones left it; exactly the newly reconciled members whose attachment fails are returned for revert |
| Acceptance.JudgingIsAPageStep | src/saknussemm/core/acceptance.py:73-153 | however many targets, every line stays sound and every target with a proposal is decided |
| Acceptance.RevertUnits | src/saknussemm/core/acceptance.py:185-202 | the reverted lines fall with the whole of their units, cross-page partners included |
| Acceptance.FinishChunk | src/saknussemm/core/outcome.py:61-121 | a chunk's answer is reconciled in reading order, judged and reverted, one after the other, and every line it owns is decided |
| Acceptance.ExtendToUnits | src/saknussemm/core/outcome.py:145-161 | exactly the lines of the targets' units that share no bare id with a target fall |
| Acceptance.FallBackChunk | src/saknussemm/core/outcome.py:164-193 | the targets fall for the given reason, then the rest of their units, and no other line changes |
| Acceptance.UnitFallsWholeIff | src/saknussemm/core/outcome.py:145-193 | after a chunk failed every line of its targets' units is at its source text if and only if every other member that shares a bare id with one of its lines was so before |
| Acceptance.MemberAfterTheFall | src/saknussemm/core/outcome.py:145-193 | each member of the targets' units falls, except that one sharing a bare id with a target keeps its state |
| Acceptance.AbsorbChunkError | src/saknussemm/core/outcome.py:196-234 | exactly the undecided targets and their whole units fall, for one reason; every target is decided |
| Atomicity.DecidedAsOneIff | src/saknussemm/core/reconcile.py:326-377 | a unit of undecided lines that one chunk owns is decided as one under every answer and every guard if and only if it has two members and one of them continues onto the other, whatever links the other one has |
| Atomicity.WalkDecidesAsOneIff | src/saknussemm/core/reconcile.py:486-524 | the same for each way the chunk's joins can be walked, the reading order among them |
| Atomicity.TwoAreDecidedAsOne | src/saknussemm/core/reconcile.py:238-301 | whatever the answer, the guards and the rest of the chunk, both lines of such a unit end at their source or neither does |
| Atomicity.OthersCanEndMixed | src/saknussemm/core/reconcile.py:486-524 | for every other such unit, whichever way the joins are walked, some answer and some guards end with one line corrected and another fallen |
| Atomicity.ChainCanEndMixed | src/saknussemm/core/reconcile.py:486-524 | the failing case exists: a word over three lines, linked by its pointers, ends mixed when its chunk is finished |
| Atomicity.HalfLinkCanEndMixed | src/saknussemm/core/reconcile.py:386-453 | so does the one of two lines: the page the LINE plan has just severed a link of leaves a word linked from its second line only, and its chunk can end mixed |
| Atomicity.TwinStandsAlone | src/saknussemm/core/outcome.py:145-161 | the failing case of a failed chunk exists: a word over two pages whose halves share a bare id ends corrected on the first page and at its source on the second |
| Driver.WriteBack | src/saknussemm/core/driver.py:415-421 | what planning severed in the cut-out part is severed in the document, and nothing else |
| Driver.PlanPart | src/saknussemm/core/driver.py:403-421 | re-planning a part of the page makes the coarsest plan for it that is no coarser than asked and within budget, conserves the part and keeps the document's invariant |
| Driver.PlanWholePage | src/saknussemm/core/driver.py:158-173 | the page's first plan is the coarsest within budget, and conserves the page |
| Driver.FallNeutralised | src/saknussemm/core/driver.py:311-317 | exactly the lines the attempt loop put back are reported fallen |
| Driver.RunChunk | src/saknussemm/core/driver.py:239-330 | calls never exceed what the budget had left, the budget never goes negative and is charged for each call; the document becomes the finished one, the failed one or that of a descent, chunk by chunk, exactly as the attempt loop's outcome asks; every owned line is decided, and only the producer or the caller breaks a run off |
| Driver.HandleFailure | src/saknussemm/core/driver.py:332-375 | without a finer grain, a budget or a reason to descend the chunk falls back at once with its units; otherwise its lines are planned again and each part ran, or fell, in order |
| Driver.Descend | src/saknussemm/core/driver.py:377-457 | only the chunk's own lines are planned again, strictly finer and conserving; their chunks run in order on the shared budget, and fall once it is spent |
| Driver.RunSub | src/saknussemm/core/driver.py:424-456 | one chunk of a descent is run on what is left of the budget, with all that says of it, or falls with its units when nothing is |
| Driver.RanAsked | src/saknussemm/core/driver.py:284-298 | a chunk with lines and a budget is always put to the producer |
| Driver.RunChunkAbsorbing | src/saknussemm/core/driver.py:191-237 | a domain error costs only undecided lines and their units; a chunk and its whole descent never call more than per_chunk_budget times |
| Driver.ConfirmSkipped | src/saknussemm/core/routing.py:211-233 | exactly the skipped lines are decided, on their source text |
| Driver.RunItems | src/saknussemm/core/driver.py:117-135 | the page's calls run in order, each on a purse of its own; when none breaks the run off every line they own is decided |
| Driver.ProcessPage | src/saknussemm/core/driver.py:76-156 | whatever the page's links: when it completes no line of the page is undecided, and no chunk cost more calls than its budget; all that happens to the document is, one thing at a time, a part planned again, the skipped lines confirmed, a chunk answered, a chunk failed or an error absorbed; without an image cap only the producer or the caller breaks it off |
| Driver.PageIsDecided | src/saknussemm/core/driver.py:109-135 | every line is skipped and confirmed, or owned by an item that was run |
| CrossPage.ClaimOfWord | src/saknussemm/core/reconcile.py:386-453 | of a word of two lines on two pages the only join any chunk can claim is the word's own, and only the chunk of its head can |
| CrossPage.WalkSettles | src/saknussemm/core/reconcile.py:486-524 | a walk that comes to such a word leaves both lines fallen or neither, one that does not leaves both as they were |
| CrossPage.FinishedKeeps | src/saknussemm/core/outcome.py:61-121 | an answered chunk of either page leaves the word even: on the first page the head undecided unless both fell, on the second both fallen or neither |
| CrossPage.FailingSpares | src/saknussemm/core/outcome.py:145-193 | a failed chunk takes both lines down or neither, or on the first page leaves the head as it was, whatever bare ids that page has |
| CrossPage.ReplannedKeeps | src/saknussemm/core/planner.py:457-519 | planning a part again never touches the head, on either page, and gives the tail no backward link |
| CrossPage.StepsKeep | src/saknussemm/core/driver.py:76-156 | however a page of the word is processed, retries, descents and absorbed errors included, the word stays even |
| WordBoundaries.WordBoundaryMoved | src/saknussemm/core/alignment.py:39-65 | true exactly when the word lists differ and re-cut the same characters, leap in length, or have two neighbours cheaper to edit joined than apart |
| LossGate.ReadGate | src/saknussemm/core/acceptance.py:365-388 | the gate aligns the words and refuses exactly on a suspected reordering, or on a changed word count below the threshold score |
| LossGate.SameWordsPass | src/saknussemm/core/acceptance.py:365-388 | a correction with the source's own words always projects, whatever the threshold |
| LossGate.OnlyReorderingAtZero | src/saknussemm/core/acceptance.py:365-388 | with the threshold at 0 only a suspected reordering is set aside |
| Finalize.PreserveBreakFacts | src/saknussemm/core/pairing.py:65-89 | respelling keeps the length, changes at most the last mark, gives a broken correction the source's mark, and does nothing twice |
| Finalize.PreserveBreakChars | src/saknussemm/core/finalize.py:62-85 | exactly the changed corrections are respelt |
| Finalize.RespellKeepsTheInvariant | src/saknussemm/core/finalize.py:62-85 | respelling keeps every line sound and leaves a fallen line alone |
| Finalize.StrictPass | src/saknussemm/core/acceptance.py:328-359 | under strict loss exactly the corrections that do not project are reverted with their units, and every changed line delivered with Word markup has its word count and no moved boundary |
| Finalize.RealignPass | src/saknussemm/core/acceptance.py:361-395 | exactly what the gate refuses is reverted with its units, and the sidecar holds every correction taken away and nothing else |
| Finalize.LossPass | src/saknussemm/core/acceptance.py:299-395 | each policy leaves exactly the document it promises |
| Finalize.SettlesOneWay | src/saknussemm/core/acceptance.py:299-395 | a loss policy leaves one document and no choice |
| Finalize.DeriveDecisionSet | src/saknussemm/core/decisions.py:136-187 | refuses exactly when some line is undecided; otherwise the decisions are the lines', reasons and review reasons included |
| Finalize.DecisionMeans | src/saknussemm/core/decisions.py:40-72 | a fallen line's decision delivers its source and exactly it has a fall-back reason, exactly a referred one has reasons to be reviewed, and a decision carries a correction exactly when the line did not fall |
| Finalize.FinalizedTogether | src/saknussemm/core/finalize.py:88-122 | two linked lines that both fell or neither did are so still after the adjacency reverts, the respelling, any loss policy and any review |
| Finalize.FinalizeDocument | src/saknussemm/core/finalize.py:88-122 | the passes in their order: the settled document is the adjacency-reverted one, respelt, under the loss policy; the review comes last and only qualifies; when every line was decided the decisions always materialise |
| Finalize.ReviewPoliciesAgree | src/saknussemm/core/finalize.py:103-122 | two review policies deliver the same text for every line, fall back on the same lines for the same reasons, and differ at most in which corrections are referred |
| Pipeline.CrossPagePartners | src/saknussemm/core/indexing.py:74-103 | the partners given to a page are exactly lines of other pages its lines point at |
| Pipeline.BuildWorkspace | src/saknussemm/core/indexing.py:74-103 | a page's scope holds its own lines by id and exactly the off-page lines one of its lines points at |
| Pipeline.LinkersGiveADocument | src/saknussemm/core/pairing.py:306-515 | under any pairing policy the linkers turn a parsed document into one a run can start from, also where a chain over a page break lost a link |
| Pipeline.OthersKeepWaiting | src/saknussemm/core/pipeline.py:491-526 | processing one page leaves every page still to come with its links, and its lines without a role exactly as found |
| Pipeline.ProcessPages | src/saknussemm/core/pipeline.py:491-526 | whatever its links: when nothing breaks the run off every line of the document is decided, and of every word of two lines over a page break both lines fell or neither did, provided its head names its tail, no third line names either, no line of the head's page has the tail's bare id or points at the head's, and the pair check of that page does not name the head; without an image cap only the producer or the caller breaks it off |
| Pipeline.Correct | src/saknussemm/core/pipeline.py:392-489 | a run whose producer never fails for good and whose caller never aborts delivers; its decisions are the document's, every line is decided and sound, no step undid a decision, a fall or a first reason, and every such word over a page break is delivered as one |
| Pipeline.ARunReplays | src/saknussemm/core/report.py:80-123 | replaying a run's script on one of its pages gives a line the delivered text or none, never touches a fallen line, and gives a text exactly when the captured spans survived or the text passes the whole-line checks |
| Approval.OwnIntents | src/saknussemm/approval.py:303-310 | each line's own intent, and exactly the referrals nobody judged |
| Approval.Plan | src/saknussemm/approval.py:296-336 | refuses exactly when a member of a unit was transcribed; otherwise each line keeps its own intent, except that a unit one member of which falls falls whole; it lists exactly the referrals nobody judged and exactly the lines pulled down with their unit |
| Approval.UnitsAreAllOrNone | src/saknussemm/approval.py:302-336 | after planning each unit is all FALLBACK or has none |
| Approval.Amend | src/saknussemm/approval.py:339-356 | the line is written through the verbs as its intent says, and the verb never refuses |
| Approval.PlanIsWritable | src/saknussemm/approval.py:296-356 | over an honest past every intent a plan yields, the unit rule included, can be written as it is recorded |
| Approval.WrittenMatchesItsRecord | src/saknussemm/approval.py:339-356 | a written line agrees with its record in text and status if and only if the intent is one the verbs can write |
| Approval.RunsLeaveAnHonestPast | src/saknussemm/approval.py:303-310 | the decisions of a run are an honest past for the lines it was given |
| Approval.Approve | src/saknussemm/approval.py:296-356 | refused as a whole nothing is written; otherwise every line is written as its intent says, over an honest past with the text and status its record states, and a unit falls in the records whole or not at all |

## Left out

- XML parsing, rewriting, schema validation and file writing: behind the format adapters; the model starts from parsed lines and ends at decisions and scripts.
- Language-model and vision clients, prompts, image cropping, token usage, temperatures and backoff delays: outside the oracle.
- Events, provenance, fingerprints, confidences, metrics and the report's field copying: no invariant hangs on them.
- `asyncio` and concurrent runs: run state is private to a run, so one sequential run is modelled.
- Floating-point rounding: costs, scores and thresholds are exact reals.
- `difflib.SequenceMatcher`, regular expressions, Unicode normalisation and case folding: opcodes, match sets and folding are parameters; opcodes are assumed to tile the two streams.
- The thresholds inside the stage A, B and C guards, quality estimation, confidence scoring and pairing geometry: each enters as any predicate or function.
- `_margin_candidates`: it only selects the texts a guard compares against, and guards are parameters here.
- Parse-time detection of hyphen roles: the linkers start from lines with roles and no pointers.
- `disambiguate_page_ids`, which renames page ids and the pointers that hold them before the seams are linked: documents start with distinct references.
- The exact wording of fallback messages, where it carries an exception's text: a fixed reason stands for it.
- Chunk ids, block labels, hyphen-split lists of a run, reconciliation counts and the fallback-chunk counter's value: labels and tallies of what is modelled.
- The order in which a dictionary yields its entries, where the source's result does not depend on it: sets and maps are visited in any order.
- The producers' differing capabilities in routing: which producer serves an item is one bit; the run's oracle answers for both.
- `_global_adjacency_pass`: which lines it flags is any function of the document; what it then reverts is modelled whole.
- Batching.SplitChunk: does not state how few batches there are; the source packs greedily and promises no minimum.
- Driver.PlanPart: the part is planned on copies whose changes are written back, since two arrays cannot share a line; the source's synthetic page shares the line objects.
- Driver.ProcessPage: does not say when an image cap refuses the page; `Batching.SplitForImageCap` states that exactly.
- Pipeline.Correct: starts from a document of which no line is decided yet, as a manifest is loaded; that the linkers produce one is `Pipeline.LinkersGiveADocument`.
- Driver.Descend: says of the parts only what their chunks conserve and that they are strictly finer; that they are the coarsest plan is `Driver.PlanPart`.
- Atomicity.DecidedAsOneIff: is about units one chunk owns; a word the planner spread over chunks of a page, or of three lines or more over pages, is reconciled join by join under `Reconcile.PairIsDecidedAsOne`.
- Pipeline.ProcessPages: that the pair check does not name a head on its own page is a hypothesis, the check being a parameter; the source pairs lines by their forward links, and such a head has none.
- Approval.Approve: stops at the manifest and the records; writing the files is outside, and which transcribed member the error names is left open.
- Pipeline.ARunReplays: replays page by page on the source texts without roles, as a consumer that has only the script does.
- Scripts.ApplyEditScript: keeps the rejected lines exactly; the reason of each rejection is the branch's own and is not restated.

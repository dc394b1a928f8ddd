/** The attempt loop (`attempt.py`, `retry.py`): ask the producer, validate, retry,
    and on the last attempt let a refused pair fall alone. */
module Attempt {
  import opened Prelude
  import opened Manifest
  import opened Editing
  import opened Proposals
  import R = Replay

  /** What the producer answers to a call: a script, or an error of one of the
      kinds the loop tells apart. */
  datatype Reply = Script(ops: seq<Op>) | Malformed | Transient | Permanent | Aborted | Domain | Foreign

  /** The errors a run does not survive. */
  predicate Fatal(reply: Reply) {
    reply.Permanent? || reply.Aborted? || reply.Foreign?
  }

  /** A run's own record. The producer is an oracle over its calls, and whether the
      caller wants out one over the times it is asked. */
  class Run {
    const oracle: nat -> Reply
    const abort: nat -> bool
    var calls: nat
    var polls: nat
    var retries: nat
    var fallbackChunks: nat
    var captured: map<LineRef, R.Capture>

    constructor (oracle: nat -> Reply, abort: nat -> bool)
      ensures this.oracle == oracle && this.abort == abort
      ensures calls == 0 && polls == 0 && retries == 0 && fallbackChunks == 0 && captured == map[]
    {
      this.oracle, this.abort := oracle, abort;
      calls, polls, retries, fallbackChunks, captured := 0, 0, 0, 0, map[];
    }

    method ShouldAbort() returns (stop: bool)
      modifies this`polls
      ensures polls == old(polls) + 1 && stop == abort(polls)
    {
      polls := polls + 1;
      stop := abort(polls);
    }
  }

  /** The last thing that happened is one a run does not survive. */
  predicate Interrupted(oracle: nat -> Reply, abort: nat -> bool, calls0: nat, calls: nat, polls0: nat, polls: nat) {
    (calls > calls0 && Fatal(oracle(calls))) || (polls > polls0 && abort(polls))
  }

  /** `ChunkBudget`: one purse for a chunk and its whole descent. */
  class ChunkBudget {
    var remaining: int

    constructor (n: nat)
      ensures remaining == n
    {
      remaining := n;
    }

    /** Attempts already made are charged, whatever is left. */
    method Spend(attempts: nat)
      modifies this
      ensures remaining == old(remaining) - attempts
    {
      remaining := remaining - attempts;
    }

    predicate Exhausted()
      reads this
    {
      remaining <= 0
    }

    /** How many the next call may make: the cap, bounded by what is left. */
    function AttemptsAllowed(cap: nat): (n: nat)
      reads this
      ensures n <= cap && (remaining >= 0 ==> n <= remaining) && (n == 0 <==> cap == 0 || Exhausted())
    {
      var left := if remaining > 0 then remaining else 0;
      if cap < left then cap else left
    }
  }

  /** How the loop stopped: with a validated reply and the lines put back to OCR for
      it, without one, or by an error the loop does not survive. */
  datatype Outcome =
    | Answered(texts: map<string, string>, used: nat, neutralised: set<string>)
    | GaveUp(used: nat, canDowngrade: bool)
    | Raised(fatal: bool)

  datatype Failure = HyphenRefusal | OutputError | TransientError

  /** `_classify_retry`: whether to try again, and whether this was the chunk's first
      hyphen refusal. */
  datatype RetryDecision = RetryDecision(retryable: bool, hyphen: bool)

  function ClassifyRetry(failure: Failure, hyphenSeen: bool): RetryDecision {
    match failure
    case HyphenRefusal => RetryDecision(true, !hyphenSeen)
    case OutputError => RetryDecision(true, false)
    case TransientError => RetryDecision(true, false)
  }

  /** A reply the loop may ask again after. */
  ghost predicate Retried(reply: Reply, sent: Sent, full: bool, guard: Guard, check: PairCheck) {
    match reply
    case Malformed => true
    case Transient => true
    case Script(ops) => DoesNotStand(ops, sent, full, guard, check)
    case _ => false
  }

  /** The ops a reply came to stand for: the script's, or with some lines put back. */
  function StandsFor(ops: seq<Op>, sent: Sent, neutralised: set<string>): seq<Op>
    requires sent.Valid()
  {
    if neutralised == {} then ops else Neutralised(ops, sent, neutralised)
  }

  ghost predicate RefusesPair(ops: seq<Op>, sent: Sent, full: bool, guard: Guard, check: PairCheck, within: set<string>) {
    exists lines: set<string> :: lines != {} && lines <= within && Reads(ops, sent, full, guard, check, PairRefused(lines))
  }

  ghost predicate AllRetried(oracle: nat -> Reply, from: nat, to: nat, sent: Sent, full: bool, guard: Guard, check: PairCheck) {
    forall i | from < i < to :: Retried(oracle(i), sent, full, guard, check)
  }

  lemma OneMoreRetried(oracle: nat -> Reply, from: nat, to: nat, sent: Sent, full: bool, guard: Guard, check: PairCheck)
    requires AllRetried(oracle, from, to, sent, full, guard, check) && Retried(oracle(to), sent, full, guard, check)
    ensures AllRetried(oracle, from, to + 1, sent, full, guard, check)
  {
    hide Retried;
  }

  /** Why the loop stopped where it did, call by call: every reply but the last was
      one to ask again after, and the last one explains the outcome. */
  ghost predicate Explains(oracle: nat -> Reply, start: nat, calls: nat, most: nat, sent: Sent, full: bool, guard: Guard,
                           check: PairCheck, out: Outcome)
    requires sent.Valid()
  {
    && start <= calls <= start + most
    && AllRetried(oracle, start, calls, sent, full, guard, check)
    && match out
       case Answered(texts, used, neutralised) =>
         && 1 <= used && calls == start + used && oracle(calls).Script?
         && Reads(StandsFor(oracle(calls).ops, sent, neutralised), sent, full, guard, check, Valid(texts))
         && (neutralised != {} ==> used == most && RefusesPair(oracle(calls).ops, sent, full, guard, check, neutralised))
       case GaveUp(used, canDowngrade) =>
         && used == most && calls == start + most && (canDowngrade <==> most > 0)
         && (most > 0 ==> Retried(oracle(calls), sent, full, guard, check))
       case Raised(fatal) =>
         && start < calls
         && if fatal then Fatal(oracle(calls))
            else oracle(calls).Domain? || (calls == start + most && Retried(oracle(calls), sent, full, guard, check))
  }

  /** One script: it stands, or on the last attempt without the pair it is refused for
      (`_pair_fallback`), or it does not. */
  method ReadScript(run: Run, ops: seq<Op>, sent: Sent, full: bool, guard: Guard, check: PairCheck, page: string, attempt: nat, most: nat,
                    ghost known: set<string>, ghost sources: map<LineRef, string>) returns (settled: Option<Outcome>, failure: Failure)
    requires sent.Valid() && KnowsSources(sent, page, sources) && AllFaithful(run.captured, sources, guard)
    requires forall t :: check(t).Some? ==> check(t).value <= known
    modifies run`captured
    ensures AllFaithful(run.captured, sources, guard)
    ensures settled.None? || settled == Some(Raised(false)) ==>
      DoesNotStand(ops, sent, full, guard, check) && run.captured == old(run.captured)
    ensures settled.Some? ==> settled.value.Answered? || (settled.value == Raised(false) && attempt == most)
    ensures settled.Some? && settled.value.Answered? ==>
      var texts, neutralised := settled.value.texts, settled.value.neutralised;
      && settled.value.used == attempt && sent.targets <= texts.Keys <= sent.ocr.Keys && check(texts).None?
      && Reads(StandsFor(ops, sent, neutralised), sent, full, guard, check, Valid(texts))
      && (neutralised != {} ==> attempt == most && RefusesPair(ops, sent, full, guard, check, neutralised)) && neutralised <= known
      && run.captured == old(run.captured) + OnPage(Mine(StandsFor(ops, sent, neutralised), sent, guard, texts), page)
  {
    hide AllFaithful, KnowsSources, Neutralised, Reads, Mine, OnPage;
    var verdict, after := Propose(ops, sent, full, guard, check, page, run.captured, sources);
    failure := if verdict.PairRefused? then HyphenRefusal else OutputError;
    if verdict.Valid? {
      run.captured := after;
      return Some(Answered(verdict.texts, attempt, {})), failure;
    }
    if verdict.PairRefused? && verdict.lines != {} && attempt == most {
      var texts, dropped;
      texts, dropped, after := WithoutPairs(verdict.lines, ops, sent, full, guard, check, page, run.captured, known, sources);
      if texts.None? { return Some(Raised(false)), failure; }
      run.captured := after;
      return Some(Answered(texts.value, attempt, dropped)), failure;
    }
    settled := None;
  }

  /** `_attempt_chunk`. It asks again only after replies that did not stand, at most
      `maxAttempts` times in all; what it returns is what the validator read in the
      last reply, every owned line covered; a pair falls alone only on the last
      attempt, and giving up means every allowed attempt was made. */
  method AttemptChunk(run: Run, sent: Sent, full: bool, guard: Guard, check: PairCheck, page: string, maxAttempts: nat,
                      ghost known: set<string>, ghost sources: map<LineRef, string>) returns (out: Outcome)
    requires sent.Valid() && KnowsSources(sent, page, sources) && AllFaithful(run.captured, sources, guard)
    requires forall t :: check(t).Some? ==> check(t).value <= known
    modifies run`calls, run`retries, run`captured
    ensures AllFaithful(run.captured, sources, guard)
    ensures Explains(run.oracle, old(run.calls), run.calls, maxAttempts, sent, full, guard, check, out)
    ensures run.retries == old(run.retries) + if run.calls == old(run.calls) then 0 else run.calls - old(run.calls) - 1
    ensures out.Answered? ==> sent.targets <= out.texts.Keys <= sent.ocr.Keys && check(out.texts).None? && out.neutralised <= known
    ensures run.captured == if !out.Answered? then old(run.captured)
      else old(run.captured) + OnPage(Mine(StandsFor(run.oracle(run.calls).ops, sent, out.neutralised), sent, guard, out.texts), page)
  {
    hide AllFaithful, KnowsSources, StandsFor, Reads, Mine, OnPage, DoesNotStand, RefusesPair, AllRetried;
    var hyphenSeen := false;
    var attempt := 0;
    NoneRetried(run.oracle, run.calls, sent, full, guard, check);
    while attempt < maxAttempts
      invariant (maxAttempts > 0 ==> attempt < maxAttempts) && attempt <= maxAttempts && run.calls == old(run.calls) + attempt
      invariant AllFaithful(run.captured, sources, guard) && run.captured == old(run.captured)
      invariant run.retries == old(run.retries) + attempt
      invariant AllRetried(run.oracle, old(run.calls), run.calls + 1, sent, full, guard, check)
      decreases maxAttempts - attempt
    {
      attempt := attempt + 1;
      run.calls := run.calls + 1;
      var failure;
      match run.oracle(run.calls) {
      case Permanent => return Raised(true);
      case Aborted => return Raised(true);
      case Foreign => return Raised(true);
      case Domain => return Raised(false);
      case Malformed => failure := OutputError;
      case Transient => failure := TransientError;
      case Script(ops) =>
        var settled;
        settled, failure := ReadScript(run, ops, sent, full, guard, check, page, attempt, maxAttempts, known, sources);
        if settled.Some? { return settled.value; }
      }
      OneMoreRetried(run.oracle, old(run.calls), run.calls, sent, full, guard, check);
      var decision := ClassifyRetry(failure, hyphenSeen);
      if attempt < maxAttempts && decision.retryable {
        run.retries := run.retries + 1;
        hyphenSeen := hyphenSeen || decision.hyphen;
        continue;
      }
      return GaveUp(attempt, decision.retryable);
    }
    out := GaveUp(attempt, false);
  }

  lemma NoneRetried(oracle: nat -> Reply, from: nat, sent: Sent, full: bool, guard: Guard, check: PairCheck)
    ensures AllRetried(oracle, from, from, sent, full, guard, check) && AllRetried(oracle, from, from + 1, sent, full, guard, check)
  {
  }
}

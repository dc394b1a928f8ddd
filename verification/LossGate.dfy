/** The token gate of the loss policy (`_loss_policy_pass` in `acceptance.py`): a
    correction whose words cannot be aligned onto the source's is not projected. */
module LossGate {
  import opened Prelude
  import opened Manifest
  import A = Alignment
  import D = EditDistance
  import LE = LineEdits

  /** `str.split`. */
  function Words(text: string): (ws: seq<string>)
    decreases |text|
  {
    var start := LE.SkipSpaces(text, 0);
    if start == |text| then []
    else
      SkipsForward(text, start);
      [text[start..LE.SkipWord(text, start)]] + Words(text[LE.SkipWord(text, start)..])
  }

  lemma {:induction false} SkipsForward(text: string, start: nat)
    requires start == LE.SkipSpaces(text, 0) && start < |text|
    ensures start < LE.SkipWord(text, start)
  {
    StopsAtAWord(text, 0);
  }

  lemma {:induction false} StopsAtAWord(text: string, from: nat)
    requires from <= |text|
    ensures LE.SkipSpaces(text, from) < |text| ==> !IsSpace(text[LE.SkipSpaces(text, from)])
    decreases |text| - from
  {
    if from < |text| && IsSpace(text[from]) { StopsAtAWord(text, from + 1); }
  }

  function WordSimilarity(a: string, b: string): real {
    D.CharSimilarity(a, b)
  }

  lemma WordsAreCompared()
    ensures A.IsSimilarity(WordSimilarity) && forall x :: WordSimilarity(x, x) == 1.0
  {
    forall x: string, y: string ensures 0.0 <= WordSimilarity(x, y) <= 1.0 { D.CharSimilarityIsASimilarity(x, y); }
  }

  const REORDER: string := "token_realign: suspected word reorder"
  const LOW: string := "token_realign: alignment score below the threshold"

  /** Why a correction may not be projected: its words seem to have moved, or their
      number changed and too little of them aligns. */
  ghost function Gate(source: seq<string>, target: seq<string>, threshold: real): Option<string> {
    var t, n, m := A.TaskOf(source, target, None, WordSimilarity), |source|, |target|;
    WordsAreCompared();
    t.Corridor(n);
    var pairs := t.Trace(n, m);
    if A.Suspect(t, pairs) then Some(REORDER)
    else if m != n && A.Score(pairs, n, m) < threshold then Some(LOW)
    else None
  }

  /** The gate, through the aligner. */
  method ReadGate(source: string, corrected: string, threshold: real) returns (reason: Option<string>)
    ensures reason == Gate(Words(source), Words(corrected), threshold)
  {
    hide Words, A.Suspect, A.Score;
    WordsAreCompared();
    var sourceTokens, targetTokens := Words(source), Words(corrected);
    var pairs, score, moved, exhausted := A.AlignTokens(sourceTokens, targetTokens, None, WordSimilarity);
    if moved { return Some(REORDER); }
    if |targetTokens| != |sourceTokens| && score < threshold { return Some(LOW); }
    reason := None;
  }

  /** A correction that only moves spaces around its source's words always projects. */
  lemma SameWordsPass(source: seq<string>, threshold: real)
    ensures Gate(source, source, threshold) == None
  {
    hide A.Suspect, A.Score;
    WordsAreCompared();
    A.EqualAlignsExactly(source, WordSimilarity);
  }

  /** With the threshold at 0 only a suspected reordering is set aside. */
  lemma OnlyReorderingAtZero(source: seq<string>, target: seq<string>)
    ensures Gate(source, target, 0.0) != Some(LOW)
  {
    hide A.Suspect, A.Score;
    WordsAreCompared();
    A.ScoreMeansEquality(source, target, None, WordSimilarity);
  }
}

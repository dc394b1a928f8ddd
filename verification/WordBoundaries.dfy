/** `word_boundary_moved` (`alignment.py`): would pairing words by position put a
    word's geometry on other letters? */
module WordBoundaries {
  import D = EditDistance

  function Joined(words: seq<string>): string {
    if words == [] then "" else Joined(words[..|words| - 1]) + words[|words| - 1]
  }

  predicate LengthLeaps(a: string, b: string) {
    (if |a| >= |b| then |a| - |b| else |b| - |a|) > D.Max(1, |a| / 2)
  }

  /** Editing the two words joined costs less than editing each in its place. */
  ghost predicate CheaperJoined(a: seq<string>, b: seq<string>, i: nat)
    requires i + 1 < |a| && i + 1 < |b|
  {
    && a[i] != b[i] && a[i + 1] != b[i + 1]
    && D.Lev(a[i] + a[i + 1], b[i] + b[i + 1]) < D.Lev(a[i], b[i]) + D.Lev(a[i + 1], b[i + 1])
  }

  ghost predicate Suspect(a: seq<string>, b: seq<string>) {
    || Joined(a) == Joined(b)
    || (exists i :: 0 <= i < |a| && i < |b| && LengthLeaps(a[i], b[i]))
    || (exists i: nat :: i + 1 < |a| && i + 1 < |b| && CheaperJoined(a, b, i))
  }

  /** `word_boundary_moved`. */
  method WordBoundaryMoved(originals: seq<string>, words: seq<string>) returns (moved: bool)
    ensures moved <==> originals != words && Suspect(originals, words)
  {
    hide Joined, LengthLeaps, D.Lev;
    if originals == words { return false; }
    if Joined(originals) == Joined(words) { return true; }
    var n := D.Min(|originals|, |words|);
    for i := 0 to n
      invariant forall j | 0 <= j < i :: !LengthLeaps(originals[j], words[j])
    {
      if LengthLeaps(originals[i], words[i]) { return true; }
    }
    var i := 0;
    while i + 1 < n
      invariant forall j: nat | j < i :: j + 1 < n && !CheaperJoined(originals, words, j)
    {
      if originals[i] != words[i] && originals[i + 1] != words[i + 1] {
        var left := D.Distance(originals[i], words[i]);
        var right := D.Distance(originals[i + 1], words[i + 1]);
        var both := D.Distance(originals[i] + originals[i + 1], words[i] + words[i + 1]);
        if both < left + right {
          assert CheaperJoined(originals, words, i);
          return true;
        }
      }
      i := i + 1;
    }
    moved := false;
  }
}

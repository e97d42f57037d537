/**
 * The confirmation step of `main`: the operator's answer, with surrounding
 * blanks removed and folded to lower case, decides whether the run goes on.
 */
module Confirm {
  import opened Text

  /** What the answer decides. */
  datatype Decision = Proceed | Decline | Unrecognised

  /**
   * `input().strip().lower()` checked first against "n"/"no" (abort), then
   * against "y"/"yes" (go on); anything else aborts as not recognised.
   */
  function Classify(answer: string): (d: Decision)
    ensures d == Decline <==> Lower(Strip(answer)) in {"n", "no"}
    ensures d == Proceed <==> Lower(Strip(answer)) in {"y", "yes"}
  {
    var a := Lower(Strip(answer));
    if a == "n" || a == "no" then Decline
    else if a == "y" || a == "yes" then Proceed
    else Unrecognised
  }

  /**
   * Blanks around the answer never change the decision, and the decision is
   * made on the lower-cased words: a stripped `core` padded with any blanks is
   * decided as its lower-cased form prescribes.
   */
  lemma ClassifyPadded(w1: string, core: string, w2: string)
    requires AllSpace(w1) && AllSpace(w2) && IsStripped(core)
    ensures Classify(w1 + core + w2) ==
      var a := Lower(core);
      if a == "n" || a == "no" then Decline
      else if a == "y" || a == "yes" then Proceed
      else Unrecognised
  {
    StripPadded(w1, core, w2);
  }

  /** `" Yes\n"`: the capital and the padding do not matter. */
  lemma ClassifyYesPadded(answer: string)
    requires answer == " Yes\n"
    ensures Classify(answer) == Proceed
  {
    assert answer == " " + "Yes" + "\n";
    ClassifyPadded(" ", "Yes", "\n");
    assert Lower("Yes") == "yes";
  }

  /** `"N"` declines. */
  lemma ClassifyCapitalN(answer: string)
    requires answer == "N"
    ensures Classify(answer) == Decline
  {
    assert answer == "" + "N" + "";
    ClassifyPadded("", "N", "");
    assert Lower("N") == "n";
  }

  /** An empty (or all-blank) answer is not recognised. */
  lemma ClassifyBlank(answer: string)
    requires AllSpace(answer)
    ensures Classify(answer) == Unrecognised
  {
    assert answer == answer + "" + "";
    ClassifyPadded(answer, "", "");
  }

  /** An answer with something after the word, such as `"yes please"`, is not recognised. */
  lemma ClassifyLonger(answer: string)
    requires answer == "yes please"
    ensures Classify(answer) == Unrecognised
  {
    assert answer == "" + answer + "";
    ClassifyPadded("", answer, "");
    assert |Lower(answer)| == 10;
  }
}

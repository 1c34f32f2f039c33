/**
 * The screenshot-analysis screen's classifier: the analysis text, lower-cased,
 * is searched for danger and safe keywords, and the counts decide between
 * danger, warning and safe.
 */
module ScreenshotAnalysis {
  import opened Strings

  datatype RiskLevel = Safe | Warning | Danger

  const DangerKeywords: seq<string> :=
    ["scam", "fraud", "phishing", "suspicious", "red flag", "warning", "caution", "fake", "impersonation"]
  const SafeKeywords: seq<string> := ["safe", "legitimate", "authentic", "no red flags"]

  /** `keywords.filter(k => text.includes(k)).length`. */
  function CountPresent(text: string, keywords: seq<string>): (n: nat)
    ensures n <= |keywords|
    ensures n == 0 <==> forall i :: 0 <= i < |keywords| ==> !Contains(text, keywords[i])
  {
    if |keywords| == 0 then 0
    else (if Contains(text, keywords[0]) then 1 else 0) + CountPresent(text, keywords[1..])
  }

  /** `getRiskLevel(analysis)`. */
  function Classify(analysis: string): RiskLevel {
    var lowerAnalysis := ToLower(analysis);
    var dangerCount := CountPresent(lowerAnalysis, DangerKeywords);
    var safeCount := CountPresent(lowerAnalysis, SafeKeywords);
    if dangerCount >= 3 then Danger
    else if dangerCount >= 1 || safeCount == 0 then Warning
    else Safe
  }

  /** The keywords of a list that occur in the text. */
  function Present(text: string, keywords: seq<string>): set<string> {
    set k | k in keywords && Contains(text, k)
  }

  /** The keywords present in a list are those present in its tail, and its head when that is present. */
  lemma PresentStep(text: string, keywords: seq<string>)
    requires |keywords| > 0
    ensures Present(text, keywords) ==
            (if Contains(text, keywords[0]) then {keywords[0]} else {}) + Present(text, keywords[1..])
  {
    assert forall k :: k in keywords <==> k == keywords[0] || k in keywords[1..];
  }

  /** The count is the number of distinct keywords present, however often each occurs. */
  lemma {:induction false} CountIsDistinctKeywords(text: string, keywords: seq<string>)
    requires forall i, j :: 0 <= i < j < |keywords| ==> keywords[i] != keywords[j]
    ensures CountPresent(text, keywords) == |Present(text, keywords)|
  {
    if |keywords| > 0 {
      var rest := keywords[1..];
      CountIsDistinctKeywords(text, rest);
      PresentStep(text, keywords);
      assert keywords[0] !in rest;
      assert keywords[0] !in Present(text, rest);
    }
  }

  /** "danger" exactly when at least three distinct danger keywords occur. */
  lemma DangerIff(analysis: string)
    ensures Classify(analysis) == Danger <==> |Present(ToLower(analysis), DangerKeywords)| >= 3
  {
    CountIsDistinctKeywords(ToLower(analysis), DangerKeywords);
  }

  /** "safe" exactly when no danger keyword and some safe keyword occur; "warning" otherwise. */
  lemma SafeIff(analysis: string)
    ensures Classify(analysis) == Safe <==>
            (forall i :: 0 <= i < |DangerKeywords| ==> !Contains(ToLower(analysis), DangerKeywords[i]))
            && (exists i :: 0 <= i < |SafeKeywords| && Contains(ToLower(analysis), SafeKeywords[i]))
  {
  }

  lemma LowerIdempotent(s: string)
    ensures ToLower(ToLower(s)) == ToLower(s)
  {
  }

  lemma LowerOfUpper(s: string)
    ensures ToLower(ToUpper(s)) == ToLower(s)
  {
  }

  /** Only the lower-cased text matters: changing letter case does not change the verdict. */
  lemma CaseDoesNotMatter(analysis: string)
    ensures Classify(ToLower(analysis)) == Classify(analysis)
    ensures Classify(ToUpper(analysis)) == Classify(analysis)
  {
    LowerIdempotent(analysis);
    LowerOfUpper(analysis);
  }

  lemma RedFlagInNoRedFlags()
    ensures Contains("no red flags", "red flag")
  {
    ContainsAt("no red flags", "red flag", 3);
  }

  lemma RedFlagKeyword()
    ensures DangerKeywords[4] == "red flag"
  {
  }

  /** A text that says "no red flags" holds the danger keyword "red flag". */
  lemma NoRedFlagsHasRedFlag(lower: string)
    requires Contains(lower, "no red flags")
    ensures Contains(lower, DangerKeywords[4])
  {
    RedFlagInNoRedFlags();
    ContainsTransitive(lower, "no red flags", "red flag");
    RedFlagKeyword();
  }

  /** "no red flags" contains "red flag", so a text claiming it is never judged safe. */
  lemma NoRedFlagsNeverSafe(analysis: string)
    requires Contains(ToLower(analysis), "no red flags")
    ensures Classify(analysis) != Safe
  {
    NoRedFlagsHasRedFlag(ToLower(analysis));
  }

  lemma EmptyIsWarning()
    ensures Classify("") == Warning
  {
    assert ToLower("") == "";
  }

  /** A keyword in the text is still there after more text is added to either side. */
  lemma {:induction false} CountGrowsWithText(a: string, b: string, keywords: seq<string>)
    ensures CountPresent(a + b, keywords) >= CountPresent(a, keywords)
    ensures CountPresent(b + a, keywords) >= CountPresent(a, keywords)
  {
    if |keywords| > 0 {
      CountGrowsWithText(a, b, keywords[1..]);
      if Contains(a, keywords[0]) {
        ContainsInConcat(a, b, keywords[0]);
        ContainsInConcat(b, a, keywords[0]);
      }
    }
  }

  /** Appending text never lowers the danger count, so a danger verdict survives it. */
  lemma DangerSurvivesAppend(a: string, b: string)
    requires Classify(a) == Danger
    ensures Classify(a + b) == Danger && Classify(b + a) == Danger
  {
    LowerConcat(a, b);
    LowerConcat(b, a);
    CountGrowsWithText(ToLower(a), ToLower(b), DangerKeywords);
  }
}

/**
 The fixed pattern lists of the extractor: the four high-confidence failure
 patterns in priority order, the generic failure keywords, and the noise
 exclusions that veto a keyword line.
 */
module Patterns {
  import opened Text
  import MakeRegex

  /** The high-confidence patterns; their order in `HighConfidence` is their priority. */
  datatype Pattern =
    | MakeFailure          // make[N]: *** ... Error N
    | BuildxFailedToSolve  // ERROR: failed to solve:
    | FatalError           // fatal error:
    | GoPanic              // panic:

  const HighConfidence: seq<Pattern> := [MakeFailure, BuildxFailedToSolve, FatalError, GoPanic]

  /** `pattern.test(line)` for each high-confidence pattern; the last three are plain substrings. */
  predicate Matches(p: Pattern, line: string) {
    match p
    case MakeFailure => MakeRegex.IsMakeError(line)
    case BuildxFailedToSolve => Contains(line, "ERROR: failed to solve:")
    case FatalError => Contains(line, "fatal error:")
    case GoPanic => Contains(line, "panic:")
  }

  /** A line some high-confidence pattern matches is not empty. */
  lemma MatchedLineNonEmpty(p: Pattern, line: string)
    requires Matches(p, line)
    ensures line != ""
  {
    match p
    case MakeFailure =>
      var i, j, k :| MakeRegex.MatchAt(line, i, j, k);
    case BuildxFailedToSolve => ContainsNonEmpty(line, "ERROR: failed to solve:");
    case FatalError => ContainsNonEmpty(line, "fatal error:");
    case GoPanic => ContainsNonEmpty(line, "panic:");
  }

  // ---------------------------------------------------------------- generic tier

  /** Lower-case keywords whose presence marks a candidate failure line. */
  const GenericKeywords: seq<string> := ["error", "failed", "exit code"]

  /** A case-insensitive noise pattern; `anchored` is the `^` of `/^usage:/i`. */
  datatype Exclusion = Exclusion(text: string, anchored: bool)

  const Exclusions: seq<Exclusion> := [
    Exclusion("warning:", false),
    Exclusion("usage:", true),
    Exclusion("flags:", true),
    Exclusion("global flags:", false),
    Exclusion("unauthorized:", false)
  ]

  predicate HasKeyword(lowered: string) {
    exists k :: 0 <= k < |GenericKeywords| && Contains(lowered, GenericKeywords[k])
  }

  /** `pattern.test(line)` for an exclusion; the `i` flag is case folding of the subject. */
  predicate ExclusionMatches(e: Exclusion, line: string) {
    var folded := ToLower(line);
    if e.anchored then StartsWith(folded, e.text) else Contains(folded, e.text)
  }

  predicate IsExcluded(lowered: string) {
    exists k :: 0 <= k < |Exclusions| && ExclusionMatches(Exclusions[k], lowered)
  }

  /** The generic tier's test on an original line: a keyword in its lower-cased form and no exclusion. */
  predicate IsGenericHit(line: string) {
    var lowered := ToLower(line);
    HasKeyword(lowered) && !IsExcluded(lowered)
  }

  /**
   An exclusion is tested against the already lower-cased line, so its `i`
   flag changes nothing: it matches exactly when the lower-case text occurs
   (or, anchored, starts) the lowered line.
   */
  lemma {:induction false} ExclusionOnLowered(e: Exclusion, line: string)
    requires e in Exclusions
    ensures var lowered := ToLower(line);
      ExclusionMatches(e, lowered) <==>
        (if e.anchored then StartsWith(lowered, e.text) else Contains(lowered, e.text))
  {
    ToLowerIdempotent(line);
  }

  /** A line whose lower-cased form mentions `warning:` is never a generic hit, whatever keyword it holds. */
  lemma WarningLinesSkipped(line: string)
    requires Contains(ToLower(line), "warning:")
    ensures !IsGenericHit(line)
  {
    ToLowerIdempotent(line);
    assert ExclusionMatches(Exclusions[0], ToLower(line));
  }

  /** A line whose lower-cased form starts with `usage:` or `flags:` is never a generic hit. */
  lemma HelpTextSkipped(line: string)
    requires StartsWith(ToLower(line), "usage:") || StartsWith(ToLower(line), "flags:")
    ensures !IsGenericHit(line)
  {
    ToLowerIdempotent(line);
    if StartsWith(ToLower(line), "usage:") {
      assert ExclusionMatches(Exclusions[1], ToLower(line));
    } else {
      assert ExclusionMatches(Exclusions[2], ToLower(line));
    }
  }

  /** A generic hit is not an empty line. */
  lemma GenericHitNonEmpty(line: string)
    requires IsGenericHit(line)
    ensures line != ""
  {
    var k :| 0 <= k < |GenericKeywords| && Contains(ToLower(line), GenericKeywords[k]);
    ContainsNonEmpty(ToLower(line), GenericKeywords[k]);
  }
}

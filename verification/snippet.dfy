/**
 The log-snippet extractor: a four-tier cascade over the lines of a CI log
 that picks one half-open window of lines to send on.

   1. the first results-summary block, when it holds a FAILED line;
   2. the last line matched by the first high-confidence pattern that
      matches anywhere, with a context window around it;
   3. the last line holding a generic failure keyword and no noise marker,
      with the same context window;
   4. the last twenty lines.

 The first tier that finds something decides the window.
 */
module Snippet {
  import opened Options
  import opened Text
  import opened Search
  import opened Patterns

  const ContextLines: nat := 10
  const DirtyBefore: nat := 5
  const DirtyAfter: nat := 50
  const TailLines: nat := 20

  const SummaryHeader := "===== Results summary ====="
  const SectionPrefix := "====="
  const FailureMarker := "FAILED"
  const DirtyMarker := "check-dirty"

  /** A half-open range `[start, end)` of line indices. */
  datatype Window = Window(start: nat, end: nat)

  function Min(a: int, b: int): int {
    if a < b then a else b
  }

  /**
   The clamped window `[max(0, i - before), min(n, i + after))` around line `i`:
   up to `before` lines before it, the line itself and up to `after - 1` after.
   */
  function Around(n: nat, i: nat, before: nat, after: nat): (w: Window)
    requires i < n && 0 < after
    ensures w.start <= i < w.end <= n
    ensures i - w.start == Min(i, before)
    ensures w.end - i == Min(n - i, after)
  {
    Window(if i < before then 0 else i - before, if n < i + after then n else i + after)
  }

  // ---------------------------------------------------------------- tier 1

  predicate IsSummaryHeader(line: string) {
    Contains(line, SummaryHeader)
  }

  predicate IsSectionDelimiter(line: string) {
    StartsWith(line, SectionPrefix)
  }

  predicate IsFailureLine(line: string) {
    Contains(line, FailureMarker)
  }

  /** `h` is the first line holding the results-summary header. */
  ghost predicate FirstHeaderAt(lines: seq<string>, h: int) {
    0 <= h < |lines| && IsSummaryHeader(lines[h])
    && forall j :: 0 <= j < h ==> !IsSummaryHeader(lines[j])
  }

  /** The block opened at `h` ends before `e`: the first later delimiter line, or the end of the log. */
  ghost predicate BlockEndsAt(lines: seq<string>, h: int, e: int) {
    0 <= h < e <= |lines|
    && (e == |lines| || IsSectionDelimiter(lines[e]))
    && forall j :: h < j < e ==> !IsSectionDelimiter(lines[j])
  }

  ghost predicate HasFailureIn(lines: seq<string>, h: int, e: int) {
    exists j :: 0 <= h <= j < e <= |lines| && IsFailureLine(lines[j])
  }

  /** `w` is the first summary block and it reports a failure. */
  ghost predicate SummaryApplies(lines: seq<string>, w: Window) {
    FirstHeaderAt(lines, w.start) && BlockEndsAt(lines, w.start, w.end) && HasFailureIn(lines, w.start, w.end)
  }

  ghost predicate SummaryFound(lines: seq<string>) {
    exists w :: SummaryApplies(lines, w)
  }

  /** Where the block opened at `h` ends (exclusive). */
  function BlockEnd(lines: seq<string>, h: nat): (e: nat)
    requires h < |lines|
    ensures BlockEndsAt(lines, h, e)
  {
    match FirstIndex(lines, IsSectionDelimiter, h + 1)
    case Some(d) => d
    case None => |lines|
  }

  /** Searching the block as a slice is searching the lines between `h` and `e`. */
  lemma FailureInBlock(lines: seq<string>, h: nat, e: nat)
    requires h <= e <= |lines|
    ensures FirstIndex(lines[h..e], IsFailureLine, 0).Some? <==> HasFailureIn(lines, h, e)
  {
    var block := lines[h..e];
    match FirstIndex(block, IsFailureLine, 0)
    case Some(m) =>
      assert block[m] == lines[h + m];
    case None =>
  }

  /** Tier 1: the first summary block, when some line in it contains FAILED. */
  function SummaryBlock(lines: seq<string>): (r: Option<Window>)
    ensures r.Some? ==> SummaryApplies(lines, r.value)
    ensures r.None? <==> !SummaryFound(lines)
  {
    match FirstIndex(lines, IsSummaryHeader, 0)
    case None => None
    case Some(h) =>
      var e := BlockEnd(lines, h);
      FailureInBlock(lines, h, e);
      assert FirstHeaderAt(lines, h);
      if FirstIndex(lines[h..e], IsFailureLine, 0).Some? then
        assert SummaryApplies(lines, Window(h, e));
        Some(Window(h, e))
      else
        None
  }

  // ---------------------------------------------------------------- tier 2

  /** Pattern number `rank` of the priority list matched, last, at line `line`. */
  datatype Hit = Hit(rank: nat, line: nat)

  /** Line `i` is the highest-index line that `p` matches. */
  ghost predicate LastMatchOf(lines: seq<string>, p: Pattern, i: int) {
    0 <= i < |lines| && Matches(p, lines[i])
    && forall j :: i < j < |lines| ==> !Matches(p, lines[j])
  }

  /** None of the first `k` patterns of the priority list matches any line. */
  ghost predicate NoMatchBefore(lines: seq<string>, k: int) {
    forall q, j :: 0 <= q < k && q < |HighConfidence| && 0 <= j < |lines| ==> !Matches(HighConfidence[q], lines[j])
  }

  /**
   The outer loop over the patterns from number `k` on: the first that
   matches any line, with the last line it matches.
   */
  function PatternHit(lines: seq<string>, k: nat): (r: Option<Hit>)
    requires k <= |HighConfidence|
    requires NoMatchBefore(lines, k)
    ensures r.Some? ==> k <= r.value.rank < |HighConfidence|
    ensures r.Some? ==> LastMatchOf(lines, HighConfidence[r.value.rank], r.value.line)
    ensures r.Some? ==> NoMatchBefore(lines, r.value.rank)
    ensures r.None? ==> NoMatchBefore(lines, |HighConfidence|)
    decreases |HighConfidence| - k
  {
    if k == |HighConfidence| then None
    else
      var p := HighConfidence[k];
      match LastIndex(lines, l => Matches(p, l), |lines|)
      case Some(i) => Some(Hit(k, i))
      case None => PatternHit(lines, k + 1)
  }

  /** The window for a high-confidence hit: 5 before and 50 (exclusive) after on a check-dirty line, else 10 and 10. */
  function PatternWindow(n: nat, i: nat, line: string): (w: Window)
    requires i < n
    ensures w.start <= i < w.end <= n
    ensures Contains(line, DirtyMarker) ==> i - w.start == Min(i, 5) && w.end - i == Min(n - i, 50)
    ensures !Contains(line, DirtyMarker) ==> i - w.start == Min(i, 10) && w.end - i == Min(n - i, 10)
  {
    if Contains(line, DirtyMarker) then Around(n, i, DirtyBefore, DirtyAfter)
    else Around(n, i, ContextLines, ContextLines)
  }

  // ---------------------------------------------------------------- tiers 3 and 4

  /** Line `i` is the highest-index generic hit. */
  ghost predicate LastGenericAt(lines: seq<string>, i: int) {
    0 <= i < |lines| && IsGenericHit(lines[i])
    && forall j :: i < j < |lines| ==> !IsGenericHit(lines[j])
  }

  ghost predicate NoGenericHit(lines: seq<string>) {
    forall j :: 0 <= j < |lines| ==> !IsGenericHit(lines[j])
  }

  /** `lines.slice(-20)`: the last twenty lines, or all of them when there are fewer. */
  function TailWindow(n: nat): (w: Window)
    ensures w.end == n
    ensures w.end - w.start == Min(n, TailLines)
  {
    Window(if n < TailLines then 0 else n - TailLines, n)
  }

  // ---------------------------------------------------------------- the cascade

  datatype Tier = SummaryTier | PatternTier(rank: nat, line: nat) | KeywordTier(line: nat) | TailTier

  /** Which tier decided, and the window it chose. */
  datatype Selection = Selection(tier: Tier, window: Window)

  /** The four tiers in order; the first that finds something decides. */
  function Select(lines: seq<string>): (s: Selection)
    ensures s.window.start <= s.window.end <= |lines|
    ensures |lines| > 0 ==> s.window.start < s.window.end
    ensures s.tier.PatternTier? || s.tier.KeywordTier? ==> s.window.start <= s.tier.line < s.window.end
    ensures s.tier.SummaryTier? <==> SummaryFound(lines)
    ensures s.tier.SummaryTier? ==> SummaryApplies(lines, s.window)
    ensures s.tier.PatternTier? ==> s.tier.rank < |HighConfidence|
    ensures s.tier.PatternTier? ==> LastMatchOf(lines, HighConfidence[s.tier.rank], s.tier.line)
    ensures s.tier.PatternTier? ==> !SummaryFound(lines) && NoMatchBefore(lines, s.tier.rank)
    ensures s.tier.PatternTier? ==> s.window == PatternWindow(|lines|, s.tier.line, lines[s.tier.line])
    ensures s.tier.KeywordTier? ==> LastGenericAt(lines, s.tier.line)
    ensures s.tier.KeywordTier? ==> !SummaryFound(lines) && NoMatchBefore(lines, |HighConfidence|)
    ensures s.tier.KeywordTier? ==> s.window == Around(|lines|, s.tier.line, ContextLines, ContextLines)
    ensures s.tier.TailTier? ==> !SummaryFound(lines) && NoMatchBefore(lines, |HighConfidence|) && NoGenericHit(lines)
    ensures s.tier.TailTier? ==> s.window == TailWindow(|lines|)
  {
    match SummaryBlock(lines)
    case Some(w) => Selection(SummaryTier, w)
    case None =>
      match PatternHit(lines, 0)
      case Some(hit) =>
        Selection(PatternTier(hit.rank, hit.line), PatternWindow(|lines|, hit.line, lines[hit.line]))
      case None =>
        match LastIndex(lines, IsGenericHit, |lines|)
        case Some(i) => Selection(KeywordTier(i), Around(|lines|, i, ContextLines, ContextLines))
        case None => Selection(TailTier, TailWindow(|lines|))
  }

  /** The excerpt: the chosen lines of the log joined back with line feeds. */
  function Excerpt(lines: seq<string>): (r: string)
    ensures Contains(Join(lines), r)
  {
    var w := Select(lines).window;
    JoinSliceContained(lines, w.start, w.end);
    Join(lines[w.start..w.end])
  }

  /** A run of lines holding a non-empty line joins to a non-empty text. */
  lemma SliceJoinNonEmpty(lines: seq<string>, a: nat, b: nat, m: nat)
    requires a <= m < b <= |lines| && lines[m] != ""
    ensures Join(lines[a..b]) != ""
  {
    assert lines[a..b][m - a] == lines[m];
    JoinNonEmpty(lines[a..b], m - a);
  }

  /** The line that decided a tier other than the fallback is not empty. */
  lemma DecidingLineNonEmpty(lines: seq<string>) returns (m: nat)
    requires !Select(lines).tier.TailTier?
    ensures Select(lines).window.start <= m < Select(lines).window.end
    ensures lines[m] != ""
  {
    var s := Select(lines);
    match s.tier
    case SummaryTier =>
      m := s.window.start;
      ContainsNonEmpty(lines[m], SummaryHeader);
    case PatternTier(k, i) =>
      m := i;
      MatchedLineNonEmpty(HighConfidence[k], lines[i]);
    case KeywordTier(i) =>
      m := i;
      GenericHitNonEmpty(lines[i]);
  }

  /** The excerpt of a log that is not the empty string is not empty. */
  lemma ExcerptNonEmpty(lines: seq<string>)
    requires |lines| >= 2 || (|lines| == 1 && lines[0] != "")
    ensures Excerpt(lines) != ""
  {
    var w := Select(lines).window;
    if |lines| == 1 {
      SliceJoinNonEmpty(lines, w.start, w.end, 0);
    } else if Select(lines).tier.TailTier? {
      JoinNonEmpty(lines[w.start..w.end], 0);
    } else {
      var m := DecidingLineNonEmpty(lines);
      SliceJoinNonEmpty(lines, w.start, w.end, m);
    }
  }

  /**
   `findErrorSnippet`: split the log on line feeds, select, join. The result is
   a piece of the log, and it is empty (the caller's "nothing found") exactly
   when the log is empty.
   */
  function FindErrorSnippet(log: string): (r: string)
    ensures Contains(log, r)
    ensures r == "" <==> log == ""
  {
    var lines := Split(log);
    JoinSplit(log);
    var r := Excerpt(lines);
    if log == "" then
      ContainedInEmpty(r);
      r
    else
      ExcerptNonEmpty(lines);
      r
  }
}

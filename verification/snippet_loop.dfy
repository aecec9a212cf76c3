/**
 The TypeScript `findErrorSnippet`, loop by loop: forward
 `findIndex` loops, backward `for` loops from the last line down, and inner
 loops over the keyword and exclusion lists that stop at the first hit. Each
 loop is proved to compute what the functional model in `Snippet` computes.
 */
module SnippetLoop {
  import opened Options
  import opened Text
  import opened Search
  import opened Patterns
  import opened Snippet

  /** `lines.findIndex((line, index) => index >= from && p(line))`. */
  method FindFirst(lines: seq<string>, p: string -> bool, from: nat) returns (r: Option<nat>)
    requires from <= |lines|
    ensures r.Some? ==> from <= r.value < |lines| && p(lines[r.value])
    ensures r.Some? ==> forall j :: from <= j < r.value ==> !p(lines[j])
    ensures r.None? ==> forall j :: from <= j < |lines| ==> !p(lines[j])
    ensures r == FirstIndex(lines, p, from)
  {
    var i := from;
    while i < |lines|
      invariant from <= i <= |lines|
      invariant forall j :: from <= j < i ==> !p(lines[j])
      invariant FirstIndex(lines, p, from) == FirstIndex(lines, p, i)
    {
      if p(lines[i]) {
        return Some(i);
      }
      i := i + 1;
    }
    return None;
  }

  /** The `for (const keyword of genericKeywords)` loop, leaving at the first keyword found. */
  method KeywordFound(lowered: string) returns (found: bool)
    ensures found <==> HasKeyword(lowered)
  {
    found := false;
    var k := 0;
    while k < |GenericKeywords|
      invariant 0 <= k <= |GenericKeywords|
      invariant forall q :: 0 <= q < k ==> !Contains(lowered, GenericKeywords[q])
    {
      if Contains(lowered, GenericKeywords[k]) {
        found := true;
        break;
      }
      k := k + 1;
    }
  }

  /** The `for (const pattern of exclusionPatterns)` loop, leaving at the first exclusion that matches. */
  method Excluded(lowered: string) returns (excluded: bool)
    ensures excluded <==> IsExcluded(lowered)
  {
    excluded := false;
    var k := 0;
    while k < |Exclusions|
      invariant 0 <= k <= |Exclusions|
      invariant forall q :: 0 <= q < k ==> !ExclusionMatches(Exclusions[q], lowered)
    {
      if ExclusionMatches(Exclusions[k], lowered) {
        excluded := true;
        break;
      }
      k := k + 1;
    }
  }

  /** The backward generic-keyword loop: the highest-index line that is a generic hit. */
  method LastGenericLine(lines: seq<string>) returns (r: Option<nat>)
    ensures r == LastIndex(lines, IsGenericHit, |lines|)
  {
    var i := |lines| - 1;
    while i >= 0
      invariant -1 <= i < |lines|
      invariant forall j :: i < j < |lines| ==> !IsGenericHit(lines[j])
    {
      var line := ToLower(lines[i]);
      var keywordFound := KeywordFound(line);
      if keywordFound {
        var isExcluded := Excluded(line);
        if !isExcluded {
          LastIndexIs(lines, IsGenericHit, i);
          return Some(i);
        }
      }
      i := i - 1;
    }
    return None;
  }

  /** The two nested loops of tier 2: patterns in priority order, each scanned from the last line down. */
  method FirstPatternHit(lines: seq<string>) returns (r: Option<Hit>)
    ensures r == PatternHit(lines, 0)
  {
    var k := 0;
    while k < |HighConfidence|
      invariant 0 <= k <= |HighConfidence|
      invariant NoMatchBefore(lines, k)
      invariant PatternHit(lines, 0) == PatternHit(lines, k)
    {
      var p := HighConfidence[k];
      var i := |lines| - 1;
      while i >= 0
        invariant -1 <= i < |lines|
        invariant forall j :: i < j < |lines| ==> !Matches(p, lines[j])
      {
        if Matches(p, lines[i]) {
          LastIndexIs(lines, l => Matches(p, l), i);
          return Some(Hit(k, i));
        }
        i := i - 1;
      }
      k := k + 1;
    }
    return None;
  }

  /** Tier 1 as loops: the first header, the next delimiter after it, a FAILED line in between. */
  method SummaryLoop(lines: seq<string>) returns (r: Option<Window>)
    ensures r == SummaryBlock(lines)
  {
    var header := FindFirst(lines, IsSummaryHeader, 0);
    if header.None? {
      return None;
    }
    var h := header.value;
    var delimiter := FindFirst(lines, IsSectionDelimiter, h + 1);
    var e := if delimiter.Some? then delimiter.value else |lines|;
    assert e == BlockEnd(lines, h);
    var failed := FindFirst(lines[h..e], IsFailureLine, 0);
    if failed.Some? {
      return Some(Window(h, e));
    }
    return None;
  }

  /** The four-tier cascade of `findErrorSnippet`, loop by loop: the window it slices. */
  method SelectLoop(lines: seq<string>) returns (w: Window)
    ensures w == Select(lines).window
  {
    var n := |lines|;

    // Tier 1: the first results-summary block, if it holds a FAILED line.
    var summary := SummaryLoop(lines);
    if summary.Some? {
      return summary.value;
    }

    // Tier 2: high-confidence patterns.
    var hit := FirstPatternHit(lines);
    if hit.Some? {
      var i := hit.value.line;
      if Contains(lines[i], DirtyMarker) {
        return Around(n, i, DirtyBefore, DirtyAfter);
      }
      return Around(n, i, ContextLines, ContextLines);
    }

    // Tier 3: generic keywords, noise excluded.
    var generic := LastGenericLine(lines);
    if generic.Some? {
      return Around(n, generic.value, ContextLines, ContextLines);
    }

    // Tier 4: the last twenty lines.
    return Window(if n < TailLines then 0 else n - TailLines, n);
  }

  /** The TypeScript `findErrorSnippet`, loop by loop; it returns what the functional model returns. */
  method FindErrorSnippetLoop(log: string) returns (r: string)
    ensures r == FindErrorSnippet(log)
  {
    var lines := Split(log);
    var w := SelectLoop(lines);
    return Join(lines[w.start..w.end]);
  }
}

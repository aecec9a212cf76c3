/**
 What the cascade promises, stated tier by tier: which tier decides for a
 given log, and exactly which window it returns.
 */
module SnippetFacts {
  import opened Text
  import opened Patterns
  import opened Snippet

  /** A results-summary block with a FAILED line is returned exactly, whatever else the log holds. */
  lemma SummaryBlockWins(lines: seq<string>, h: nat, e: nat)
    requires FirstHeaderAt(lines, h) && BlockEndsAt(lines, h, e) && HasFailureIn(lines, h, e)
    ensures Select(lines) == Selection(SummaryTier, Window(h, e))
  {
    assert SummaryApplies(lines, Window(h, e));
    var w := Select(lines).window;
    assert FirstHeaderAt(lines, w.start) && BlockEndsAt(lines, w.start, w.end);
    assert w.start == h;
  }

  /** A summary block without a FAILED line is not returned: tier 1 yields nothing and later tiers decide. */
  lemma SummaryWithoutFailureFallsThrough(lines: seq<string>, h: nat, e: nat)
    requires FirstHeaderAt(lines, h) && BlockEndsAt(lines, h, e) && !HasFailureIn(lines, h, e)
    ensures !SummaryFound(lines)
    ensures Select(lines).tier != SummaryTier
  {
  }

  /**
   When tier 1 finds nothing, the first pattern of the priority list that
   matches any line decides, at the last line it matches, even if a later
   pattern matches closer to the end.
   */
  lemma PatternTierChosen(lines: seq<string>, k: nat, i: nat)
    requires !SummaryFound(lines)
    requires k < |HighConfidence| && NoMatchBefore(lines, k)
    requires LastMatchOf(lines, HighConfidence[k], i)
    ensures Select(lines) == Selection(PatternTier(k, i), PatternWindow(|lines|, i, lines[i]))
  {
  }

  /**
   Any high-confidence match outranks every generic keyword line: when tier 1
   finds nothing and pattern `q` matches line `j`, tier 2 decides, with pattern
   `q` or one listed before it.
   */
  lemma PatternOutranksKeywords(lines: seq<string>, q: nat, j: nat)
    requires !SummaryFound(lines)
    requires q < |HighConfidence| && j < |lines| && Matches(HighConfidence[q], lines[j])
    ensures Select(lines).tier.PatternTier?
    ensures Select(lines).tier.rank <= q
  {
  }

  /** With no summary block and no pattern match, the last generic hit decides, with the 10/10 window. */
  lemma KeywordTierChosen(lines: seq<string>, i: nat)
    requires !SummaryFound(lines) && NoMatchBefore(lines, |HighConfidence|)
    requires LastGenericAt(lines, i)
    ensures Select(lines) == Selection(KeywordTier(i), Around(|lines|, i, ContextLines, ContextLines))
  {
  }

  /** When no tier finds anything, the last twenty lines (or all, if fewer) are returned. */
  lemma TailTierChosen(lines: seq<string>)
    requires !SummaryFound(lines) && NoMatchBefore(lines, |HighConfidence|) && NoGenericHit(lines)
    ensures Select(lines) == Selection(TailTier, TailWindow(|lines|))
  {
  }

  /** A line whose lower-cased form mentions `warning:` is never the line the keyword tier centres on. */
  lemma WarningLineNeverChosen(lines: seq<string>, i: nat)
    requires i < |lines| && Contains(ToLower(lines[i]), "warning:")
    ensures Select(lines).tier != KeywordTier(i)
  {
    WarningLinesSkipped(lines[i]);
  }

  /** A log of at most twenty lines in which no tier finds anything comes back unchanged. */
  lemma ShortLogReturnedWhole(log: string)
    requires |Split(log)| <= TailLines
    requires !SummaryFound(Split(log)) && NoMatchBefore(Split(log), |HighConfidence|) && NoGenericHit(Split(log))
    ensures FindErrorSnippet(log) == log
  {
    var lines := Split(log);
    TailTierChosen(lines);
    assert lines[0..|lines|] == lines;
    JoinSplit(log);
  }

  /** The empty log splits into one empty line, which only the fallback can return. */
  lemma EmptyLogFallsBack()
    ensures Select(Split("")) == Selection(TailTier, Window(0, 1))
    ensures FindErrorSnippet("") == ""
  {
    var lines := Split("");
    assert lines == [""];
    assert !IsSummaryHeader("") by {
      if IsSummaryHeader("") {
        ContainedInEmpty(SummaryHeader);
      }
    }
    forall p: Pattern | Matches(p, "") ensures false {
      MatchedLineNonEmpty(p, "");
    }
    assert !IsGenericHit("") by {
      if IsGenericHit("") {
        GenericHitNonEmpty("");
      }
    }
    TailTierChosen(lines);
  }
}

# findErrorSnippet — a verified model of the CI-log snippet extractor

The browser extension sends a failed CI job's log to a summariser. Before it
does, `findErrorSnippet` cuts the log down to the few lines that explain the
failure. The function splits the log on `"\n"`, picks one contiguous run of
lines with a four-tier cascade, and joins that run back with `"\n"`. The first
tier that finds something decides:

1. **Results summary.** This tier looks only at the first line containing
   `===== Results summary =====`. Its block runs up to, but not including, the
   next later line that starts with `=====`, or to the end of the log. The block
   is returned when one of its lines contains `FAILED`.
2. **High-confidence patterns.** The patterns are tried in a fixed order:
   `make[N]: *** … Error N`, `ERROR: failed to solve:`, `fatal error:` and
   `panic:`. The first pattern that matches any line wins, at the last line it
   matches. The window is `[i-10, i+10)`. On a line that contains `check-dirty`
   it is `[i-5, i+50)` instead. Both windows are clamped to the log.
3. **Generic keywords.** This tier picks the last line whose lower-cased form
   contains `error`, `failed` or `exit code`. The line must also match none of
   the noise patterns: `warning:`, `^usage:`, `^flags:`, `global flags:` and
   `unauthorized:`. The window is `[i-10, i+10)`, clamped.
4. **Fallback.** The last 20 lines.

The model works on `lines: seq<string>`. Each tier is a pure function that
returns a half-open `Window(start, end)`, and the excerpt is
`Join(lines[start..end])`. A second, imperative version repeats the loops of
the TypeScript `findErrorSnippet`: forward `findIndex`, backward `for` loops,
and keyword and exclusion loops that `break` at the first hit. It is proved to
return exactly what the functional model returns.

Modules (one file each):

- `Options` (`options.dfy`): the `Option` datatype.
- `Text` (`text.dfy`): `includes`, `startsWith`, ASCII `toLowerCase`, and
  `split("\n")` / `join("\n")`, with both round trips proved.
- `Search` (`search.dfy`): the forward scan (`FirstIndex`) and the backward
  scan (`LastIndex`).
- `MakeRegex` (`make_regex.dfy`): the `make` regular expression, stated
  declaratively and as a scanner, with the two proved equivalent.
- `Patterns` (`patterns.dfy`): the pattern, keyword and exclusion lists.
- `Snippet` (`snippet.dfy`): the tiers, `Select`, and `FindErrorSnippet`.
- `SnippetFacts` (`facts.dfy`): tier precedence and window lemmas.
- `SnippetLoop` (`snippet_loop.dfy`): the loop-by-loop version.

Where the source's comments and its behaviour differ, the model follows the behaviour:

- Window ends are exclusive, as `slice` makes them. The default window is
  therefore 10 lines before the match, the match line, and at most 9 after. The
  comment at src/background.ts:168 says 10 before and 10 after.
- The `check-dirty` window is 5 lines before and at most 49 after. The
  comment at src/background.ts:207 says 50 after.
- `findErrorSnippet` never returns `null`. On an empty log it returns `""`.
  The caller (src/background.ts:144) treats `""` as "no obvious errors". The
  model proves that the result is `""` exactly when the log is `""`.

Modelling choices:

- `make` regex: the trailing `\d+` is checked as one digit. For an unanchored
  `test` this is equivalent.
- `.` matches any character except `\n`, `\r`, U+2028 and U+2029. These are
  the characters JavaScript `.` excludes.
- Tie on one line: if two high-confidence patterns match the same line, the
  earlier pattern in the list wins. This follows from the outer loop running
  over the patterns (`PatternOutranksKeywords`).

## Model

| member | source | states |
|---|---|---|
| Text.Contains | src/background.ts:236 | `s.includes(sub)`: `sub` occurs at some position of `s` (case-sensitive); an occurrence at a known position suffices (`ContainsAt`), only `""` occurs in `""` (`ContainedInEmpty`), and a non-empty `sub` occurs only in a non-empty `s` (`ContainsNonEmpty`) |
| Text.StartsWith | src/background.ts:176 | `s.startsWith(prefix)`: `prefix` is a prefix of `s`, the `^`-anchored test |
| Text.Split | src/background.ts:167 | splitting always gives at least one line (so `""` gives one empty line) and no line contains a line feed |
| Text.JoinSplit | src/background.ts:167 | joining the split lines with `"\n"` gives back the original log exactly |
| Text.SplitJoin | src/background.ts:167 | for at least one line with no line feeds, splitting the joined text gives the same lines back |
| Text.JoinSliceContained | src/background.ts:215-217 | the joined text of any run of consecutive lines is a contiguous piece of the joined log |
| Text.LowerChar | src/background.ts:233 | an ASCII capital becomes its lower-case letter (code point plus 32); every other character is kept |
| Text.ToLower | src/background.ts:233 | the lower-cased line has the same length, each ASCII capital is replaced by its lower-case letter, every other character is kept, and no ASCII capital remains |
| Text.ToLowerIdempotent | src/background.ts:233 | lower-casing an already lower-cased line changes nothing |
| Text.Join | src/background.ts:208 | `join("\n")`: the lines with one line feed between neighbours; it is the inverse of `Split` (`JoinSplit`, `SplitJoin`) |
| Search.FirstIndex | src/background.ts:171-177 | the result is the lowest index at or after the start whose line passes the test; none means no line from the start on passes |
| Search.LastIndex | src/background.ts:198-199 | the result is the highest matching index below the bound, with no match above it; none means no line below the bound matches |
| MakeRegex.RegexMatches | src/background.ts:191 | `test` for `make\[\d+\]: \*\*\* .* Error \d+`: some start and positions in the line fit the pattern (`MatchAt`), with `.` any character but a line terminator; `IsMakeError` decides it |
| MakeRegex.DigitRunEnd | src/background.ts:191 | the `\d+` run after `make[` is all digits and stops at the end or at the first non-digit |
| MakeRegex.IsMakeError | src/background.ts:191 | the scanner accepts a line exactly when the regular expression `make\[\d+\]: \*\*\* .* Error \d+` occurs somewhere in it |
| MakeRegex.SearchCorrect | src/background.ts:191 | scanning from position i finds a match exactly when the expression matches at i or later |
| MakeRegex.ShapeMatches | src/background.ts:191 | every line of the form `make[<digits>]: *** <text without line breaks> Error <digit>` matches |
| Patterns.Matches | src/background.ts:190-199 | `pattern.test(lines[i])` for the four high-confidence patterns: the `make` regex through `IsMakeError`, the other three as substring tests for their literal text |
| Patterns.MatchedLineNonEmpty | src/background.ts:190-195 | a line that any high-confidence pattern matches is not empty |
| Patterns.ExclusionMatches | src/background.ts:223-229 | `pattern.test(line)` for one `/…/i` exclusion: ASCII case-insensitive, a prefix test when the pattern starts with `^` and a substring test otherwise |
| Patterns.ExclusionOnLowered | src/background.ts:244-245 | because each exclusion is tested against the already lower-cased line, its `i` flag changes nothing: it is a plain prefix or substring test on that line |
| Patterns.IsGenericHit | src/background.ts:232-251 | the tier-3 decision on one line: its lower-cased form holds a generic keyword and matches no exclusion; `KeywordFound` and `Excluded` are proved to compute its two halves |
| Patterns.WarningLinesSkipped | src/background.ts:224 | a line whose lower-cased form contains `warning:` is never a generic hit, whatever keywords it holds (e.g. `warning: error budget exceeded`) |
| Patterns.HelpTextSkipped | src/background.ts:225-226 | a line whose lower-cased form starts with `usage:` or `flags:` is never a generic hit |
| Snippet.Around | src/background.ts:215-216 | the clamped window keeps min(i, before) lines before the match and min(n - i, after) lines from the match on, so it holds the match and stays inside the log |
| Snippet.IsSummaryHeader | src/background.ts:172 | the tier-1 header test: the line contains `===== Results summary =====` |
| Snippet.IsSectionDelimiter | src/background.ts:176 | the end-of-block test: the line starts with `=====` |
| Snippet.IsFailureLine | src/background.ts:182 | the failed-test test: the line contains `FAILED` (case-sensitive) |
| Snippet.BlockEnd | src/background.ts:175-180 | the summary block ends at the first line after the header that starts with `=====`, or at the end of the log |
| Snippet.SummaryBlock | src/background.ts:171-187 | tier 1 yields a window exactly when the first header's block has a FAILED line, and then it is that block; otherwise it yields nothing |
| Snippet.PatternHit | src/background.ts:197-199 | the result is the first pattern in priority order that matches any line, at the last line it matches; every pattern before it matches no line; none means no pattern matches anywhere |
| Snippet.PatternWindow | src/background.ts:201-217 | a check-dirty line gets min(i, 5) lines before it and min(n - i, 50) lines from it on; any other line gets min(i, 10) and min(n - i, 10) |
| Snippet.TailWindow | src/background.ts:268 | the fallback window ends at the end of the log and holds min(n, 20) lines |
| Snippet.Select | src/background.ts:166-268 | the chosen window lies inside the log and is non-empty for a non-empty log; each tier is chosen only when every earlier tier found nothing, and its window contains the line it found |
| Snippet.Excerpt | src/background.ts:208-268 | the body joins the lines of the window `Select` picks with `"\n"`; the contract states that this text is a contiguous piece of the joined log |
| Snippet.ExcerptNonEmpty | src/background.ts:166-268 | the excerpt of a log that has more than one line, or one non-empty line, is not empty |
| Snippet.FindErrorSnippet | src/background.ts:166-269 | the result is a contiguous piece of the log, and it is empty exactly when the log is empty |
| SnippetFacts.SummaryBlockWins | src/background.ts:171-186 | if the first summary block holds a FAILED line, exactly that block is returned, whatever else the log contains |
| SnippetFacts.SummaryWithoutFailureFallsThrough | src/background.ts:174-187 | if the first summary block has no FAILED line, tier 1 finds nothing and the summary block is never the result |
| SnippetFacts.PatternTierChosen | src/background.ts:197-217 | with no failing summary, the first listed pattern that matches anywhere decides, at its last matching line, even when a later pattern matches nearer the end |
| SnippetFacts.PatternOutranksKeywords | src/background.ts:197-232 | any high-confidence match (with no failing summary) means tier 2 decides, with that pattern or an earlier one, so the generic tier never runs |
| SnippetFacts.KeywordTierChosen | src/background.ts:231-258 | with no failing summary and no pattern match, the last generic hit decides, with the clamped 10/10 window |
| SnippetFacts.TailTierChosen | src/background.ts:263-268 | when no tier finds anything, the last 20 lines (or all of them) are returned |
| SnippetFacts.WarningLineNeverChosen | src/background.ts:241-251 | a line whose lower-cased form mentions `warning:` is never the line the generic tier centres on |
| SnippetFacts.ShortLogReturnedWhole | src/background.ts:268 | a log of at most 20 lines in which no tier matches is returned unchanged |
| SnippetFacts.EmptyLogFallsBack | src/background.ts:167 | the empty log splits into one empty line, only the fallback applies, and the result is `""` |
| SnippetLoop.FindFirst | src/background.ts:171-177 | the forward loop returns the first index at or after the start whose line passes the test, as `FirstIndex` does |
| SnippetLoop.KeywordFound | src/background.ts:234-240 | the keyword loop reports true exactly when some generic keyword occurs in the lower-cased line |
| SnippetLoop.Excluded | src/background.ts:243-249 | the exclusion loop reports true exactly when some exclusion matches the lower-cased line |
| SnippetLoop.LastGenericLine | src/background.ts:232-261 | the backward loop returns the highest-index generic hit, as `LastIndex` does |
| SnippetLoop.FirstPatternHit | src/background.ts:197-220 | the nested pattern and line loops return the same hit as `PatternHit` |
| SnippetLoop.SummaryLoop | src/background.ts:171-187 | the tier-1 loops return the same result as `SummaryBlock` |
| SnippetLoop.SelectLoop | src/background.ts:166-268 | the loop-by-loop cascade picks the same window as `Select` |
| SnippetLoop.FindErrorSnippetLoop | src/background.ts:166-269 | the loop-by-loop extractor returns exactly the functional model's excerpt |

## Left out

- The Chrome message listener, OAuth token handling and logout cleanup (src/background.ts:32-104). These are platform callbacks.
- `handleLogAnalysis`, `callGeminiAPI`, `fetchUserInfo`, `getFromCache` and `saveToCache` (src/background.ts:106-159, 272-366). These do network fetches, JSON parsing and storage. From the caller, the model keeps only what it does with the result: an empty excerpt means "nothing found" (src/background.ts:144).
- The `console.log` diagnostics inside `findErrorSnippet`. They have no effect on the result.
- src/content.ts and src/popup.ts. These handle DOM injection, rendering and the `getJobId` URL regex.
- Text.ToLower: models `toLowerCase` as ASCII case folding only. All keywords and exclusions are ASCII and lower-case. The only non-ASCII characters whose full Unicode lower-casing produces ASCII letters are U+0130, which gives `i` plus a combining dot, and U+212A, which gives `k`. Neither can complete a keyword or an exclusion, so the decisions agree. This argument is not proved.
- General JavaScript regular expressions. Only the four fixed patterns and five exclusions are modelled, each as an explicit predicate.
- JavaScript strings are UTF-16 code units, while Dafny `string` is a sequence of Unicode scalar values. All patterns are ASCII, so which lines match and which lines are chosen is the same either way.
- Running time and input size. The source puts no bound on either.

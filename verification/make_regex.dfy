/**
 The `make` failure pattern `/make\[\d+\]: \*\*\* .* Error \d+/` written out by
 hand. `RegexMatches` states what it means for the (unanchored) regular
 expression to match a line; `IsMakeError` is a left-to-right scanner, proved
 to agree with it on every line.
 */
module MakeRegex {

  const Head := "make["
  const Mid := "]: *** "
  const Tail := " Error "

  /** `\d`: an ASCII decimal digit. */
  predicate IsDigit(c: char) {
    '0' <= c <= '9'
  }

  predicate AllDigits(s: string) {
    forall k :: 0 <= k < |s| ==> IsDigit(s[k])
  }

  /** The characters `.` does not match: line feed, carriage return, U+2028 and U+2029. */
  predicate IsLineTerminator(c: char) {
    c == '\n' || c == '\r' || c == '\U{2028}' || c == '\U{2029}'
  }

  /** What `.*` matches: any run of characters without a line terminator. */
  predicate AnyChars(s: string) {
    forall k :: 0 <= k < |s| ==> !IsLineTerminator(s[k])
  }

  /**
   The expression matches `s` with `make[` at `i`, the bracketed number in
   `s[i+5..j]`, `]: *** ` at `j`, and ` Error ` at `k` followed by a digit.
   One trailing digit is enough: `\d+` at the end of an unanchored pattern
   matches exactly when one digit is there.
   */
  ghost predicate MatchAt(s: string, i: int, j: int, k: int) {
    0 <= i && i + |Head| < j && j + |Mid| <= k && k + |Tail| < |s|
    && Head <= s[i..]
    && AllDigits(s[i + |Head|..j])
    && Mid <= s[j..]
    && AnyChars(s[j + |Mid|..k])
    && Tail <= s[k..]
    && IsDigit(s[k + |Tail|])
  }

  /** `RegExp.prototype.test` for the `make` pattern. */
  ghost predicate RegexMatches(s: string) {
    exists i, j, k :: MatchAt(s, i, j, k)
  }

  /** The end of the run of digits that starts at `from`. */
  function DigitRunEnd(s: string, from: nat): (r: nat)
    requires from <= |s|
    ensures from <= r <= |s|
    ensures AllDigits(s[from..r])
    ensures r == |s| || !IsDigit(s[r])
    decreases |s| - from
  {
    if from < |s| && IsDigit(s[from]) then
      var r := DigitRunEnd(s, from + 1);
      assert s[from..r] == [s[from]] + s[from + 1..r];
      r
    else from
  }

  /** Does `.* Error \d` match at `p`? Walks forward over non-terminators looking for ` Error `. */
  function ErrorTailFrom(s: string, p: nat): bool
    requires p <= |s|
    decreases |s| - p
  {
    if Tail <= s[p..] && p + |Tail| < |s| && IsDigit(s[p + |Tail|]) then true
    else if p < |s| && !IsLineTerminator(s[p]) then ErrorTailFrom(s, p + 1)
    else false
  }

  /** Does the whole pattern match with `make[` at `i`? */
  function MatchFrom(s: string, i: nat): bool
    requires i <= |s|
  {
    Head <= s[i..]
    && var j := DigitRunEnd(s, i + |Head|);
    j > i + |Head| && Mid <= s[j..] && ErrorTailFrom(s, j + |Mid|)
  }

  /** Does the pattern match with `make[` at `i` or later? */
  function SearchFrom(s: string, i: nat): bool
    requires i <= |s|
    decreases |s| - i
  {
    MatchFrom(s, i) || (i < |s| && SearchFrom(s, i + 1))
  }

  /** The scanner: does the `make` pattern occur anywhere in `line`? */
  function IsMakeError(line: string): (b: bool)
    ensures b <==> RegexMatches(line)
  {
    SearchCorrect(line, 0);
    SearchFrom(line, 0)
  }

  /** Every line of the shape `make[<digits>]: *** <text> Error <digit>` matches. */
  lemma ShapeMatches(number: string, gap: string, d: char)
    requires |number| > 0 && AllDigits(number)
    requires AnyChars(gap) && IsDigit(d)
    ensures RegexMatches(Head + number + Mid + gap + Tail + [d])
  {
    var s := Head + number + Mid + gap + Tail + [d];
    var j := |Head| + |number|;
    var k := j + |Mid| + |gap|;
    assert s[|Head|..j] == number;
    assert s[j..] == Mid + gap + Tail + [d];
    assert s[j + |Mid|..k] == gap;
    assert s[k..] == Tail + [d];
    assert MatchAt(s, 0, j, k);
  }

  // ---------------------------------------------------------------- proofs

  ghost predicate ErrorTailAt(s: string, p: int, k: int) {
    0 <= p <= k && k + |Tail| < |s| && AnyChars(s[p..k]) && Tail <= s[k..] && IsDigit(s[k + |Tail|])
  }

  /** One more non-terminator in front of a `.* Error \d` match is still one. */
  lemma ErrorTailGrow(s: string, p: nat, k: int)
    requires p < |s| && !IsLineTerminator(s[p]) && ErrorTailAt(s, p + 1, k)
    ensures ErrorTailAt(s, p, k)
  {
    assert s[p..k] == [s[p]] + s[p + 1..k];
  }

  /** A `.* Error \d` match that does not start with ` Error ` begins with a non-terminator. */
  lemma ErrorTailShrink(s: string, p: nat, k: int)
    requires ErrorTailAt(s, p, k) && k != p
    ensures p < |s| && !IsLineTerminator(s[p]) && ErrorTailAt(s, p + 1, k)
  {
    assert s[p..k][0] == s[p];
    assert s[p + 1..k] == s[p..k][1..];
  }

  /** The walk over `.*` finds ` Error \d` exactly when some position after `p` starts one. */
  lemma {:induction false} ErrorTailCorrect(s: string, p: nat)
    requires p <= |s|
    ensures ErrorTailFrom(s, p) <==> exists k :: ErrorTailAt(s, p, k)
    decreases |s| - p
  {
    if Tail <= s[p..] && p + |Tail| < |s| && IsDigit(s[p + |Tail|]) {
      assert ErrorTailAt(s, p, p);
    } else {
      if p < |s| {
        ErrorTailCorrect(s, p + 1);
      }
      if k :| ErrorTailAt(s, p, k) {
        ErrorTailShrink(s, p, k);
      }
      if p < |s| && !IsLineTerminator(s[p]) {
        var q := p + 1;
        if k :| ErrorTailAt(s, q, k) {
          ErrorTailGrow(s, p, k);
        }
      }
    }
  }

  /** The digit run is determined: it stops at the first non-digit. */
  lemma {:induction false} DigitRunEndAt(s: string, from: nat, j: nat)
    requires from <= j < |s|
    requires AllDigits(s[from..j]) && !IsDigit(s[j])
    ensures DigitRunEnd(s, from) == j
    decreases j - from
  {
    if from < j {
      assert s[from] == s[from..j][0];
      assert s[from + 1..j] == s[from..j][1..];
      DigitRunEndAt(s, from + 1, j);
    }
  }

  /** What the scanner accepts at `i` is a match of the regular expression. */
  lemma MatchFromSound(s: string, i: nat)
    requires i <= |s| && MatchFrom(s, i)
    ensures exists j, k :: MatchAt(s, i, j, k)
  {
    var j := DigitRunEnd(s, i + |Head|);
    ErrorTailCorrect(s, j + |Mid|);
    var k :| ErrorTailAt(s, j + |Mid|, k);
    assert MatchAt(s, i, j, k);
  }

  /** Every match of the regular expression at `i` is accepted by the scanner. */
  lemma MatchFromComplete(s: string, i: nat, j: int, k: int)
    requires MatchAt(s, i, j, k)
    ensures MatchFrom(s, i)
  {
    assert s[j] == Mid[0];
    DigitRunEndAt(s, i + |Head|, j);
    assert ErrorTailAt(s, j + |Mid|, k);
    ErrorTailCorrect(s, j + |Mid|);
  }

  /** Anchored at `i`, the scanner agrees with the regular expression. */
  lemma MatchFromCorrect(s: string, i: nat)
    requires i <= |s|
    ensures MatchFrom(s, i) <==> exists j, k :: MatchAt(s, i, j, k)
  {
    if MatchFrom(s, i) {
      MatchFromSound(s, i);
    }
    if j, k :| MatchAt(s, i, j, k) {
      MatchFromComplete(s, i, j, k);
    }
  }

  /** Searching from `i` finds a match exactly when one starts at `i` or later. */
  lemma {:induction false} SearchCorrect(s: string, i: nat)
    requires i <= |s|
    ensures SearchFrom(s, i) <==> exists i', j, k :: i <= i' && MatchAt(s, i', j, k)
    decreases |s| - i
  {
    MatchFromCorrect(s, i);
    if i < |s| {
      SearchCorrect(s, i + 1);
      if i', j, k :| i <= i' && MatchAt(s, i', j, k) {
        if i' > i {
          assert i + 1 <= i' && MatchAt(s, i', j, k);
        }
      }
    } else {
      if i', j, k :| i <= i' && MatchAt(s, i', j, k) {
        assert false;
      }
    }
  }
}

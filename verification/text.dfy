/**
 Strings as the log-snippet extractor sees them: substring and prefix tests
 (JavaScript `includes` and `startsWith`), ASCII case folding (the model of
 `toLowerCase`), and splitting on / joining with a line feed.
 */
module Text {

  /** JavaScript `s.startsWith(prefix)`. */
  predicate StartsWith(s: string, prefix: string) {
    prefix <= s
  }

  /** JavaScript `s.includes(sub)`: `sub` occurs somewhere in `s`. */
  predicate Contains(s: string, sub: string) {
    exists i :: 0 <= i <= |s| && sub <= s[i..]
  }

  /** An occurrence at a known position is enough for `Contains`. */
  lemma ContainsAt(s: string, sub: string, i: nat)
    requires i <= |s| && sub <= s[i..]
    ensures Contains(s, sub)
  {
  }

  /** Nothing but the empty string occurs inside the empty string. */
  lemma ContainedInEmpty(sub: string)
    requires Contains("", sub)
    ensures sub == ""
  {
  }

  /** A non-empty pattern only occurs in a non-empty line. */
  lemma ContainsNonEmpty(s: string, sub: string)
    requires Contains(s, sub) && sub != ""
    ensures s != ""
  {
  }

  // ---------------------------------------------------------------- case folding

  predicate IsAsciiUpper(c: char) {
    'A' <= c <= 'Z'
  }

  /** Lower-cases one ASCII capital and leaves every other character alone. */
  function LowerChar(c: char): (r: char)
    ensures !IsAsciiUpper(r)
    ensures IsAsciiUpper(c) ==> r as int == c as int + 32
    ensures !IsAsciiUpper(c) ==> r == c
  {
    if IsAsciiUpper(c) then (c as int - 'A' as int + 'a' as int) as char else c
  }

  /** ASCII model of JavaScript `toLowerCase`. */
  function ToLower(s: string): (r: string)
    ensures |r| == |s|
    ensures forall k :: 0 <= k < |r| ==> !IsAsciiUpper(r[k])
    ensures forall k :: 0 <= k < |s| && IsAsciiUpper(s[k]) ==> r[k] as int == s[k] as int + 32
    ensures forall k :: 0 <= k < |s| && !IsAsciiUpper(s[k]) ==> r[k] == s[k]
  {
    seq(|s|, k requires 0 <= k < |s| => LowerChar(s[k]))
  }

  /** Folding a string that has no capitals leaves it unchanged, so folding twice is folding once. */
  lemma ToLowerIdempotent(s: string)
    ensures ToLower(ToLower(s)) == ToLower(s)
  {
  }

  // ---------------------------------------------------------------- split / join

  /** JavaScript `s.split("\n")`: the pieces between line feeds; `""` gives `[""]`. */
  function Split(s: string): (lines: seq<string>)
    ensures |lines| >= 1
    ensures forall k :: 0 <= k < |lines| ==> '\n' !in lines[k]
  {
    if |s| == 0 then [""]
    else
      var rest := Split(s[1..]);
      assert s == [s[0]] + s[1..];
      if s[0] == '\n' then [""] + rest
      else [[s[0]] + rest[0]] + rest[1..]
  }

  /** JavaScript `lines.join("\n")`. */
  function Join(lines: seq<string>): string
  {
    if |lines| == 0 then ""
    else if |lines| == 1 then lines[0]
    else lines[0] + "\n" + Join(lines[1..])
  }

  /** Joining what was split gives the original text back. */
  lemma {:induction false} JoinSplit(s: string)
    ensures Join(Split(s)) == s
    decreases |s|
  {
    if |s| > 0 {
      var rest := Split(s[1..]);
      JoinSplit(s[1..]);
      assert s == [s[0]] + s[1..];
      if s[0] == '\n' {
        var lines := [""] + rest;
        assert Split(s) == lines;
        assert lines[1..] == rest;
        assert Join(lines) == "" + "\n" + Join(rest);
      } else {
        JoinConsChar(s[0], rest);
      }
    }
  }

  /** Joining after gluing a character onto the first line glues it onto the joined text. */
  lemma JoinConsChar(c: char, rest: seq<string>)
    requires |rest| >= 1
    ensures Join([[c] + rest[0]] + rest[1..]) == [c] + Join(rest)
  {
    var first := [c] + rest[0];
    var lines := [first] + rest[1..];
    if |rest| > 1 {
      var tail := Join(rest[1..]);
      calc {
        Join(lines);
        { assert lines[1..] == rest[1..]; }
        first + "\n" + tail;
        [c] + (rest[0] + "\n" + tail);
        [c] + Join(rest);
      }
    }
  }

  /** Splitting a text whose first piece `a` holds no line feed. */
  lemma {:induction false} SplitAfterLine(a: string, b: string)
    requires '\n' !in a
    ensures Split(a + b) == [a + Split(b)[0]] + Split(b)[1..]
    decreases |a|
  {
    if |a| > 0 {
      assert (a + b)[1..] == a[1..] + b;
      assert '\n' !in a[1..] by {
        forall k | 0 <= k < |a[1..]| ensures a[1..][k] != '\n' {
          assert a[1..][k] == a[k + 1];
        }
      }
      SplitAfterLine(a[1..], b);
      var sb := Split(b);
      var rest := Split((a + b)[1..]);
      assert rest == [a[1..] + sb[0]] + sb[1..];
      assert (a + b)[0] == a[0];
      assert Split(a + b) == [[a[0]] + rest[0]] + rest[1..];
      assert rest[0] == a[1..] + sb[0];
      assert rest[1..] == sb[1..];
      assert [a[0]] + (a[1..] + sb[0]) == a + sb[0];
    } else {
      var sb := Split(b);
      assert a + b == b;
      assert a + sb[0] == sb[0];
      assert sb == [sb[0]] + sb[1..];
    }
  }

  /** Splitting what was joined gives the lines back, when no line holds a line feed. */
  lemma {:induction false} SplitJoin(lines: seq<string>)
    requires |lines| >= 1
    requires forall k :: 0 <= k < |lines| ==> '\n' !in lines[k]
    ensures Split(Join(lines)) == lines
    decreases |lines|
  {
    if |lines| == 1 {
      SplitAfterLine(lines[0], "");
      assert lines[0] + "" == lines[0];
    } else {
      var rest := lines[1..];
      SplitJoin(rest);
      var tail := "\n" + Join(rest);
      assert Join(lines) == lines[0] + tail;
      SplitAfterLine(lines[0], tail);
      assert tail[1..] == Join(rest);
      assert tail[0] == '\n';
      assert Split(tail) == [""] + Split(tail[1..]);
      assert Split(tail) == [""] + rest;
      assert Split(tail)[0] == "" && Split(tail)[1..] == rest;
      assert lines[0] + "" == lines[0];
      assert lines == [lines[0]] + rest;
    }
  }

  /** Joining a concatenation puts one line feed between the two joined halves. */
  lemma {:induction false} JoinAppend(xs: seq<string>, ys: seq<string>)
    requires |xs| >= 1 && |ys| >= 1
    ensures Join(xs + ys) == Join(xs) + "\n" + Join(ys)
    decreases |xs|
  {
    if |xs| == 1 {
      assert (xs + ys)[1..] == ys;
    } else {
      assert (xs + ys)[1..] == xs[1..] + ys;
      JoinAppend(xs[1..], ys);
    }
  }

  /** `Contains` is transitive: a piece of a piece is a piece. */
  lemma ContainsTransitive(x: string, y: string, z: string)
    requires Contains(x, y) && Contains(y, z)
    ensures Contains(x, z)
  {
    var i :| 0 <= i <= |x| && y <= x[i..];
    var j :| 0 <= j <= |y| && z <= y[j..];
    assert |y| <= |x| - i && j <= |y|;
    assert y[j..] <= x[i + j..] by {
      assert x[i..][j..] == x[i + j..];
    }
    assert z <= x[i + j..];
    ContainsAt(x, z, i + j);
  }

  /** The joined text of the first `k` lines is a piece of the joined text of all of them. */
  lemma JoinPrefixContained(lines: seq<string>, k: nat)
    requires k <= |lines|
    ensures Contains(Join(lines), Join(lines[..k]))
  {
    if 0 < k < |lines| {
      JoinAppend(lines[..k], lines[k..]);
      assert lines[..k] + lines[k..] == lines;
      assert Join(lines[..k]) <= Join(lines);
    } else if k == |lines| {
      assert lines[..k] == lines;
    }
    ContainsAt(Join(lines), Join(lines[..k]), 0);
  }

  /** The joined text of the lines from `k` on is a piece of the joined text of all of them. */
  lemma JoinSuffixContained(lines: seq<string>, k: nat)
    requires k <= |lines|
    ensures Contains(Join(lines), Join(lines[k..]))
  {
    var whole := Join(lines);
    if 0 < k < |lines| {
      var pre := Join(lines[..k]) + "\n";
      JoinAppend(lines[..k], lines[k..]);
      assert lines[..k] + lines[k..] == lines;
      assert whole == pre + Join(lines[k..]);
      assert whole[|pre|..] == Join(lines[k..]);
      ContainsAt(whole, Join(lines[k..]), |pre|);
    } else if k == 0 {
      assert lines[k..] == lines;
      ContainsAt(whole, whole, 0);
    } else {
      ContainsAt(whole, Join(lines[k..]), 0);
    }
  }

  /** The joined text of a run of consecutive lines is a piece of the joined text of all of them. */
  lemma JoinSliceContained(lines: seq<string>, a: nat, b: nat)
    requires a <= b <= |lines|
    ensures Contains(Join(lines), Join(lines[a..b]))
  {
    JoinSuffixContained(lines, a);
    JoinPrefixContained(lines[a..], b - a);
    assert lines[a..][..b - a] == lines[a..b];
    ContainsTransitive(Join(lines), Join(lines[a..]), Join(lines[a..b]));
  }

  /** Two or more joined lines, or one non-empty line, never give the empty string. */
  lemma JoinNonEmpty(lines: seq<string>, m: nat)
    requires m < |lines|
    requires |lines| >= 2 || lines[m] != ""
    ensures Join(lines) != ""
  {
    if |lines| >= 2 {
      assert |Join(lines)| >= 1;
    }
  }
}

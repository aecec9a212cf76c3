/**
 The two scans the extractor is built from: a forward scan for the first
 element satisfying a test (JavaScript `findIndex` / `find`) and a backward
 scan, from the last element down, for the highest-index one.
 */
module Search {
  import opened Options

  /** The lowest index at or after `from` whose element satisfies `p`, if any. */
  function FirstIndex<T>(s: seq<T>, p: T -> bool, from: nat): (r: Option<nat>)
    requires from <= |s|
    ensures r.Some? ==> from <= r.value < |s| && p(s[r.value])
    ensures r.Some? ==> forall j :: from <= j < r.value ==> !p(s[j])
    ensures r.None? ==> forall j :: from <= j < |s| ==> !p(s[j])
    decreases |s| - from
  {
    if from == |s| then None
    else if p(s[from]) then Some(from)
    else FirstIndex(s, p, from + 1)
  }

  /** The highest index below `n` whose element satisfies `p`, if any. */
  function LastIndex<T>(s: seq<T>, p: T -> bool, n: nat): (r: Option<nat>)
    requires n <= |s|
    ensures r.Some? ==> r.value < n && p(s[r.value])
    ensures r.Some? ==> forall j :: r.value < j < n ==> !p(s[j])
    ensures r.None? ==> forall j :: 0 <= j < n ==> !p(s[j])
  {
    if n == 0 then None
    else if p(s[n - 1]) then Some(n - 1)
    else LastIndex(s, p, n - 1)
  }

  /** A satisfying element at `i`, with none after it, is what the backward scan finds. */
  lemma LastIndexIs<T>(s: seq<T>, p: T -> bool, i: nat)
    requires i < |s| && p(s[i])
    requires forall j :: i < j < |s| ==> !p(s[j])
    ensures LastIndex(s, p, |s|) == Some(i)
  {
  }
}

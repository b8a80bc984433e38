/** String helpers the pages rely on: `trim`, `toLowerCase` and `includes`.
    Whitespace and case are the ASCII ones; Unicode whitespace and case
    folding are not modelled. */
module Text {

  predicate IsSpace(c: char) {
    c == ' ' || c == '\t' || c == '\n' || c == '\r' || c == '\U{000B}' || c == '\U{000C}'
  }

  predicate AllSpace(s: string) {
    forall i | 0 <= i < |s| :: IsSpace(s[i])
  }

  /** `s.trimStart()`: drops the leading whitespace. */
  function TrimStart(s: string): (r: string)
    ensures |r| <= |s| && r == s[|s| - |r|..]
    ensures AllSpace(s[..|s| - |r|])
    ensures r == [] || !IsSpace(r[0])
  {
    if s == [] || !IsSpace(s[0]) then s
    else
      var r := TrimStart(s[1..]);
      assert s[1..][|s[1..]| - |r|..] == s[|s| - |r|..];
      assert forall i | 1 <= i < |s| - |r| :: s[i] == s[1..][..|s[1..]| - |r|][i - 1];
      r
  }

  /** `s.trimEnd()`: drops the trailing whitespace. */
  function TrimEnd(s: string): (r: string)
    ensures |r| <= |s| && r == s[..|r|]
    ensures AllSpace(s[|r|..])
    ensures r == [] || !IsSpace(r[|r| - 1])
  {
    if s == [] || !IsSpace(s[|s| - 1]) then s
    else
      var r := TrimEnd(s[..|s| - 1]);
      assert s[..|s| - 1][|r|..] == s[|r|..|s| - 1];
      r
  }

  /** `s.trim()`: a contiguous slice of `s` with neither leading nor trailing
      whitespace, obtained by cutting whitespace only. */
  function Trim(s: string): (r: string)
    ensures exists i, j :: 0 <= i <= j <= |s| && r == s[i..j] && AllSpace(s[..i]) && AllSpace(s[j..])
    ensures r == [] || (!IsSpace(r[0]) && !IsSpace(r[|r| - 1]))
  {
    var a := TrimStart(s);
    var r := TrimEnd(a);
    TrimCutsOnlySpace(s, a, r);
    r
  }

  /** Cutting whitespace from the front and then from the back cuts a slice
      out of the middle. */
  lemma TrimCutsOnlySpace(s: string, a: string, r: string)
    requires |a| <= |s| && a == s[|s| - |a|..] && AllSpace(s[..|s| - |a|])
    requires |r| <= |a| && r == a[..|r|] && AllSpace(a[|r|..])
    ensures exists i, j :: 0 <= i <= j <= |s| && r == s[i..j] && AllSpace(s[..i]) && AllSpace(s[j..])
  {
    var i := |s| - |a|;
    assert r == s[i..i + |r|];
    assert s[i + |r|..] == a[|r|..];
  }

  /** Trimming a trimmed string changes nothing. */
  lemma TrimIdempotent(s: string)
    ensures Trim(Trim(s)) == Trim(s)
  {
    var t := Trim(s);
    assert TrimStart(t) == t;
    assert TrimEnd(t) == t;
  }

  /** The trimmed value is empty exactly when the input is blank. */
  lemma TrimEmptyIffBlank(s: string)
    ensures Trim(s) == [] <==> AllSpace(s)
  {
    var i, j :| 0 <= i <= j <= |s| && Trim(s) == s[i..j] && AllSpace(s[..i]) && AllSpace(s[j..]);
    if Trim(s) == [] {
      assert i == j;
      forall k | 0 <= k < |s| ensures IsSpace(s[k]) {
        if k < i { assert s[..i][k] == s[k]; } else { assert s[j..][k - j] == s[k]; }
      }
    }
  }

  function LowerChar(c: char): char {
    if 'A' <= c <= 'Z' then (c as int + 32) as char else c
  }

  /** `s.toLowerCase()` on ASCII letters. */
  function Lower(s: string): (r: string)
    ensures |r| == |s|
    ensures forall i | 0 <= i < |s| :: r[i] == LowerChar(s[i])
  {
    seq(|s|, i requires 0 <= i < |s| => LowerChar(s[i]))
  }

  /** Lower-casing twice is lower-casing once. */
  lemma LowerIdempotent(s: string)
    ensures Lower(Lower(s)) == Lower(s)
  {
  }

  /** `s.includes(sub)`: `sub` occurs in `s` at some offset. */
  predicate Contains(s: string, sub: string) {
    exists i | 0 <= i <= |s| - |sub| :: OccursAt(s, sub, i)
  }

  predicate OccursAt(s: string, sub: string, i: int)
    requires 0 <= i <= |s| - |sub|
  {
    s[i..i + |sub|] == sub
  }

  /** The empty string occurs in every string. */
  lemma ContainsEmpty(s: string)
    ensures Contains(s, "")
  {
    assert OccursAt(s, "", 0);
  }

  /** The case-insensitive match the search boxes use:
      `s.toLowerCase().includes(term.toLowerCase())`. */
  predicate MatchesTerm(s: string, term: string) {
    Contains(Lower(s), Lower(term))
  }

  /** An empty search term matches every string. */
  lemma EmptyTermMatches(s: string)
    ensures MatchesTerm(s, "")
  {
    ContainsEmpty(Lower(s));
  }

  /** A string matches itself, whatever its case. */
  lemma TermMatchesItself(s: string)
    ensures MatchesTerm(s, s)
  {
    assert OccursAt(Lower(s), Lower(s), 0);
  }

  /** Matching ignores case on the term side: a term and its lower-case form
      select the same strings. */
  lemma MatchIgnoresTermCase(s: string, term: string)
    ensures MatchesTerm(s, term) <==> MatchesTerm(s, Lower(term))
  {
    LowerIdempotent(term);
  }
}

/**
 * The character-pointer helpers the UCI front ends walk command lines
 * with: `skip_ws`, `next_token`, the "skip to the next space" loops, and
 * the C library's `strstr` and `strncmp` against a literal.  A pointer is
 * an index into the line; reading at or past the end reads the NUL.
 */
module Tokens {
  import opened Placement

  /** A blank for `skip_ws`: a space or a tab. */
  predicate IsBlank(c: char)
  {
    c == ' ' || c == '\t'
  }

  /** `skip_ws`: the first position from i on that is not a blank. */
  function SkipWs(s: string, i: nat): (j: nat)
    ensures i <= j && !IsBlank(At(s, j))
    ensures forall k :: i <= k < j ==> IsBlank(At(s, k))
    ensures j <= |s| || j == i
    decreases |s| - i
  {
    if i < |s| && IsBlank(s[i]) then SkipWs(s, i + 1) else i
  }

  /** The loop of `skip_ws`. */
  method SkipWhitespace(s: string, i: nat) returns (j: nat)
    ensures j == SkipWs(s, i)
  {
    j := i;
    while At(s, j) == ' ' || At(s, j) == '\t'
      invariant i <= j && (j <= |s| || j == i) && SkipWs(s, j) == SkipWs(s, i)
      decreases |s| - j
    {
      j := j + 1;
    }
  }

  /** The end of the word at i: the first NUL or space (or, with tabs, tab). */
  function WordEnd(s: string, i: nat, tabs: bool): (j: nat)
    ensures i <= j && (j <= |s| || j == i)
    ensures At(s, j) == '\0' || At(s, j) == ' ' || (tabs && At(s, j) == '\t')
    ensures forall k :: i <= k < j ==> s[k] != '\0' && s[k] != ' ' && !(tabs && s[k] == '\t')
    decreases |s| - i
  {
    if i < |s| && s[i] != '\0' && s[i] != ' ' && !(tabs && s[i] == '\t') then WordEnd(s, i + 1, tabs) else i
  }

  /** The loop `while (*p && *p != ' ') p++` (and, with tabs, `&& *p != '\t'`). */
  method SkipWord(s: string, i: nat, tabs: bool) returns (j: nat)
    ensures j == WordEnd(s, i, tabs)
  {
    j := i;
    while At(s, j) != '\0' && At(s, j) != ' ' && !(tabs && At(s, j) == '\t')
      invariant i <= j && (j <= |s| || j == i) && WordEnd(s, j, tabs) == WordEnd(s, i, tabs)
      decreases |s| - j
    {
      j := j + 1;
    }
  }

  /**
   * `next_token`: past the current word, then past the blanks after it.
   * It moves forward whenever it starts on a word or a blank, and stops
   * on a character that begins a word or on the NUL.
   */
  function NextToken(s: string, i: nat): (j: nat)
    ensures i <= j && (j <= |s| || j == i) && !IsBlank(At(s, j))
    ensures At(s, i) != '\0' ==> i < j
  {
    SkipWs(s, WordEnd(s, i, true))
  }

  /** The suffix of s from i, empty past the end. */
  function Drop(s: string, i: nat): (t: string)
    ensures forall k :: 0 <= k ==> At(t, k) == At(s, i + k)
  {
    if i <= |s| then s[i..] else []
  }

  /** `strncmp(s + i, pat, |pat|) == 0` for a literal without NUL. */
  predicate Occurs(s: string, pat: string, i: nat)
  {
    i + |pat| <= Strlen(s) && s[i..i + |pat|] == pat
  }

  /** `strlen`: the characters before the first NUL. */
  function Strlen(s: string): (n: nat)
    ensures n <= |s|
    ensures forall k :: 0 <= k < n ==> s[k] != '\0'
    ensures n < |s| ==> s[n] == '\0'
  {
    if |s| == 0 || s[0] == '\0' then 0 else 1 + Strlen(s[1..])
  }

  /** `strstr(s + i, pat)`: the first occurrence at or after i, or -1. */
  function Find(s: string, pat: string, i: nat): (r: int)
    ensures r == -1 || (i <= r && Occurs(s, pat, r))
    ensures forall k :: i <= k && (r == -1 || k < r) ==> !Occurs(s, pat, k)
    decreases |s| - i
  {
    if i + |pat| > Strlen(s) then -1
    else if s[i..i + |pat|] == pat then i
    else Find(s, pat, i + 1)
  }
}

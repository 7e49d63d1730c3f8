/**
 * Character classes and string helpers shared by every editor front end:
 * JavaScript's `\w`, the placeholder path class `[\w._]`, `toLowerCase`,
 * `startsWith`, `endsWith`, `includes`, the `\s` class and `trim`.
 * Lower-casing is ASCII lower-casing; characters outside ASCII are left alone.
 */
module Text {

  /** JavaScript's `\w`: ASCII letters, digits and underscore. */
  predicate IsWordChar(c: char)
  {
    ('a' <= c <= 'z') || ('A' <= c <= 'Z') || ('0' <= c <= '9') || c == '_'
  }

  /** The class `[\w._]` that a placeholder path is made of. */
  predicate IsPathChar(c: char)
  {
    IsWordChar(c) || c == '.'
  }

  predicate IsUpperAscii(c: char)
  {
    'A' <= c <= 'Z'
  }

  /** JavaScript `\s` (white space and line terminators), the class `eatSpace` skips and `trim` removes. */
  predicate IsJsSpace(c: char)
  {
    c == ' ' || c == '\t' || c == '\n' || c == '\r' || c == '\U{B}' || c == '\U{C}'
    || c == '\U{A0}' || c == '\U{1680}' || ('\U{2000}' <= c <= '\U{200A}')
    || c == '\U{2028}' || c == '\U{2029}' || c == '\U{202F}' || c == '\U{205F}'
    || c == '\U{3000}' || c == '\U{FEFF}'
  }

  function LowerChar(c: char): (d: char)
    ensures !IsUpperAscii(d)
    ensures IsUpperAscii(c) ==> d as int == c as int + 32
    ensures !IsUpperAscii(c) ==> d == c
  {
    if IsUpperAscii(c) then (c as int + 32) as char else c
  }

  /** `toLowerCase`, restricted to ASCII letters. */
  function Lower(s: string): (r: string)
    ensures |r| == |s|
    ensures forall i :: 0 <= i < |s| ==> r[i] == LowerChar(s[i])
  {
    if s == [] then [] else [LowerChar(s[0])] + Lower(s[1..])
  }

  lemma LowerAppend(a: string, b: string)
    ensures Lower(a + b) == Lower(a) + Lower(b)
  {
  }

  predicate StartsWith(s: string, prefix: string)
  {
    |prefix| <= |s| && s[..|prefix|] == prefix
  }

  /** `s` starts with `prefix` when both are lower-cased. */
  predicate StartsWithIgnoringCase(s: string, prefix: string)
  {
    |prefix| <= |s| && forall i :: 0 <= i < |prefix| ==> LowerChar(s[i]) == LowerChar(prefix[i])
  }

  lemma StartsWithIgnoringCaseLower(s: string, prefix: string)
    ensures StartsWithIgnoringCase(s, prefix) <==> StartsWith(Lower(s), Lower(prefix))
  {
    if StartsWith(Lower(s), Lower(prefix)) {
      forall i | 0 <= i < |prefix| ensures LowerChar(s[i]) == LowerChar(prefix[i]) {
        assert Lower(s)[..|prefix|][i] == Lower(prefix)[i];
      }
    }
  }

  predicate EndsWith(s: string, suffix: string)
  {
    |suffix| <= |s| && s[|s| - |suffix|..] == suffix
  }

  /** `t` occurs in `s` starting at index `i`. */
  predicate OccursAt(s: string, t: string, i: int)
  {
    0 <= i && i + |t| <= |s| && s[i..i + |t|] == t
  }

  /** JavaScript's `String.prototype.includes`. */
  predicate Contains(s: string, t: string)
  {
    exists i :: 0 <= i <= |s| - |t| && OccursAt(s, t, i)
  }

  lemma StartsWithContains(s: string, t: string)
    requires StartsWith(s, t)
    ensures Contains(s, t)
  {
    assert OccursAt(s, t, 0);
  }

  /** Index of the first character of `s` at or after `i` that `trim` keeps. */
  function SkipSpaces(s: string, i: nat): (j: nat)
    requires i <= |s|
    ensures i <= j <= |s|
    ensures forall k :: i <= k < j ==> IsJsSpace(s[k])
    ensures j < |s| ==> !IsJsSpace(s[j])
    decreases |s| - i
  {
    if i < |s| && IsJsSpace(s[i]) then SkipSpaces(s, i + 1) else i
  }

  /** End of `s[..j]` once trailing white space is dropped. */
  function DropTrailingSpaces(s: string, j: nat): (k: nat)
    requires j <= |s|
    ensures k <= j
    ensures forall m :: k <= m < j ==> IsJsSpace(s[m])
    ensures k > 0 ==> !IsJsSpace(s[k - 1])
  {
    if j > 0 && IsJsSpace(s[j - 1]) then DropTrailingSpaces(s, j - 1) else j
  }

  /** JavaScript's `String.prototype.trim`. */
  function Trim(s: string): (r: string)
  {
    var i := SkipSpaces(s, 0);
    var k := DropTrailingSpaces(s, |s|);
    if k <= i then "" else s[i..k]
  }

  /** Skipping white space from `i` gets past a run of white space up to `j`. */
  lemma {:induction false} SkipSpacesOver(s: string, i: nat, j: nat)
    requires i <= j <= |s| && forall k :: i <= k < j ==> IsJsSpace(s[k])
    ensures SkipSpaces(s, i) == SkipSpaces(s, j)
    decreases j - i
  {
    if i < j {
      SkipSpacesOver(s, i + 1, j);
    }
  }

  /** Dropping trailing white space before `j` gets back past a run of white space down to `i`. */
  lemma {:induction false} DropTrailingOver(s: string, i: nat, j: nat)
    requires i <= j <= |s| && forall k :: i <= k < j ==> IsJsSpace(s[k])
    ensures DropTrailingSpaces(s, j) == DropTrailingSpaces(s, i)
    decreases j - i
  {
    if i < j {
      DropTrailingOver(s, i, j - 1);
    }
  }

  /** Inside `lead + core + …`, dropping trailing white space stops where it stops in `core` alone, when `core` starts with a non-space. */
  lemma {:induction false} DropTrailingInside(lead: string, core: string, rest: string, j: nat)
    requires 1 <= j <= |core| && !IsJsSpace(core[0])
    ensures DropTrailingSpaces(lead + core + rest, |lead| + j) == |lead| + DropTrailingSpaces(core, j)
    decreases j
  {
    var s := lead + core + rest;
    assert s[|lead| + j - 1] == core[j - 1];
    if j > 1 && IsJsSpace(core[j - 1]) {
      DropTrailingInside(lead, core, rest, j - 1);
    }
  }

  /** What `trim` keeps once the ends of the kept part are known. */
  lemma TrimWindow(s: string, i: nat, k: nat)
    requires i < k <= |s| && SkipSpaces(s, 0) == i && DropTrailingSpaces(s, |s|) == k
    ensures Trim(s) == s[i..k]
  {
  }

  /** Leading white space is skipped up to the first character of `core`. */
  lemma SkipLead(lead: string, core: string, trail: string)
    requires forall k :: 0 <= k < |lead| ==> IsJsSpace(lead[k])
    requires |core| > 0 && !IsJsSpace(core[0])
    ensures SkipSpaces(lead + core + trail, 0) == |lead|
  {
    var s := lead + core + trail;
    forall k | 0 <= k < |lead| ensures IsJsSpace(s[k]) {
      assert s[k] == lead[k];
    }
    SkipSpacesOver(s, 0, |lead|);
    assert s[|lead|] == core[0];
  }

  /** Trailing white space is dropped back to where it would be dropped in `core` alone. */
  lemma DropTrail(lead: string, core: string, trail: string)
    requires forall k :: 0 <= k < |trail| ==> IsJsSpace(trail[k])
    requires |core| > 0 && !IsJsSpace(core[0])
    ensures DropTrailingSpaces(lead + core + trail, |lead + core + trail|) == |lead| + DropTrailingSpaces(core, |core|)
  {
    var s := lead + core + trail;
    var E := |lead| + |core|;
    forall k | E <= k < |s| ensures IsJsSpace(s[k]) {
      assert s[k] == trail[k - E];
    }
    DropTrailingOver(s, E, |s|);
    DropTrailingInside(lead, core, trail, |core|);
  }

  /** `trim` ignores white space added around a text that starts with a non-space character. */
  lemma TrimPadded(lead: string, core: string, trail: string)
    requires forall k :: 0 <= k < |lead| ==> IsJsSpace(lead[k])
    requires forall k :: 0 <= k < |trail| ==> IsJsSpace(trail[k])
    requires |core| > 0 && !IsJsSpace(core[0])
    ensures Trim(lead + core + trail) == Trim(core)
  {
    var s := lead + core + trail;
    var L := |lead|;
    var E := L + |core|;
    SkipLead(lead, core, trail);
    DropTrail(lead, core, trail);
    var k := DropTrailingSpaces(core, |core|);
    assert s[L..E] == core;
    SliceOfSlice(s, L, E, 0, k);
    TrimWindow(s, L, L + k);
    TrimWindow(core, 0, k);
  }

  /** `s` contains neither `{` nor `}`. */
  predicate BraceFree(s: string)
  {
    forall k :: 0 <= k < |s| ==> s[k] != '{' && s[k] != '}'
  }

  /** Index of the first `c` at or after `i`, or `|s|` when there is none. */
  function NextChar(s: string, i: nat, c: char): (q: nat)
    requires i <= |s|
    ensures i <= q <= |s|
    ensures forall k :: i <= k < q ==> s[k] != c
    ensures q < |s| ==> s[q] == c
    decreases |s| - i
  {
    if i == |s| || s[i] == c then i else NextChar(s, i + 1, c)
  }

  /** A slice of a slice is a slice of the whole. */
  lemma SliceOfSlice(text: string, m: nat, n: nat, i: nat, j: nat)
    requires m <= n <= |text| && i <= j <= n - m
    ensures text[m..n][i..j] == text[m + i..m + j]
  {
    assert forall k :: 0 <= k < j - i ==> text[m..n][i..j][k] == text[m + i + k];
  }
}

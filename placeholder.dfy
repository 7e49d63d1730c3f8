/**
 * The two "open placeholder before the cursor" patterns of the editors:
 *
 *   `\{\{[\w._]*$`           (Draft.js change handler, Monaco provider)
 *   `\{\{[\w._]*\}?\}?$`     (CodeMirror completion source)
 *
 * Each is written as a backwards scanner over the text before the cursor, and
 * proved to find exactly the one index at which the pattern matches up to the
 * end of that text. Since a match can start at one index only, it is also the
 * leftmost match, which is the one JavaScript's `match` and CodeMirror's
 * `matchBefore` report.
 */
module Placeholder {
  import opened Wrappers
  import opened Text

  /** Start of the run of path characters (`[\w._]`) that ends at `j`. */
  function PathRunStart(s: string, j: nat): (r: nat)
    requires j <= |s|
    ensures r <= j
    ensures forall k :: r <= k < j ==> IsPathChar(s[k])
    ensures r > 0 ==> !IsPathChar(s[r - 1])
    decreases j
  {
    if j > 0 && IsPathChar(s[j - 1]) then PathRunStart(s, j - 1) else j
  }

  /** Start of the run of `}` characters that ends at `j`. */
  function CloserRunStart(s: string, j: nat): (r: nat)
    requires j <= |s|
    ensures r <= j
    ensures forall k :: r <= k < j ==> s[k] == '}'
    ensures r > 0 ==> s[r - 1] != '}'
    decreases j
  {
    if j > 0 && s[j - 1] == '}' then CloserRunStart(s, j - 1) else j
  }

  /** `s[i..j]` is made of path characters only. */
  ghost predicate PathBetween(s: string, i: int, j: int)
    requires 0 <= i <= j <= |s|
  {
    forall k :: i <= k < j ==> IsPathChar(s[k])
  }

  /** `s[i..j]` is made of `}` characters only. */
  ghost predicate ClosersBetween(s: string, i: int, j: int)
    requires 0 <= i <= j <= |s|
  {
    forall k :: i <= k < j ==> s[k] == '}'
  }

  /** The two characters at `m` are `{{`. */
  predicate OpensAt(s: string, m: int)
  {
    0 <= m && m + 2 <= |s| && s[m] == '{' && s[m + 1] == '{'
  }

  /** The text ends with `}}`. */
  predicate ClosesWithBraces(s: string)
  {
    |s| >= 2 && s[|s| - 2] == '}' && s[|s| - 1] == '}'
  }

  // ----- `\{\{[\w._]*$` -----

  /** The pattern `\{\{[\w._]*$` matches `s` from index `m` to its end. */
  ghost predicate OpenAt(s: string, m: int)
  {
    OpensAt(s, m) && PathBetween(s, m + 2, |s|)
  }

  /** Where the match of `\{\{[\w._]*$` in `s` starts, if `s` has one. */
  function OpenStart(s: string): (r: Option<nat>)
    ensures r.Some? ==> OpenAt(s, r.value)
  {
    var p := PathRunStart(s, |s|);
    if p >= 2 && OpensAt(s, p - 2) then Some(p - 2) else None
  }

  /**
   * The scanner reports exactly the matches of the pattern: it finds `m`
   * whenever the pattern matches from `m`, so there is at most one match and
   * "no result" means "no match".
   */
  lemma OpenStartIsTheMatch(s: string, m: int)
    ensures OpenStart(s) == Some(m) <==> OpenAt(s, m)
  {
  }

  // ----- `\{\{[\w._]*\}?\}?$` -----

  /**
   * The pattern `\{\{[\w._]*\}?\}?$` matches `s` from index `m` to its end,
   * with the path part ending at `e`: `{{` at `m`, path characters up to `e`,
   * then at most two `}` up to the end.
   */
  ghost predicate ClosableAtWith(s: string, m: int, e: int)
  {
    OpensAt(s, m) && m + 2 <= e <= |s| && |s| - e <= 2
    && PathBetween(s, m + 2, e) && ClosersBetween(s, e, |s|)
  }

  ghost predicate ClosableAt(s: string, m: int)
  {
    exists e :: ClosableAtWith(s, m, e)
  }

  /** Where the match of `\{\{[\w._]*\}?\}?$` in `s` starts, if `s` has one. */
  function ClosableStart(s: string): (r: Option<nat>)
    ensures r.Some? ==> ClosableAtWith(s, r.value, CloserRunStart(s, |s|))
  {
    var e := CloserRunStart(s, |s|);
    if |s| - e > 2 then None
    else
      var p := PathRunStart(s, e);
      if p >= 2 && OpensAt(s, p - 2) then Some(p - 2) else None
  }

  /** In a match, the path part ends exactly where the trailing `}` run starts. */
  lemma ClosableEndForced(s: string, m: int, e: int)
    requires ClosableAtWith(s, m, e)
    ensures e == CloserRunStart(s, |s|)
  {
    // The character before `e` is the second `{` or a path character.
    assert s[e - 1] != '}';
  }

  /**
   * The scanner reports exactly the matches of the pattern: at most one start
   * index matches, and the scanner finds it.
   */
  lemma ClosableStartIsTheMatch(s: string, m: int)
    ensures ClosableStart(s) == Some(m) <==> ClosableAt(s, m)
  {
    if ClosableAt(s, m) {
      var e :| ClosableAtWith(s, m, e);
      ClosableEndForced(s, m, e);
    }
    if ClosableStart(s) == Some(m) {
      assert ClosableAtWith(s, m, CloserRunStart(s, |s|));
    }
  }

  /** The scanner finds a start exactly when the pattern matches somewhere, and what it finds is a match. */
  lemma ClosableStartFindsAny(s: string)
    ensures ClosableStart(s).Some? <==> exists m :: ClosableAt(s, m)
    ensures ClosableStart(s).Some? ==> ClosableAt(s, ClosableStart(s).value)
  {
    if ClosableStart(s).Some? {
      ClosableStartIsTheMatch(s, ClosableStart(s).value);
    } else {
      forall m ensures !ClosableAt(s, m) {
        ClosableStartIsTheMatch(s, m);
      }
    }
  }

  /** More than two trailing `}` rule a match out. */
  lemma TooManyClosers(s: string)
    requires |s| >= 3 && s[|s| - 1] == '}' && s[|s| - 2] == '}' && s[|s| - 3] == '}'
    ensures ClosableStart(s) == None
  {
  }

  /** Every match of the stricter Draft.js/Monaco pattern is a match of the CodeMirror pattern. */
  lemma OpenIsClosable(s: string, m: int)
    requires OpenAt(s, m)
    ensures ClosableAt(s, m)
  {
    assert ClosableAtWith(s, m, |s|);
  }

  /** A text ending in an open-placeholder match never ends in `}}`. */
  lemma OpenMatchHasNoClosers(s: string)
    requires OpenStart(s).Some?
    ensures !EndsWith(s, "}}")
  {
  }
}

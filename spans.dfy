/**
 * The highlighter's span scan: `/\{\{[^}]+\}\}/g` driven by repeated `exec`
 * calls, as in the Draft.js decorator strategy and in the CodeMirror
 * decoration pass. A match starts with `{{`, runs to the first `}` after it,
 * and needs that `}` to be followed by a second one; `exec` reports the
 * leftmost match at or after `lastIndex` and moves `lastIndex` to its end.
 */
module Spans {
  import opened Wrappers
  import opened Text

  /** A highlighted range `[start, end)`. */
  datatype Span = Span(start: nat, end: nat)

  /** `t` is a whole match of `\{\{[^}]+\}\}`: `{{`, at least one character other than `}`, then `}}`. */
  ghost predicate IsPlaceholder(t: string)
  {
    |t| >= 5 && t[0] == '{' && t[1] == '{' && t[|t| - 2] == '}' && t[|t| - 1] == '}'
    && forall k :: 2 <= k < |t| - 2 ==> t[k] != '}'
  }

  /** End of the match of `\{\{[^}]+\}\}` that starts at `p`, if one starts there. */
  function MatchAt(text: string, p: nat): (r: Option<nat>)
    requires p <= |text|
    ensures r.Some? ==> p + 5 <= r.value <= |text|
  {
    if p + 2 <= |text| && text[p] == '{' && text[p + 1] == '{' then
      var q := NextChar(text, p + 2, '}');
      if q > p + 2 && q + 1 < |text| && text[q + 1] == '}' then Some(q + 2) else None
    else None
  }

  /** The scanner agrees with the pattern: a match runs from `p` to `e` exactly when `MatchAt` says so. */
  lemma MatchAtIsTheMatch(text: string, p: nat, e: nat)
    requires p <= e <= |text|
    ensures MatchAt(text, p) == Some(e) <==> IsPlaceholder(text[p..e])
  {
    var t := text[p..e];
    if IsPlaceholder(t) {
      assert text[p] == t[0] && text[p + 1] == t[1];
      var q := NextChar(text, p + 2, '}');
      forall k | p + 2 <= k < e - 2 ensures text[k] != '}' {
        assert text[k] == t[k - p];
      }
      assert text[e - 2] == t[|t| - 2];
      assert text[e - 1] == t[|t| - 1];
      assert q == e - 2;
    }
    if MatchAt(text, p) == Some(e) {
      forall k | 2 <= k < |t| - 2 ensures t[k] != '}' {
        assert t[k] == text[p + k];
      }
    }
  }

  /**
   * `regex.exec(text)` with `lastIndex == from`: the leftmost match starting
   * at or after `from`.
   */
  function Exec(text: string, from: nat): (r: Option<Span>)
    requires from <= |text|
    ensures r.Some? ==> from <= r.value.start <= |text| && MatchAt(text, r.value.start) == Some(r.value.end)
    ensures r.Some? ==> forall p :: from <= p < r.value.start ==> MatchAt(text, p).None?
    ensures r.None? ==> forall p :: from <= p <= |text| ==> MatchAt(text, p).None?
    decreases |text| - from
  {
    match MatchAt(text, from)
    case Some(e) => Some(Span(from, e))
    case None => if from == |text| then None else Exec(text, from + 1)
  }

  /** The spans a `while ((match = regex.exec(text)) !== null)` loop reports, from `lastIndex == from` on. */
  function Matches(text: string, from: nat): (spans: seq<Span>)
    requires from <= |text|
    decreases |text| - from
  {
    match Exec(text, from)
    case None => []
    case Some(sp) => [sp] + Matches(text, sp.end)
  }

  /** Every span lies in `[from, |text|]` and covers one whole match. */
  ghost predicate WellFormed(text: string, from: nat, spans: seq<Span>)
  {
    forall i :: 0 <= i < |spans| ==>
      from <= spans[i].start && spans[i].start + 5 <= spans[i].end <= |text|
      && IsPlaceholder(text[spans[i].start..spans[i].end])
  }

  /** Spans come left to right and do not overlap. */
  ghost predicate Ordered(spans: seq<Span>)
  {
    forall i, j :: 0 <= i < j < |spans| ==> spans[i].end <= spans[j].start
  }

  /** No match starts in a gap the scan skipped: before the first span, between spans, or after the last. */
  ghost predicate NoSkippedMatch(text: string, from: nat, spans: seq<Span>)
    requires from <= |text|
  {
    && (forall p :: from <= p <= |text| && (|spans| == 0 || p < spans[0].start) ==> MatchAt(text, p).None?)
    && (forall i, p ::
          (0 <= i < |spans| && spans[i].end <= p <= |text| && (i + 1 == |spans| || p < spans[i + 1].start))
          ==> MatchAt(text, p).None?)
  }

  /** A successful `exec` puts its match ahead of the ones found after it. */
  lemma MatchesFirst(text: string, from: nat)
    requires from <= |text| && Exec(text, from).Some?
    ensures Matches(text, from) == [Exec(text, from).value] + Matches(text, Exec(text, from).value.end)
  {
  }

  /** Every reported span lies in `[from, |text|]` and covers one whole match. */
  lemma {:induction false} MatchesWellFormed(text: string, from: nat)
    requires from <= |text|
    ensures WellFormed(text, from, Matches(text, from))
    decreases |text| - from
  {
    var spans := Matches(text, from);
    match Exec(text, from)
    case None =>
    case Some(sp) =>
      var rest := Matches(text, sp.end);
      MatchesWellFormed(text, sp.end);
      assert spans == [sp] + rest;
      MatchAtIsTheMatch(text, sp.start, sp.end);
      forall i | 0 <= i < |spans|
        ensures from <= spans[i].start && spans[i].start + 5 <= spans[i].end <= |text|
        ensures IsPlaceholder(text[spans[i].start..spans[i].end])
      {
        if i > 0 {
          assert spans[i] == rest[i - 1];
        }
      }
  }

  /** Reported spans come left to right and do not overlap. */
  lemma {:induction false} MatchesOrdered(text: string, from: nat)
    requires from <= |text|
    ensures Ordered(Matches(text, from))
    ensures forall i :: 0 <= i < |Matches(text, from)| ==> from <= Matches(text, from)[i].start
    decreases |text| - from
  {
    var spans := Matches(text, from);
    match Exec(text, from)
    case None =>
    case Some(sp) =>
      var rest := Matches(text, sp.end);
      MatchesOrdered(text, sp.end);
      assert spans == [sp] + rest;
      forall i | 0 <= i < |spans| ensures from <= spans[i].start {
        if i > 0 {
          assert spans[i] == rest[i - 1];
        }
      }
      forall i, j | 0 <= i < j < |spans| ensures spans[i].end <= spans[j].start {
        if i > 0 {
          assert spans[i] == rest[i - 1];
        }
        assert spans[j] == rest[j - 1];
      }
  }

  /** No match starts where the scan did not report one: the scan skips no match. */
  lemma {:induction false} MatchesSkipNothing(text: string, from: nat)
    requires from <= |text|
    ensures NoSkippedMatch(text, from, Matches(text, from))
    decreases |text| - from
  {
    var spans := Matches(text, from);
    match Exec(text, from)
    case None =>
    case Some(sp) =>
      var rest := Matches(text, sp.end);
      MatchesSkipNothing(text, sp.end);
      assert spans == [sp] + rest;
      forall i, p | 0 <= i < |spans| && spans[i].end <= p <= |text| && (i + 1 == |spans| || p < spans[i + 1].start)
        ensures MatchAt(text, p).None?
      {
        if i == 0 {
          if |rest| > 0 {
            assert spans[1] == rest[0];
          }
        } else {
          assert spans[i] == rest[i - 1];
          if i + 1 < |spans| {
            assert spans[i + 1] == rest[i];
          }
        }
      }
  }

  // ----- What the scan does not report -----

  /** An empty `{{}}` starts no match. */
  lemma EmptyPlaceholderNotMatched(text: string, p: nat)
    requires OccursAt(text, "{{}}", p)
    ensures MatchAt(text, p) == None
  {
    assert text[p + 2] == "{{}}"[2];
  }

  /** A `{{` with no `}` after it (an unterminated placeholder) starts no match. */
  lemma UnterminatedNotMatched(text: string, p: nat)
    requires p <= |text|
    requires forall k :: p <= k < |text| ==> text[k] != '}'
    ensures MatchAt(text, p) == None
  {
  }

  /** A text without any `}` has no span at all. */
  lemma NoCloserNoSpans(text: string)
    requires forall k :: 0 <= k < |text| ==> text[k] != '}'
    ensures Matches(text, 0) == []
  {
    assert Exec(text, 0) == None;
  }

  lemma UnterminatedExample()
    ensures Matches("{{abc", 0) == []
  {
    NoCloserNoSpans("{{abc");
  }

  lemma EmptyExample()
    ensures Matches("{{}}", 0) == []
  {
    var t := "{{}}";
    EmptyPlaceholderNotMatched(t, 0);
    assert Exec(t, 0) == None by {
      forall p | 0 <= p <= |t| ensures MatchAt(t, p).None? {
        if p == 0 {
          EmptyPlaceholderNotMatched(t, 0);
        }
      }
    }
  }

  // ----- Inserting a placeholder -----

  /**
   * Every `{` of `prefix` has a `}` after it inside `prefix`, so no match that
   * starts in `prefix` can run on into text appended to it.
   */
  predicate BracesSettled(prefix: string)
  {
    forall k :: 0 <= k < |prefix| && prefix[k] == '{' ==> NextChar(prefix, k, '}') < |prefix|
  }

  /** A match that starts in a settled prefix ends inside it when the text goes on with `{`. */
  lemma SettledMatchStaysInPrefix(prefix: string, rest: string, p: nat)
    requires BracesSettled(prefix) && p < |prefix|
    requires |rest| > 0 && rest[0] == '{'
    ensures MatchAt(prefix + rest, p).Some? ==> MatchAt(prefix + rest, p).value <= |prefix|
  {
    var text := prefix + rest;
    if MatchAt(text, p).Some? {
      assert text[p] == prefix[p];
      var q' := NextChar(prefix, p, '}');
      assert prefix[q'] == '}';
      assert p + 2 <= q' by {
        assert text[p + 1] == '{';
        if p + 1 < |prefix| {
          assert prefix[p + 1] == text[p + 1];
        }
      }
      forall k | p + 2 <= k < q' ensures text[k] != '}' {
        assert text[k] == prefix[k];
      }
      assert text[q'] == '}';
      assert NextChar(text, p + 2, '}') == q';
    }
  }

  /** `{{v}}` written at `|prefix|` is matched whole when `v` is not empty and has no `}`. */
  lemma InsertedPlaceholderMatches(prefix: string, v: string, suffix: string)
    requires |v| > 0 && forall k :: 0 <= k < |v| ==> v[k] != '}'
    ensures MatchAt(prefix + "{{" + v + "}}" + suffix, |prefix|) == Some(|prefix| + |v| + 4)
  {
    var text := prefix + "{{" + v + "}}" + suffix;
    var P := |prefix|;
    assert text[P] == '{' && text[P + 1] == '{';
    forall k | P + 2 <= k < P + 2 + |v| ensures text[k] != '}' {
      assert text[k] == v[k - P - 2];
    }
    assert text[P + 2 + |v|] == '}' && text[P + 3 + |v|] == '}';
    assert NextChar(text, P + 2, '}') == P + 2 + |v|;
  }

  /**
   * When `v` has no `}` but its last character is one, the match of `{{v}}`
   * ends one character early: it takes `v`'s `}` and the first appended `}`
   * as the closing pair, and leaves the last `}` out.
   */
  lemma InsertedValueEndingInCloser(prefix: string, v: string, suffix: string)
    requires |v| >= 2 && v[|v| - 1] == '}'
    requires forall k :: 0 <= k < |v| - 1 ==> v[k] != '}'
    ensures MatchAt(prefix + "{{" + v + "}}" + suffix, |prefix|) == Some(|prefix| + |v| + 3)
  {
    var text := prefix + "{{" + v + "}}" + suffix;
    var P := |prefix|;
    assert text[P] == '{' && text[P + 1] == '{';
    forall k | P + 2 <= k < P + 1 + |v| ensures text[k] != '}' {
      assert text[k] == v[k - P - 2];
    }
    assert text[P + 1 + |v|] == v[|v| - 1];
    assert text[P + 2 + |v|] == '}';
    assert NextChar(text, P + 2, '}') == P + 1 + |v|;
  }

  /**
   * A match at `P` is reported by the scan from `from` when no match that
   * starts in `[from, P)` runs past `P`.
   */
  lemma {:induction false} MatchReported(text: string, P: nat, E: nat, from: nat)
    requires from <= P <= |text| && MatchAt(text, P) == Some(E)
    requires forall p :: from <= p < P && MatchAt(text, p).Some? ==> MatchAt(text, p).value <= P
    ensures Span(P, E) in Matches(text, from)
    decreases |text| - from
  {
    match Exec(text, from)
    case None =>
      assert false;
    case Some(sp) =>
      assert Matches(text, from) == [sp] + Matches(text, sp.end);
      if sp.start < P {
        MatchReported(text, P, E, sp.end);
      }
  }

  /**
   * The scan of `prefix + {{v}}` + `suffix` reports the inserted placeholder as
   * one whole span, whatever the prefix held, provided the prefix leaves no
   * `{` waiting for a `}`.
   */
  lemma InsertedPlaceholderReported(prefix: string, v: string, suffix: string, from: nat)
    requires BracesSettled(prefix) && from <= |prefix|
    requires |v| > 0 && forall k :: 0 <= k < |v| ==> v[k] != '}'
    ensures Span(|prefix|, |prefix| + |v| + 4) in Matches(prefix + "{{" + v + "}}" + suffix, from)
  {
    var rest := "{{" + v + "}}" + suffix;
    var text := prefix + rest;
    assert text == prefix + "{{" + v + "}}" + suffix;
    InsertedPlaceholderMatches(prefix, v, suffix);
    forall p | from <= p < |prefix| && MatchAt(text, p).Some?
      ensures MatchAt(text, p).value <= |prefix|
    {
      SettledMatchStaysInPrefix(prefix, rest, p);
    }
    MatchReported(text, |prefix|, |prefix| + |v| + 4, from);
  }
}

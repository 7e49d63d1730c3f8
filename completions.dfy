/**
 * The CodeMirror completion source (`createCompletions`). The current copy and
 * the backup copy compute the same range, options and boosts; they differ only
 * in the `info` panel builder, which this model leaves out, so one model
 * stands for both.
 */
module Completions {
  import opened Wrappers
  import opened Text
  import opened Suggestion
  import opened Placeholder

  /** One offered completion (`label`, `type`, `detail`, `category`, `boost`). */
  datatype Completion = Completion(
    completionLabel: string,
    completionType: Option<string>,
    detail: string,
    category: string,
    boost: int)

  /** The returned `{from, to, options}`; `options` is absent when no catalog was given. */
  datatype CompletionResult = CompletionResult(from: nat, to: nat, options: Option<seq<Completion>>)

  /** What `context.matchBefore(regex)` returns: the matched text and where it lies. */
  datatype Before = Before(from: nat, to: nat, text: string)

  /** `context.matchBefore(/\{\{[\w._]*\}?\}?$/)` for a cursor at `cursor`. */
  function MatchBefore(text: string, cursor: nat): (r: Option<Before>)
    requires cursor <= |text|
    ensures r.Some? <==> exists m :: ClosableAt(text[..cursor], m)
    ensures r.Some? ==> ClosableAt(text[..cursor], r.value.from)
    ensures r.Some? ==> r.value.from <= r.value.to == cursor && r.value.text == text[r.value.from..cursor]
  {
    ClosableStartFindsAny(text[..cursor]);
    match ClosableStart(text[..cursor])
    case None => None
    case Some(m) => Some(Before(m, cursor, text[m..cursor]))
  }

  /** `t.replace(/^\{\{|\}\}$/g, "")`: drop a leading `{{`, then a trailing `}}` that does not overlap it. */
  function StripBraces(t: string): string
  {
    var a := if OpensAt(t, 0) then 2 else 0;
    if |t| >= a + 2 && ClosesWithBraces(t) then t[a..|t| - 2] else t[a..]
  }

  /** The completion offered for `item` when the query is `query`. */
  function ToCompletion(item: Item, query: string): Completion
  {
    Completion(item.value, item.itemType, item.category, item.category,
               if StartsWith(Lower(item.value), query) then 2 else 1)
  }

  /** `items?.filter(...)?.map(...)`. */
  function Options(items: Option<seq<Item>>, query: string): (r: Option<seq<Completion>>)
  {
    match items
    case None => None
    case Some(xs) =>
      var kept := Filter(xs, query);
      Some(seq(|kept|, k requires 0 <= k < |kept| => ToCompletion(kept[k], query)))
  }

  /** The range of a completion and the text typed in it, before the query is lower-cased. */
  datatype Prepared = Prepared(from: nat, to: nat, typed: string)

  /**
   * The part of the completion source that depends on the text only: the
   * match before the cursor, the range after its `{{` (before a trailing
   * `}}`), and the typed text with its braces stripped.
   */
  function Prepare(text: string, cursor: nat): (r: Option<Prepared>)
    requires cursor <= |text|
  {
    match MatchBefore(text, cursor)
    case None => None
    case Some(before) =>
      var hasClosingBraces := ClosesWithBraces(before.text);
      if !OpensAt(before.text, 0) then None
      else
        Some(Prepared(
          before.from + 2,
          if hasClosingBraces then before.to - 2 else before.to,
          StripBraces(before.text)))
  }

  /**
   * The completion source run with the cursor at `cursor`: no result unless
   * `\{\{[\w._]*\}?\}?$` matches the text before the cursor; otherwise the
   * range after the match's `{{` (before a trailing `}}`), with the entries
   * whose lower-cased value contains the lower-cased text of that range.
   */
  function Complete(text: string, cursor: nat, items: Option<seq<Item>>): (r: Option<CompletionResult>)
    requires cursor <= |text|
    ensures r.None? <==> forall m :: !ClosableAt(text[..cursor], m)
    ensures r.Some? ==>
      && 2 <= r.value.from <= r.value.to <= cursor
      && ClosableAt(text[..cursor], r.value.from - 2)
      && r.value.to == (if ClosesWithBraces(text[..cursor]) then cursor - 2 else cursor)
      && r.value.options == Options(items, Lower(text[r.value.from..r.value.to]))
  {
    PrepareNullIff(text, cursor);
    match Prepare(text, cursor)
    case None => None
    case Some(p) =>
      PrepareRange(text, cursor);
      PrepareRangeEnd(text, cursor);
      PrepareQuery(text, cursor);
      Some(CompletionResult(p.from, p.to, Options(items, Lower(p.typed))))
  }

  /** `apply`: replace `[from - 2, to)` with `{{` and the label. */
  function Apply(text: string, completionLabel: string, from: nat, to: nat): (r: string)
    requires 2 <= from <= to <= |text|
    ensures |r| == |text| - (to - from) + |completionLabel|
  {
    text[..from - 2] + "{{" + completionLabel + text[to..]
  }

  // ----- When there is a result, and its range -----

  /**
   * There is a result exactly when the text before the cursor ends with `{{`,
   * path characters, and at most two `}`; the check for a leading `{{` never
   * fails once the pattern matched.
   */
  lemma PrepareNullIff(text: string, cursor: nat)
    requires cursor <= |text|
    ensures Prepare(text, cursor).None? <==> forall m :: !ClosableAt(text[..cursor], m)
  {
    var s := text[..cursor];
    match ClosableStart(s)
    case None =>
      forall m ensures !ClosableAt(s, m) {
        ClosableStartIsTheMatch(s, m);
      }
    case Some(m) =>
      ClosableStartIsTheMatch(s, m);
      assert text[m..cursor] == s[m..];
      assert OpensAt(text[m..cursor], 0);
  }

  /** The range starts right after the `{{` of the match, and ends at or before the cursor. */
  lemma PrepareRange(text: string, cursor: nat)
    requires cursor <= |text|
    requires Prepare(text, cursor).Some?
    ensures var p := Prepare(text, cursor).value;
      && 2 <= p.from <= p.to <= cursor
      && ClosableAt(text[..cursor], p.from - 2)
      && text[p.from - 2] == '{' && text[p.from - 1] == '{'
  {
    var s := text[..cursor];
    ClosableStartIsTheMatch(s, ClosableStart(s).value);
  }

  /** The range ends two characters before the cursor when the match ends with `}}`, and at the cursor otherwise. */
  lemma PrepareRangeEnd(text: string, cursor: nat)
    requires cursor <= |text|
    requires Prepare(text, cursor).Some?
    ensures Prepare(text, cursor).value.to == if ClosesWithBraces(text[..cursor]) then cursor - 2 else cursor
  {
    var before := MatchBefore(text, cursor).value;
    assert ClosesWithBraces(before.text) <==> ClosesWithBraces(text[..cursor]);
  }

  /** Once the text opens with `{{`, a trailing `}}` never overlaps it. */
  lemma StripOpened(t: string)
    requires OpensAt(t, 0)
    ensures ClosesWithBraces(t) ==> |t| >= 4 && StripBraces(t) == t[2..|t| - 2]
    ensures !ClosesWithBraces(t) ==> StripBraces(t) == t[2..]
  {
    if ClosesWithBraces(t) {
      assert t[|t| - 2] == '}' && t[1] == '{';
    }
  }

  /**
   * The query (before lower-casing) is exactly the text of the range: the
   * leading `{{` and a trailing `}}` are stripped, but a single trailing `}`
   * stays in it.
   */
  lemma PrepareQuery(text: string, cursor: nat)
    requires cursor <= |text|
    requires Prepare(text, cursor).Some?
    ensures var p := Prepare(text, cursor).value;
      p.typed == text[p.from..p.to]
  {
    var before := MatchBefore(text, cursor).value;
    var t := before.text;
    var p := Prepare(text, cursor).value;
    assert p.from == before.from + 2 && p.typed == StripBraces(t);
    StripOpened(t);
    if ClosesWithBraces(t) {
      SliceOfSlice(text, before.from, cursor, 2, |t| - 2);
    } else {
      SliceOfSlice(text, before.from, cursor, 2, |t|);
    }
  }

  /** A match ending in a single `}` keeps that `}` in the range and the query. */
  lemma SingleCloserStaysInQuery(text: string, cursor: nat)
    requires 2 <= cursor <= |text|
    requires Prepare(text, cursor).Some?
    requires text[cursor - 1] == '}' && text[cursor - 2] != '}'
    ensures Prepare(text, cursor).value.to == cursor
    ensures var q := Lower(Prepare(text, cursor).value.typed); |q| > 0 && q[|q| - 1] == '}'
  {
    PrepareRange(text, cursor);
    PrepareRangeEnd(text, cursor);
    PrepareQuery(text, cursor);
    var p := Prepare(text, cursor).value;
    assert p.to == cursor;
    assert p.from < cursor;
    var typed := p.typed;
    assert typed[|typed| - 1] == text[cursor - 1];
    assert Lower(typed)[|typed| - 1] == LowerChar('}');
  }

  // ----- Options -----

  /**
   * Without a catalog the options are absent; with one they are the entries
   * the filter keeps, in catalog order, each labelled with its value, typed,
   * described and categorised as the entry is, and boosted to 2 exactly when
   * its lower-cased value starts with the query (1 otherwise).
   */
  lemma OptionsSelect(items: Option<seq<Item>>, query: string)
    ensures var r := Options(items, query);
      && (r.None? <==> items.None?)
      && (items.Some? ==>
            && |r.value| == |Filter(items.value, query)|
            && forall k :: 0 <= k < |r.value| ==>
                 var item := Filter(items.value, query)[k];
                 && Keeps(item, query)
                 && r.value[k].completionLabel == item.value
                 && r.value[k].completionType == item.itemType
                 && r.value[k].detail == item.category
                 && r.value[k].category == item.category
                 && (r.value[k].boost == 2 <==> StartsWith(Lower(item.value), query))
                 && (r.value[k].boost == 1 <==> !StartsWith(Lower(item.value), query)))
  {
    if items.Some? {
      FilterSelects(items.value, query);
    }
  }

  /** Every entry passing the filter is offered, at the place the filter gives it. */
  lemma OptionsComplete(xs: seq<Item>, query: string, i: nat)
    requires i < |xs| && Keeps(xs[i], query)
    ensures exists k :: 0 <= k < |Options(Some(xs), query).value| && Options(Some(xs), query).value[k].completionLabel == xs[i].value
  {
    FilterSelects(xs, query);
    var idx := KeptIndices(xs, query, 0);
    var k :| 0 <= k < |idx| && idx[k] == i;
    assert Options(Some(xs), query).value[k].completionLabel == xs[i].value;
  }

  /** With an empty query every entry is offered, in order, each with boost 2. */
  lemma EmptyQueryOffersAll(xs: seq<Item>)
    ensures var r := Options(Some(xs), "").value;
      && |r| == |xs|
      && forall k :: 0 <= k < |xs| ==> r[k].completionLabel == xs[k].value && r[k].boost == 2
  {
    EmptyQueryKeepsAll(xs);
  }

  /** A boosted entry always passes the filter: a prefix is a substring. */
  lemma PrefixIsKept(item: Item, query: string)
    requires StartsWith(Lower(item.value), query)
    ensures Keeps(item, query)
  {
    StartsWithContains(Lower(item.value), query);
  }

  // ----- A closed placeholder -----

  /**
   * With the cursor right after a closed `{{path}}`, there is still a result,
   * and its range covers the path only: the closing braces stay outside it.
   */
  lemma ClosedPlaceholderExcludesBraces(text: string, cursor: nat, m: nat)
    requires m + 4 <= cursor <= |text|
    requires text[m] == '{' && text[m + 1] == '{' && text[cursor - 2] == '}' && text[cursor - 1] == '}'
    requires forall k :: m + 2 <= k < cursor - 2 ==> IsPathChar(text[k])
    ensures Prepare(text, cursor).Some?
    ensures Prepare(text, cursor).value.from == m + 2
    ensures Prepare(text, cursor).value.to == cursor - 2
  {
    var s := text[..cursor];
    assert ClosableAtWith(s, m, cursor - 2);
    ClosableStartIsTheMatch(s, m);
    PrepareNullIff(text, cursor);
    PrepareRange(text, cursor);
    PrepareRangeEnd(text, cursor);
  }

  /** With the cursor right after an open `{{path`, the range runs from the path to the cursor. */
  lemma OpenPlaceholderRange(text: string, cursor: nat, m: nat)
    requires m + 2 <= cursor <= |text|
    requires text[m] == '{' && text[m + 1] == '{'
    requires forall k :: m + 2 <= k < cursor ==> IsPathChar(text[k])
    ensures Prepare(text, cursor).Some?
    ensures Prepare(text, cursor).value.from == m + 2
    ensures Prepare(text, cursor).value.to == cursor
  {
    var s := text[..cursor];
    assert ClosableAtWith(s, m, cursor);
    ClosableStartIsTheMatch(s, m);
    PrepareNullIff(text, cursor);
    PrepareRange(text, cursor);
    PrepareRangeEnd(text, cursor);
  }

  // ----- Applying a completion -----

  /**
   * `apply` keeps everything before `from - 2` and everything from `to` on,
   * and writes `{{` and the label in between; closing braces already after
   * `to` are kept, and none are added.
   */
  lemma ApplySplices(text: string, completionLabel: string, from: nat, to: nat)
    requires 2 <= from <= to <= |text|
    ensures var r := Apply(text, completionLabel, from, to);
      && r[..from - 2] == text[..from - 2]
      && r[from - 2..from + |completionLabel|] == "{{" + completionLabel
      && r[from + |completionLabel|..] == text[to..]
  {
    var r := Apply(text, completionLabel, from, to);
    assert r == text[..from - 2] + ("{{" + completionLabel) + text[to..];
  }

  /** Typing `{{VISITOR.na` at the end of a line offers completions for the range after `{{`. */
  lemma OpenRangeExample()
    ensures var text := "Hello {{VISITOR.na";
      && Prepare(text, 18).Some?
      && Prepare(text, 18).value.from == 8 && Prepare(text, 18).value.to == 18
  {
    var text := "Hello {{VISITOR.na";
    assert forall k :: 8 <= k < 18 ==> IsPathChar(text[k]);
    OpenPlaceholderRange(text, 18, 6);
  }

  /** With `}}` already typed, the range stops before them. */
  lemma ClosedRangeExample()
    ensures var text := "Hello {{VISITOR.na}}";
      && Prepare(text, 20).Some?
      && Prepare(text, 20).value.from == 8 && Prepare(text, 20).value.to == 18
  {
    var text := "Hello {{VISITOR.na}}";
    assert forall k :: 8 <= k < 18 ==> IsPathChar(text[k]);
    ClosedPlaceholderExcludesBraces(text, 20, 6);
  }

  /**
   * Taking `VISITOR.name` over those two ranges: the open placeholder stays
   * open, and the closed one keeps its `}}` without gaining a second pair.
   */
  lemma ApplyExamples()
    ensures Apply("Hello {{VISITOR.na", "VISITOR.name", 8, 18) == "Hello {{VISITOR.name"
    ensures Apply("Hello {{VISITOR.na}}", "VISITOR.name", 8, 18) == "Hello {{VISITOR.name}}"
  {
    assert "Hello {{VISITOR.na"[..6] == "Hello ";
    assert "Hello {{VISITOR.na}}"[..6] == "Hello ";
    assert "Hello {{VISITOR.na}}"[18..] == "}}";
  }
}

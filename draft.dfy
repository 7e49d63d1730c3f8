/**
 * The Draft.js prompt editor: the decorator strategy that finds `{{...}}`
 * spans in a block, the change handler that opens the suggestion popup while
 * an open placeholder precedes the cursor, the click handler that commits a
 * suggestion, and the paste handler.
 *
 * The component's React state (`editorState`, `suggestions`,
 * `showSuggestions`, `suggestionPosition`) is a class whose methods are the
 * handlers. The pure parts of each handler (what is suggested, what a commit
 * or a paste writes) are functions with their own lemmas.
 */
module Draft {
  import opened Wrappers
  import opened Text
  import opened Suggestion
  import opened Placeholder
  import opened Spans

  // ----- Highlighting -----

  /**
   * `findVariableEntities`: run the global placeholder pattern over the
   * block's text and report every match to the decorator, in order.
   */
  method FindVariableEntities(text: string) returns (spans: seq<Span>)
    ensures spans == Matches(text, 0)
    ensures WellFormed(text, 0, spans) && Ordered(spans)
  {
    spans := [];
    var lastIndex := 0;
    var m := Exec(text, lastIndex);
    while m.Some?
      invariant lastIndex <= |text| && m == Exec(text, lastIndex)
      invariant spans + Matches(text, lastIndex) == Matches(text, 0)
      decreases |text| - lastIndex
    {
      MatchesFirst(text, lastIndex);
      assert (spans + [m.value]) + Matches(text, m.value.end) == spans + ([m.value] + Matches(text, m.value.end));
      spans := spans + [m.value];
      lastIndex := m.value.end;
      m := Exec(text, lastIndex);
    }
    assert spans + [] == spans;
    MatchesWellFormed(text, 0);
    MatchesOrdered(text, 0);
  }

  // ----- Content -----

  /** Index of the first line break (`\r` or `\n`) at or after `i`, or `|v|`. */
  function LineBreak(v: string, i: nat): (b: nat)
    requires i <= |v|
    ensures i <= b <= |v|
    ensures forall k :: i <= k < b ==> v[k] != '\r' && v[k] != '\n'
    ensures b < |v| ==> v[b] == '\r' || v[b] == '\n'
    decreases |v| - i
  {
    if i == |v| || v[i] == '\r' || v[i] == '\n' then i else LineBreak(v, i + 1)
  }

  /**
   * `ContentState.createFromText(value)`: one block per line, the lines being
   * separated by `\r\n`, `\r` or `\n`.
   */
  function SplitBlocks(v: string): (blocks: seq<string>)
    ensures |blocks| >= 1
    ensures forall j, k :: 0 <= j < |blocks| && 0 <= k < |blocks[j]| ==> blocks[j][k] != '\r' && blocks[j][k] != '\n'
    decreases |v|
  {
    var i := LineBreak(v, 0);
    if i == |v| then [v]
    else
      var next := if v[i] == '\r' && i + 1 < |v| && v[i + 1] == '\n' then i + 2 else i + 1;
      var rest := SplitBlocks(v[next..]);
      var blocks := [v[..i]] + rest;
      assert forall j :: 1 <= j < |blocks| ==> blocks[j] == rest[j - 1];
      blocks
  }

  /** `getPlainText()`: the blocks' texts joined by `\n`. */
  function PlainText(blocks: seq<string>): string
  {
    if blocks == [] then ""
    else if |blocks| == 1 then blocks[0]
    else blocks[0] + "\n" + PlainText(blocks[1..])
  }

  /**
   * Splitting a value into blocks and reading the plain text back gives the
   * value again, as long as it has no carriage return (which the split
   * accepts as a line break but the plain text turns into `\n`).
   */
  lemma {:induction false} PlainTextOfSplit(v: string)
    requires forall k :: 0 <= k < |v| ==> v[k] != '\r'
    ensures PlainText(SplitBlocks(v)) == v
    decreases |v|
  {
    var i := LineBreak(v, 0);
    if i < |v| {
      var rest := v[i + 1..];
      PlainTextOfSplit(rest);
      var blocks := SplitBlocks(v);
      assert blocks == [v[..i]] + SplitBlocks(rest);
      assert blocks[1..] == SplitBlocks(rest);
      assert v == v[..i] + "\n" + rest;
    }
  }

  /** A selection inside one block: its start and end offsets in that block's text. */
  datatype Selection = Selection(block: nat, start: nat, end: nat)

  /** The selection lies in one of the blocks. */
  predicate SelectionWithin(blocks: seq<string>, sel: Selection)
  {
    sel.block < |blocks| && sel.start <= sel.end <= |blocks[sel.block]|
  }

  // ----- Suggestions -----

  /**
   * `searchText`: when the text before the cursor ends with `{{` and path
   * characters, the part after `{{`, lower-cased.
   */
  function SearchText(before: string): (r: Option<string>)
  {
    match OpenStart(before)
    case None => None
    case Some(m) => Some(Lower(before[m + 2..]))
  }

  /** What `handleEditorChange` shows: nothing, or the catalog entries whose lower-cased value contains the search text. */
  function SuggestionsFor(text: string, cursor: nat, catalog: seq<Item>): (r: Option<seq<Item>>)
    requires cursor <= |text|
  {
    match SearchText(text[..cursor])
    case None => None
    case Some(q) => Some(Filter(catalog, q))
  }

  /**
   * Suggestions are shown exactly when `{{` and path characters end the text
   * before the cursor; they are then the entries whose lower-cased value
   * contains the lower-cased text after `{{`, in catalog order, with no
   * ranking.
   */
  lemma SuggestionsShownIff(text: string, cursor: nat, catalog: seq<Item>)
    requires cursor <= |text|
    ensures SuggestionsFor(text, cursor, catalog).Some? <==> exists m :: OpenAt(text[..cursor], m)
    ensures forall m :: OpenAt(text[..cursor], m) ==>
      m + 2 <= cursor && SuggestionsFor(text, cursor, catalog) == Some(Filter(catalog, Lower(text[m + 2..cursor])))
  {
    var before := text[..cursor];
    forall m | OpenAt(before, m)
      ensures m + 2 <= cursor && SuggestionsFor(text, cursor, catalog) == Some(Filter(catalog, Lower(text[m + 2..cursor])))
    {
      OpenStartIsTheMatch(before, m);
      assert before[m + 2..] == text[m + 2..cursor];
    }
  }

  // ----- Committing a suggestion -----

  /** The block's text after a commit or a paste, and where the cursor goes. */
  datatype Edit = Edit(text: string, cursor: nat)

  /**
   * What `handleSuggestionClick` writes: the open `{{query` before the cursor
   * becomes `{{value}}`, and the cursor goes after the closing braces. With
   * no open placeholder there is no edit.
   */
  function Commit(text: string, cursor: nat, value: string): (r: Option<Edit>)
    requires cursor <= |text|
  {
    match OpenStart(text[..cursor])
    case None => None
    case Some(m) =>
      var start := cursor - (cursor - m);
      Some(Edit(text[..start] + "{{" + value + "}}" + text[cursor..], start + |value| + 4))
  }

  /**
   * A commit replaces exactly the matched `{{query` with `{{value}}`, keeps
   * the rest of the block, and leaves the cursor right after the inserted
   * closing braces.
   */
  lemma CommitSplices(text: string, cursor: nat, value: string)
    requires cursor <= |text|
    ensures Commit(text, cursor, value).Some? <==> OpenStart(text[..cursor]).Some?
    ensures forall m :: OpenAt(text[..cursor], m) ==>
      var e := Commit(text, cursor, value).value;
      && e.cursor == m + |value| + 4 <= |e.text|
      && e.text[..m] == text[..m]
      && e.text[m..e.cursor] == "{{" + value + "}}"
      && e.text[e.cursor..] == text[cursor..]
  {
    forall m | OpenAt(text[..cursor], m)
      ensures var e := Commit(text, cursor, value).value;
        && e.cursor == m + |value| + 4 <= |e.text|
        && e.text[..m] == text[..m]
        && e.text[m..e.cursor] == "{{" + value + "}}"
        && e.text[e.cursor..] == text[cursor..]
    {
      OpenStartIsTheMatch(text[..cursor], m);
      var e := Commit(text, cursor, value).value;
      assert e.text == text[..m] + ("{{" + value + "}}") + text[cursor..];
    }
  }

  /**
   * The closing braces are written even when `}}` already follows the
   * cursor, which leaves four of them after the value.
   */
  lemma CommitDoublesClosers(text: string, cursor: nat, value: string)
    requires cursor + 2 <= |text| && text[cursor] == '}' && text[cursor + 1] == '}'
    requires Commit(text, cursor, value).Some?
    ensures var e := Commit(text, cursor, value).value;
      4 <= e.cursor && e.cursor + 2 <= |e.text| && e.text[e.cursor - 2..e.cursor + 2] == "}}}}"
  {
    var m := OpenStart(text[..cursor]).value;
    CommitSplices(text, cursor, value);
    var e := Commit(text, cursor, value).value;
    assert e.text[m..e.cursor][|value| + 2..] == "}}";
    assert e.text[e.cursor..][..2] == "}}";
  }

  /** The commit at a known open placeholder, spelled out. */
  lemma CommitAt(text: string, cursor: nat, value: string, m: nat)
    requires cursor <= |text| && OpenAt(text[..cursor], m)
    ensures |text[..m]| == m
    ensures Commit(text, cursor, value) == Some(Edit(text[..m] + "{{" + value + "}}" + text[cursor..], m + |value| + 4))
  {
    OpenStartIsTheMatch(text[..cursor], m);
  }

  /**
   * After a commit the inserted `{{value}}` is matched whole, provided the
   * value is not empty and has no `}`; and when every `{` before the
   * placeholder has its `}`, the highlighter reports it as one span.
   */
  lemma CommitHighlighted(text: string, cursor: nat, value: string, m: nat)
    requires cursor <= |text| && OpenAt(text[..cursor], m)
    requires |value| > 0 && forall k :: 0 <= k < |value| ==> value[k] != '}'
    ensures var e := Commit(text, cursor, value).value;
      && MatchAt(e.text, m) == Some(e.cursor)
      && (BracesSettled(text[..m]) ==> Span(m, e.cursor) in Matches(e.text, 0))
  {
    CommitAt(text, cursor, value, m);
    InsertedPlaceholderMatches(text[..m], value, text[cursor..]);
    if BracesSettled(text[..m]) {
      InsertedPlaceholderReported(text[..m], value, text[cursor..], 0);
    }
  }

  // ----- Pasting -----

  /** What `handlePastedText` writes: the selection replaced by the pasted text, the cursor after it. */
  function Paste(text: string, sel: Selection, pasted: string): (r: Edit)
    requires sel.start <= sel.end <= |text|
  {
    Edit(text[..sel.start] + pasted + text[sel.end..], sel.start + |pasted|)
  }

  /** A paste keeps the text around the selection, puts the pasted text in its place, and collapses the cursor after it. */
  lemma PasteSplices(text: string, sel: Selection, pasted: string)
    requires sel.start <= sel.end <= |text|
    ensures var e := Paste(text, sel, pasted);
      && |e.text| == |text| - (sel.end - sel.start) + |pasted|
      && e.cursor <= |e.text|
      && e.text[..sel.start] == text[..sel.start]
      && e.text[sel.start..e.cursor] == pasted
      && e.text[e.cursor..] == text[sel.end..]
  {
    var e := Paste(text, sel, pasted);
    assert e.text == text[..sel.start] + pasted + text[sel.end..];
  }

  // ----- Popup placement -----

  /** A screen point (top, left), in whole pixels. */
  datatype Point = Point(top: int, left: int)

  /** The editor's and the caret's bounding boxes, when both can be measured. */
  datatype Geometry = Geometry(editor: Point, caret: Point)

  /** `suggestionPosition`: the caret relative to the editor, one 24-pixel line lower. */
  function PopupPosition(g: Geometry): (p: Point)
  {
    Point(g.caret.top - g.editor.top + 24, g.caret.left - g.editor.left)
  }

  /**
   * The popup sits 24 pixels below the caret and level with it, in the
   * editor's coordinates: scrolling the page moves editor and caret together
   * and leaves the popup where it is, while moving the caret moves the popup
   * by the same amount.
   */
  lemma PopupFollowsCaret(g: Geometry, dTop: int, dLeft: int)
    ensures g.editor.top + PopupPosition(g).top == g.caret.top + 24
    ensures g.editor.left + PopupPosition(g).left == g.caret.left
    ensures var moved := Point(g.editor.top + dTop, g.editor.left + dLeft);
      var caret := Point(g.caret.top + dTop, g.caret.left + dLeft);
      PopupPosition(Geometry(moved, caret)) == PopupPosition(g)
    ensures var caret := Point(g.caret.top + dTop, g.caret.left + dLeft);
      PopupPosition(Geometry(g.editor, caret)) == Point(PopupPosition(g).top + dTop, PopupPosition(g).left + dLeft)
  {
  }

  // ----- The component -----

  /** The editor's state: the content, the selection, and the popup's state. */
  class DraftEditor {
    /** The catalog the component suggests from (`allItems`). */
    const catalog: seq<Item>
    var blocks: seq<string>
    var selection: Selection
    var suggestions: seq<Item>
    var showSuggestions: bool
    var position: Point

    ghost predicate Valid()
      reads this
    {
      SelectionWithin(blocks, selection)
    }

    /** The initial state: the value split into blocks, the cursor at the start, no popup. */
    constructor(catalog: seq<Item>, value: string)
      ensures this.catalog == catalog && blocks == SplitBlocks(value) && selection == Selection(0, 0, 0)
      ensures suggestions == [] && !showSuggestions && position == Point(0, 0)
      ensures Valid()
    {
      this.catalog := catalog;
      blocks := SplitBlocks(value);
      selection := Selection(0, 0, 0);
      suggestions := [];
      showSuggestions := false;
      position := Point(0, 0);
    }

    /**
     * `handleEditorChange(newState)`: take the new content and selection,
     * show or hide the popup, place it when the geometry is known, and
     * report the plain text to `onChange`.
     */
    method HandleEditorChange(newBlocks: seq<string>, newSelection: Selection, geometry: Option<Geometry>) returns (emitted: string)
      requires SelectionWithin(newBlocks, newSelection)
      modifies this
      ensures Valid()
      ensures blocks == newBlocks && selection == newSelection && emitted == PlainText(newBlocks)
      ensures var s := SuggestionsFor(newBlocks[newSelection.block], newSelection.start, catalog);
        && showSuggestions == s.Some?
        && suggestions == (if s.Some? then s.value else old(suggestions))
        && position == (if s.Some? && geometry.Some? then PopupPosition(geometry.value) else old(position))
    {
      var text := newBlocks[newSelection.block];
      var found := SuggestionsFor(text, newSelection.start, catalog);
      if found.Some? {
        suggestions := found.value;
        showSuggestions := true;
        if geometry.Some? {
          position := PopupPosition(geometry.value);
        }
      } else {
        showSuggestions := false;
      }
      blocks := newBlocks;
      selection := newSelection;
      emitted := PlainText(newBlocks);
    }

    /**
     * `handleSuggestionClick(suggestion)`: commit the suggestion over the
     * open placeholder before the cursor, move the cursor after it, hide the
     * popup and report the new plain text. Without an open placeholder
     * nothing happens and nothing is reported.
     */
    method HandleSuggestionClick(suggestion: Item) returns (emitted: Option<string>)
      requires Valid()
      modifies this
      ensures Valid()
      ensures var b := old(selection.block);
        var c := Commit(old(blocks)[b], old(selection.start), suggestion.value);
        if c.None? then
          && blocks == old(blocks) && selection == old(selection) && showSuggestions == old(showSuggestions)
          && suggestions == old(suggestions) && position == old(position) && emitted.None?
        else
          && blocks == old(blocks)[b := c.value.text] && selection == Selection(b, c.value.cursor, c.value.cursor)
          && !showSuggestions && suggestions == old(suggestions) && position == old(position)
          && emitted == Some(PlainText(blocks))
    {
      var b := selection.block;
      var text := blocks[b];
      var c := Commit(text, selection.start, suggestion.value);
      if c.None? {
        return None;
      }
      CommitSplices(text, selection.start, suggestion.value);
      OpenStartIsTheMatch(text[..selection.start], OpenStart(text[..selection.start]).value);
      blocks := blocks[b := c.value.text];
      selection := Selection(b, c.value.cursor, c.value.cursor);
      showSuggestions := false;
      emitted := Some(PlainText(blocks));
    }

    /**
     * `handlePastedText(text)`: replace the selection with the pasted text,
     * collapse the cursor after it, and run the change handler on the
     * result. The paste is always reported as handled.
     */
    method HandlePastedText(pasted: string, geometry: Option<Geometry>) returns (handled: bool, emitted: string)
      requires Valid()
      modifies this
      ensures Valid() && handled
      ensures var b := old(selection.block);
        var e := Paste(old(blocks)[b], old(selection), pasted);
        var s := SuggestionsFor(e.text, e.cursor, catalog);
        && blocks == old(blocks)[b := e.text] && selection == Selection(b, e.cursor, e.cursor)
        && emitted == PlainText(blocks)
        && showSuggestions == s.Some?
        && suggestions == (if s.Some? then s.value else old(suggestions))
        && position == (if s.Some? && geometry.Some? then PopupPosition(geometry.value) else old(position))
    {
      var b := selection.block;
      var e := Paste(blocks[b], selection, pasted);
      PasteSplices(blocks[b], selection, pasted);
      emitted := HandleEditorChange(blocks[b := e.text], Selection(b, e.cursor, e.cursor), geometry);
      handled := true;
    }
  }
}

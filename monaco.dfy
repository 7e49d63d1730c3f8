/**
 * The Monaco completion provider (`provideCompletionItems`): when the line up
 * to the cursor ends with an open `{{path`, it offers the whole catalog, in
 * catalog order and unfiltered, each entry with the text to insert, its
 * documentation and a sort key.
 */
module Monaco {
  import opened Wrappers
  import opened Text
  import opened Suggestion
  import opened Placeholder

  /** `CompletionItemKind.Function` or `CompletionItemKind.Variable`. */
  datatype Kind = FunctionKind | VariableKind

  /** The `editor.action.openLink` command ("Open Documentation") with the link as its argument. */
  datatype Command = OpenLink(link: string)

  /**
   * One suggestion: the label with its description (the category) and detail
   * (the description), the kind, the inserted text, the detail line, the
   * documentation in Markdown, the optional command and the sort key.
   */
  datatype CompletionItem = CompletionItem(
    labelText: string,
    labelDescription: string,
    labelDetail: string,
    kind: Kind,
    insertText: string,
    detail: string,
    documentation: string,
    command: Option<Command>,
    sortText: string)

  /** `item.docs` used as a condition: present and not empty. */
  predicate Truthy(docs: Option<string>)
  {
    docs.Some? && docs.value != ""
  }

  /** The documentation template: the value in bold, the description, and the link when there is one, trimmed. */
  function Documentation(item: Item): string
  {
    var link := if Truthy(item.docs) then "[View Documentation](" + item.docs.value + ")" else "";
    Trim("\n**" + item.value + "**\n\n" + item.description + "\n\n" + link + "\n            ")
  }

  /** The suggestion built from one catalog entry, given the text before the cursor and the raw query. */
  function ToCompletionItem(item: Item, before: string, query: string): CompletionItem
  {
    CompletionItem(
      item.value,
      item.category,
      item.description,
      if item.itemType == Some("function") then FunctionKind else VariableKind,
      item.value + (if EndsWith(before, "}}") then "" else "}}"),
      item.description + " " + (if Truthy(item.docs) then "\U{1F4C4}" else ""),
      Documentation(item),
      if Truthy(item.docs) then Some(OpenLink(item.docs.value)) else None,
      if StartsWith(Lower(item.value), query) then "0" else "1")
  }

  /**
   * The provider on the text before the cursor: no suggestion without an
   * open placeholder, otherwise one per catalog entry. The query is the
   * match without its `{{`, not lower-cased.
   */
  function Suggest(before: string, items: seq<Item>): seq<CompletionItem>
  {
    match OpenStart(before)
    case None => []
    case Some(m) => seq(|items|, k requires 0 <= k < |items| => ToCompletionItem(items[k], before, before[m + 2..]))
  }

  /**
   * `provideCompletionItems(model, position)`: the text of the cursor's line
   * from column 1 up to the cursor, given to the provider. Lines and columns
   * count from 1.
   */
  function ProvideCompletionItems(lines: seq<string>, lineNumber: nat, column: nat, items: seq<Item>): seq<CompletionItem>
    requires 1 <= lineNumber <= |lines| && 1 <= column <= |lines[lineNumber - 1]| + 1
  {
    Suggest(lines[lineNumber - 1][..column - 1], items)
  }

  /** Only the cursor's line up to the cursor matters: the other lines and the rest of the line do not. */
  lemma OnlyLinePrefixMatters(lines: seq<string>, lines': seq<string>, lineNumber: nat, column: nat, items: seq<Item>)
    requires 1 <= lineNumber <= |lines| && 1 <= column <= |lines[lineNumber - 1]| + 1
    requires 1 <= lineNumber <= |lines'| && 1 <= column <= |lines'[lineNumber - 1]| + 1
    requires lines[lineNumber - 1][..column - 1] == lines'[lineNumber - 1][..column - 1]
    ensures ProvideCompletionItems(lines, lineNumber, column, items) == ProvideCompletionItems(lines', lineNumber, column, items)
  {
  }

  /**
   * Without an open placeholder before the cursor there is no suggestion;
   * with one, every catalog entry is suggested, in catalog order, labelled
   * with its value, category and description, and of kind Function exactly
   * when it is a function.
   */
  lemma SuggestsWholeCatalog(before: string, items: seq<Item>)
    ensures OpenStart(before).None? ==> Suggest(before, items) == []
    ensures OpenStart(before).Some? ==>
      var r := Suggest(before, items);
      && |r| == |items|
      && forall k :: 0 <= k < |items| ==>
           && r[k].labelText == items[k].value
           && r[k].labelDescription == items[k].category
           && r[k].labelDetail == items[k].description
           && (r[k].kind == FunctionKind <==> IsFunction(items[k]))
  {
  }

  /**
   * The text to insert is always the value followed by `}}`: a text that
   * ends with an open placeholder never ends with `}}`, so the provider's
   * check for existing closing braces never holds.
   */
  lemma InsertTextAlwaysCloses(before: string, items: seq<Item>)
    requires OpenStart(before).Some?
    ensures forall k :: 0 <= k < |items| ==> Suggest(before, items)[k].insertText == items[k].value + "}}"
  {
    OpenMatchHasNoClosers(before);
  }

  /**
   * The sort key is "0" exactly when the lower-cased value starts with the
   * query as typed, and "1" otherwise; so a query with an upper-case letter
   * puts every entry under "1".
   */
  lemma SortTextByRawPrefix(before: string, items: seq<Item>, m: nat)
    requires OpenAt(before, m)
    ensures forall k :: 0 <= k < |items| ==>
      var s := Suggest(before, items)[k].sortText;
      (s == "0" || s == "1") && (s == "0" <==> StartsWith(Lower(items[k].value), before[m + 2..]))
    ensures (exists j :: m + 2 <= j < |before| && IsUpperAscii(before[j])) ==>
      forall k :: 0 <= k < |items| ==> Suggest(before, items)[k].sortText == "1"
  {
    OpenStartIsTheMatch(before, m);
    var q := before[m + 2..];
    if exists j :: m + 2 <= j < |before| && IsUpperAscii(before[j]) {
      var j :| m + 2 <= j < |before| && IsUpperAscii(before[j]);
      forall k | 0 <= k < |items|
        ensures !StartsWith(Lower(items[k].value), q)
      {
        var v := Lower(items[k].value);
        if |q| <= |v| {
          assert v[..|q|][j - m - 2] == v[j - m - 2];
          assert q[j - m - 2] == before[j];
        }
      }
    }
  }

  /**
   * The command that opens the documentation, and the document icon in the
   * detail line, are there exactly when the entry has a documentation link.
   */
  lemma DocsLinkIff(before: string, items: seq<Item>)
    requires OpenStart(before).Some?
    ensures forall k :: 0 <= k < |items| ==>
      var r := Suggest(before, items)[k];
      && (r.command.Some? <==> Truthy(items[k].docs))
      && (r.command.Some? ==> r.command.value == OpenLink(items[k].docs.value))
      && r.detail == items[k].description + " " + (if Truthy(items[k].docs) then "\U{1F4C4}" else "")
  {
  }

  /**
   * With a link, the documentation is the value in bold, a blank line, the
   * description, a blank line and the link.
   */
  lemma DocumentationWithLink(item: Item)
    requires Truthy(item.docs)
    ensures Documentation(item) == "**" + item.value + "**\n\n" + item.description + "\n\n" + ("[View Documentation](" + item.docs.value + ")")
  {
    var trail := "\n            ";
    assert forall k :: 0 <= k < |trail| ==> IsJsSpace(trail[k]);
    var link := "[View Documentation](" + item.docs.value + ")";
    var core := "**" + item.value + "**\n\n" + item.description + "\n\n" + link;
    assert "\n**" + item.value + "**\n\n" + item.description + "\n\n" + link + trail == "\n" + core + trail;
    TrimPadded("\n", core, trail);
    assert core[|core| - 1] == ')';
    TrimWindow(core, 0, |core|);
    assert core[0..|core|] == core;
  }

  /** Without a link, the documentation is the value in bold, a blank line and the description, trimmed. */
  lemma DocumentationWithoutLink(item: Item)
    requires !Truthy(item.docs)
    ensures Documentation(item) == Trim("**" + item.value + "**\n\n" + item.description)
  {
    var trail := "\n\n" + "" + "\n            ";
    assert forall k :: 0 <= k < |trail| ==> IsJsSpace(trail[k]);
    var core := "**" + item.value + "**\n\n" + item.description;
    assert "\n**" + item.value + "**\n\n" + item.description + "\n\n" + "" + "\n            " == "\n" + core + trail;
    TrimPadded("\n", core, trail);
  }
}

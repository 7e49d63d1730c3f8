/**
 * The built-in catalog taken through the editors: what the Draft editor
 * highlights after a suggestion is committed, and what the Monaco provider
 * attaches to each entry.
 */
module Fixtures {
  import opened Wrappers
  import opened Text
  import opened Suggestion
  import opened Catalog
  import opened Placeholder
  import opened Spans
  import Draft
  import Monaco

  /** Every catalog value is non-empty, and all but the custom flow variable are free of braces. */
  lemma ValuesInsertable(i: nat)
    requires i < |DefaultSuggestions| && i != 11
    ensures |DefaultSuggestions[i].value| > 0
    ensures forall k :: 0 <= k < |DefaultSuggestions[i].value| ==> DefaultSuggestions[i].value[k] != '}'
  {
    LabelsAreValues();
    FunctionsNamedByGroup();
    VariablesPrefixedByCategory();
    OneValueWithBraces();
  }

  /** The custom flow variable's value ends in `}` and holds no other closing brace. */
  lemma CustomVariableShape()
    ensures var v := DefaultSuggestions[11].value;
      |v| >= 2 && v[|v| - 1] == '}' && forall k :: 0 <= k < |v| - 1 ==> v[k] != '}'
  {
    OneValueWithBraces();
    var v := "FLOW.{variable_of_your_choice}";
    assert forall k :: 0 <= k < |v| - 1 ==> v[k] != '}';
  }

  /**
   * Committing any entry but the custom flow variable writes a placeholder
   * that is highlighted whole, from its `{{` to just after its `}}`, when
   * the text before it holds no dangling `{{`.
   */
  lemma CommittedEntryHighlighted(text: string, cursor: nat, m: nat, i: nat)
    requires cursor <= |text| && OpenAt(text[..cursor], m)
    requires BracesSettled(text[..m])
    requires i < |DefaultSuggestions| && i != 11
    ensures var e := Draft.Commit(text, cursor, DefaultSuggestions[i].value).value;
      MatchAt(e.text, m) == Some(e.cursor) && Span(m, e.cursor) in Matches(e.text, 0)
  {
    ValuesInsertable(i);
    Draft.CommitHighlighted(text, cursor, DefaultSuggestions[i].value, m);
  }

  /**
   * Committing the custom flow variable `FLOW.{variable_of_your_choice}`
   * writes a placeholder whose highlighted match stops one character short:
   * the match ends at the first `}}`, which the value's own `}` begins.
   */
  lemma CommittedCustomVariableCutShort(text: string, cursor: nat, m: nat)
    requires cursor <= |text| && OpenAt(text[..cursor], m)
    ensures var e := Draft.Commit(text, cursor, DefaultSuggestions[11].value).value;
      e.text[e.cursor - 1] == '}' && MatchAt(e.text, m) == Some(e.cursor - 1)
  {
    var v := DefaultSuggestions[11].value;
    CustomVariableShape();
    Draft.CommitAt(text, cursor, v, m);
    InsertedValueEndingInCloser(text[..m], v, text[cursor..]);
  }

  /**
   * On the built-in catalog, the Monaco provider attaches the command that
   * opens the documentation link exactly to the function entries.
   */
  lemma CatalogCommandsOnFunctions(before: string)
    requires OpenStart(before).Some?
    ensures forall i :: 0 <= i < |DefaultSuggestions| ==>
      Monaco.Suggest(before, DefaultSuggestions)[i].command ==
        (if IsFunction(DefaultSuggestions[i]) then Some(Monaco.OpenLink(DocsLink)) else None)
  {
    DocsExactlyOnFunctions();
    Monaco.DocsLinkIff(before, DefaultSuggestions);
  }
}

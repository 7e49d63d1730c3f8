# Prompt editor placeholder engine, modelled in Dafny

The prompt editors let a user write text with `{{...}}` placeholders such as
`{{VISITOR.name}}` or `{{eq a='value1' b='value2'}}`. Three front ends share
one idea. An open `{{path` before the cursor brings up suggestions from a
catalog. Choosing one writes the placeholder. Finished placeholders are
highlighted. This project models the logic of those front ends and proves
what it does:

- `Completions` models the CodeMirror completion source, `createCompletions`.
  The current copy (`src/utils/completions.ts`) and the backup copy
  (`src/backup/utils/completions.ts`) compute the same range, query, filter,
  boost and `apply` edit, so one model stands for both.
- `Placeholder` models the two "open placeholder before the cursor" patterns,
  `\{\{[\w._]*$` and `\{\{[\w._]*\}?\}?$`. Each is a backwards scanner proved
  to find exactly the match of the pattern.
- `Spans` models the global highlight pattern `/\{\{[^}]+\}\}/g`, driven by
  repeated `exec` calls.
- `Language` models the CodeMirror stream tokenizer of the prompt language.
  `StringStream` and the tokenizer state are classes. `Token` is a method
  proved equal to the pure one-step function `Step`.
- `Plugin` models the CodeMirror decoration plugin. It is a class whose
  `getDecorations` loops over the visible ranges and the `exec` matches.
- `Draft` models the Draft.js editor. Its decorator strategy is a loop. Its
  React state is a class whose methods are the change, click and paste
  handlers. Each handler is proved against pure functions: `SuggestionsFor`,
  `Commit`, `Paste` and `PopupPosition`.
- `Monaco` models the Monaco completion provider, `provideCompletionItems`.
- `Catalog` holds the built-in catalog, `defaultSuggestions`. `Suggestion`
  holds the entry record `BaseEditorItem` and the substring filter.
  `Fixtures` runs the catalog through the editors.
- `Text` holds JavaScript string helpers: ASCII `toLowerCase`, `startsWith`,
  `endsWith`, `includes`, and `trim` over the ECMAScript white-space set.

Three behaviours of the code are worth stating plainly:

- A Draft.js commit always writes `{{value}}` and keeps any `}}` that
  already follows the cursor, so the closers double
  (`Draft.CommitDoublesClosers`).
- The suggestion popup is always 24 pixels below the caret. It is never
  flipped above the caret and its position is never clamped.
- There is no keyboard navigation of the suggestions.

## Model

| member | source | states |
|---|---|---|
| `Completions.MatchBefore` | src/utils/completions.ts:7-9 | There is a match iff `\{\{[\w._]*\}?\}?$` matches the text before the cursor somewhere. The reported `from` is that match's start, the match ends at the cursor, and its text is the slice it covers. |
| `Completions.Complete` | src/backup/utils/completions.ts:5-79 | The result is null iff `\{\{[\w._]*\}?\}?$` does not match the text before the cursor. Otherwise `from` is right after the match's `{{`, `to` is 2 before the cursor iff that text ends with `}}` (else the cursor), and the options are the catalog filtered by the lower-cased text of `[from, to)`. |
| `Completions.Apply` | src/utils/completions.ts:62-76 | The edit replaces `to - from` characters and adds the label's length. |
| `Completions.PrepareNullIff` | src/utils/completions.ts:7-18 | There is a result iff `\{\{[\w._]*\}?\}?$` matches the text before the cursor. The `startsWith("{{")` check never rejects a match. |
| `Completions.PrepareRange` | src/utils/completions.ts:79-81 | The range starts right after the match's `{{`, and `2 <= from <= to <= cursor`. |
| `Completions.PrepareRangeEnd` | src/backup/utils/completions.ts:72-77 | The range ends 2 characters before the cursor iff the text before the cursor ends with `}}`. Otherwise it ends at the cursor. |
| `Completions.StripOpened` | src/utils/completions.ts:21 | On a text starting with `{{`, the brace-stripping replace drops the `{{` and a trailing `}}`, and the two never overlap. |
| `Completions.PrepareQuery` | src/utils/completions.ts:21 | The query before lower-casing is exactly the text of the range `[from, to)`. |
| `Completions.SingleCloserStaysInQuery` | src/utils/completions.ts:7-21 | A match ending in a single `}` keeps that `}` in the range and at the end of the query. |
| `Completions.OptionsSelect` | src/utils/completions.ts:23-61 | Options are absent iff no catalog is given. Otherwise they are the filtered entries in order, each with label, type, detail and category from its entry, and boost 2 iff the lower-cased value starts with the query (1 otherwise). |
| `Completions.OptionsComplete` | src/utils/completions.ts:23-26 | Every entry that passes the filter is offered. |
| `Completions.EmptyQueryOffersAll` | src/backup/utils/completions.ts:21-54 | An empty query offers every entry, in order, each with boost 2. |
| `Completions.PrefixIsKept` | src/utils/completions.ts:24-61 | A boosted entry always passes the filter. |
| `Completions.ClosedPlaceholderExcludesBraces` | src/utils/completions.ts:79-84 | With the cursor after a closed `{{path}}`, there is a result whose range is the path alone. |
| `Completions.OpenPlaceholderRange` | src/backup/utils/completions.ts:72-77 | With the cursor after an open `{{path`, the range runs from the path's start to the cursor. |
| `Completions.ApplySplices` | src/backup/utils/completions.ts:55-69 | `apply` keeps the text before `from - 2` and from `to` on, writes `{{` and the label in between, and adds no closing braces. |
| `Completions.OpenRangeExample` | src/utils/completions.ts:79-81 | `Hello {{VISITOR.na` with the cursor at the end gives the range 8 to 18. |
| `Completions.ClosedRangeExample` | src/utils/completions.ts:79-81 | `Hello {{VISITOR.na}}` with the cursor at the end gives the range 8 to 18. |
| `Completions.ApplyExamples` | src/utils/completions.ts:62-76 | Applying `VISITOR.name` leaves an open placeholder open, and keeps an existing `}}` without doubling it. |
| `Suggestion.Filter` | src/utils/completions.ts:24 | The filter never returns more entries than it is given. |
| `Suggestion.KeptIndicesSpec` | src/components/DraftPromptEditor.tsx:93 | The kept positions are increasing, each passes the test, and every passing position is among them. |
| `Suggestion.FilterFrom` | src/components/DraftPromptEditor.tsx:93 | Filtering a suffix reads the entries at exactly the kept positions of that suffix. |
| `Suggestion.FilterSelects` | src/components/DraftPromptEditor.tsx:93 | The filter returns, in catalog order, exactly the entries whose lower-cased value contains the query. |
| `Suggestion.EmptyQueryKeepsAll` | src/utils/completions.ts:24 | The empty query keeps every entry. |
| `Placeholder.OpenStart` | src/components/DraftPromptEditor.tsx:89 | A reported start is a match of `\{\{[\w._]*$` on the text before the cursor. |
| `Placeholder.OpenStartIsTheMatch` | src/components/MonacoPromptEditor.tsx:51-52 | The scanner reports `m` iff the pattern matches from `m`, so there is at most one match and "none" means no match. |
| `Placeholder.ClosableStart` | src/utils/completions.ts:7 | A reported start is a match of `\{\{[\w._]*\}?\}?$` whose path part ends where the trailing `}` run starts. |
| `Placeholder.ClosableEndForced` | src/backup/utils/completions.ts:8 | In a match, the path part ends exactly at the start of the trailing `}` run. |
| `Placeholder.ClosableStartIsTheMatch` | src/backup/utils/completions.ts:8-10 | The scanner reports `m` iff the pattern matches from `m`. |
| `Placeholder.ClosableStartFindsAny` | src/utils/completions.ts:7-9 | The scanner finds a start iff the pattern matches at some index, and what it finds is a match. |
| `Placeholder.TooManyClosers` | src/utils/completions.ts:7-9 | Three trailing `}` rule a match out. |
| `Placeholder.OpenIsClosable` | src/components/DraftPromptEditor.tsx:124 | Every match of the Draft.js/Monaco pattern is a match of the CodeMirror pattern. |
| `Placeholder.OpenMatchHasNoClosers` | src/components/MonacoPromptEditor.tsx:51-61 | A text ending in an open-placeholder match never ends with `}}`. |
| `Text.NextChar` | src/backup/utils/language.ts:113 | Gives the first occurrence of a character at or after a position: the `}` that ends `[^}]+` in the placeholder pattern, and the `'` that ends `'[^']*'` in the tokenizer. |
| `Spans.MatchAt` | src/backup/utils/language.ts:113 | A match is at least five characters long and lies in the text. |
| `Spans.MatchAtIsTheMatch` | src/backup/utils/language.ts:113 | `MatchAt` reports the end `e` iff `text[p..e]` is `{{`, one or more non-`}` characters, then `}}`. |
| `Spans.Exec` | src/components/DraftPromptEditor.tsx:14-16 | `exec` returns the leftmost match at or after `lastIndex`, and no match when none starts there or later. |
| `Spans.MatchesWellFormed` | src/components/DraftPromptEditor.tsx:12-19 | Every reported span covers one whole match. |
| `Spans.MatchesOrdered` | src/backup/utils/language.ts:115-119 | Reported spans come left to right without overlapping. |
| `Spans.MatchesSkipNothing` | src/components/DraftPromptEditor.tsx:14-18 | No match starts before the first span, between two spans, or after the last. |
| `Spans.EmptyPlaceholderNotMatched` | src/backup/utils/language.ts:113 | `{{}}` is never highlighted. |
| `Spans.UnterminatedNotMatched` | src/components/DraftPromptEditor.tsx:14 | A `{{` with no `}` after it starts no match. |
| `Spans.NoCloserNoSpans` | src/components/DraftPromptEditor.tsx:12-19 | A text with no `}` has no spans. |
| `Spans.UnterminatedExample` | src/components/DraftPromptEditor.tsx:14 | `{{abc` has no span. |
| `Spans.EmptyExample` | src/components/DraftPromptEditor.tsx:14 | `{{}}` has no span. |
| `Spans.SettledMatchStaysInPrefix` | src/components/DraftPromptEditor.tsx:14-18 | A match starting in a prefix with no dangling `{` ends inside that prefix when the text continues with `{`. |
| `Spans.InsertedPlaceholderMatches` | src/components/DraftPromptEditor.tsx:133 | `{{v}}` with `v` non-empty and `}`-free is matched whole. |
| `Spans.InsertedValueEndingInCloser` | src/components/DraftPromptEditor.tsx:133 | When `v`'s only `}` is its last character, the match of `{{v}}` ends one character early. |
| `Spans.MatchReported` | src/components/DraftPromptEditor.tsx:16-18 | A match is reported when no earlier match runs past its start. |
| `Spans.InsertedPlaceholderReported` | src/components/DraftPromptEditor.tsx:133 | After a settled prefix, an inserted `{{v}}` is reported as one span. |
| `Language.AlternativeAt` | src/backup/utils/language.ts:55-61 | An alternation matches with the length of an alternative that occurs at the position. When it fails, no alternative occurs there. |
| `Language.FirstRuleTakes` | src/backup/utils/language.ts:41-46 | A rule hit takes at least one character and stays in the line. |
| `Language.WordRunEnd` | src/backup/utils/language.ts:49 | The run is all word characters and is followed by a non-word character or the end of the line. |
| `Language.WordRunIsTheMatch` | src/backup/utils/language.ts:49 | `/[\w_]+/` succeeds iff a word character is at the position, and it takes the longest run. |
| `Language.ParameterEnd` | src/backup/utils/language.ts:69 | A parameter match takes at least two characters and leaves the quote after it. |
| `Language.ParameterIsTheMatch` | src/backup/utils/language.ts:69 | The scanner finds exactly the match of `[\w_]+=(?=')`. |
| `Language.QuotedEnd` | src/backup/utils/language.ts:74 | A quoted match takes at least two characters. |
| `Language.QuotedIsTheMatch` | src/backup/utils/language.ts:74 | The scanner finds exactly the match of `'[^']*'`. |
| `Language.StringStream.constructor` | src/backup/utils/language.ts:14 | The stream starts on the given line at the given position. |
| `Language.StringStream.Match` | src/backup/utils/language.ts:16-23 | `match(s)` succeeds iff the line continues with `s`, and advances past it only then. |
| `Language.StringStream.MatchAlternatives` | src/backup/utils/language.ts:42-61 | An alternation is matched at the position, and the stream advances by the match length only when it succeeds. |
| `Language.StringStream.MatchWordRun` | src/backup/utils/language.ts:49 | `match(/[\w_]+/)` succeeds iff a word character is next, and takes the whole run. |
| `Language.StringStream.MatchParameter` | src/backup/utils/language.ts:69 | Takes the parameter match when there is one. |
| `Language.StringStream.MatchQuoted` | src/backup/utils/language.ts:74 | Takes the quoted string when there is one. |
| `Language.StringStream.EatSpace` | src/backup/utils/language.ts:31 | `eatSpace()` skips exactly the white space run. |
| `Language.StringStream.Next` | src/backup/utils/language.ts:78-83 | `next()` takes one character unless at the end of the line. |
| `Language.RulesTake` | src/backup/utils/language.ts:34-58 | No category or function rule has an empty alternative. |
| `Language.VariableStep` | src/backup/utils/language.ts:30-80 | Inside a placeholder, every call moves forward and stays in the line. |
| `Language.Step` | src/backup/utils/language.ts:14-84 | Every `token` call moves forward and stays in the line, so a line is tokenized in finitely many calls. |
| `Language.TokenizerState.constructor` | src/backup/utils/language.ts:8-12 | The start state is outside any placeholder, with no category and not complete. |
| `Language.Token` | src/backup/utils/language.ts:14-84 | The imperative `token` produces exactly the new state, the style and the position that `Step` specifies. |
| `Language.MatchFirstRule` | src/backup/utils/language.ts:41-46 | The rule loop stops at the first rule whose pattern matches, and moves the stream only on a hit. |
| `Language.VariableToken` | src/backup/utils/language.ts:30-80 | The in-placeholder branch of `token` agrees with `VariableStep`. |
| `Language.BracketSteps` | src/backup/utils/language.ts:15-28 | `{{` opens a placeholder and keeps the category. `}}` closes, clears the category and marks complete, whether or not one was open. Both are brackets of length 2. |
| `Language.OutsideStep` | src/backup/utils/language.ts:82-83 | Outside a placeholder, any other character is one unstyled step. |
| `Language.NoBracketAt` | src/backup/utils/language.ts:16-23 | No bracket pair starts at a character that is not a brace. |
| `Language.AlternativeMissesAt` | src/backup/utils/language.ts:55-61 | An alternation fails where no alternative's first letter fits. |
| `Language.FirstRuleAt` | src/backup/utils/language.ts:60-65 | The first matching rule in order is the one reported. |
| `Language.NoRuleHits` | src/backup/utils/language.ts:41-46 | When every rule fails, the loop reports nothing. |
| `Language.CategoryPrefixStep` | src/backup/utils/language.ts:33-46 | A category prefix in any letter case, after white space, is styled as that category's prefix, sets the category, and is taken. |
| `Language.IdentifierStep` | src/backup/utils/language.ts:48-51 | With a category set, a word run that is not a prefix is that category's value, and the state is kept. |
| `Language.FunctionNameStep` | src/backup/utils/language.ts:53-65 | With no category, a function name is styled with its group, which becomes the category. |
| `Language.FunctionMatchesAreCatalogNames` | src/backup/utils/language.ts:54-58 | The tokenizer's function names are the catalog's function names, in the same order. |
| `Language.FunctionNameUnique` | src/backup/utils/language.ts:55-57 | At most one function name occurs at a position. |
| `Language.NoCategoryAtFunctionName` | src/backup/utils/language.ts:34-39 | No category prefix starts where a function name starts. |
| `Language.FunctionNameWithoutBoundary` | src/backup/utils/language.ts:54-65 | A function name is taken whatever follows it, since the rule has no word boundary. |
| `Language.FunctionNameShadowedByCategory` | src/backup/utils/language.ts:48-51 | Once a category is set, a function name is read as a value of that category, with the rest of its word. |
| `Language.Tokens` | src/backup/utils/language.ts:14-84 | The tokens of the rest of a line cover it left to right, without gaps or empty tokens. |
| `Plugin.VariablePlugin.constructor` | src/backup/utils/language.ts:97-99 | The initial decorations are those of the visible ranges. |
| `Plugin.VariablePlugin.Update` | src/backup/utils/language.ts:101-105 | Decorations are rebuilt iff the document or the viewport changed, and kept otherwise. |
| `Plugin.VariablePlugin.GetDecorations` | src/backup/utils/language.ts:107-123 | The range loop yields `Decorations`: every range's matches, moved to document positions, range after range. |
| `Plugin.AddMatches` | src/backup/utils/language.ts:112-119 | The `exec` loop appends all matches of the range text, moved by the range start. |
| `Plugin.NoMoreMatches` | src/backup/utils/language.ts:115 | Once `exec` fails, nothing is left to add. |
| `Plugin.RangeDecorationsWithin` | src/backup/utils/language.ts:110-119 | A range's marks lie in that range and each covers a whole placeholder of the document. |
| `Plugin.DecorationsWithinRanges` | src/backup/utils/language.ts:107-123 | Every mark lies in one visible range and covers a whole placeholder. |
| `Plugin.DecorationsOrdered` | src/backup/utils/language.ts:107-122 | With sorted, disjoint ranges, marks come left to right without overlap, as the range builder requires. |
| `Plugin.RangeDecorationsOrdered` | src/backup/utils/language.ts:113-118 | One range's marks come left to right. |
| `Plugin.DecorationsContainRange` | src/backup/utils/language.ts:110-120 | Every mark of every range is in the decoration set. |
| `Plugin.DecoratedWhenReached` | src/backup/utils/language.ts:110-119 | A placeholder inside a visible range is marked once no earlier match in the range runs past it. |
| `Plugin.StraddlingNotDecorated` | src/backup/utils/language.ts:110-111 | A placeholder split between two ranges is not marked. Inside one range it is. |
| `Draft.FindVariableEntities` | src/components/DraftPromptEditor.tsx:12-19 | The strategy reports exactly the global matches, whole and in order. |
| `Draft.LineBreak` | src/components/DraftPromptEditor.tsx:38 | Gives the first `\r` or `\n` at or after a position. |
| `Draft.SplitBlocks` | src/components/DraftPromptEditor.tsx:38 | There is at least one block, and no block contains a line break. |
| `Draft.PlainTextOfSplit` | src/components/DraftPromptEditor.tsx:46-48 | Splitting a value with no `\r` and joining the blocks gives the value back. |
| `Draft.SuggestionsShownIff` | src/components/DraftPromptEditor.tsx:88-96 | Suggestions show iff `{{path` ends the text before the cursor. They are then the catalog filtered by the lower-cased path. |
| `Draft.CommitSplices` | src/components/DraftPromptEditor.tsx:123-139 | A commit happens iff there is an open placeholder. It replaces the `{{query` with `{{value}}`, keeps the rest of the block, and puts the cursor after the `}}`. |
| `Draft.CommitDoublesClosers` | src/components/DraftPromptEditor.tsx:133 | When `}}` already follows the cursor, a commit leaves `}}}}`. |
| `Draft.CommitAt` | src/components/DraftPromptEditor.tsx:126-139 | Gives the commit's text and cursor at a known placeholder start. |
| `Draft.CommitHighlighted` | src/components/DraftPromptEditor.tsx:133-137 | A committed non-empty, `}`-free value is matched whole, and is highlighted as one span after settled text. |
| `Draft.PasteSplices` | src/components/DraftPromptEditor.tsx:65-74 | A paste keeps the text around the selection, puts the pasted text in its place, and collapses the cursor after it. |
| `Draft.PopupFollowsCaret` | src/components/DraftPromptEditor.tsx:102-105 | The popup sits 24 px below and level with the caret. Scrolling leaves it in place, and moving the caret moves it by the same amount. |
| `Draft.DraftEditor.constructor` | src/components/DraftPromptEditor.tsx:37-43 | The editor starts with the value split into blocks and no popup. |
| `Draft.DraftEditor.HandleEditorChange` | src/components/DraftPromptEditor.tsx:81-114 | The handler takes the new content and selection, shows the popup iff `SuggestionsFor` finds an open placeholder, places it when geometry is known, and emits the plain text. |
| `Draft.DraftEditor.HandleSuggestionClick` | src/components/DraftPromptEditor.tsx:116-146 | The handler applies `Commit` to the cursor's block, moves the cursor, hides the popup and emits the plain text. Without a match nothing changes. |
| `Draft.DraftEditor.HandlePastedText` | src/components/DraftPromptEditor.tsx:65-79 | The handler replaces the selection, collapses the cursor, runs the change handler, and always reports the paste as handled. |
| `Monaco.OnlyLinePrefixMatters` | src/components/MonacoPromptEditor.tsx:44-49 | Only the cursor's line up to the cursor affects the suggestions. |
| `Monaco.SuggestsWholeCatalog` | src/components/MonacoPromptEditor.tsx:51-60 | No match gives no suggestions. Otherwise the whole catalog is offered in order and unfiltered, with the labels from each entry, and the kind is Function iff the entry is a function. |
| `Monaco.InsertTextAlwaysCloses` | src/components/MonacoPromptEditor.tsx:61 | The inserted text is always the value plus `}}`, because the `endsWith("}}")` check can never hold. |
| `Monaco.SortTextByRawPrefix` | src/components/MonacoPromptEditor.tsx:80 | The sort key is "0" iff the lower-cased value starts with the raw query, else "1". Any upper-case letter in the query makes every key "1". |
| `Monaco.DocsLinkIff` | src/components/MonacoPromptEditor.tsx:62-79 | The open-link command and the document icon appear iff the entry has a non-empty link. |
| `Monaco.DocumentationWithLink` | src/components/MonacoPromptEditor.tsx:63-70 | With a link, the documentation is the bold value, a blank line, the description, a blank line and the link. |
| `Monaco.DocumentationWithoutLink` | src/components/MonacoPromptEditor.tsx:63-70 | Without a link, the trailing blank lines are trimmed away. |
| `Catalog.CatalogSize` | src/utils/constants.ts:23-214 | The catalog has 24 entries. |
| `Catalog.LabelsAreValues` | src/utils/constants.ts:23-214 | Every label equals its value, and every entry is a function or a variable. |
| `Catalog.ValuesDistinct` | src/utils/constants.ts:23-214 | No two entries share a value. |
| `Catalog.DocsExactlyOnFunctions` | src/utils/constants.ts:23-100 | Functions carry the documentation link and variables carry none. |
| `Catalog.FunctionsNamedByGroup` | src/utils/constants.ts:24-100 | A function's value starts with its known name and a space, and the name's group is its category. |
| `Catalog.VariablesPrefixedByCategory` | src/utils/constants.ts:102-213 | A variable's value starts with its category and a dot, ignoring case. |
| `Catalog.OneValueWithBraces` | src/utils/constants.ts:118 | Every value but `FLOW.{variable_of_your_choice}` is free of braces. |
| `Catalog.CategoriesByGroup` | src/utils/constants.ts:23-214 | Each entry's category is its group's. |
| `Catalog.CategoriesContiguous` | src/utils/constants.ts:23-214 | The entries of one category form one contiguous block. |
| `Fixtures.ValuesInsertable` | src/utils/constants.ts:23-214 | Every value is non-empty, and all but the custom flow variable have no `}`. |
| `Fixtures.CustomVariableShape` | src/utils/constants.ts:118 | The custom flow variable ends with its only `}`. |
| `Fixtures.CommittedEntryHighlighted` | src/components/DraftPromptEditor.tsx:133 | Committing any catalog entry except the custom flow variable yields a placeholder highlighted whole. |
| `Fixtures.CommittedCustomVariableCutShort` | src/components/DraftPromptEditor.tsx:133 | Committing `FLOW.{variable_of_your_choice}` yields a highlight one character short of the final `}`. |
| `Fixtures.CatalogCommandsOnFunctions` | src/components/MonacoPromptEditor.tsx:73-79 | On the built-in catalog, the Monaco open-link command is attached exactly to the function entries. |

## Left out

- The `info` panel builders of both CodeMirror copies (DOM and clipboard), and the commented-out alternatives: these are presentation, not logic.
- CodeMirror's `validFor` reuse and its ranking of options by `boost`: both are library behaviour. The model states the boosts it computes.
- The 250-character look-behind window of `matchBefore` is not modelled. The model reads the whole text before the cursor. The pattern cannot cross a line break anyway, so the window matters only for placeholders of about 250 characters or more.
- Monaco's Monarch tokenizer, the editor theme, the context-menu suppression and `triggerCharacters`: these are declarative configuration for the host editor. The `isTrusted` flag of the documentation is left out as well.
- The CodeMirror driver that calls `token` line after line, and the state it carries across lines: `Language.Tokens` covers one line from a given state. The decoration's CSS class and its `inclusive`/`selectAll` flags are left out.
- Draft.js `handleBeforeInput` always returns "not-handled", so it changes nothing and is not modelled.
- The `useEffect` that rebuilds the editor from a new `value`: the model has `SplitBlocks` and `PlainText` and their round trip, not the React effect.
- `getCaretCoordinates` and the bounding boxes are DOM measurements. They are an `Option<Geometry>` parameter, in whole pixels; floating-point coordinates are not modelled.
- Draft.DraftEditor.HandleEditorChange, Draft.DraftEditor.HandleSuggestionClick, Draft.DraftEditor.HandlePastedText: a selection lies within one block. The source's paste replaces the whole selection, which can span several blocks, and such selections are not modelled.
- Draft.PlainTextOfSplit: the round trip excludes `\r`. The split treats `\r` as a line break, but the plain text joins blocks with `\n`.
- `allItems` is imported by the Draft.js and Monaco editors but is not exported by `src/utils/constants.ts`. The model passes the catalog as a parameter, and `Fixtures` uses `defaultSuggestions`.
- The `docs` field is not declared in `BaseEditorItem` but is allowed by its index signature. The model makes it an optional field of `Suggestion.Item`. `id`, `link` and `icon` are never read by the modelled code and are left out.
- Text encoding and character classes: offsets count characters, whereas JavaScript's `length`, `slice` and regex indices count UTF-16 code units, so they differ on characters outside the Basic Multilingual Plane. `toLowerCase` is modelled on ASCII letters only, and `\w` as ASCII letters, digits and `_`.
- Suggestion.Filter: its own contract only bounds the length. The full selection property is `Suggestion.FilterSelects`.
- Completions.Apply: its own contract only gives the length. The splice is stated by `Completions.ApplySplices`.

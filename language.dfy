/**
 * The CodeMirror prompt language: the stream tokenizer (`promptLanguage.token`)
 * that classifies the characters of a line.
 *
 * The tokenizer works on a `StringStream` (a line and a position) and a
 * mutable state record; both are classes here. `Step` is the pure
 * specification of one `token` call, and `Token` is proved to do what `Step`
 * says.
 */
module Language {
  import opened Wrappers
  import opened Text
  import opened Spans
  import opened Suggestion

  // ----- What `StringStream.match` recognises at a position -----

  /** `t` occurs at `i` in `s` up to ASCII case (a regular expression with the `i` flag). */
  predicate OccursAtIgnoringCase(s: string, t: string, i: nat)
  {
    i + |t| <= |s| && forall k :: 0 <= k < |t| ==> LowerChar(s[i + k]) == LowerChar(t[k])
  }

  /** `t` occurs at `i` in `s`, up to ASCII case when `ignoreCase` is set. */
  predicate OccursAtCase(s: string, t: string, i: nat, ignoreCase: bool)
  {
    if ignoreCase then OccursAtIgnoringCase(s, t, i) else OccursAt(s, t, i)
  }

  /**
   * `/a|b|c/` (with the `i` flag when `ignoreCase`) matched at `i`: the length
   * of the first alternative that occurs at `i`. `StringStream.match` accepts
   * a regular-expression match only when it starts at the current position,
   * and at one position the engine tries the alternatives in order.
   */
  function AlternativeAt(s: string, i: nat, alternatives: seq<string>, ignoreCase: bool): (r: Option<nat>)
    ensures r.Some? ==> exists k :: 0 <= k < |alternatives| && OccursAtCase(s, alternatives[k], i, ignoreCase) && r.value == |alternatives[k]|
    ensures r.None? ==> forall k :: 0 <= k < |alternatives| ==> !OccursAtCase(s, alternatives[k], i, ignoreCase)
  {
    if alternatives == [] then None
    else if OccursAtCase(s, alternatives[0], i, ignoreCase) then Some(|alternatives[0]|)
    else
      var r := AlternativeAt(s, i, alternatives[1..], ignoreCase);
      assert forall k :: 1 <= k < |alternatives| ==> alternatives[k] == alternatives[1..][k - 1];
      r
  }

  /** One `{pattern, category}` entry of the tokenizer's lists: an alternation and the category it sets. */
  datatype Rule = Rule(alternatives: seq<string>, ignoreCase: bool, category: string)

  /** The rule that matched, and how much of the line it took. */
  datatype Hit = Hit(category: string, length: nat)

  /** The first rule of `rules` whose pattern matches at `i`. */
  function FirstRule(s: string, i: nat, rules: seq<Rule>): (r: Option<Hit>)
  {
    if rules == [] then None
    else match AlternativeAt(s, i, rules[0].alternatives, rules[0].ignoreCase)
      case Some(n) => Some(Hit(rules[0].category, n))
      case None => FirstRule(s, i, rules[1..])
  }

  /** No rule has an empty alternative, so a hit always takes at least one character. */
  predicate NoEmptyAlternative(rules: seq<Rule>)
  {
    forall k, j :: 0 <= k < |rules| && 0 <= j < |rules[k].alternatives| ==> rules[k].alternatives[j] != ""
  }

  lemma {:induction false} FirstRuleTakes(s: string, i: nat, rules: seq<Rule>)
    requires NoEmptyAlternative(rules)
    ensures FirstRule(s, i, rules).Some? ==> 0 < FirstRule(s, i, rules).value.length && i + FirstRule(s, i, rules).value.length <= |s|
  {
    if rules != [] && AlternativeAt(s, i, rules[0].alternatives, rules[0].ignoreCase).None? {
      assert NoEmptyAlternative(rules[1..]) by {
        assert forall k :: 1 <= k < |rules| ==> rules[k] == rules[1..][k - 1];
      }
      FirstRuleTakes(s, i, rules[1..]);
    }
  }

  /** End of the run of word characters (`[\w_]`) that starts at `i`. */
  function WordRunEnd(s: string, i: nat): (e: nat)
    requires i <= |s|
    ensures i <= e <= |s|
    ensures forall k :: i <= k < e ==> IsWordChar(s[k])
    ensures e < |s| ==> !IsWordChar(s[e])
    decreases |s| - i
  {
    if i < |s| && IsWordChar(s[i]) then WordRunEnd(s, i + 1) else i
  }

  /** `[\w_]+` matches `s[i..e]`. */
  ghost predicate WordRunAt(s: string, i: int, e: int)
  {
    0 <= i < e <= |s| && forall k :: i <= k < e ==> IsWordChar(s[k])
  }

  /**
   * `/[\w_]+/` at `i`: it succeeds when a word character is at `i`, and the
   * greedy run is the longest one.
   */
  lemma WordRunIsTheMatch(s: string, i: nat)
    requires i <= |s|
    ensures WordRunEnd(s, i) > i <==> (i < |s| && IsWordChar(s[i]))
    ensures forall e :: WordRunAt(s, i, e) ==> e <= WordRunEnd(s, i)
  {
  }

  /** End of `/[\w_]+=(?=')/` at `i`: a word run, `=`, and a quote that is looked at but not taken. */
  function ParameterEnd(s: string, i: nat): (r: Option<nat>)
    requires i <= |s|
    ensures r.Some? ==> i + 2 <= r.value < |s|
  {
    var e := WordRunEnd(s, i);
    if e > i && e + 1 < |s| && s[e] == '=' && s[e + 1] == '\'' then Some(e + 1) else None
  }

  /** `[\w_]+=(?=')` matches `s[i..e]`. */
  ghost predicate ParameterAt(s: string, i: int, e: int)
  {
    WordRunAt(s, i, e - 1) && e < |s| && s[e - 1] == '=' && s[e] == '\''
  }

  /** The scanner finds exactly the matches of `[\w_]+=(?=')` at `i`; there is at most one. */
  lemma ParameterIsTheMatch(s: string, i: nat, e: int)
    requires i <= |s|
    ensures ParameterEnd(s, i) == Some(e) <==> ParameterAt(s, i, e)
  {
    if ParameterAt(s, i, e) {
      WordRunIsTheMatch(s, i);
      var w := WordRunEnd(s, i);
      assert w == e - 1 by {
        assert !IsWordChar(s[e - 1]);
      }
    }
  }

  /** End of `/'[^']*'/` at `i`: a quote, anything but quotes, and the next quote. */
  function QuotedEnd(s: string, i: nat): (r: Option<nat>)
    requires i <= |s|
    ensures r.Some? ==> i + 2 <= r.value <= |s|
  {
    if i < |s| && s[i] == '\'' then
      var q := NextChar(s, i + 1, '\'');
      if q < |s| then Some(q + 1) else None
    else None
  }

  /** `'[^']*'` matches `s[i..e]`. */
  ghost predicate QuotedAt(s: string, i: int, e: int)
  {
    0 <= i && i + 2 <= e <= |s| && s[i] == '\'' && s[e - 1] == '\'' && forall k :: i < k < e - 1 ==> s[k] != '\''
  }

  /** The scanner finds exactly the matches of `'[^']*'` at `i`; there is at most one. */
  lemma QuotedIsTheMatch(s: string, i: nat, e: int)
    requires i <= |s|
    ensures QuotedEnd(s, i) == Some(e) <==> QuotedAt(s, i, e)
  {
    if QuotedAt(s, i, e) {
      assert NextChar(s, i + 1, '\'') == e - 1;
    }
  }

  // ----- The stream -----

  /** CodeMirror's `StringStream` over one line: the line and the current position. */
  class StringStream {
    const line: string
    var pos: nat

    ghost predicate Valid()
      reads this
    {
      pos <= |line|
    }

    constructor(line: string, pos: nat)
      requires pos <= |line|
      ensures this.line == line && this.pos == pos && Valid()
    {
      this.line := line;
      this.pos := pos;
    }

    /** `match(pattern)` with a string: take `pattern` if the line continues with it. */
    method Match(pattern: string) returns (ok: bool)
      requires Valid()
      modifies this
      ensures Valid()
      ensures ok <==> OccursAt(line, pattern, old(pos))
      ensures pos == if ok then old(pos) + |pattern| else old(pos)
    {
      ok := pos + |pattern| <= |line| && line[pos..pos + |pattern|] == pattern;
      if ok {
        pos := pos + |pattern|;
      }
    }

    /** `match(/a|b|c/)`, or `match(/a|b|c/i)` when `ignoreCase`. */
    method MatchAlternatives(alternatives: seq<string>, ignoreCase: bool) returns (ok: bool)
      requires Valid()
      modifies this
      ensures Valid()
      ensures ok <==> AlternativeAt(line, old(pos), alternatives, ignoreCase).Some?
      ensures pos == if ok then old(pos) + AlternativeAt(line, old(pos), alternatives, ignoreCase).value else old(pos)
    {
      var r := AlternativeAt(line, pos, alternatives, ignoreCase);
      ok := r.Some?;
      if ok {
        pos := pos + r.value;
      }
    }

    /** `match(/[\w_]+/)`. */
    method MatchWordRun() returns (ok: bool)
      requires Valid()
      modifies this
      ensures Valid()
      ensures ok <==> (old(pos) < |line| && IsWordChar(line[old(pos)]))
      ensures pos == WordRunEnd(line, old(pos))
    {
      var start := pos;
      pos := WordRunEnd(line, pos);
      ok := pos > start;
    }

    /** `match(/[\w_]+=(?=')/)`. */
    method MatchParameter() returns (ok: bool)
      requires Valid()
      modifies this
      ensures Valid()
      ensures ok <==> ParameterEnd(line, old(pos)).Some?
      ensures pos == if ok then ParameterEnd(line, old(pos)).value else old(pos)
    {
      var r := ParameterEnd(line, pos);
      ok := r.Some?;
      if ok {
        pos := r.value;
      }
    }

    /** `match(/'[^']*'/)`. */
    method MatchQuoted() returns (ok: bool)
      requires Valid()
      modifies this
      ensures Valid()
      ensures ok <==> QuotedEnd(line, old(pos)).Some?
      ensures pos == if ok then QuotedEnd(line, old(pos)).value else old(pos)
    {
      var r := QuotedEnd(line, pos);
      ok := r.Some?;
      if ok {
        pos := r.value;
      }
    }

    /** `eatSpace()`: skip white space. */
    method EatSpace()
      requires Valid()
      modifies this
      ensures Valid()
      ensures pos == SkipSpaces(line, old(pos))
    {
      while pos < |line| && IsJsSpace(line[pos])
        invariant old(pos) <= pos <= |line|
        invariant SkipSpaces(line, old(pos)) == SkipSpaces(line, pos)
        decreases |line| - pos
      {
        pos := pos + 1;
      }
    }

    /** `next()`: take one character, unless at the end of the line. */
    method Next()
      requires Valid()
      modifies this
      ensures Valid()
      ensures pos == if old(pos) < |line| then old(pos) + 1 else old(pos)
    {
      if pos < |line| {
        pos := pos + 1;
      }
    }
  }

  // ----- The tokenizer state and styles -----

  /** The tokenizer state `{inVariable, category, isComplete}`, as a value. */
  datatype TokState = TokState(inVariable: bool, category: string, isComplete: bool)

  /** `startState()`. */
  const StartState := TokState(false, "", false)

  /** The style a token gets; `None` stands for the unstyled `null`. */
  datatype Style =
    | VariableBracket
    | VariablePrefix(prefixCategory: string)
    | VariableValue(valueCategory: string)
    | FunctionName(functionCategory: string)
    | Parameter
    | QuotedString

  /** The style string CodeMirror receives. */
  function StyleName(style: Style): string
  {
    match style
    case VariableBracket => "variable-bracket"
    case VariablePrefix(c) => "variable-prefix " + c
    case VariableValue(c) => "variable-value " + c
    case FunctionName(c) => "function " + c
    case Parameter => "parameter"
    case QuotedString => "string"
  }

  /** `categoryMatches`: the variable prefixes, tried in this order, ignoring case. */
  const CategoryMatches: seq<Rule> := [
    Rule(["FLOW.", "Flow."], true, "Flow"),
    Rule(["SESSION."], true, "Session"),
    Rule(["VISITOR."], true, "Visitor"),
    Rule(["CONTACT."], true, "Contact")
  ]

  /** `functionMatches`: the function names, tried in this order, with no word boundaries. */
  const FunctionMatches: seq<Rule> := [
    Rule(["eq", "gt", "lt"], false, "Equality"),
    Rule(["and", "or", "not"], false, "Logical"),
    Rule(["uppercase", "lowercase", "trim"], false, "String")
  ]

  lemma RulesTake()
    ensures NoEmptyAlternative(CategoryMatches) && NoEmptyAlternative(FunctionMatches)
  {
  }

  /** What one `token` call produces: the new state, the style, and the new position. */
  datatype StepResult = StepResult(state: TokState, style: Option<Style>, next: nat)

  /** The part of `token` that runs inside a placeholder, once white space at `pos` is skipped to `p`. */
  function VariableStep(st: TokState, line: string, pos: nat, p: nat): (r: StepResult)
    requires pos <= p <= |line| && (p == pos ==> pos < |line|)
    ensures pos < r.next <= |line|
  {
    RulesTake();
    FirstRuleTakes(line, p, CategoryMatches);
    FirstRuleTakes(line, p, FunctionMatches);
    match FirstRule(line, p, CategoryMatches)
    case Some(hit) => StepResult(st.(category := hit.category), Some(VariablePrefix(hit.category)), p + hit.length)
    case None =>
      if st.category != "" && p < |line| && IsWordChar(line[p]) then
        StepResult(st, Some(VariableValue(st.category)), WordRunEnd(line, p))
      else match FirstRule(line, p, FunctionMatches)
        case Some(hit) => StepResult(st.(category := hit.category), Some(FunctionName(hit.category)), p + hit.length)
        case None =>
          if ParameterEnd(line, p).Some? then
            StepResult(st, Some(Parameter), ParameterEnd(line, p).value)
          else if QuotedEnd(line, p).Some? then
            StepResult(st, Some(QuotedString), QuotedEnd(line, p).value)
          else
            StepResult(st, None, if p < |line| then p + 1 else p)
  }

  /**
   * One `token` call at `pos`, which CodeMirror only makes before the end of
   * the line. Every call moves forward, so a line is tokenized in finitely
   * many calls.
   */
  function Step(st: TokState, line: string, pos: nat): (r: StepResult)
    requires pos < |line|
    ensures pos < r.next <= |line|
  {
    if OccursAt(line, "{{", pos) then
      StepResult(st.(inVariable := true, isComplete := false), Some(VariableBracket), pos + 2)
    else if OccursAt(line, "}}", pos) then
      StepResult(TokState(false, "", true), Some(VariableBracket), pos + 2)
    else if st.inVariable then
      VariableStep(st, line, pos, SkipSpaces(line, pos))
    else
      StepResult(st, None, pos + 1)
  }

  /** The mutable state record the tokenizer updates. */
  class TokenizerState {
    var inVariable: bool
    var category: string
    var isComplete: bool

    function Value(): TokState
      reads this
    {
      TokState(inVariable, category, isComplete)
    }

    /** `startState()`. */
    constructor()
      ensures Value() == StartState
    {
      inVariable := false;
      category := "";
      isComplete := false;
    }
  }

  /** `token(stream, state)`: style the next token of the line and advance past it. */
  method Token(stream: StringStream, state: TokenizerState) returns (style: Option<Style>)
    requires stream.Valid() && stream.pos < |stream.line|
    modifies stream, state
    ensures stream.Valid()
    ensures var r := Step(old(state.Value()), stream.line, old(stream.pos));
      state.Value() == r.state && style == r.style && stream.pos == r.next
  {
    var ok := stream.Match("{{");
    if ok {
      state.inVariable := true;
      state.isComplete := false;
      return Some(VariableBracket);
    }
    ok := stream.Match("}}");
    if ok {
      state.inVariable := false;
      state.category := "";
      state.isComplete := true;
      return Some(VariableBracket);
    }
    if state.inVariable {
      ghost var start := stream.pos;
      stream.EatSpace();
      style := VariableToken(stream, state, start);
      return;
    }
    stream.Next();
    return None;
  }

  /**
   * `for (const {pattern, category} of rules) if (stream.match(pattern)) ...`:
   * try the rules in order and stop at the first whose pattern matches.
   */
  method MatchFirstRule(stream: StringStream, rules: seq<Rule>) returns (hit: Option<Hit>)
    requires stream.Valid()
    modifies stream
    ensures stream.Valid()
    ensures hit == FirstRule(stream.line, old(stream.pos), rules)
    ensures stream.pos == if hit.Some? then old(stream.pos) + hit.value.length else old(stream.pos)
  {
    var start := stream.pos;
    var i := 0;
    while i < |rules|
      invariant 0 <= i <= |rules| && stream.Valid() && stream.pos == old(stream.pos)
      invariant FirstRule(stream.line, stream.pos, rules) == FirstRule(stream.line, stream.pos, rules[i..])
    {
      assert rules[i..][1..] == rules[i + 1..];
      var ok := stream.MatchAlternatives(rules[i].alternatives, rules[i].ignoreCase);
      if ok {
        return Some(Hit(rules[i].category, stream.pos - start));
      }
      i := i + 1;
    }
    return None;
  }

  /**
   * The part of `token` that runs inside a placeholder, after `eatSpace`
   * moved the stream from `start` to its current position.
   */
  method VariableToken(stream: StringStream, state: TokenizerState, ghost start: nat) returns (style: Option<Style>)
    requires stream.Valid() && start <= stream.pos && start < |stream.line|
    requires stream.pos == SkipSpaces(stream.line, start)
    modifies stream, state
    ensures stream.Valid()
    ensures var r := VariableStep(old(state.Value()), stream.line, start, old(stream.pos));
      state.Value() == r.state && style == r.style && stream.pos == r.next
  {
    var hit := MatchFirstRule(stream, CategoryMatches);
    if hit.Some? {
      state.category := hit.value.category;
      return Some(VariablePrefix(hit.value.category));
    }
    if state.category != "" {
      var ok := stream.MatchWordRun();
      if ok {
        return Some(VariableValue(state.category));
      }
    }
    hit := MatchFirstRule(stream, FunctionMatches);
    if hit.Some? {
      state.category := hit.value.category;
      return Some(FunctionName(hit.value.category));
    }
    var ok := stream.MatchParameter();
    if ok {
      return Some(Parameter);
    }
    ok := stream.MatchQuoted();
    if ok {
      return Some(QuotedString);
    }
    stream.Next();
    return None;
  }

  // ----- What one step does -----

  /**
   * `{{` opens a placeholder and keeps the category; `}}` closes one, clears
   * the category and marks it complete, whether or not one was open. Both
   * are styled as brackets and take two characters.
   */
  lemma BracketSteps(st: TokState, line: string, pos: nat)
    requires pos < |line|
    ensures OccursAt(line, "{{", pos) ==>
      Step(st, line, pos) == StepResult(TokState(true, st.category, false), Some(VariableBracket), pos + 2)
    ensures !OccursAt(line, "{{", pos) && OccursAt(line, "}}", pos) ==>
      Step(st, line, pos) == StepResult(TokState(false, "", true), Some(VariableBracket), pos + 2)
  {
  }

  /** Outside a placeholder, anything but a bracket pair is one unstyled character. */
  lemma OutsideStep(st: TokState, line: string, pos: nat)
    requires pos < |line| && !st.inVariable
    requires !OccursAt(line, "{{", pos) && !OccursAt(line, "}}", pos)
    ensures Step(st, line, pos) == StepResult(st, None, pos + 1)
  {
  }

  /** No bracket pair starts at a character that is not a brace. */
  lemma NoBracketAt(line: string, pos: nat)
    requires pos < |line| && line[pos] != '{' && line[pos] != '}'
    ensures !OccursAt(line, "{{", pos) && !OccursAt(line, "}}", pos)
  {
    if pos + 2 <= |line| {
      assert line[pos..pos + 2][0] == line[pos];
    }
  }

  /** An alternation fails at `i` when no alternative starts with the character there, in any case. */
  lemma AlternativeMissesAt(s: string, i: nat, alternatives: seq<string>, ignoreCase: bool)
    requires i < |s|
    requires forall j :: 0 <= j < |alternatives| ==> alternatives[j] != "" && LowerChar(alternatives[j][0]) != LowerChar(s[i])
    ensures AlternativeAt(s, i, alternatives, ignoreCase).None?
  {
    forall j | 0 <= j < |alternatives|
      ensures !OccursAtCase(s, alternatives[j], i, ignoreCase)
    {
      var t := alternatives[j];
      if i + |t| <= |s| {
        assert s[i..i + |t|][0] == s[i];
      }
    }
  }

  /** The first rule list hits with rule `k` when no earlier rule matches and rule `k` does. */
  lemma {:induction false} FirstRuleAt(s: string, i: nat, rules: seq<Rule>, k: nat, n: nat)
    requires k < |rules|
    requires forall j :: 0 <= j < k ==> AlternativeAt(s, i, rules[j].alternatives, rules[j].ignoreCase).None?
    requires AlternativeAt(s, i, rules[k].alternatives, rules[k].ignoreCase) == Some(n)
    ensures FirstRule(s, i, rules) == Some(Hit(rules[k].category, n))
  {
    if k > 0 {
      assert forall j :: 0 <= j < k - 1 ==> rules[1..][j] == rules[j + 1];
      FirstRuleAt(s, i, rules[1..], k - 1, n);
    }
  }

  /**
   * Inside a placeholder, a category prefix after optional white space is
   * recognised in any letter case: it is styled as that category's prefix,
   * sets the category, and takes the prefix.
   */
  lemma CategoryPrefixStep(st: TokState, line: string, pos: nat, k: nat)
    requires pos < |line| && st.inVariable && k < |CategoryMatches|
    requires OccursAtIgnoringCase(line, CategoryMatches[k].alternatives[0], SkipSpaces(line, pos))
    ensures var c := CategoryMatches[k].category;
      Step(st, line, pos) == StepResult(st.(category := c), Some(VariablePrefix(c)),
                                        SkipSpaces(line, pos) + |CategoryMatches[k].alternatives[0]|)
  {
    var p := SkipSpaces(line, pos);
    var rules := CategoryMatches;
    var a := rules[k].alternatives[0];
    assert LowerChar(line[p + 0]) == LowerChar(a[0]);
    assert line[p] != '{' && line[p] != '}';
    NoBracketAt(line, pos);
    forall j | 0 <= j < k
      ensures AlternativeAt(line, p, rules[j].alternatives, rules[j].ignoreCase).None?
    {
      AlternativeMissesAt(line, p, rules[j].alternatives, rules[j].ignoreCase);
    }
    FirstRuleAt(line, p, rules, k, |a|);
  }

  /**
   * Inside a placeholder with a category set, a run of word characters that
   * is not a category prefix is that category's value; the state is kept.
   */
  lemma IdentifierStep(st: TokState, line: string, pos: nat)
    requires pos < |line| && st.inVariable && st.category != ""
    requires var p := SkipSpaces(line, pos); p < |line| && IsWordChar(line[p]) && FirstRule(line, p, CategoryMatches).None?
    ensures Step(st, line, pos) == StepResult(st, Some(VariableValue(st.category)), WordRunEnd(line, SkipSpaces(line, pos)))
  {
    NoBracketAt(line, pos);
  }

  /**
   * Inside a placeholder with no category, a function name that is not a
   * category prefix sets its group as the category and takes the name.
   */
  lemma FunctionNameStep(st: TokState, line: string, pos: nat)
    requires pos < |line| && st.inVariable && st.category == ""
    requires var p := SkipSpaces(line, pos); FirstRule(line, p, CategoryMatches).None? && FirstRule(line, p, FunctionMatches).Some?
    ensures var p := SkipSpaces(line, pos); var hit := FirstRule(line, p, FunctionMatches).value;
      Step(st, line, pos) == StepResult(st.(category := hit.category), Some(FunctionName(hit.category)), p + hit.length)
  {
    var p := SkipSpaces(line, pos);
    RulesTake();
    FirstRuleTakes(line, p, FunctionMatches);
    if line[p] == '{' || line[p] == '}' {
      var rules := FunctionMatches;
      forall j | 0 <= j < |rules|
        ensures AlternativeAt(line, p, rules[j].alternatives, rules[j].ignoreCase).None?
      {
        AlternativeMissesAt(line, p, rules[j].alternatives, rules[j].ignoreCase);
      }
      NoRuleHits(line, p, rules);
      assert false;
    }
    NoBracketAt(line, pos);
  }

  /** No rule hits when every rule's alternation fails. */
  lemma {:induction false} NoRuleHits(s: string, i: nat, rules: seq<Rule>)
    requires forall j :: 0 <= j < |rules| ==> AlternativeAt(s, i, rules[j].alternatives, rules[j].ignoreCase).None?
    ensures FirstRule(s, i, rules).None?
  {
    if rules != [] {
      assert forall j :: 0 <= j < |rules| - 1 ==> rules[1..][j] == rules[j + 1];
      NoRuleHits(s, i, rules[1..]);
    }
  }

  /** The tokenizer's function names are the catalog's, in the same order. */
  lemma FunctionMatchesAreCatalogNames()
    ensures FunctionMatches[0].alternatives + FunctionMatches[1].alternatives + FunctionMatches[2].alternatives == FunctionNames
  {
  }

  /** At one position at most one function name occurs: no two names share their first two letters. */
  lemma FunctionNameUnique(s: string, i: nat, g: nat, j: nat, h: nat, k: nat)
    requires g < |FunctionMatches| && j < |FunctionMatches[g].alternatives|
    requires h < |FunctionMatches| && k < |FunctionMatches[h].alternatives|
    requires OccursAt(s, FunctionMatches[g].alternatives[j], i)
    requires OccursAt(s, FunctionMatches[h].alternatives[k], i)
    ensures g == h && j == k
  {
    var a := FunctionMatches[g].alternatives[j];
    var b := FunctionMatches[h].alternatives[k];
    assert a[0] == s[i..i + |a|][0] == s[i] == s[i..i + |b|][0] == b[0];
    assert a[1] == s[i..i + |a|][1] == s[i + 1] == s[i..i + |b|][1] == b[1];
  }

  /** No category prefix starts a function name. */
  lemma NoCategoryAtFunctionName(s: string, i: nat, g: nat, j: nat)
    requires g < |FunctionMatches| && j < |FunctionMatches[g].alternatives|
    requires OccursAt(s, FunctionMatches[g].alternatives[j], i)
    ensures i < |s| && IsWordChar(s[i])
    ensures FirstRule(s, i, CategoryMatches).None?
  {
    var a := FunctionMatches[g].alternatives[j];
    assert s[i] == s[i..i + |a|][0] == a[0];
    var rules := CategoryMatches;
    forall h | 0 <= h < |rules|
      ensures AlternativeAt(s, i, rules[h].alternatives, rules[h].ignoreCase).None?
    {
      AlternativeMissesAt(s, i, rules[h].alternatives, rules[h].ignoreCase);
    }
    NoRuleHits(s, i, rules);
  }

  /**
   * Inside a placeholder with no category, a function name is taken as soon
   * as it occurs, whatever follows it: `equals` yields the name `eq`. The
   * name's group becomes the category.
   */
  lemma FunctionNameWithoutBoundary(st: TokState, line: string, pos: nat, g: nat, j: nat)
    requires pos < |line| && st.inVariable && st.category == ""
    requires g < |FunctionMatches| && j < |FunctionMatches[g].alternatives|
    requires OccursAt(line, FunctionMatches[g].alternatives[j], SkipSpaces(line, pos))
    ensures var c := FunctionMatches[g].category;
      Step(st, line, pos) == StepResult(st.(category := c), Some(FunctionName(c)),
                                        SkipSpaces(line, pos) + |FunctionMatches[g].alternatives[j]|)
  {
    var p := SkipSpaces(line, pos);
    var rules := FunctionMatches;
    var name := rules[g].alternatives[j];
    NoCategoryAtFunctionName(line, p, g, j);
    forall h, k | 0 <= h < |rules| && 0 <= k < |rules[h].alternatives| && OccursAt(line, rules[h].alternatives[k], p)
      ensures h == g && k == j
    {
      FunctionNameUnique(line, p, g, j, h, k);
    }
    assert AlternativeAt(line, p, rules[g].alternatives, false) == Some(|name|);
    FirstRuleAt(line, p, rules, g, |name|);
    FunctionNameStep(st, line, pos);
  }

  /**
   * Once a category is set, a function name is read as a value of that
   * category, together with the rest of its word: the value rule comes
   * before the function rules.
   */
  lemma FunctionNameShadowedByCategory(st: TokState, line: string, pos: nat, g: nat, j: nat)
    requires pos < |line| && st.inVariable && st.category != ""
    requires g < |FunctionMatches| && j < |FunctionMatches[g].alternatives|
    requires OccursAt(line, FunctionMatches[g].alternatives[j], SkipSpaces(line, pos))
    ensures Step(st, line, pos) == StepResult(st, Some(VariableValue(st.category)), WordRunEnd(line, SkipSpaces(line, pos)))
  {
    NoCategoryAtFunctionName(line, SkipSpaces(line, pos), g, j);
    IdentifierStep(st, line, pos);
  }

  // ----- A whole line -----

  /** One token of a line: where it starts and ends, and its style. */
  datatype Piece = Piece(start: nat, end: nat, style: Option<Style>)

  /** The pieces form an unbroken, left-to-right cover of `[from, to)` with no empty piece. */
  ghost predicate Covers(pieces: seq<Piece>, from: nat, to: nat)
  {
    && (pieces == [] <==> from == to)
    && (pieces != [] ==> pieces[0].start == from && pieces[|pieces| - 1].end == to)
    && (forall i :: 0 <= i < |pieces| ==> pieces[i].start < pieces[i].end)
    && (forall i :: 0 <= i < |pieces| - 1 ==> pieces[i].end == pieces[i + 1].start)
  }

  /**
   * The tokens CodeMirror gets by calling `token` from `pos` to the end of
   * the line, starting in state `st`. Since every call moves forward, this
   * terminates, and the tokens cover the rest of the line.
   */
  function Tokens(st: TokState, line: string, pos: nat): (pieces: seq<Piece>)
    requires pos <= |line|
    ensures Covers(pieces, pos, |line|)
    decreases |line| - pos
  {
    if pos == |line| then []
    else
      var r := Step(st, line, pos);
      var rest := Tokens(r.state, line, r.next);
      var pieces := [Piece(pos, r.next, r.style)] + rest;
      assert forall i :: 1 <= i < |pieces| ==> pieces[i] == rest[i - 1];
      pieces
  }
}

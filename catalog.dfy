/**
 * The built-in suggestion catalog (`defaultSuggestions`) and what holds of it.
 */
module Catalog {
  import opened Wrappers
  import opened Text
  import opened Suggestion

  const DocsLink := "https://docs.example.com/eq"

  /**
   * The built-in catalog (`defaultSuggestions`), in declaration order, one
   * constant per commented group of the declaration.
   */
  const DefaultSuggestions: seq<Item> :=
    EqualityItems + LogicalItems + StringItems + FlowItems + SessionItems + VisitorItems + ContactItems

  // The values (and labels) of the catalog entries, in catalog order.
  const EqValue := "eq a='value1' b='value2'"
  const GtValue := "gt a='value1' b='value2'"
  const LtValue := "lt a='value1' b='value2'"
  const AndValue := "and arg1='value1' arg2='value2'"
  const OrValue := "or arg1='value1' arg2='value2'"
  const NotValue := "not value='true'"
  const UppercaseValue := "uppercase str='hello'"
  const LowercaseValue := "lowercase str='HELLO'"
  const TrimValue := "trim str='   Hello   '"
  const FlowLastResponse := "Flow.last_response"
  const FlowLastUtterance := "FLOW.last_utterance"
  const FlowCustomVariable := "FLOW.{variable_of_your_choice}"
  const SessionStatus := "SESSION.status"
  const VisitorName := "VISITOR.name"
  const VisitorRegion := "VISITOR.region"
  const VisitorLanguage := "VISITOR.language"
  const ContactName := "CONTACT.name"
  const ContactEmail := "CONTACT.email"
  const ContactPhone := "CONTACT.phone"
  const ContactCompany := "CONTACT.company"
  const ContactCountry := "CONTACT.country"
  const ContactCity := "CONTACT.city"
  const ContactRegion := "CONTACT.region"
  const ContactTags := "CONTACT.tags"

  /** Equality and comparison functions. */
  const EqualityItems: seq<Item> := [
    Item(EqValue, EqValue, "Equality and Comparison",
         "Checks if two values are equal", Some("function"), Some(DocsLink)),
    Item(GtValue, GtValue, "Equality and Comparison",
         "Checks if first value is greater than second", Some("function"), Some(DocsLink)),
    Item(LtValue, LtValue, "Equality and Comparison",
         "Checks if first value is less than second", Some("function"), Some(DocsLink))
  ]

  /** Logical operations. */
  const LogicalItems: seq<Item> := [
    Item(AndValue, AndValue, "Logical Operations",
         "Performs logical AND operation between multiple arguments", Some("function"), Some(DocsLink)),
    Item(OrValue, OrValue, "Logical Operations",
         "Performs logical OR operation between multiple arguments", Some("function"), Some(DocsLink)),
    Item(NotValue, NotValue, "Logical Operations",
         "Performs logical NOT operation on the value", Some("function"), Some(DocsLink))
  ]

  /** String manipulation functions. */
  const StringItems: seq<Item> := [
    Item(UppercaseValue, UppercaseValue, "String Manipulation",
         "Converts string to uppercase", Some("function"), Some(DocsLink)),
    Item(LowercaseValue, LowercaseValue, "String Manipulation",
         "Converts string to lowercase", Some("function"), Some(DocsLink)),
    Item(TrimValue, TrimValue, "String Manipulation",
         "Removes whitespace from both ends of a string", Some("function"), Some(DocsLink))
  ]

  /** Flow variables. */
  const FlowItems: seq<Item> := [
    Item(FlowLastResponse, FlowLastResponse, "Flow",
         "Gets the last response from the flow", Some("variable"), None),
    Item(FlowLastUtterance, FlowLastUtterance, "Flow",
         "Gets the last utterance from the flow", Some("variable"), None),
    Item(FlowCustomVariable, FlowCustomVariable, "Flow",
         "Access any custom flow variable", Some("variable"), None)
  ]

  /** Session variables. */
  const SessionItems: seq<Item> := [
    Item(SessionStatus, SessionStatus, "Session",
         "Current session status", Some("variable"), None)
  ]

  /** Visitor variables. */
  const VisitorItems: seq<Item> := [
    Item(VisitorName, VisitorName, "Visitor",
         "Name of the current visitor", Some("variable"), None),
    Item(VisitorRegion, VisitorRegion, "Visitor",
         "Region of the current visitor", Some("variable"), None),
    Item(VisitorLanguage, VisitorLanguage, "Visitor",
         "Preferred language of the visitor", Some("variable"), None)
  ]

  /** Contact variables. */
  const ContactItems: seq<Item> := [
    Item(ContactName, ContactName, "Contact",
         "Contact's full name", Some("variable"), None),
    Item(ContactEmail, ContactEmail, "Contact",
         "Contact's email address", Some("variable"), None),
    Item(ContactPhone, ContactPhone, "Contact",
         "Contact's phone number", Some("variable"), None),
    Item(ContactCompany, ContactCompany, "Contact",
         "Contact's company name", Some("variable"), None),
    Item(ContactCountry, ContactCountry, "Contact",
         "Contact's country", Some("variable"), None),
    Item(ContactCity, ContactCity, "Contact",
         "Contact's city", Some("variable"), None),
    Item(ContactRegion, ContactRegion, "Contact",
         "Contact's region", Some("variable"), None),
    Item(ContactTags, ContactTags, "Contact",
         "Tags associated with the contact", Some("variable"), None)
  ]

  lemma CatalogSize()
    ensures |DefaultSuggestions| == 24
  {
  }

  /** Where the equality group sits in the catalog. */
  lemma EqualityPlace()
    ensures forall k :: 0 <= k < 3 ==> DefaultSuggestions[k] == EqualityItems[k]
  {
  }

  /** Where the logical group sits in the catalog. */
  lemma LogicalPlace()
    ensures forall k :: 0 <= k < 3 ==> DefaultSuggestions[3 + k] == LogicalItems[k]
  {
  }

  /** Where the string group sits in the catalog. */
  lemma StringPlace()
    ensures forall k :: 0 <= k < 3 ==> DefaultSuggestions[6 + k] == StringItems[k]
  {
  }

  /** Where the flow group sits in the catalog. */
  lemma FlowPlace()
    ensures forall k :: 0 <= k < 3 ==> DefaultSuggestions[9 + k] == FlowItems[k]
  {
  }

  /** Where the session group sits in the catalog. */
  lemma SessionPlace()
    ensures forall k :: 0 <= k < 1 ==> DefaultSuggestions[12 + k] == SessionItems[k]
  {
  }

  /** Where the visitor group sits in the catalog. */
  lemma VisitorPlace()
    ensures forall k :: 0 <= k < 3 ==> DefaultSuggestions[13 + k] == VisitorItems[k]
  {
  }

  /** Where the contact group sits in the catalog. */
  lemma ContactPlace()
    ensures forall k :: 0 <= k < 8 ==> DefaultSuggestions[16 + k] == ContactItems[k]
  {
  }

  /**
   * What a group of function entries promises: the group's category, a
   * documentation link, and a value made of the next known function name and
   * a space.
   */
  ghost predicate FunctionGroupFacts(group: seq<Item>, firstName: nat, category: string)
  {
    && (forall k :: 0 <= k < |group| ==>
      group[k].category == category && IsFunction(group[k]) && group[k].docs.Some?)
    && FunctionGroupNames(group, firstName)
  }

  ghost predicate FunctionGroupNames(group: seq<Item>, firstName: nat)
  {
    forall k :: 0 <= k < |group| ==>
      firstName + k < |FunctionNames| && StartsWith(group[k].value, FunctionNames[firstName + k] + " ")
  }

  /** What a group of variable entries promises: the group's category, no documentation link and `prefix`. */
  ghost predicate VariableGroupFacts(group: seq<Item>, category: string, prefix: string)
  {
    forall k :: 0 <= k < |group| ==>
      && group[k].category == category && IsVariable(group[k]) && group[k].docs.None?
      && StartsWith(group[k].value, prefix)
  }

  lemma EqualityNames()
    ensures FunctionGroupNames(EqualityItems, 0)
  {
  }

  lemma EqualityEntries()
    ensures FunctionGroupFacts(EqualityItems, 0, "Equality and Comparison")
  {
    EqualityNames();
  }

  lemma LogicalNames()
    ensures FunctionGroupNames(LogicalItems, 3)
  {
  }

  lemma LogicalEntries()
    ensures FunctionGroupFacts(LogicalItems, 3, "Logical Operations")
  {
    LogicalNames();
  }

  lemma StringNames()
    ensures FunctionGroupNames(StringItems, 6)
  {
  }

  lemma StringEntries()
    ensures FunctionGroupFacts(StringItems, 6, "String Manipulation")
  {
    StringNames();
  }

  /** The known function names fall into the groups in catalog order. */
  lemma NameGroups()
    ensures forall k :: 0 <= k < 3 ==> FunctionGroup(FunctionNames[k]) == Some("Equality and Comparison")
    ensures forall k :: 3 <= k < 6 ==> FunctionGroup(FunctionNames[k]) == Some("Logical Operations")
    ensures forall k :: 6 <= k < 9 ==> FunctionGroup(FunctionNames[k]) == Some("String Manipulation")
  {
  }

  lemma FlowEntries()
    ensures forall k :: 0 <= k < 3 ==>
      FlowItems[k].category == "Flow" && IsVariable(FlowItems[k]) && FlowItems[k].docs.None?
      && StartsWithIgnoringCase(FlowItems[k].value, "Flow.")
  {
  }

  lemma SessionEntries()
    ensures VariableGroupFacts(SessionItems, "Session", "SESSION.")
  {
  }

  lemma {:induction false} SessionPrefixed()
    ensures forall k :: 0 <= k < 1 ==> StartsWithIgnoringCase(SessionItems[k].value, "Session.")
  {
    SessionEntries();
    forall k | 0 <= k < 1 ensures StartsWithIgnoringCase(SessionItems[k].value, "Session.") {
      PrefixIgnoringCase(SessionItems[k].value, "SESSION.", "Session.");
    }
  }

  lemma VisitorEntries()
    ensures VariableGroupFacts(VisitorItems, "Visitor", "VISITOR.")
  {
  }

  lemma {:induction false} VisitorPrefixed()
    ensures forall k :: 0 <= k < 3 ==> StartsWithIgnoringCase(VisitorItems[k].value, "Visitor.")
  {
    VisitorEntries();
    forall k | 0 <= k < 3 ensures StartsWithIgnoringCase(VisitorItems[k].value, "Visitor.") {
      PrefixIgnoringCase(VisitorItems[k].value, "VISITOR.", "Visitor.");
    }
  }

  lemma ContactEntries()
    ensures VariableGroupFacts(ContactItems, "Contact", "CONTACT.")
  {
  }

  lemma {:induction false} ContactPrefixed()
    ensures forall k :: 0 <= k < 8 ==> StartsWithIgnoringCase(ContactItems[k].value, "Contact.")
  {
    ContactEntries();
    forall k | 0 <= k < 8 ensures StartsWithIgnoringCase(ContactItems[k].value, "Contact.") {
      PrefixIgnoringCase(ContactItems[k].value, "CONTACT.", "Contact.");
    }
  }

  lemma EqualityValuesBraceFree()
    ensures BraceFree(EqValue) && BraceFree(GtValue) && BraceFree(LtValue)
  {
  }

  lemma EqualityBraceFree()
    ensures forall k :: 0 <= k < 3 ==> BraceFree(EqualityItems[k].value)
  {
    EqualityValuesBraceFree();
  }

  lemma LogicalValuesBraceFree()
    ensures BraceFree(AndValue) && BraceFree(OrValue) && BraceFree(NotValue)
  {
  }

  lemma LogicalBraceFree()
    ensures forall k :: 0 <= k < 3 ==> BraceFree(LogicalItems[k].value)
  {
    LogicalValuesBraceFree();
  }

  lemma StringValuesBraceFree()
    ensures BraceFree(UppercaseValue) && BraceFree(LowercaseValue) && BraceFree(TrimValue)
  {
  }

  lemma StringBraceFree()
    ensures forall k :: 0 <= k < 3 ==> BraceFree(StringItems[k].value)
  {
    StringValuesBraceFree();
  }

  lemma FlowValuesBraces()
    ensures BraceFree(FlowLastResponse) && BraceFree(FlowLastUtterance)
    ensures !BraceFree(FlowCustomVariable)
  {
    assert FlowCustomVariable[5] == '{';
  }

  lemma FlowBraces()
    ensures BraceFree(FlowItems[0].value) && BraceFree(FlowItems[1].value)
    ensures !BraceFree(FlowItems[2].value) && FlowItems[2].value == "FLOW.{variable_of_your_choice}"
  {
    FlowValuesBraces();
  }

  lemma SessionAndVisitorValuesBraceFree()
    ensures BraceFree(SessionStatus) && BraceFree(VisitorName) && BraceFree(VisitorRegion) && BraceFree(VisitorLanguage)
  {
  }

  lemma SessionBraceFree()
    ensures BraceFree(SessionItems[0].value)
  {
    SessionAndVisitorValuesBraceFree();
  }

  lemma VisitorBraceFree()
    ensures forall k :: 0 <= k < 3 ==> BraceFree(VisitorItems[k].value)
  {
    SessionAndVisitorValuesBraceFree();
  }

  lemma ContactValuesBraceFreeLow()
    ensures BraceFree(ContactName) && BraceFree(ContactEmail) && BraceFree(ContactPhone) && BraceFree(ContactCompany)
  {
  }

  lemma ContactValuesBraceFreeHigh()
    ensures BraceFree(ContactCountry) && BraceFree(ContactCity) && BraceFree(ContactRegion) && BraceFree(ContactTags)
  {
  }

  lemma ContactBraceFree()
    ensures forall k :: 0 <= k < 8 ==> BraceFree(ContactItems[k].value)
  {
    ContactValuesBraceFreeLow();
    ContactValuesBraceFreeHigh();
  }

  /** A case-insensitive prefix of a prefix is a case-insensitive prefix. */
  lemma {:induction false} PrefixIgnoringCase(s: string, p: string, q: string)
    requires StartsWith(s, p) && StartsWithIgnoringCase(p, q)
    ensures StartsWithIgnoringCase(s, q)
  {
    forall i | 0 <= i < |q| ensures LowerChar(s[i]) == LowerChar(q[i]) {
      assert s[i] == s[..|p|][i] == p[i];
    }
  }

  // ----- Invariants of the built-in catalog -----

  /** Every entry's label is its value, and every entry is a function or a variable. */
  lemma LabelsAreValues()
    ensures forall i :: 0 <= i < |DefaultSuggestions| ==>
      DefaultSuggestions[i].itemLabel == DefaultSuggestions[i].value
      && (IsFunction(DefaultSuggestions[i]) || IsVariable(DefaultSuggestions[i]))
  {
  }

  /** The entries' values, in catalog order. */
  const CatalogValues: seq<string> := [
    EqValue, GtValue, LtValue, AndValue, OrValue, NotValue, UppercaseValue, LowercaseValue, TrimValue,
    FlowLastResponse, FlowLastUtterance, FlowCustomVariable, SessionStatus,
    VisitorName, VisitorRegion, VisitorLanguage,
    ContactName, ContactEmail, ContactPhone, ContactCompany, ContactCountry, ContactCity, ContactRegion, ContactTags]

  lemma CatalogValuesDistinct()
    ensures forall i, j :: 0 <= i < j < |CatalogValues| ==> CatalogValues[i] != CatalogValues[j]
  {
  }

  lemma ValuesListedLow()
    ensures |DefaultSuggestions| == |CatalogValues|
    ensures forall i :: 0 <= i < 12 ==> DefaultSuggestions[i].value == CatalogValues[i]
  {
  }

  lemma ValuesListedHigh()
    ensures |DefaultSuggestions| == |CatalogValues|
    ensures forall i :: 12 <= i < 24 ==> DefaultSuggestions[i].value == CatalogValues[i]
  {
  }

  /** No two entries share a value. */
  lemma ValuesDistinct()
    ensures forall i, j :: 0 <= i < j < |DefaultSuggestions| ==> DefaultSuggestions[i].value != DefaultSuggestions[j].value
  {
    CatalogValuesDistinct();
    ValuesListedLow();
    ValuesListedHigh();
  }

  /** Functions carry the documentation link and variables carry none. */
  lemma DocsExactlyOnFunctions()
    ensures forall i :: 0 <= i < |DefaultSuggestions| ==>
      (DefaultSuggestions[i].docs.Some? <==> IsFunction(DefaultSuggestions[i]))
      && (DefaultSuggestions[i].docs.Some? ==> DefaultSuggestions[i].docs.value == DocsLink)
  {
  }

  /**
   * A function entry's value is one of the known function names followed by a
   * space (so that name is its first word), and the entry sits in that name's group.
   */
  lemma {:induction false} FunctionsNamedByGroup()
    ensures forall i :: 0 <= i < |DefaultSuggestions| && IsFunction(DefaultSuggestions[i]) ==>
      i < |FunctionNames| && StartsWith(DefaultSuggestions[i].value, FunctionNames[i] + " ")
      && FunctionGroup(FunctionNames[i]) == Some(DefaultSuggestions[i].category)
  {
    CatalogSize();
    forall i | 0 <= i < |DefaultSuggestions| && IsFunction(DefaultSuggestions[i])
      ensures i < |FunctionNames| && StartsWith(DefaultSuggestions[i].value, FunctionNames[i] + " ")
      && FunctionGroup(FunctionNames[i]) == Some(DefaultSuggestions[i].category)
    {
      if i < 3 {
        EqualityEntries();
        NameGroups();
        EqualityPlace();
        assert DefaultSuggestions[i] == EqualityItems[i];
      } else if i < 6 {
        LogicalEntries();
        NameGroups();
        LogicalPlace();
        assert DefaultSuggestions[i] == LogicalItems[i - 3];
      } else if i < 9 {
        StringEntries();
        NameGroups();
        StringPlace();
        assert DefaultSuggestions[i] == StringItems[i - 6];
      } else if i < 12 {
        FlowPlace();
        FlowEntries();
        assert false;
      } else if i < 13 {
        SessionPlace();
        SessionEntries();
        assert false;
      } else if i < 16 {
        VisitorPlace();
        VisitorEntries();
        assert false;
      } else {
        ContactPlace();
        ContactEntries();
        assert false;
      }
    }
  }

  /** A variable entry's value starts, ignoring case, with its category and a dot. */
  lemma {:induction false} VariablesPrefixedByCategory()
    ensures forall i :: 0 <= i < |DefaultSuggestions| && IsVariable(DefaultSuggestions[i]) ==>
      StartsWithIgnoringCase(DefaultSuggestions[i].value, DefaultSuggestions[i].category + ".")
  {
    CatalogSize();
    forall i | 0 <= i < |DefaultSuggestions| && IsVariable(DefaultSuggestions[i])
      ensures StartsWithIgnoringCase(DefaultSuggestions[i].value, DefaultSuggestions[i].category + ".")
    {
      if i < 3 {
        EqualityPlace();
        EqualityEntries();
        assert false;
      } else if i < 6 {
        LogicalPlace();
        LogicalEntries();
        assert false;
      } else if i < 9 {
        StringPlace();
        StringEntries();
        assert false;
      } else if i < 12 {
        FlowEntries();
        FlowPlace();
        assert DefaultSuggestions[i] == FlowItems[i - 9];
      } else if i < 13 {
        SessionEntries();
        SessionPrefixed();
        SessionPlace();
        assert DefaultSuggestions[i] == SessionItems[i - 12];
      } else if i < 16 {
        VisitorEntries();
        VisitorPrefixed();
        VisitorPlace();
        assert DefaultSuggestions[i] == VisitorItems[i - 13];
      } else {
        ContactEntries();
        ContactPrefixed();
        ContactPlace();
        assert DefaultSuggestions[i] == ContactItems[i - 16];
      }
    }
  }

  /** Exactly one entry, `FLOW.{variable_of_your_choice}`, has a brace in its value. */
  lemma {:induction false} OneValueWithBraces()
    ensures forall i :: 0 <= i < |DefaultSuggestions| ==> (BraceFree(DefaultSuggestions[i].value) <==> i != 11)
    ensures DefaultSuggestions[11].value == "FLOW.{variable_of_your_choice}"
  {
    CatalogSize();
    FlowPlace();
    FlowBraces();
    forall i | 0 <= i < |DefaultSuggestions|
      ensures BraceFree(DefaultSuggestions[i].value) <==> i != 11
    {
      if i < 3 {
        EqualityBraceFree();
        EqualityPlace();
        assert DefaultSuggestions[i] == EqualityItems[i];
      } else if i < 6 {
        LogicalBraceFree();
        LogicalPlace();
        assert DefaultSuggestions[i] == LogicalItems[i - 3];
      } else if i < 9 {
        StringBraceFree();
        StringPlace();
        assert DefaultSuggestions[i] == StringItems[i - 6];
      } else if i < 12 {
        FlowPlace();
        assert DefaultSuggestions[i] == FlowItems[i - 9];
      } else if i < 13 {
        SessionBraceFree();
        SessionPlace();
        assert DefaultSuggestions[i] == SessionItems[i - 12];
      } else if i < 16 {
        VisitorBraceFree();
        VisitorPlace();
        assert DefaultSuggestions[i] == VisitorItems[i - 13];
      } else {
        ContactBraceFree();
        ContactPlace();
        assert DefaultSuggestions[i] == ContactItems[i - 16];
      }
    }
  }

  /** The category of entry `i`, read off the catalog's groups. */
  function GroupCategory(i: nat): string
  {
    if i < 3 then "Equality and Comparison"
    else if i < 6 then "Logical Operations"
    else if i < 9 then "String Manipulation"
    else if i < 12 then "Flow"
    else if i < 13 then "Session"
    else if i < 16 then "Visitor"
    else "Contact"
  }

  lemma {:induction false} CategoriesByGroup()
    ensures forall i :: 0 <= i < |DefaultSuggestions| ==> DefaultSuggestions[i].category == GroupCategory(i)
  {
    CatalogSize();
    forall i | 0 <= i < |DefaultSuggestions|
      ensures DefaultSuggestions[i].category == GroupCategory(i)
    {
      if i < 3 {
        EqualityEntries();
        EqualityPlace();
        assert DefaultSuggestions[i] == EqualityItems[i];
      } else if i < 6 {
        LogicalEntries();
        LogicalPlace();
        assert DefaultSuggestions[i] == LogicalItems[i - 3];
      } else if i < 9 {
        StringEntries();
        StringPlace();
        assert DefaultSuggestions[i] == StringItems[i - 6];
      } else if i < 12 {
        FlowEntries();
        FlowPlace();
        assert DefaultSuggestions[i] == FlowItems[i - 9];
      } else if i < 13 {
        SessionEntries();
        SessionPlace();
        assert DefaultSuggestions[i] == SessionItems[i - 12];
      } else if i < 16 {
        VisitorEntries();
        VisitorPlace();
        assert DefaultSuggestions[i] == VisitorItems[i - 13];
      } else {
        ContactEntries();
        ContactPlace();
        assert DefaultSuggestions[i] == ContactItems[i - 16];
      }
    }
  }

  /** Entries of one category form a single contiguous block. */
  lemma {:induction false} CategoriesContiguous()
    ensures forall i, j, k ::
      0 <= i < j < k < |DefaultSuggestions| && DefaultSuggestions[i].category == DefaultSuggestions[k].category
      ==> DefaultSuggestions[j].category == DefaultSuggestions[i].category
  {
    CategoriesByGroup();
  }
}

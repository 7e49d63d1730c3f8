/**
 * The suggestion entry record of the editors (`BaseEditorItem`), the
 * substring filter that the CodeMirror and Draft.js front ends apply to a
 * list of entries, and the function names the syntax highlighter knows.
 */
module Suggestion {
  import opened Wrappers
  import opened Text

  /**
   * One suggestible entry. `itemLabel` is `label`; `itemType` is the optional `type` ("variable" or
   * "function"); `docs` is the optional documentation link that catalog
   * entries carry beside the declared fields.
   */
  datatype Item = Item(
    value: string,
    itemLabel: string,
    category: string,
    description: string,
    itemType: Option<string>,
    docs: Option<string>)

  predicate IsFunction(item: Item)
  {
    item.itemType == Some("function")
  }

  predicate IsVariable(item: Item)
  {
    item.itemType == Some("variable")
  }

  // ----- The substring filter -----

  /** The test both front ends filter with: the lower-cased value includes the query. */
  predicate Keeps(item: Item, query: string)
  {
    Contains(Lower(item.value), query)
  }

  /** `items.filter(item => item.value.toLowerCase().includes(query))`. */
  function Filter(items: seq<Item>, query: string): (r: seq<Item>)
    ensures |r| <= |items|
  {
    if items == [] then []
    else (if Keeps(items[0], query) then [items[0]] else []) + Filter(items[1..], query)
  }

  /** The positions in `items[from..]` whose entries the filter keeps, in increasing order. */
  function KeptIndices(items: seq<Item>, query: string, from: nat): (idx: seq<nat>)
    requires from <= |items|
    ensures forall k :: 0 <= k < |idx| ==> from <= idx[k] < |items|
    decreases |items| - from
  {
    if from == |items| then []
    else (if Keeps(items[from], query) then [from] else []) + KeptIndices(items, query, from + 1)
  }

  /** `KeptIndices` lists, in increasing order, exactly the positions whose entry passes the test. */
  lemma {:induction false} KeptIndicesSpec(items: seq<Item>, query: string, from: nat)
    requires from <= |items|
    ensures forall k :: 0 <= k < |KeptIndices(items, query, from)| ==> Keeps(items[KeptIndices(items, query, from)[k]], query)
    ensures forall k, l :: 0 <= k < l < |KeptIndices(items, query, from)| ==>
      KeptIndices(items, query, from)[k] < KeptIndices(items, query, from)[l]
    ensures forall i :: from <= i < |items| && Keeps(items[i], query) ==> i in KeptIndices(items, query, from)
    decreases |items| - from
  {
    if from < |items| {
      KeptIndicesSpec(items, query, from + 1);
    }
  }

  lemma {:induction false} FilterFrom(items: seq<Item>, query: string, from: nat)
    requires from <= |items|
    ensures |Filter(items[from..], query)| == |KeptIndices(items, query, from)|
    ensures forall k :: 0 <= k < |KeptIndices(items, query, from)| ==>
      Filter(items[from..], query)[k] == items[KeptIndices(items, query, from)[k]]
    decreases |items| - from
  {
    if from < |items| {
      FilterFrom(items, query, from + 1);
      var rest := Filter(items[from + 1..], query);
      var restIdx := KeptIndices(items, query, from + 1);
      assert items[from..][1..] == items[from + 1..];
      assert items[from..][0] == items[from];
      if Keeps(items[from], query) {
        assert Filter(items[from..], query) == [items[from]] + rest;
        assert KeptIndices(items, query, from) == [from] + restIdx;
      } else {
        assert Filter(items[from..], query) == rest;
        assert KeptIndices(items, query, from) == restIdx;
      }
    }
  }

  /**
   * The filter keeps exactly the entries that pass the test, in their order:
   * its result is `items` read at the increasing positions `KeptIndices`,
   * which are all the positions whose entry passes.
   */
  lemma FilterSelects(items: seq<Item>, query: string)
    ensures |Filter(items, query)| == |KeptIndices(items, query, 0)|
    ensures forall k :: 0 <= k < |Filter(items, query)| ==>
      Filter(items, query)[k] == items[KeptIndices(items, query, 0)[k]]
    ensures forall k :: 0 <= k < |Filter(items, query)| ==> Keeps(Filter(items, query)[k], query)
    ensures forall i :: 0 <= i < |items| && Keeps(items[i], query) ==> i in KeptIndices(items, query, 0)
  {
    FilterFrom(items, query, 0);
    KeptIndicesSpec(items, query, 0);
    assert items[0..] == items;
  }

  /** An empty query keeps every entry. */
  lemma {:induction false} EmptyQueryKeepsAll(items: seq<Item>)
    ensures Filter(items, "") == items
  {
    if items != [] {
      assert OccursAt(Lower(items[0].value), "", 0);
      EmptyQueryKeepsAll(items[1..]);
    }
  }

  /** The function names the syntax highlighter recognises, in the order of the catalog's function entries. */
  const FunctionNames: seq<string> := ["eq", "gt", "lt", "and", "or", "not", "uppercase", "lowercase", "trim"]

  /** The catalog category of each function name. */
  function FunctionGroup(name: string): Option<string>
  {
    if name == "eq" || name == "gt" || name == "lt" then Some("Equality and Comparison")
    else if name == "and" || name == "or" || name == "not" then Some("Logical Operations")
    else if name == "uppercase" || name == "lowercase" || name == "trim" then Some("String Manipulation")
    else None
  }

}

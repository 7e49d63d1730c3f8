/**
 * The CodeMirror view plugin of the prompt language: `getDecorations` marks
 * every `{{...}}` span inside the visible ranges of the document, and the
 * plugin rebuilds its marks when the document or the viewport changes.
 */
module Plugin {
  import opened Wrappers
  import opened Text
  import opened Spans

  /** A visible range `[from, to)` of the document. */
  datatype Range = Range(from: nat, to: nat)

  /** Every range lies inside the document. */
  predicate RangesWithin(doc: string, ranges: seq<Range>)
  {
    forall i :: 0 <= i < |ranges| ==> ranges[i].from <= ranges[i].to <= |doc|
  }

  /** Ranges come left to right and do not overlap, as `visibleRanges` promises. */
  predicate RangesSorted(ranges: seq<Range>)
  {
    forall i, j :: 0 <= i < j < |ranges| ==> ranges[i].to <= ranges[j].from
  }

  /** Moves every span right by `d`, the offset of a range's text in the document. */
  function Shift(spans: seq<Span>, d: nat): seq<Span>
  {
    seq(|spans|, i requires 0 <= i < |spans| => Span(spans[i].start + d, spans[i].end + d))
  }

  /** The marks for one range: the matches in its text, moved to document positions. */
  function RangeDecorations(doc: string, r: Range): seq<Span>
    requires r.from <= r.to <= |doc|
  {
    Shift(Matches(doc[r.from..r.to], 0), r.from)
  }

  /** The marks `getDecorations` adds, range after range, in the order it adds them. */
  function Decorations(doc: string, ranges: seq<Range>): seq<Span>
    requires RangesWithin(doc, ranges)
  {
    if ranges == [] then []
    else Decorations(doc, ranges[..|ranges| - 1]) + RangeDecorations(doc, ranges[|ranges| - 1])
  }

  /** The view plugin: its decoration set, rebuilt from the visible ranges. */
  class VariablePlugin {
    var decorations: seq<Span>

    /** `constructor(view)`: build the decorations for the current view. */
    constructor(doc: string, ranges: seq<Range>)
      requires RangesWithin(doc, ranges)
      ensures decorations == Decorations(doc, ranges)
    {
      decorations := [];
      new;
      decorations := GetDecorations(doc, ranges);
    }

    /** `update(update)`: rebuild when the document or the viewport changed, keep the old set otherwise. */
    method Update(docChanged: bool, viewportChanged: bool, doc: string, ranges: seq<Range>)
      requires RangesWithin(doc, ranges)
      modifies this
      ensures decorations == if docChanged || viewportChanged then Decorations(doc, ranges) else old(decorations)
    {
      if docChanged || viewportChanged {
        decorations := GetDecorations(doc, ranges);
      }
    }

    /**
     * `getDecorations(view)`: for each visible range, run the global
     * placeholder pattern over the range's text and add a mark for every
     * match, moved by the range's start.
     */
    method GetDecorations(doc: string, ranges: seq<Range>) returns (ds: seq<Span>)
      requires RangesWithin(doc, ranges)
      ensures ds == Decorations(doc, ranges)
    {
      ds := [];
      var i := 0;
      while i < |ranges|
        invariant 0 <= i <= |ranges|
        invariant ds == Decorations(doc, ranges[..i])
      {
        assert ranges[..i + 1][..i] == ranges[..i];
        ds := AddMatches(ds, doc[ranges[i].from..ranges[i].to], ranges[i].from);
        i := i + 1;
      }
      assert ranges[..i] == ranges;
    }
  }

  /**
   * The inner loop of `getDecorations`: `exec` from `lastIndex` 0 until it
   * fails, adding each match moved by `offset` after the marks in `ds`.
   */
  method AddMatches(ds: seq<Span>, text: string, offset: nat) returns (ds': seq<Span>)
    ensures ds' == ds + Shift(Matches(text, 0), offset)
  {
    ds' := ds;
    var lastIndex := 0;
    var m := Exec(text, lastIndex);
    while m.Some?
      invariant lastIndex <= |text| && m == Exec(text, lastIndex)
      invariant ds' + Shift(Matches(text, lastIndex), offset) == ds + Shift(Matches(text, 0), offset)
      decreases |text| - lastIndex
    {
      var mark := Span(m.value.start + offset, m.value.end + offset);
      MatchesFirst(text, lastIndex);
      ShiftCons(ds', m.value, Matches(text, m.value.end), offset);
      ds' := ds' + [mark];
      lastIndex := m.value.end;
      m := Exec(text, lastIndex);
    }
    NoMoreMatches(text, lastIndex, offset);
  }

  /** Adding one moved span, then the moved rest, is moving the whole list at once. */
  lemma ShiftCons(ds: seq<Span>, sp: Span, rest: seq<Span>, d: nat)
    ensures (ds + [Span(sp.start + d, sp.end + d)]) + Shift(rest, d) == ds + Shift([sp] + rest, d)
  {
    assert Shift([sp] + rest, d) == [Span(sp.start + d, sp.end + d)] + Shift(rest, d);
  }

  /** Once `exec` fails, nothing is left to add. */
  lemma NoMoreMatches(text: string, from: nat, offset: nat)
    requires from <= |text| && Exec(text, from).None?
    ensures Shift(Matches(text, from), offset) == []
  {
  }

  /** `sp` covers a whole `{{...}}` placeholder of the document. */
  ghost predicate MarksPlaceholder(doc: string, sp: Span)
  {
    sp.start + 5 <= sp.end <= |doc| && IsPlaceholder(doc[sp.start..sp.end])
  }

  /** `sp` lies inside one of the ranges. */
  ghost predicate InSomeRange(ranges: seq<Range>, sp: Span)
  {
    exists i :: 0 <= i < |ranges| && ranges[i].from <= sp.start && sp.end <= ranges[i].to
  }

  /** A mark of one range lies inside that range and covers a whole placeholder of the document. */
  lemma RangeDecorationsWithin(doc: string, r: Range)
    requires r.from <= r.to <= |doc|
    ensures forall sp :: sp in RangeDecorations(doc, r) ==> r.from <= sp.start && sp.end <= r.to && MarksPlaceholder(doc, sp)
  {
    var text := doc[r.from..r.to];
    MatchesWellFormed(text, 0);
    var ms := Matches(text, 0);
    var ds := RangeDecorations(doc, r);
    forall k | 0 <= k < |ds|
      ensures r.from <= ds[k].start && ds[k].end <= r.to && MarksPlaceholder(doc, ds[k])
    {
      SliceOfSlice(doc, r.from, r.to, ms[k].start, ms[k].end);
    }
  }

  /**
   * Every mark lies inside one visible range and covers a whole `{{...}}`
   * placeholder of the document; a placeholder that straddles two ranges is
   * never marked.
   */
  lemma {:induction false} DecorationsWithinRanges(doc: string, ranges: seq<Range>)
    requires RangesWithin(doc, ranges)
    ensures forall sp :: sp in Decorations(doc, ranges) ==> MarksPlaceholder(doc, sp) && InSomeRange(ranges, sp)
  {
    if ranges != [] {
      var n := |ranges| - 1;
      var front := ranges[..n];
      DecorationsWithinRanges(doc, front);
      RangeDecorationsWithin(doc, ranges[n]);
      forall sp | sp in Decorations(doc, ranges)
        ensures MarksPlaceholder(doc, sp) && InSomeRange(ranges, sp)
      {
        if sp in Decorations(doc, front) {
          var i :| 0 <= i < |front| && front[i].from <= sp.start && sp.end <= front[i].to;
          assert ranges[i] == front[i];
        } else {
          assert sp in RangeDecorations(doc, ranges[n]);
        }
      }
    }
  }

  /** Two ordered lists, the first ending where the second may begin, join into an ordered list. */
  lemma OrderedJoin(a: seq<Span>, b: seq<Span>, bound: nat)
    requires Ordered(a) && Ordered(b)
    requires forall sp :: sp in a ==> sp.end <= bound
    requires forall sp :: sp in b ==> bound <= sp.start
    ensures Ordered(a + b)
  {
    var ds := a + b;
    forall i, j | 0 <= i < j < |ds|
      ensures ds[i].end <= ds[j].start
    {
      if j < |a| {
        assert ds[i] == a[i] && ds[j] == a[j];
      } else if i >= |a| {
        assert ds[i] == b[i - |a|] && ds[j] == b[j - |a|];
      } else {
        assert ds[i] == a[i] && a[i] in a;
        assert ds[j] == b[j - |a|] && b[j - |a|] in b;
      }
    }
  }

  /** With sorted ranges, the marks of the earlier ranges end before the last range begins. */
  lemma FrontEndsBeforeLast(doc: string, ranges: seq<Range>)
    requires RangesWithin(doc, ranges) && RangesSorted(ranges) && ranges != []
    ensures forall sp :: sp in Decorations(doc, ranges[..|ranges| - 1]) ==> sp.end <= ranges[|ranges| - 1].from
  {
    var n := |ranges| - 1;
    var front := ranges[..n];
    DecorationsWithinRanges(doc, front);
    forall sp | sp in Decorations(doc, front)
      ensures sp.end <= ranges[n].from
    {
      var h :| 0 <= h < |front| && front[h].from <= sp.start && sp.end <= front[h].to;
      assert front[h] == ranges[h];
    }
  }

  /**
   * With the visible ranges sorted and disjoint, the marks come left to right
   * without overlap, which is the order `RangeSetBuilder.add` demands.
   */
  lemma {:induction false} DecorationsOrdered(doc: string, ranges: seq<Range>)
    requires RangesWithin(doc, ranges) && RangesSorted(ranges)
    ensures Ordered(Decorations(doc, ranges))
  {
    if ranges != [] {
      var n := |ranges| - 1;
      var front := ranges[..n];
      DecorationsOrdered(doc, front);
      FrontEndsBeforeLast(doc, ranges);
      RangeDecorationsWithin(doc, ranges[n]);
      RangeDecorationsOrdered(doc, ranges[n]);
      OrderedJoin(Decorations(doc, front), RangeDecorations(doc, ranges[n]), ranges[n].from);
    }
  }

  /** The marks of one range come left to right. */
  lemma RangeDecorationsOrdered(doc: string, r: Range)
    requires r.from <= r.to <= |doc|
    ensures Ordered(RangeDecorations(doc, r))
  {
    MatchesOrdered(doc[r.from..r.to], 0);
  }

  /** Every mark of every range is in the decoration set. */
  lemma {:induction false} DecorationsContainRange(doc: string, ranges: seq<Range>, i: nat)
    requires RangesWithin(doc, ranges) && i < |ranges|
    ensures forall sp :: sp in RangeDecorations(doc, ranges[i]) ==> sp in Decorations(doc, ranges)
  {
    var n := |ranges| - 1;
    if i < n {
      DecorationsContainRange(doc, ranges[..n], i);
      assert ranges[..n][i] == ranges[i];
    }
  }

  /**
   * A placeholder inside a visible range is marked once the scan of that
   * range reaches it: no earlier match in the range runs past its start.
   */
  lemma DecoratedWhenReached(doc: string, ranges: seq<Range>, i: nat, start: nat, end: nat)
    requires RangesWithin(doc, ranges) && i < |ranges|
    requires ranges[i].from <= start <= end <= ranges[i].to
    requires var text := doc[ranges[i].from..ranges[i].to];
      MatchAt(text, start - ranges[i].from) == Some(end - ranges[i].from)
      && forall p :: 0 <= p < start - ranges[i].from && MatchAt(text, p).Some? ==> MatchAt(text, p).value <= start - ranges[i].from
    ensures Span(start, end) in Decorations(doc, ranges)
  {
    var r := ranges[i];
    var text := doc[r.from..r.to];
    MatchReported(text, start - r.from, end - r.from, 0);
    var ms := Matches(text, 0);
    var k :| 0 <= k < |ms| && ms[k] == Span(start - r.from, end - r.from);
    assert RangeDecorations(doc, r)[k] == Span(start, end);
    DecorationsContainRange(doc, ranges, i);
  }

  /** A placeholder split by a range boundary is not marked; inside one range it is. */
  lemma StraddlingNotDecorated()
    ensures Decorations("{{abc}}", [Range(0, 4), Range(4, 7)]) == []
    ensures Decorations("{{abc}}", [Range(0, 7)]) == [Span(0, 7)]
  {
    var doc := "{{abc}}";
    assert doc[0..4] == "{{ab";
    NoCloserNoSpans("{{ab");
    assert doc[4..7] == "c}}";
    assert Exec("c}}", 0) == None;
    assert doc[0..7] == doc;
    assert MatchAt(doc, 0) == Some(7);
    assert Exec(doc, 7) == None;
  }
}

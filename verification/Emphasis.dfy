/** Which characters of a row are emphasised: exactly those the word diff removed from or inserted into its own line. */
module Emphasis {
  import opened Sequences
  import opened ExpandedRanges
  import opened WordSpans
  import opened DiffModel
  import opened GapRows
  import opened HunkRows
  import opened HunkPairing
  import opened FileRows

  // ----- the characters of a line

  /** Character k of the old text lies in a piece the word diff removed. */
  ghost predicate RemovedAt(changes: seq<Change>, k: int)
  {
    exists i :: 0 <= i < |changes| && changes[i].Removed?
      && |OldText(changes[..i])| <= k < |OldText(changes[..i])| + |changes[i].value|
  }

  ghost predicate InsertedAt(changes: seq<Change>, k: int)
  {
    exists i :: 0 <= i < |changes| && changes[i].Inserted?
      && |NewText(changes[..i])| <= k < |NewText(changes[..i])| + |changes[i].value|
  }

  lemma RemovedAtEnd(changes: seq<Change>, k: int)
    requires changes != []
    ensures var n := |changes| - 1;
      RemovedAt(changes, k) <==>
        || RemovedAt(changes[..n], k)
        || (changes[n].Removed? && |OldText(changes[..n])| <= k < |OldText(changes[..n])| + |changes[n].value|)
  {
    var n := |changes| - 1;
    assert forall i :: 0 <= i <= n ==> changes[..n][..i] == changes[..i];
  }

  lemma InsertedAtEnd(changes: seq<Change>, k: int)
    requires changes != []
    ensures var n := |changes| - 1;
      InsertedAt(changes, k) <==>
        || InsertedAt(changes[..n], k)
        || (changes[n].Inserted? && |NewText(changes[..n])| <= k < |NewText(changes[..n])| + |changes[n].value|)
  {
    var n := |changes| - 1;
    assert forall i :: 0 <= i <= n ==> changes[..n][..i] == changes[..i];
  }

  lemma StepMarks(w: Walk, c: Change, k: int)
    requires WellSpaced(w.del, w.delPos) && WellSpaced(w.add, w.addPos)
    ensures Inside(w.Step(c).del, k) <==>
      || Inside(w.del, k)
      || (c.Removed? && w.delPos <= k < w.delPos + |c.value|)
    ensures Inside(w.Step(c).add, k) <==>
      || Inside(w.add, k)
      || (c.Inserted? && w.addPos <= k < w.addPos + |c.value|)
  {
    hide PushSpan, Inside, WellSpaced;
    if c.value != "" && c.Removed? {
      PushSpanMembership(w.del, w.delPos, w.delPos + |c.value|, k);
    } else if c.value != "" && c.Inserted? {
      PushSpanMembership(w.add, w.addPos, w.addPos + |c.value|, k);
    }
  }

  lemma RunStands(changes: seq<Change>)
    ensures var w := Run(changes);
      && w.delPos == |OldText(changes)| && WellSpaced(w.del, w.delPos)
      && w.addPos == |NewText(changes)| && WellSpaced(w.add, w.addPos)
  {
    hide WellSpaced, Total, Outside;
    RunMeaning(changes);
  }

  /** The walk marks a character exactly when its piece was removed, or inserted. */
  lemma {:induction false} RunMarks(changes: seq<Change>, k: int)
    ensures Inside(Run(changes).del, k) <==> RemovedAt(changes, k)
    ensures Inside(Run(changes).add, k) <==> InsertedAt(changes, k)
  {
    if changes != [] {
      var n := |changes| - 1;
      RunMarks(changes[..n], k);
      RemovedAtEnd(changes, k);
      InsertedAtEnd(changes, k);
      RunStands(changes[..n]);
      StepMarks(Run(changes[..n]), changes[n], k);
      hide Inside, RemovedAt, InsertedAt, WellSpaced, Walk.Step, OldText, NewText;
      assert Run(changes) == Run(changes[..n]).Step(changes[n]);
    }
  }

  // ----- one del beside one add

  /** The two lines read as a whole-line rewrite. */
  predicate Rewrite(diff: WordDiff, delText: string, addText: string)
  {
    && delText != addText
    && var kept := |KeptText(diff(delText, addText))|;
       || |delText| > MAX_LENGTH || |addText| > MAX_LENGTH
       || 10 * (|delText| - kept) > 7 * |delText|
       || 10 * (|addText| - kept) > 7 * |addText|
  }

  /**
   * The emphasis of a del and the add it is paired with. Separated spans are determined by the characters
   * they hold (SpansDetermined), so this leaves no choice.
   */
  ghost predicate Emphasised(diff: WordDiff, delText: string, addText: string, del: Spans, add: Spans)
  {
    if delText == addText then del == Some([]) && add == Some([])
    else if Rewrite(diff, delText, addText) then del == None && add == None
    else
      && del.Some? && add.Some?
      && WellSpaced(del.value, |delText|) && WellSpaced(add.value, |addText|)
      && (forall k :: Inside(del.value, k) <==> RemovedAt(diff(delText, addText), k))
      && (forall k :: Inside(add.value, k) <==> InsertedAt(diff(delText, addText), k))
      && Outside(delText, del.value) == Outside(addText, add.value)
  }

  function AsRanges(spans: seq<WordSpan>): seq<ExpandedRange>
  {
    seq(|spans|, i requires 0 <= i < |spans| => ExpandedRange(spans[i].start, spans[i].end - 1))
  }

  lemma RangesCover(spans: seq<WordSpan>, length: nat, k: int)
    requires WellSpaced(spans, length)
    ensures Normal(AsRanges(spans)) && (Covered(AsRanges(spans), k) <==> Inside(spans, k))
  {
    var ranges := AsRanges(spans);
    if Inside(spans, k) {
      var i :| 0 <= i < |spans| && spans[i].start <= k < spans[i].end;
      assert ranges[i] in ranges;
    }
  }

  /** Well-spaced spans that hold the same characters are the same spans. */
  lemma SpansDetermined(a: seq<WordSpan>, b: seq<WordSpan>, length: nat)
    requires WellSpaced(a, length) && WellSpaced(b, length)
    requires forall k :: Inside(a, k) <==> Inside(b, k)
    ensures a == b
  {
    forall k
      ensures Covered(AsRanges(a), k) <==> Covered(AsRanges(b), k)
    {
      RangesCover(a, length, k);
      RangesCover(b, length, k);
    }
    RangesCover(a, length, 0);
    RangesCover(b, length, 0);
    NormalUnique(AsRanges(a), AsRanges(b));
    forall i | 0 <= i < |a|
      ensures a[i] == b[i]
    {
      assert AsRanges(a)[i] == AsRanges(b)[i];
    }
  }

  lemma SidesEmphasise(diff: WordDiff, delText: string, addText: string)
    requires Sound(diff)
    ensures var r := Intraline(diff, delText, addText);
      Emphasised(diff, delText, addText, Side(r, true), Side(r, false))
  {
    RewriteCondition(diff, delText, addText);
    IntralineSpans(diff, delText, addText);
    hide WellSpaced, Outside, Inside, RemovedAt, InsertedAt, Run;
    forall k
      ensures Inside(Run(diff(delText, addText)).del, k) <==> RemovedAt(diff(delText, addText), k)
      ensures Inside(Run(diff(delText, addText)).add, k) <==> InsertedAt(diff(delText, addText), k)
    {
      RunMarks(diff(delText, addText), k);
    }
  }

  // ----- the split layout

  /** A row that shows a del beside an add carries the emphasis of those two texts; any other carries none. */
  ghost predicate RowEmphasised(diff: WordDiff, row: DiffRow)
    requires row.Pair?
  {
    if row.left.Some? && row.left.value.Del? && row.right.Some? && row.right.value.Add? then
      Emphasised(diff, row.left.value.text, row.right.value.text, row.wordSpansLeft, row.wordSpansRight)
    else
      row.wordSpansLeft == None && row.wordSpansRight == None
  }

  /** The row shows the k-th del of a maximal run of changed lines left of its k-th add, as far as there are any. */
  ghost predicate ShowsPair(lines: seq<DiffLine>, s: nat, e: nat, k: nat, row: DiffRow)
  {
    && row.Pair? && MaximalRun(lines, s, e)
    && var dels, adds := Positions(lines, s, e, true), Positions(lines, s, e, false);
    && (k < |dels| || k < |adds|)
    && row.left == (if k < |dels| then Some(lines[dels[k]]) else None)
    && row.right == (if k < |adds| then Some(lines[adds[k]]) else None)
    && row.id == if k < |adds| then R(lines[adds[k]].newLine) else O(lines[dels[k]].oldLine)
  }

  ghost predicate ShowsContext(lines: seq<DiffLine>, c: nat, row: DiffRow)
  {
    && c < |lines| && lines[c].Context?
    && row.Pair? && row.left == row.right == Some(lines[c]) && row.id == R(lines[c].newLine)
  }

  ghost predicate ShowsItsLines(lines: seq<DiffLine>, row: DiffRow)
  {
    || (exists c: nat :: ShowsContext(lines, c, row))
    || (exists s: nat, e: nat, k: nat :: ShowsPair(lines, s, e, k, row))
  }

  lemma ExplainedIsEmphasised(diff: WordDiff, lines: seq<DiffLine>, row: DiffRow)
    requires Sound(diff) && Explained(diff, lines, row)
    ensures ShowsItsLines(lines, row) && row.Pair? && RowEmphasised(diff, row)
  {
    hide Emphasised, Intraline;
    if s: nat, e: nat, k: nat :| IsPairedRow(diff, lines, s, e, k, row) {
      assert ShowsPair(lines, s, e, k, row);
      if row.left.Some? && row.right.Some? {
        SidesEmphasise(diff, row.left.value.text, row.right.value.text);
      }
    } else {
      var c: nat :| IsContextRow(lines, c, row);
      assert ShowsContext(lines, c, row);
    }
  }

  /** Every split row of a hunk shows its own lines and the emphasis of exactly those texts, each side its own. */
  lemma SplitEmphasis(diff: WordDiff, lines: seq<DiffLine>)
    requires Sound(diff)
    ensures forall row :: row in LineRows(diff, lines, true) ==>
      ShowsItsLines(lines, row) && row.Pair? && RowEmphasised(diff, row)
  {
    hide Explained, RowEmphasised, LineRows, ShowsItsLines;
    SplitPairing(diff, lines);
    forall row | row in LineRows(diff, lines, true)
      ensures ShowsItsLines(lines, row) && row.Pair? && RowEmphasised(diff, row)
    {
      ExplainedIsEmphasised(diff, lines, row);
    }
  }

  // ----- the unified layout

  /** What the emphasis map says of the k-th del and the k-th add of a run. */
  ghost predicate PairLooked(diff: WordDiff, lines: seq<DiffLine>, spans: SpanMap, dels: seq<nat>, adds: seq<nat>,
                             k: nat)
    requires RunOf(lines, |lines|, dels, adds)
  {
    && (k < |dels| && k < |adds| ==>
          var r := Intraline(diff, lines[dels[k]].text, lines[adds[k]].text);
          Lookup(spans, dels[k]) == Side(r, true) && Lookup(spans, adds[k]) == Side(r, false))
    && (k < |dels| && k >= |adds| ==> Lookup(spans, dels[k]) == None)
    && (k < |adds| && k >= |dels| ==> Lookup(spans, adds[k]) == None)
  }

  lemma LookedAtFlush(diff: WordDiff, lines: seq<DiffLine>, s: nat, e: nat, dels: seq<nat>, adds: seq<nat>, k: nat)
    requires BufferedRun(lines, s, e, dels, adds) && MaximalRun(lines, s, e)
    ensures RunOf(lines, e, dels, adds) && PairLooked(diff, lines, SpansFrom(diff, lines, e, dels, adds), dels, adds, k)
  {
    hide Intraline, Side, SpansFrom, PairSpansFrom, Lookup;
    PairSpansAt(diff, lines, dels, adds, 0, k);
    if k < |dels| {
      FlushLookup(diff, lines, e, dels, adds, dels[k]);
    }
    if k < |adds| {
      FlushLookup(diff, lines, e, dels, adds, adds[k]);
    }
  }

  lemma LookedPastFlush(diff: WordDiff, lines: seq<DiffLine>, i: nat, dels: seq<nat>, adds: seq<nat>,
                        later: seq<nat>, laterAdds: seq<nat>, k: nat)
    requires RunOf(lines, i, dels, adds) && i < |lines| && lines[i].Context?
    requires RunOf(lines, |lines|, later, laterAdds)
    requires (forall j :: 0 <= j < |later| ==> later[j] > i) && (forall j :: 0 <= j < |laterAdds| ==> laterAdds[j] > i)
    requires PairLooked(diff, lines, SpansFrom(diff, lines, i + 1, [], []), later, laterAdds, k)
    ensures PairLooked(diff, lines, SpansFrom(diff, lines, i, dels, adds), later, laterAdds, k)
  {
    hide Intraline, Side, SpansFrom, PairSpansFrom, Lookup;
    if k < |later| {
      FlushLookup(diff, lines, i, dels, adds, later[k]);
    }
    if k < |laterAdds| {
      FlushLookup(diff, lines, i, dels, adds, laterAdds[k]);
    }
  }

  lemma RunPositions(lines: seq<DiffLine>, s: nat, e: nat)
    requires s <= e <= |lines|
    ensures RunOf(lines, |lines|, Positions(lines, s, e, true), Positions(lines, s, e, false))
  {
  }

  lemma BufferGrows(lines: seq<DiffLine>, s: nat, i: nat, dels: seq<nat>, adds: seq<nat>)
    requires BufferedRun(lines, s, i, dels, adds) && i < |lines|
    ensures RunOf(lines, i, dels, adds)
    ensures match lines[i]
            case Context(_, _, _) => BufferedRun(lines, i + 1, i + 1, [], [])
            case Del(_, _) => BufferedRun(lines, s, i + 1, dels + [i], adds)
            case Add(_, _) => BufferedRun(lines, s, i + 1, dels, adds + [i])
  {
  }

  lemma RunOfBuffer(lines: seq<DiffLine>, s: nat, i: nat, dels: seq<nat>, adds: seq<nat>)
    requires BufferedRun(lines, s, i, dels, adds)
    ensures RunOf(lines, i, dels, adds) && dels == Positions(lines, s, i, true) && adds == Positions(lines, s, i, false)
  {
  }

  lemma {:induction false} RunLookup(diff: WordDiff, lines: seq<DiffLine>, s0: nat, i: nat, dels: seq<nat>,
                                     adds: seq<nat>, s: nat, e: nat, k: nat)
    requires BufferedRun(lines, s0, i, dels, adds) && MaximalRun(lines, s, e) && s0 <= s && i <= e
    requires s0 < s ==> i < s
    ensures RunOf(lines, i, dels, adds)
    ensures RunOf(lines, |lines|, Positions(lines, s, e, true), Positions(lines, s, e, false))
    ensures PairLooked(diff, lines, SpansFrom(diff, lines, i, dels, adds),
                       Positions(lines, s, e, true), Positions(lines, s, e, false), k)
    decreases |lines| - i
  {
    RunPositions(lines, s, e);
    RunOfBuffer(lines, s0, i, dels, adds);
    hide Intraline, Side, PairLooked, RunOf, PairSpansFrom;
    if s == s0 && i == e {
      LookedAtFlush(diff, lines, s, e, dels, adds, k);
    } else {
      BufferGrows(lines, s0, i, dels, adds);
      RunOfAll(lines, i, dels, adds);
      hide Positions, BufferedRun;
      match lines[i]
      case Context(_, _, _) =>
        RunLookup(diff, lines, i + 1, i + 1, [], [], s, e, k);
        LaterPositions(lines, s, e, i);
        LookedPastFlush(diff, lines, i, dels, adds, Positions(lines, s, e, true), Positions(lines, s, e, false), k);
      case Del(_, _) => RunLookup(diff, lines, s0, i + 1, dels + [i], adds, s, e, k);
      case Add(_, _) => RunLookup(diff, lines, s0, i + 1, dels, adds + [i], s, e, k);
    }
  }

  lemma RunOfAll(lines: seq<DiffLine>, i: nat, dels: seq<nat>, adds: seq<nat>)
    requires RunOf(lines, i, dels, adds)
    ensures forall j :: 0 <= j < |dels| ==> dels[j] < |lines|
    ensures forall j :: 0 <= j < |adds| ==> adds[j] < |lines|
  {
  }

  lemma LaterPositions(lines: seq<DiffLine>, s: nat, e: nat, i: nat)
    requires i < s <= e <= |lines|
    ensures forall j :: 0 <= j < |Positions(lines, s, e, true)| ==> Positions(lines, s, e, true)[j] > i
    ensures forall j :: 0 <= j < |Positions(lines, s, e, false)| ==> Positions(lines, s, e, false)[j] > i
  {
  }

  lemma {:induction false} UnifiedRowsAre(lines: seq<DiffLine>, spans: SpanMap, i: nat)
    requires i <= |lines|
    ensures |UnifiedFrom(lines, spans, i)| == |lines| - i
    ensures forall j :: 0 <= j < |lines| - i ==> UnifiedFrom(lines, spans, i)[j] == UnifiedRow(lines, spans, i + j)
    decreases |lines| - i
  {
    if i < |lines| {
      UnifiedRowsAre(lines, spans, i + 1);
    }
  }

  /**
   * Row i of the unified layout shows line i. In every maximal run of changed lines the rows of the k-th del
   * and the k-th add carry the emphasis of those two texts; a line without a partner, or of context, carries none.
   */
  lemma UnifiedEmphasis(diff: WordDiff, lines: seq<DiffLine>, s: nat, e: nat, k: nat)
    requires Sound(diff) && MaximalRun(lines, s, e)
    ensures var rows := LineRows(diff, lines, false);
      && |rows| == |lines|
      && (forall i :: 0 <= i < |lines| ==> rows[i].Line? && rows[i].line == lines[i])
      && (forall i :: 0 <= i < |lines| && lines[i].Context? ==> rows[i].wordSpans == None)
      && var dels, adds := Positions(lines, s, e, true), Positions(lines, s, e, false);
      && (k < |dels| && k < |adds| ==>
            Emphasised(diff, lines[dels[k]].text, lines[adds[k]].text,
                       rows[dels[k]].wordSpans, rows[adds[k]].wordSpans))
      && (k < |dels| && k >= |adds| ==> rows[dels[k]].wordSpans == None)
      && (k < |adds| && k >= |dels| ==> rows[adds[k]].wordSpans == None)
  {
    hide Intraline, Side, Emphasised, SpansFrom, UnifiedFrom, PairSpansFrom, Positions;
    var spans := HunkSpans(diff, lines);
    var dels, adds := Positions(lines, s, e, true), Positions(lines, s, e, false);
    UnifiedRowsAre(lines, spans, 0);
    ContextHasNoSpans(diff, lines);
    FirstRun(lines, s, e);
    RunLookup(diff, lines, 0, 0, [], [], s, e, k);
    if k < |dels| && k < |adds| {
      SidesEmphasise(diff, lines[dels[k]].text, lines[adds[k]].text);
    }
  }

  lemma FirstRun(lines: seq<DiffLine>, s: nat, e: nat)
    requires MaximalRun(lines, s, e)
    ensures BufferedRun(lines, 0, 0, [], [])
  {
  }

  // ----- whole files

  /** Every paired row of a file in the split layout, hunk lines and expanded context alike. */
  lemma {:induction false} FileEmphasisFrom(v: View, status: FileStatus, hunks: seq<DiffHunk>, k: nat, o: int, n: int)
    requires Sound(v.diff) && v.split
    ensures forall row :: row in RowsFromHunk(v, status, hunks, k, o, n) && row.Pair? ==> RowEmphasised(v.diff, row)
    decreases |hunks| - k
  {
    hide RegionRows, LineRows, RowEmphasised;
    if k >= |hunks| {
      if v.headLines.Some? {
        RegionEmphasis(v, GapRegion(n, |v.headLines.value|, o - n));
      }
    } else {
      var h := hunks[k];
      RegionEmphasis(v, GapRegion(n, h.NewFrom() - 1, o - n));
      SplitEmphasis(v.diff, h.lines);
      FileEmphasisFrom(v, status, hunks, k + 1, h.OldFrom() + h.oldLines, h.NewFrom() + h.newLines);
    }
  }

  lemma RegionEmphasis(v: View, region: GapRegion)
    ensures forall row :: row in RegionRows(region, v.expanded, v.headLines, v.split) && row.Pair? ==>
      RowEmphasised(v.diff, row)
  {
    if v.headLines.Some? && region.newStart <= region.newEnd {
      ContextRowsPlain(v.diff, region, region.newStart, v.expanded, v.headLines.value, v.split);
    }
  }

  lemma {:induction false} ContextRowsPlain(diff: WordDiff, region: GapRegion, cursor: int,
                                            expanded: seq<ExpandedRange>, headLines: seq<string>, split: bool)
    ensures forall row :: row in RowsFrom(region, cursor, expanded, headLines, split) && row.Pair? ==>
      RowEmphasised(diff, row)
    decreases |expanded|
  {
    hide Emphasised;
    if expanded != [] {
      ContextRowsPlain(diff, region, cursor, expanded[1..], headLines, split);
      ContextRowsPlain(diff, region, Min(expanded[0].toNew, region.newEnd) + 1, expanded[1..], headLines, split);
      var from, to := Max(expanded[0].fromNew, cursor), Min(expanded[0].toNew, region.newEnd);
      var shown := ContextRows(from, to + 1, region.delta, headLines, split);
      forall row | row in shown && row.Pair?
        ensures RowEmphasised(diff, row)
      {
        var i :| 0 <= i < |shown| && shown[i] == row;
        assert row == ContextRow(from + i, region.delta, headLines, split);
      }
    }
  }

  /** In the split layout of any file, each side of every row carries the emphasis of its own text. */
  lemma FileEmphasis(diff: WordDiff, model: FileDiffModel, expanded: seq<ExpandedRange>, headBlob: Option<string>)
    requires Sound(diff)
    ensures forall row :: row in Rows(diff, model, true, expanded, headBlob) && row.Pair? ==> RowEmphasised(diff, row)
  {
    hide RowEmphasised, RowsFromHunk;
    FileEmphasisFrom(View(diff, true, NormalForm(expanded), HeadLines(headBlob)), model.status, model.hunks, 0, 1, 1);
  }
}

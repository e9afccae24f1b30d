/** What the rows of a file account for: every line of both files, once, in order, with its own text. */
module Reconstruction {
  import opened Sequences
  import opened ExpandedRanges
  import opened WordSpans
  import opened DiffModel
  import opened GapRows
  import opened HunkRows
  import opened HunkPairing
  import opened FileRows

  // ----- well-formed hunks

  /** Lines i, i + 1, ... carry consecutive numbers from o and n, and stop at oEnd and nEnd. */
  predicate Numbered(lines: seq<DiffLine>, i: nat, o: int, n: int, oEnd: int, nEnd: int)
    decreases |lines| - i
  {
    if i >= |lines| then o == oEnd && n == nEnd
    else
      match lines[i]
      case Context(a, b, _) => a == o && b == n && Numbered(lines, i + 1, o + 1, n + 1, oEnd, nEnd)
      case Del(a, _) => a == o && Numbered(lines, i + 1, o + 1, n, oEnd, nEnd)
      case Add(b, _) => b == n && Numbered(lines, i + 1, o, n + 1, oEnd, nEnd)
  }

  predicate HunkNumbered(h: DiffHunk)
  {
    Numbered(h.lines, 0, h.OldFrom(), h.NewFrom(), h.OldFrom() + h.oldLines, h.NewFrom() + h.newLines)
  }

  /**
   * Hunks k, k + 1, ... are in order, number their lines as their headers say, and leave the same
   * number of untouched lines before them on both sides.
   */
  predicate Aligned(hunks: seq<DiffHunk>, k: nat, o: int, n: int)
    decreases |hunks| - k
  {
    k >= |hunks| ||
    var h := hunks[k];
    && h.OldFrom() - o == h.NewFrom() - n >= 0
    && HunkNumbered(h)
    && Aligned(hunks, k + 1, h.OldFrom() + h.oldLines, h.NewFrom() + h.newLines)
  }

  /** No untouched line before any hunk. */
  predicate Gapless(hunks: seq<DiffHunk>, k: nat, n: int)
    decreases |hunks| - k
  {
    k >= |hunks| || (hunks[k].NewFrom() == n && Gapless(hunks, k + 1, hunks[k].NewFrom() + hunks[k].newLines))
  }

  predicate WellFormed(model: FileDiffModel)
  {
    && !model.binary && !model.tooLarge
    && Aligned(model.hunks, 0, 1, 1)
    && (model.status.Added? ==> Gapless(model.hunks, 0, 1))
  }

  /** The first line after the last hunk, on each side. */
  function EndOld(hunks: seq<DiffHunk>, k: nat, o: int): int
    decreases |hunks| - k
  {
    if k >= |hunks| then o else EndOld(hunks, k + 1, hunks[k].OldFrom() + hunks[k].oldLines)
  }

  function EndNew(hunks: seq<DiffHunk>, k: nat, n: int): int
    decreases |hunks| - k
  {
    if k >= |hunks| then n else EndNew(hunks, k + 1, hunks[k].NewFrom() + hunks[k].newLines)
  }

  /** One past the last new-file line the rows account for; the tail needs the head file's text. */
  function Top(v: View, status: FileStatus, endNew: int): int
  {
    if status.Added? || status.Removed? || v.headLines.None? || |v.headLines.value| < endNew then endNew
    else |v.headLines.value| + 1
  }

  // ----- cells numbered consecutively

  ghost predicate Consecutive(cells: seq<Cell>, lo: int, hi: int)
  {
    |cells| == hi - lo && forall i :: 0 <= i < |cells| ==> cells[i].number == lo + i
  }

  lemma {:induction false} UnifiedConsecutive(lines: seq<DiffLine>, spans: SpanMap, i: nat, o: int, n: int, oEnd: int,
                                              nEnd: int)
    requires Numbered(lines, i, o, n, oEnd, nEnd)
    ensures Consecutive(NewSide(UnifiedFrom(lines, spans, i)), n, nEnd)
    ensures Consecutive(OldSide(UnifiedFrom(lines, spans, i)), o, oEnd)
    decreases |lines| - i
  {
    hide NewSide, OldSide, UnifiedFrom;
    if i >= |lines| {
      PastTheEnd(lines, spans, i);
    } else {
      UnifiedStep(lines, spans, i);
      match lines[i]
      case Context(_, _, _) => UnifiedConsecutive(lines, spans, i + 1, o + 1, n + 1, oEnd, nEnd);
      case Del(_, _) => UnifiedConsecutive(lines, spans, i + 1, o + 1, n, oEnd, nEnd);
      case Add(_, _) => UnifiedConsecutive(lines, spans, i + 1, o, n + 1, oEnd, nEnd);
    }
  }

  lemma PastTheEnd(lines: seq<DiffLine>, spans: SpanMap, i: nat)
    requires i >= |lines|
    ensures NewSide(UnifiedFrom(lines, spans, i)) == [] && OldSide(UnifiedFrom(lines, spans, i)) == []
  {
  }

  /** The expansion that has an effect: without the head file there is no text to show. */
  function Effective(v: View): seq<ExpandedRange>
  {
    if v.headLines.None? then [] else v.expanded
  }

  function HeadText(v: View): seq<string>
  {
    if v.headLines.None? then [] else v.headLines.value
  }

  lemma RegionSides(v: View, region: GapRegion)
    requires Normal(v.expanded)
    ensures var rows := RegionRows(region, v.expanded, v.headLines, v.split);
      && NewSide(rows) == NewCellsOf(region.newStart, region.newEnd + 1, Effective(v), HeadText(v))
      && OldSide(rows) == OldCellsOf(region.newStart, region.newEnd + 1, region.delta, Effective(v), HeadText(v))
  {
    if region.newEnd < region.newStart {
    } else if v.headLines.None? {
      GapSides(region.newStart, region.newEnd, region.delta, [], []);
    } else {
      RowsFromSides(region, region.newStart, v.expanded, v.headLines.value, v.split);
    }
  }

  lemma BlockSides(v: View, h: DiffHunk, index: nat)
    ensures NewSide(HunkBlock(v, h, index)) == NewSide(LineRows(v.diff, h.lines, false))
    ensures OldSide(HunkBlock(v, h, index)) == OldSide(LineRows(v.diff, h.lines, false))
  {
    hide NewSide, OldSide, LineRows;
    var header := HunkHeader(HunkAt(index), h.header);
    SidesOne(header);
    SidesAppend([header], LineRows(v.diff, h.lines, v.split));
    LayoutsAgree(v.diff, h.lines);
  }

  /** Cells of the gap before a hunk, of the hunk, and of everything after it. */
  lemma HunkStepSides(v: View, status: FileStatus, hunks: seq<DiffHunk>, k: nat, o: int, n: int)
    requires Normal(v.expanded) && k < |hunks|
    requires status.Added? ==> hunks[k].NewFrom() == n
    ensures var h := hunks[k];
      var rest := RowsFromHunk(v, status, hunks, k + 1, h.OldFrom() + h.oldLines, h.NewFrom() + h.newLines);
      && NewSide(RowsFromHunk(v, status, hunks, k, o, n))
           == NewCellsOf(n, h.NewFrom(), Effective(v), HeadText(v))
              + NewSide(LineRows(v.diff, h.lines, false)) + NewSide(rest)
      && OldSide(RowsFromHunk(v, status, hunks, k, o, n))
           == OldCellsOf(n, h.NewFrom(), o - n, Effective(v), HeadText(v))
              + OldSide(LineRows(v.diff, h.lines, false)) + OldSide(rest)
  {
    hide HunkBlock, LineRows, RegionRows;
    var h := hunks[k];
    var gap := GapBefore(v, status, h, o, n);
    assert NewSide(gap) == NewCellsOf(n, h.NewFrom(), Effective(v), HeadText(v))
        && OldSide(gap) == OldCellsOf(n, h.NewFrom(), o - n, Effective(v), HeadText(v)) by {
      RegionSides(v, GapRegion(n, h.NewFrom() - 1, o - n));
    }
    BlockSides(v, h, k);
    var rest := RowsFromHunk(v, status, hunks, k + 1, h.OldFrom() + h.oldLines, h.NewFrom() + h.newLines);
    hide NewSide, OldSide, NewCellsOf, OldCellsOf;
    SidesAppend(gap + HunkBlock(v, h, k), rest);
    SidesAppend(gap, HunkBlock(v, h, k));
  }

  lemma TailSides(v: View, status: FileStatus, hunks: seq<DiffHunk>, k: nat, o: int, n: int)
    requires Normal(v.expanded) && k >= |hunks|
    ensures NewSide(RowsFromHunk(v, status, hunks, k, o, n))
         == NewCellsOf(n, Top(v, status, n), Effective(v), HeadText(v))
    ensures OldSide(RowsFromHunk(v, status, hunks, k, o, n))
         == OldCellsOf(n, Top(v, status, n), o - n, Effective(v), HeadText(v))
  {
    if v.headLines.Some? {
      RegionSides(v, GapRegion(n, |v.headLines.value|, o - n));
    }
  }

  // ----- the two layouts of a whole file

  lemma {:induction false} LayoutsAgreeFrom(v: View, status: FileStatus, hunks: seq<DiffHunk>, k: nat, o: int, n: int)
    requires Normal(v.expanded)
    ensures var split := RowsFromHunk(v.(split := true), status, hunks, k, o, n);
      var unified := RowsFromHunk(v.(split := false), status, hunks, k, o, n);
      NewSide(split) == NewSide(unified) && OldSide(split) == OldSide(unified)
    decreases |hunks| - k
  {
    hide NewSide, OldSide, HunkBlock, RegionRows, NewCellsOf, OldCellsOf;
    var s, u := v.(split := true), v.(split := false);
    if k >= |hunks| {
      if v.headLines.Some? {
        RegionSides(s, GapRegion(n, |v.headLines.value|, o - n));
        RegionSides(u, GapRegion(n, |v.headLines.value|, o - n));
      }
    } else {
      var h := hunks[k];
      var o1, n1 := h.OldFrom() + h.oldLines, h.NewFrom() + h.newLines;
      RegionSides(s, GapRegion(n, h.NewFrom() - 1, o - n));
      RegionSides(u, GapRegion(n, h.NewFrom() - 1, o - n));
      BlockSides(s, h, k);
      BlockSides(u, h, k);
      LayoutsAgreeFrom(v, status, hunks, k + 1, o1, n1);
      SidesOfThree(GapBefore(s, status, h, o, n), HunkBlock(s, h, k), RowsFromHunk(s, status, hunks, k + 1, o1, n1));
      SidesOfThree(GapBefore(u, status, h, o, n), HunkBlock(u, h, k), RowsFromHunk(u, status, hunks, k + 1, o1, n1));
    }
  }

  lemma SidesOfThree(a: seq<DiffRow>, b: seq<DiffRow>, c: seq<DiffRow>)
    ensures NewSide(a + b + c) == NewSide(a) + NewSide(b) + NewSide(c)
    ensures OldSide(a + b + c) == OldSide(a) + OldSide(b) + OldSide(c)
  {
    hide FlatMap;
    SidesAppend(a + b, c);
    SidesAppend(a, b);
  }

  /** For any model, well-formed or not, both layouts account for the same lines with the same emphasis. */
  lemma WholeLayoutsAgree(diff: WordDiff, model: FileDiffModel, expanded: seq<ExpandedRange>, headBlob: Option<string>)
    ensures NewSide(Rows(diff, model, true, expanded, headBlob))
         == NewSide(Rows(diff, model, false, expanded, headBlob))
    ensures OldSide(Rows(diff, model, true, expanded, headBlob))
         == OldSide(Rows(diff, model, false, expanded, headBlob))
  {
    NormalFormMeaning(expanded);
    LayoutsAgreeFrom(View(diff, true, NormalForm(expanded), HeadLines(headBlob)), model.status, model.hunks, 0, 1, 1);
  }

  // ----- coverage

  lemma CellsConsecutive(lo: int, hi: int, delta: int, expanded: seq<ExpandedRange>, headLines: seq<string>)
    requires lo <= hi
    ensures Consecutive(NewCellsOf(lo, hi, expanded, headLines), lo, hi)
    ensures Consecutive(OldCellsOf(lo, hi, delta, expanded, headLines), lo + delta, hi + delta)
  {
    CellsIndexed(lo, hi, delta, expanded, headLines);
  }

  lemma {:induction false} CoverageFrom(v: View, status: FileStatus, hunks: seq<DiffHunk>, k: nat, o: int, n: int)
    requires Normal(v.expanded) && Aligned(hunks, k, o, n)
    requires status.Added? ==> Gapless(hunks, k, n)
    ensures var endNew, endOld := EndNew(hunks, k, n), EndOld(hunks, k, o);
      var rows := RowsFromHunk(v, status, hunks, k, o, n);
      && Consecutive(NewSide(rows), n, Top(v, status, endNew))
      && Consecutive(OldSide(rows), o, Top(v, status, endNew) + endOld - endNew)
    decreases |hunks| - k
  {
    hide NewSide, OldSide, NewCellsOf, OldCellsOf, LineRows, RowsFromHunk;
    if k >= |hunks| {
      TailSides(v, status, hunks, k, o, n);
      CellsConsecutive(n, Top(v, status, n), o - n, Effective(v), HeadText(v));
    } else {
      var h := hunks[k];
      HunkStepSides(v, status, hunks, k, o, n);
      CellsConsecutive(n, h.NewFrom(), o - n, Effective(v), HeadText(v));
      CoverageFrom(v, status, hunks, k + 1, h.OldFrom() + h.oldLines, h.NewFrom() + h.newLines);
      HunkConsecutive(v.diff, h);
    }
  }

  lemma HunkConsecutive(diff: WordDiff, h: DiffHunk)
    requires HunkNumbered(h)
    ensures Consecutive(NewSide(LineRows(diff, h.lines, false)), h.NewFrom(), h.NewFrom() + h.newLines)
    ensures Consecutive(OldSide(LineRows(diff, h.lines, false)), h.OldFrom(), h.OldFrom() + h.oldLines)
  {
    UnifiedConsecutive(h.lines, HunkSpans(diff, h.lines), 0, h.OldFrom(), h.NewFrom(),
                       h.OldFrom() + h.oldLines, h.NewFrom() + h.newLines);
  }

  /**
   * Coverage: line rows and gap intervals together account for each new-file line and each
   * old-file line exactly once and in increasing order, in both layouts and for any expansion.
   */
  lemma Coverage(v: View, model: FileDiffModel)
    requires Normal(v.expanded) && WellFormed(model)
    ensures var endNew, endOld := EndNew(model.hunks, 0, 1), EndOld(model.hunks, 0, 1);
      var rows := RowsOfView(v, model);
      && Consecutive(NewSide(rows), 1, Top(v, model.status, endNew))
      && Consecutive(OldSide(rows), 1, Top(v, model.status, endNew) + endOld - endNew)
  {
    CoverageFrom(v, model.status, model.hunks, 0, 1, 1);
  }
}

/** What expanding lines does to the row list: nothing shown is ever lost, and a full expansion shows both files. */
module Expansion {
  import opened Sequences
  import opened ExpandedRanges
  import opened WordSpans
  import opened TextLines
  import opened DiffModel
  import opened GapRows
  import opened HunkRows
  import opened FileRows
  import opened Reconstruction
  import opened Fidelity
  import opened RowIds

  // ----- growing the expansion

  /** Within a region, the rows other than gaps are the context rows of its covered lines. */
  lemma {:induction false} CoveredLineHasRow(region: GapRegion, cursor: int, expanded: seq<ExpandedRange>,
                                             headLines: seq<string>, split: bool, n: int)
    requires Normal(expanded) && cursor <= n <= region.newEnd && Covered(expanded, n)
    ensures ContextRow(n, region.delta, headLines, split) in RowsFrom(region, cursor, expanded, headLines, split)
    decreases |expanded|
  {
    hide ContextRow, ContextRows, GapIfAny;
    var from, to := Max(expanded[0].fromNew, cursor), Min(expanded[0].toNew, region.newEnd);
    if expanded[0].toNew >= cursor && expanded[0].fromNew > region.newEnd {
      UncoveredBeforeFirst(expanded, n);
    } else if expanded[0].toNew < cursor || to < from {
      DropFirstRange(expanded, n);
      CoveredLineHasRow(region, cursor, expanded[1..], headLines, split, n);
    } else if n <= to {
      if n < from {
        UncoveredBeforeFirst(expanded, n);
      }
      ContextRowShown(from, to + 1, region.delta, headLines, split, n);
    } else {
      DropFirstRange(expanded, n);
      CoveredLineHasRow(region, to + 1, expanded[1..], headLines, split, n);
    }
  }

  lemma ContextRowShown(lo: int, hi: int, delta: int, headLines: seq<string>, split: bool, n: int)
    requires lo <= n < hi
    ensures ContextRow(n, delta, headLines, split) in ContextRows(lo, hi, delta, headLines, split)
  {
    assert ContextRows(lo, hi, delta, headLines, split)[n - lo] == ContextRow(n, delta, headLines, split);
  }

  lemma ShownContextRow(lo: int, hi: int, delta: int, headLines: seq<string>, split: bool,
                        row: DiffRow) returns (n: int)
    requires row in ContextRows(lo, hi, delta, headLines, split)
    ensures lo <= n < hi && row == ContextRow(n, delta, headLines, split)
  {
    var shown := ContextRows(lo, hi, delta, headLines, split);
    var i :| 0 <= i < |shown| && shown[i] == row;
    n := lo + i;
  }

  lemma {:induction false} RowHasCoveredLine(region: GapRegion, cursor: int, expanded: seq<ExpandedRange>,
                                             headLines: seq<string>, split: bool, row: DiffRow) returns (n: int)
    requires Normal(expanded) && !row.Gap?
    requires row in RowsFrom(region, cursor, expanded, headLines, split)
    ensures cursor <= n <= region.newEnd && Covered(expanded, n) && row == ContextRow(n, region.delta, headLines, split)
    decreases |expanded|
  {
    hide Covered, ContextRow, ContextRows;
    var from, to := Max(expanded[0].fromNew, cursor), Min(expanded[0].toNew, region.newEnd);
    var rest := expanded[1..];
    if expanded[0].toNew < cursor || to < from {
      n := RowHasCoveredLine(region, cursor, rest, headLines, split, row);
      DropFirstRange(expanded, n);
    } else if row in ContextRows(from, to + 1, region.delta, headLines, split) {
      n := ShownContextRow(from, to + 1, region.delta, headLines, split, row);
      DropFirstRange(expanded, n);
    } else {
      n := RowHasCoveredLine(region, to + 1, rest, headLines, split, row);
      DropFirstRange(expanded, n);
    }
  }

  /** `wide` asks for everything `narrow` asks for, and is the same view otherwise. */
  ghost predicate Widens(narrow: View, wide: View)
  {
    && Normal(narrow.expanded) && Normal(wide.expanded)
    && wide.diff == narrow.diff && wide.split == narrow.split && wide.headLines == narrow.headLines
    && forall n :: Covered(narrow.expanded, n) ==> Covered(wide.expanded, n)
  }

  lemma RegionKeepsRows(narrow: View, wide: View, region: GapRegion)
    requires Widens(narrow, wide)
    ensures forall row :: row in RegionRows(region, narrow.expanded, narrow.headLines, narrow.split) && !row.Gap? ==>
      row in RegionRows(region, wide.expanded, wide.headLines, wide.split)
  {
    forall row | row in RegionRows(region, narrow.expanded, narrow.headLines, narrow.split) && !row.Gap?
      ensures row in RegionRows(region, wide.expanded, wide.headLines, wide.split)
    {
      var n := RowHasCoveredLine(region, region.newStart, narrow.expanded, narrow.headLines.value, narrow.split, row);
      CoveredLineHasRow(region, region.newStart, wide.expanded, wide.headLines.value, wide.split, n);
    }
  }

  lemma {:induction false} WideningKeepsRowsFrom(narrow: View, wide: View, status: FileStatus, hunks: seq<DiffHunk>,
                                                 k: nat, o: int, n: int)
    requires Widens(narrow, wide)
    ensures forall row :: row in RowsFromHunk(narrow, status, hunks, k, o, n) && !row.Gap? ==>
      row in RowsFromHunk(wide, status, hunks, k, o, n)
    decreases |hunks| - k
  {
    hide RegionRows, HunkBlock, Covered, Normal;
    if k >= |hunks| {
      if narrow.headLines.Some? {
        RegionKeepsRows(narrow, wide, GapRegion(n, |narrow.headLines.value|, o - n));
      }
    } else {
      var h := hunks[k];
      RegionKeepsRows(narrow, wide, GapRegion(n, h.NewFrom() - 1, o - n));
      SameBlock(narrow, wide, h, k);
      WideningKeepsRowsFrom(narrow, wide, status, hunks, k + 1, h.OldFrom() + h.oldLines, h.NewFrom() + h.newLines);
    }
  }

  lemma SameBlock(narrow: View, wide: View, h: DiffHunk, k: nat)
    requires Widens(narrow, wide)
    ensures HunkBlock(narrow, h, k) == HunkBlock(wide, h, k)
  {
  }

  /** Asking for more lines keeps every row that is not a gap, identity and all. */
  lemma WideningKeepsRows(diff: WordDiff, model: FileDiffModel, split: bool, r1: seq<ExpandedRange>,
                          r2: seq<ExpandedRange>,
                          headBlob: Option<string>)
    requires forall n :: Requested(r1, n) ==> Requested(r2, n)
    ensures forall row :: row in Rows(diff, model, split, r1, headBlob) && !row.Gap? ==>
      row in Rows(diff, model, split, r2, headBlob)
  {
    NormalFormMeaning(r1);
    NormalFormMeaning(r2);
    var narrow := View(diff, split, NormalForm(r1), HeadLines(headBlob));
    var wide := View(diff, split, NormalForm(r2), HeadLines(headBlob));
    WideningKeepsRowsFrom(narrow, wide, model.status, model.hunks, 0, 1, 1);
  }

  // ----- gaps are as long as they can be

  predicate NoAdjacentGaps(rows: seq<DiffRow>)
  {
    forall i :: 0 <= i < |rows| - 1 ==> !(rows[i].Gap? && rows[i + 1].Gap?)
  }

  lemma {:induction false} RegionGapsApart(region: GapRegion, cursor: int, expanded: seq<ExpandedRange>,
                                           headLines: seq<string>, split: bool)
    ensures NoAdjacentGaps(RowsFrom(region, cursor, expanded, headLines, split))
    decreases |expanded|
  {
    if expanded != [] {
      RegionGapsApart(region, cursor, expanded[1..], headLines, split);
      var from, to := Max(expanded[0].fromNew, cursor), Min(expanded[0].toNew, region.newEnd);
      RegionGapsApart(region, to + 1, expanded[1..], headLines, split);
      var gap := GapIfAny(cursor, from - 1, region.delta);
      var shown := ContextRows(from, to + 1, region.delta, headLines, split);
      assert forall i :: 0 <= i < |shown| ==> shown[i] == ContextRow(from + i, region.delta, headLines, split);
      assert forall i :: 0 <= i < |shown| ==> !shown[i].Gap?;
      JoinApart(gap, shown);
      if from <= to {
        assert (gap + shown)[|gap + shown| - 1] == shown[to - from];
        JoinApart(gap + shown, RowsFrom(region, to + 1, expanded[1..], headLines, split));
      }
    }
  }

  lemma {:induction false} GapsApartFrom(v: View, status: FileStatus, hunks: seq<DiffHunk>, k: nat, o: int, n: int)
    ensures NoAdjacentGaps(RowsFromHunk(v, status, hunks, k, o, n))
    decreases |hunks| - k
  {
    hide RegionRows, LineRows;
    if k >= |hunks| {
      if v.headLines.Some? {
        RegionApart(v, GapRegion(n, |v.headLines.value|, o - n));
      }
    } else {
      var h := hunks[k];
      RegionApart(v, GapRegion(n, h.NewFrom() - 1, o - n));
      LineRowShapes(v.diff, h.lines, v.split);
      GapsApartFrom(v, status, hunks, k + 1, h.OldFrom() + h.oldLines, h.NewFrom() + h.newLines);
      var gap, block := GapBefore(v, status, h, o, n), HunkBlock(v, h, k);
      var rest := RowsFromHunk(v, status, hunks, k + 1, h.OldFrom() + h.oldLines, h.NewFrom() + h.newLines);
      forall i | 0 <= i < |block|
        ensures !block[i].Gap?
      {
        assert i > 0 ==> block[i] in LineRows(v.diff, h.lines, v.split);
      }
      JoinApart(gap, block);
      assert (gap + block)[|gap + block| - 1] == block[|block| - 1];
      JoinApart(gap + block, rest);
    }
  }

  lemma RegionApart(v: View, region: GapRegion)
    ensures NoAdjacentGaps(RegionRows(region, v.expanded, v.headLines, v.split))
  {
    if v.headLines.Some? {
      RegionGapsApart(region, region.newStart, v.expanded, v.headLines.value, v.split);
    }
  }

  lemma JoinApart(a: seq<DiffRow>, b: seq<DiffRow>)
    requires NoAdjacentGaps(a) && NoAdjacentGaps(b)
    requires a != [] && b != [] ==> !a[|a| - 1].Gap? || !b[0].Gap?
    ensures NoAdjacentGaps(a + b)
  {
  }

  /** No row list holds two gaps in a row: a collapsed stretch is one gap. */
  lemma GapsAreMaximal(v: View, model: FileDiffModel)
    ensures NoAdjacentGaps(RowsOfView(v, model))
  {
    GapsApartFrom(v, model.status, model.hunks, 0, 1, 1);
  }

  // ----- a gap hides nothing that differs

  /** The gap's old lines and new lines exist and hold the same text, pair by pair. */
  ghost predicate GapHidesSameText(row: DiffRow, base: seq<string>, head: seq<string>)
  {
    row.Gap? ==>
      && 1 <= row.gap.newStart <= row.gap.newEnd <= |head|
      && 1 <= row.gap.oldStart <= row.gap.oldEnd <= |base|
      && base[row.gap.oldStart - 1..row.gap.oldEnd] == head[row.gap.newStart - 1..row.gap.newEnd]
  }

  lemma OneGapHidesSameText(lo: int, hi: int, delta: int, base: seq<string>, head: seq<string>)
    requires lo <= hi && SameText(base, head, lo, hi + 1, delta)
    ensures GapHidesSameText(GapRow(lo, hi, delta), base, head)
  {
    assert TextAt(head, lo) == TextAt(head, lo) && TextAt(head, hi) == TextAt(head, hi);
    var hidden, shown := base[lo + delta - 1..hi + delta], head[lo - 1..hi];
    forall i | 0 <= i < |shown|
      ensures hidden[i] == shown[i]
    {
      assert TextAt(base, lo + i + delta) == TextAt(head, lo + i);
    }
  }

  lemma {:induction false} RegionGapsHideSameText(region: GapRegion, cursor: int, expanded: seq<ExpandedRange>,
                                                  headLines: seq<string>, split: bool,
                                                  base: seq<string>, head: seq<string>)
    requires SameText(base, head, cursor, region.newEnd + 1, region.delta)
    ensures forall row :: row in RowsFrom(region, cursor, expanded, headLines, split) ==>
      GapHidesSameText(row, base, head)
    decreases |expanded|
  {
    hide GapHidesSameText;
    if cursor <= region.newEnd {
      OneGapHidesSameText(cursor, region.newEnd, region.delta, base, head);
    }
    if expanded != [] {
      var from, to := Max(expanded[0].fromNew, cursor), Min(expanded[0].toNew, region.newEnd);
      RegionGapsHideSameText(region, cursor, expanded[1..], headLines, split, base, head);
      if from <= to {
        RegionGapsHideSameText(region, to + 1, expanded[1..], headLines, split, base, head);
        if cursor < from {
          OneGapHidesSameText(cursor, from - 1, region.delta, base, head);
        }
        ContextRowsAreNoGaps(from, to + 1, region.delta, headLines, split, base, head);
      }
    }
  }

  lemma ContextRowsAreNoGaps(lo: int, hi: int, delta: int, headLines: seq<string>, split: bool, base: seq<string>,
                             head: seq<string>)
    ensures forall row :: row in ContextRows(lo, hi, delta, headLines, split) ==> GapHidesSameText(row, base, head)
  {
    var rows := ContextRows(lo, hi, delta, headLines, split);
    assert forall i :: 0 <= i < |rows| ==> rows[i] == ContextRow(lo + i, delta, headLines, split) && !rows[i].Gap?;
  }

  lemma RegionHidesSameText(v: View, region: GapRegion, base: seq<string>, head: seq<string>)
    requires SameText(base, head, region.newStart, region.newEnd + 1, region.delta)
    ensures forall row :: row in RegionRows(region, v.expanded, v.headLines, v.split) ==>
      GapHidesSameText(row, base, head)
  {
    if region.newStart <= region.newEnd {
      if v.headLines.Some? {
        RegionGapsHideSameText(region, region.newStart, v.expanded, v.headLines.value, v.split, base, head);
      } else {
        OneGapHidesSameText(region.newStart, region.newEnd, region.delta, base, head);
      }
    }
  }

  lemma {:induction false} GapsHideSameTextFrom(v: View, status: FileStatus, hunks: seq<DiffHunk>, k: nat, o: int,
                                                n: int,
                                                base: seq<string>, head: seq<string>)
    requires KnowsHead(v, head) && PatchFrom(hunks, k, o, n, base, head)
    ensures forall row :: row in RowsFromHunk(v, status, hunks, k, o, n) ==> GapHidesSameText(row, base, head)
    decreases |hunks| - k
  {
    hide RegionRows, LineRows, GapHidesSameText, SameText;
    if k >= |hunks| {
      if v.headLines.Some? {
        RegionHidesSameText(v, GapRegion(n, |head|, o - n), base, head);
      }
    } else {
      var h := hunks[k];
      RegionHidesSameText(v, GapRegion(n, h.NewFrom() - 1, o - n), base, head);
      BlockHasNoGaps(v, h, k, base, head);
      GapsHideSameTextFrom(v, status, hunks, k + 1, h.OldFrom() + h.oldLines, h.NewFrom() + h.newLines, base, head);
    }
  }

  lemma BlockHasNoGaps(v: View, h: DiffHunk, k: nat, base: seq<string>, head: seq<string>)
    ensures forall row :: row in HunkBlock(v, h, k) ==> GapHidesSameText(row, base, head)
  {
    LineRowShapes(v.diff, h.lines, v.split);
  }

  /** Whatever stays collapsed is identical in the two files, with or without the head file's text. */
  lemma GapsHideSameText(v: View, model: FileDiffModel, base: seq<string>, head: seq<string>)
    requires KnowsHead(v, head) && PatchBetween(model, base, head)
    ensures forall row :: row in RowsOfView(v, model) ==> GapHidesSameText(row, base, head)
  {
    GapsHideSameTextFrom(v, model.status, model.hunks, 0, 1, 1, base, head);
  }

  // ----- the whole file expanded

  /** The text of a side every line of which is visible. */
  function Texts(cells: seq<Cell>): seq<string>
    requires forall c :: c in cells ==> c.Shown?
  {
    seq(|cells|, i requires 0 <= i < |cells| => cells[i].text)
  }

  lemma TextsAreTheFile(cells: seq<Cell>, file: seq<string>)
    requires forall c :: c in cells ==> c.Shown?
    requires Consecutive(cells, 1, |file| + 1) && Faithful(cells, file)
    ensures Texts(cells) == file
  {
    forall i | 0 <= i < |file|
      ensures Texts(cells)[i] == file[i]
    {
      assert cells[i] in cells;
    }
  }

  lemma NoGapRows(rows: seq<DiffRow>)
    requires forall row :: row in rows ==> Anchored(row)
    requires forall c :: c in NewSide(rows) ==> c.Shown?
    ensures forall row :: row in rows ==> !row.Gap?
  {
    forall row | row in rows && row.Gap?
      ensures Folded(row.gap.newStart) in NewSide(rows)
    {
      var k :| 0 <= k < |rows| && rows[k] == row;
      assert Anchored(rows[k]);
      assert NewCells(row)[0] == Folded(row.gap.newStart);
      FlatMapMember(NewCells, rows, k, Folded(row.gap.newStart));
    }
  }

  lemma AllShown(rows: seq<DiffRow>)
    requires forall row :: row in rows ==> !row.Gap?
    ensures forall c :: c in OldSide(rows) ==> c.Shown?
  {
    forall c | c in OldSide(rows)
      ensures c.Shown?
    {
      var k := FlatMapSource(OldCells, rows, c);
      assert rows[k] in rows;
    }
  }

  /**
   * With every line of the head file requested, the rows hold no gap, their new-side texts are
   * exactly the head file and their old-side texts exactly the base file, in both layouts.
   */
  lemma FullExpansionShowsBothFiles(diff: WordDiff, model: FileDiffModel, split: bool, expanded: seq<ExpandedRange>,
                                    headBlob: string, base: seq<string>)
    requires PatchBetween(model, base, Lines(headBlob))
    requires forall n :: 1 <= n <= |Lines(headBlob)| ==> Requested(expanded, n)
    ensures var rows := Rows(diff, model, split, expanded, Some(headBlob));
      && (forall row :: row in rows ==> !row.Gap?)
      && (forall c :: c in NewSide(rows) || c in OldSide(rows) ==> c.Shown?)
      && Texts(NewSide(rows)) == Lines(headBlob)
      && Texts(OldSide(rows)) == base
  {
    hide NewSide, OldSide, RowsOfView, Texts;
    var head := Lines(headBlob);
    var v := View(diff, split, NormalForm(expanded), Some(head));
    var rows := RowsOfView(v, model);
    NormalFormMeaning(expanded);
    RowsAreFaithful(v, model, base, head);
    ShapesOf(v, model);
    if model.status.Added? {
      NothingBeforeHunks(model.hunks, 0, 1, 1, head);
    }
    Visibility(v, model);
    forall c | c in NewSide(rows)
      ensures c.Shown?
    {
      var i :| 0 <= i < |NewSide(rows)| && NewSide(rows)[i] == c;
      assert 1 <= c.number <= |head|;
      assert Requested(expanded, c.number);
      assert Covered(v.expanded, c.number);
    }
    NoGapRows(rows);
    AllShown(rows);
    TextsAreTheFile(NewSide(rows), head);
    TextsAreTheFile(OldSide(rows), base);
  }

  lemma ShapesOf(v: View, model: FileDiffModel)
    ensures forall row :: row in RowsOfView(v, model) ==> Anchored(row)
  {
    RowShapes(v, model.status, model.hunks, 0, 1, 1);
  }
}

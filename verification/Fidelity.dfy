/** Rows show the true text of both files, and fold away exactly what nobody expanded. */
module Fidelity {
  import opened Sequences
  import opened ExpandedRanges
  import opened WordSpans
  import opened TextLines
  import opened DiffModel
  import opened GapRows
  import opened HunkRows
  import opened FileRows
  import opened Reconstruction

  // ----- hunks that turn one file into another

  predicate LineFits(line: DiffLine, base: seq<string>, head: seq<string>)
  {
    && (!line.Add? ==> 1 <= line.oldLine <= |base| && base[line.oldLine - 1] == line.text)
    && (!line.Del? ==> 1 <= line.newLine <= |head| && head[line.newLine - 1] == line.text)
  }

  /** Lines lo, ..., hi - 1 of the head are lines lo + delta, ..., hi - 1 + delta of the base. */
  predicate SameText(base: seq<string>, head: seq<string>, lo: int, hi: int, delta: int)
  {
    forall n :: lo <= n < hi ==>
      1 <= n <= |head| && 1 <= n + delta <= |base| && TextAt(base, n + delta) == TextAt(head, n)
  }

  predicate PatchFrom(hunks: seq<DiffHunk>, k: nat, o: int, n: int, base: seq<string>, head: seq<string>)
    decreases |hunks| - k
  {
    if k >= |hunks| then
      n <= |head| + 1 && |head| - n == |base| - o && SameText(base, head, n, |head| + 1, o - n)
    else
      var h := hunks[k];
      && SameText(base, head, n, h.NewFrom(), o - n)
      && (forall line :: line in h.lines ==> LineFits(line, base, head))
      && PatchFrom(hunks, k + 1, h.OldFrom() + h.oldLines, h.NewFrom() + h.newLines, base, head)
  }

  /** The model's hunks are a patch from `base` to `head`. */
  predicate PatchBetween(model: FileDiffModel, base: seq<string>, head: seq<string>)
  {
    && !model.binary && !model.tooLarge
    && Aligned(model.hunks, 0, 1, 1)
    && PatchFrom(model.hunks, 0, 1, 1, base, head)
    && (model.status.Added? ==> base == [])
    && (model.status.Removed? ==> head == [])
  }

  lemma {:induction false} NothingBeforeHunks(hunks: seq<DiffHunk>, k: nat, o: int, n: int, head: seq<string>)
    requires Aligned(hunks, k, o, n) && PatchFrom(hunks, k, o, n, [], head)
    ensures Gapless(hunks, k, n)
    decreases |hunks| - k
  {
    if k < |hunks| {
      var h := hunks[k];
      var text := TextAt(head, n);
      assert SameText([], head, n, h.NewFrom(), o - n);
      NothingBeforeHunks(hunks, k + 1, h.OldFrom() + h.oldLines, h.NewFrom() + h.newLines, head);
    }
  }

  lemma {:induction false} PatchEnds(hunks: seq<DiffHunk>, k: nat, o: int, n: int, base: seq<string>, head: seq<string>)
    requires PatchFrom(hunks, k, o, n, base, head)
    ensures var endNew, endOld := EndNew(hunks, k, n), EndOld(hunks, k, o);
      && endNew <= |head| + 1 && |head| - endNew == |base| - endOld
      && SameText(base, head, endNew, |head| + 1, endOld - endNew)
    decreases |hunks| - k
  {
    if k < |hunks| {
      PatchEnds(hunks, k + 1, hunks[k].OldFrom() + hunks[k].oldLines, hunks[k].NewFrom() + hunks[k].newLines,
                base, head);
    }
  }

  // ----- shown text

  ghost predicate Faithful(cells: seq<Cell>, file: seq<string>)
  {
    forall c :: c in cells && c.Shown? ==> 1 <= c.number <= |file| && c.text == file[c.number - 1]
  }

  lemma {:induction false} UnifiedFaithful(lines: seq<DiffLine>, spans: SpanMap, i: nat, base: seq<string>,
                                           head: seq<string>)
    requires forall line :: line in lines ==> LineFits(line, base, head)
    ensures Faithful(NewSide(UnifiedFrom(lines, spans, i)), head)
    ensures Faithful(OldSide(UnifiedFrom(lines, spans, i)), base)
    decreases |lines| - i
  {
    hide NewSide, OldSide, UnifiedFrom;
    if i >= |lines| {
      PastTheEnd(lines, spans, i);
    } else {
      UnifiedStep(lines, spans, i);
      UnifiedFaithful(lines, spans, i + 1, base, head);
      assert lines[i] in lines;
    }
  }

  ghost predicate KnowsHead(v: View, head: seq<string>)
  {
    v.headLines.Some? ==> v.headLines.value == head
  }

  lemma GapFaithful(v: View, lo: int, hi: int, delta: int, base: seq<string>, head: seq<string>)
    requires KnowsHead(v, head) && SameText(base, head, lo, hi, delta)
    ensures Faithful(NewCellsOf(lo, hi, Effective(v), HeadText(v)), head)
    ensures Faithful(OldCellsOf(lo, hi, delta, Effective(v), HeadText(v)), base)
  {
    CellsIndexed(lo, hi, delta, Effective(v), HeadText(v));
  }

  lemma {:induction false} FaithfulFrom(v: View, status: FileStatus, hunks: seq<DiffHunk>, k: nat, o: int, n: int,
                                        base: seq<string>, head: seq<string>)
    requires Normal(v.expanded) && KnowsHead(v, head)
    requires PatchFrom(hunks, k, o, n, base, head)
    requires status.Added? ==> Gapless(hunks, k, n)
    requires status.Removed? ==> head == []
    ensures Faithful(NewSide(RowsFromHunk(v, status, hunks, k, o, n)), head)
    ensures Faithful(OldSide(RowsFromHunk(v, status, hunks, k, o, n)), base)
    decreases |hunks| - k
  {
    hide LineFits, NewSide, OldSide, LineRows, RowsFromHunk, NewCellsOf, OldCellsOf;
    if k >= |hunks| {
      TailSides(v, status, hunks, k, o, n);
      GapFaithful(v, n, Top(v, status, n), o - n, base, head);
    } else {
      var h := hunks[k];
      HunkStepSides(v, status, hunks, k, o, n);
      GapFaithful(v, n, h.NewFrom(), o - n, base, head);
      HunkFaithful(v.diff, h.lines, base, head);
      FaithfulFrom(v, status, hunks, k + 1, h.OldFrom() + h.oldLines, h.NewFrom() + h.newLines, base, head);
    }
  }

  lemma HunkFaithful(diff: WordDiff, lines: seq<DiffLine>, base: seq<string>, head: seq<string>)
    requires forall line :: line in lines ==> LineFits(line, base, head)
    ensures Faithful(NewSide(LineRows(diff, lines, false)), head)
    ensures Faithful(OldSide(LineRows(diff, lines, false)), base)
  {
    UnifiedFaithful(lines, HunkSpans(diff, lines), 0, base, head);
  }

  /**
   * With the head file at hand, the rows account for all of both files in order, whatever is
   * expanded, and every visible line carries its file's own text at that number.
   */
  lemma RowsAreFaithful(v: View, model: FileDiffModel, base: seq<string>, head: seq<string>)
    requires Normal(v.expanded) && v.headLines == Some(head) && PatchBetween(model, base, head)
    ensures var rows := RowsOfView(v, model);
      && Consecutive(NewSide(rows), 1, |head| + 1) && Faithful(NewSide(rows), head)
      && Consecutive(OldSide(rows), 1, |base| + 1) && Faithful(OldSide(rows), base)
  {
    hide NewSide, OldSide, RowsFromHunk;
    if model.status.Added? {
      NothingBeforeHunks(model.hunks, 0, 1, 1, head);
    }
    PatchEnds(model.hunks, 0, 1, 1, base, head);
    Coverage(v, model);
    FaithfulFrom(v, model.status, model.hunks, 0, 1, 1, base, head);
  }

  // ----- what is visible

  ghost predicate InHunk(hunks: seq<DiffHunk>, k: nat, n: int)
  {
    exists j :: k <= j < |hunks| && hunks[j].NewFrom() <= n < hunks[j].NewFrom() + hunks[j].newLines
  }

  ghost predicate VisibleExactly(cells: seq<Cell>, hunks: seq<DiffHunk>, k: nat, expanded: seq<ExpandedRange>)
  {
    forall c :: c in cells ==> (c.Shown? <==> InHunk(hunks, k, c.number) || Covered(expanded, c.number))
  }

  lemma {:induction false} HunksLieBeyond(hunks: seq<DiffHunk>, k: nat, o: int, n: int)
    requires Aligned(hunks, k, o, n)
    ensures forall j :: k <= j < |hunks| ==> hunks[j].NewFrom() >= n
    decreases |hunks| - k
  {
    if k < |hunks| {
      HunksLieBeyond(hunks, k + 1, hunks[k].OldFrom() + hunks[k].oldLines, hunks[k].NewFrom() + hunks[k].newLines);
    }
  }

  lemma {:induction false} UnifiedShown(lines: seq<DiffLine>, spans: SpanMap, i: nat)
    ensures forall c :: c in NewSide(UnifiedFrom(lines, spans, i)) ==> c.Shown?
    decreases |lines| - i
  {
    hide NewSide, OldSide, UnifiedFrom;
    if i >= |lines| {
      PastTheEnd(lines, spans, i);
    } else {
      UnifiedStep(lines, spans, i);
      UnifiedShown(lines, spans, i + 1);
    }
  }

  lemma HunkVisible(diff: WordDiff, hunks: seq<DiffHunk>, k: nat, expanded: seq<ExpandedRange>)
    requires k < |hunks| && HunkNumbered(hunks[k])
    ensures VisibleExactly(NewSide(LineRows(diff, hunks[k].lines, false)), hunks, k, expanded)
  {
    var h := hunks[k];
    HunkConsecutive(diff, h);
    UnifiedShown(h.lines, HunkSpans(diff, h.lines), 0);
    var cells := NewSide(LineRows(diff, h.lines, false));
    forall c | c in cells
      ensures c.Shown? && InHunk(hunks, k, c.number)
    {
      var i :| 0 <= i < |cells| && cells[i] == c;
      assert hunks[k].NewFrom() <= c.number < hunks[k].NewFrom() + hunks[k].newLines;
    }
  }

  lemma GapVisible(v: View, hunks: seq<DiffHunk>, k: nat, o: int, n: int, hi: int)
    requires Aligned(hunks, k, o, n) && (k < |hunks| ==> hi <= hunks[k].NewFrom())
    ensures VisibleExactly(NewCellsOf(n, hi, Effective(v), HeadText(v)), hunks, k, Effective(v))
  {
    if k < |hunks| {
      HunksLieBeyond(hunks, k + 1, hunks[k].OldFrom() + hunks[k].oldLines, hunks[k].NewFrom() + hunks[k].newLines);
    }
    CellsIndexed(n, hi, 0, Effective(v), HeadText(v));
    forall c | c in NewCellsOf(n, hi, Effective(v), HeadText(v))
      ensures !InHunk(hunks, k, c.number)
    {
      assert c.number < hi;
    }
  }

  lemma {:induction false} VisibleFrom(v: View, status: FileStatus, hunks: seq<DiffHunk>, k: nat, o: int, n: int)
    requires Normal(v.expanded) && Aligned(hunks, k, o, n)
    requires status.Added? ==> Gapless(hunks, k, n)
    ensures VisibleExactly(NewSide(RowsFromHunk(v, status, hunks, k, o, n)), hunks, k, Effective(v))
    decreases |hunks| - k
  {
    hide NewSide, OldSide, LineRows, RowsFromHunk, NewCellsOf, OldCellsOf;
    if k >= |hunks| {
      TailSides(v, status, hunks, k, o, n);
      GapVisible(v, hunks, k, o, n, Top(v, status, n));
    } else {
      var h := hunks[k];
      var o1, n1 := h.OldFrom() + h.oldLines, h.NewFrom() + h.newLines;
      var rest := RowsFromHunk(v, status, hunks, k + 1, o1, n1);
      HunkStepSides(v, status, hunks, k, o, n);
      GapVisible(v, hunks, k, o, n, h.NewFrom());
      HunkVisible(v.diff, hunks, k, Effective(v));
      VisibleFrom(v, status, hunks, k + 1, o1, n1);
      CoverageFrom(v, status, hunks, k + 1, o1, n1);
      forall c | c in NewSide(rest)
        ensures InHunk(hunks, k, c.number) <==> InHunk(hunks, k + 1, c.number)
      {
        assert c.number >= n1;
      }
    }
  }

  /** A new-file line is visible exactly when a hunk holds it or, the head file being known, a range covers it. */
  lemma Visibility(v: View, model: FileDiffModel)
    requires Normal(v.expanded) && WellFormed(model)
    ensures VisibleExactly(NewSide(RowsOfView(v, model)), model.hunks, 0, Effective(v))
  {
    VisibleFrom(v, model.status, model.hunks, 0, 1, 1);
  }
}

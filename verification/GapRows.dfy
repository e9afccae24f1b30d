/** Rows for one collapsed region: gap rows, with the expanded parts turned into context rows. */
module GapRows {
  import opened Sequences
  import opened ExpandedRanges
  import opened DiffModel

  function Max(a: int, b: int): int { if a >= b then a else b }
  function Min(a: int, b: int): int { if a <= b then a else b }

  /** Line n of the head file, or the empty text past its ends. */
  function TextAt(lines: seq<string>, n: int): string
  {
    if 1 <= n <= |lines| then lines[n - 1] else ""
  }

  function GapRow(newStart: int, newEnd: int, delta: int): DiffRow
  {
    Gap(GapAt(newStart), GapInfo(newStart + delta, newEnd + delta, newStart, newEnd, newEnd - newStart + 1))
  }

  function ContextRow(n: int, delta: int, headLines: seq<string>, split: bool): DiffRow
  {
    var line := Context(n + delta, n, TextAt(headLines, n));
    if split then Pair(R(n), Some(line), Some(line), None, None) else Line(L(n), line, None)
  }

  function ContextRows(lo: int, hi: int, delta: int, headLines: seq<string>, split: bool): seq<DiffRow>
  {
    if hi <= lo then [] else seq(hi - lo, i => ContextRow(lo + i, delta, headLines, split))
  }

  function GapIfAny(lo: int, hi: int, delta: int): seq<DiffRow>
  {
    if lo <= hi then [GapRow(lo, hi, delta)] else []
  }

  /** Rows from `cursor` to the end of the region, the ranges in `expanded` still to be used. */
  function RowsFrom(region: GapRegion, cursor: int, expanded: seq<ExpandedRange>,
                    headLines: seq<string>, split: bool): seq<DiffRow>
    decreases |expanded|
  {
    if expanded == [] || (expanded[0].toNew >= cursor && expanded[0].fromNew > region.newEnd) then
      GapIfAny(cursor, region.newEnd, region.delta)
    else
      var from, to := Max(expanded[0].fromNew, cursor), Min(expanded[0].toNew, region.newEnd);
      if expanded[0].toNew < cursor || to < from then
        RowsFrom(region, cursor, expanded[1..], headLines, split)
      else
        GapIfAny(cursor, from - 1, region.delta)
        + ContextRows(from, to + 1, region.delta, headLines, split)
        + RowsFrom(region, to + 1, expanded[1..], headLines, split)
  }

  function RegionRows(region: GapRegion, expanded: seq<ExpandedRange>,
                      headLines: Option<seq<string>>, split: bool): seq<DiffRow>
  {
    if region.newEnd < region.newStart then []
    else if headLines.None? then [GapRow(region.newStart, region.newEnd, region.delta)]
    else RowsFrom(region, region.newStart, expanded, headLines.value, split)
  }

  // ----- which lines end up visible

  /** How new-file line n of a region is accounted for. */
  ghost function NewCellAt(n: int, expanded: seq<ExpandedRange>, headLines: seq<string>): Cell
  {
    if Covered(expanded, n) then Shown(n, TextAt(headLines, n), None) else Folded(n)
  }

  ghost function OldCellAt(n: int, delta: int, expanded: seq<ExpandedRange>, headLines: seq<string>): Cell
  {
    if Covered(expanded, n) then Shown(n + delta, TextAt(headLines, n), None) else Folded(n + delta)
  }

  /** Cells of the lines lo, ..., hi - 1 of a region. */
  ghost function NewCellsOf(lo: int, hi: int, expanded: seq<ExpandedRange>, headLines: seq<string>): seq<Cell>
    decreases hi - lo
  {
    if hi <= lo then [] else [NewCellAt(lo, expanded, headLines)] + NewCellsOf(lo + 1, hi, expanded, headLines)
  }

  ghost function OldCellsOf(lo: int, hi: int, delta: int, expanded: seq<ExpandedRange>,
                            headLines: seq<string>): seq<Cell>
    decreases hi - lo
  {
    if hi <= lo then []
    else [OldCellAt(lo, delta, expanded, headLines)] + OldCellsOf(lo + 1, hi, delta, expanded, headLines)
  }

  lemma {:induction false} CellsIndexed(lo: int, hi: int, delta: int, expanded: seq<ExpandedRange>,
                                        headLines: seq<string>)
    ensures var cells := NewCellsOf(lo, hi, expanded, headLines);
      |cells| == Max(0, hi - lo) && forall i :: 0 <= i < |cells| ==> cells[i] == NewCellAt(lo + i, expanded, headLines)
    ensures var cells := OldCellsOf(lo, hi, delta, expanded, headLines);
      |cells| == Max(0, hi - lo)
      && forall i :: 0 <= i < |cells| ==> cells[i] == OldCellAt(lo + i, delta, expanded, headLines)
    decreases hi - lo
  {
    hide NewCellAt, OldCellAt;
    if lo < hi {
      CellsIndexed(lo + 1, hi, delta, expanded, headLines);
    }
  }

  lemma {:induction false} CellsSplit(lo: int, mid: int, hi: int, delta: int, expanded: seq<ExpandedRange>,
                                      headLines: seq<string>)
    requires lo <= mid <= hi
    ensures NewCellsOf(lo, hi, expanded, headLines)
         == NewCellsOf(lo, mid, expanded, headLines) + NewCellsOf(mid, hi, expanded, headLines)
    ensures OldCellsOf(lo, hi, delta, expanded, headLines)
         == OldCellsOf(lo, mid, delta, expanded, headLines) + OldCellsOf(mid, hi, delta, expanded, headLines)
    decreases hi - lo
  {
    hide NewCellAt, OldCellAt;
    if lo < mid {
      CellsSplit(lo + 1, mid, hi, delta, expanded, headLines);
      AppendAssociative([NewCellAt(lo, expanded, headLines)], NewCellsOf(lo + 1, mid, expanded, headLines),
                        NewCellsOf(mid, hi, expanded, headLines));
      AppendAssociative([OldCellAt(lo, delta, expanded, headLines)],
                        OldCellsOf(lo + 1, mid, delta, expanded, headLines),
                        OldCellsOf(mid, hi, delta, expanded, headLines));
    }
  }

  lemma {:induction false} ContextRowsSides(lo: int, hi: int, delta: int, headLines: seq<string>, split: bool,
                                            expanded: seq<ExpandedRange>)
    requires forall n :: lo <= n < hi ==> Covered(expanded, n)
    ensures NewSide(ContextRows(lo, hi, delta, headLines, split)) == NewCellsOf(lo, hi, expanded, headLines)
    ensures OldSide(ContextRows(lo, hi, delta, headLines, split)) == OldCellsOf(lo, hi, delta, expanded, headLines)
    decreases hi - lo
  {
    hide FlatMap, Covered, TextAt, NewSide, OldSide, ContextRows;
    if lo < hi {
      ContextRowsSides(lo + 1, hi, delta, headLines, split, expanded);
      FirstContextRow(lo, hi, delta, headLines, split);
      ContextRowCells(lo, delta, headLines, split, expanded);
      SidesAppend([ContextRow(lo, delta, headLines, split)], ContextRows(lo + 1, hi, delta, headLines, split));
    } else {
      NoContextRows(lo, hi, delta, headLines, split);
    }
  }

  lemma FirstContextRow(lo: int, hi: int, delta: int, headLines: seq<string>, split: bool)
    requires lo < hi
    ensures ContextRows(lo, hi, delta, headLines, split)
         == [ContextRow(lo, delta, headLines, split)] + ContextRows(lo + 1, hi, delta, headLines, split)
  {
    hide TextAt;
  }

  lemma NoContextRows(lo: int, hi: int, delta: int, headLines: seq<string>, split: bool)
    requires hi <= lo
    ensures var rows := ContextRows(lo, hi, delta, headLines, split); NewSide(rows) == [] && OldSide(rows) == []
  {
  }

  lemma ContextRowCells(n: int, delta: int, headLines: seq<string>, split: bool, expanded: seq<ExpandedRange>)
    requires Covered(expanded, n)
    ensures NewSide([ContextRow(n, delta, headLines, split)]) == [NewCellAt(n, expanded, headLines)]
    ensures OldSide([ContextRow(n, delta, headLines, split)]) == [OldCellAt(n, delta, expanded, headLines)]
  {
    hide NewSide, OldSide, Covered, TextAt;
    SidesOne(ContextRow(n, delta, headLines, split));
  }

  lemma GapSides(lo: int, hi: int, delta: int, expanded: seq<ExpandedRange>, headLines: seq<string>)
    requires forall n :: lo <= n <= hi ==> !Covered(expanded, n)
    ensures NewSide(GapIfAny(lo, hi, delta)) == NewCellsOf(lo, hi + 1, expanded, headLines)
    ensures OldSide(GapIfAny(lo, hi, delta)) == OldCellsOf(lo, hi + 1, delta, expanded, headLines)
  {
    hide Covered;
    CellsIndexed(lo, hi + 1, delta, expanded, headLines);
    if lo <= hi {
      SidesOne(GapRow(lo, hi, delta));
    }
  }

  lemma DropFirstRange(expanded: seq<ExpandedRange>, n: int)
    requires expanded != []
    ensures Covered(expanded, n) <==> Covered(expanded[1..], n) || expanded[0].fromNew <= n <= expanded[0].toNew
  {
    assert expanded == [expanded[0]] + expanded[1..];
  }

  /** Past `cursor`, the first range no longer matters once it ends before it. */
  lemma {:induction false} CellsWithoutFirst(lo: int, hi: int, delta: int, expanded: seq<ExpandedRange>,
                                             headLines: seq<string>)
    requires expanded != []
    requires hi <= lo || expanded[0].toNew < lo
    ensures NewCellsOf(lo, hi, expanded, headLines) == NewCellsOf(lo, hi, expanded[1..], headLines)
    ensures OldCellsOf(lo, hi, delta, expanded, headLines) == OldCellsOf(lo, hi, delta, expanded[1..], headLines)
    decreases hi - lo
  {
    if lo < hi {
      hide Covered;
      DropFirstRange(expanded, lo);
      CellsWithoutFirst(lo + 1, hi, delta, expanded, headLines);
    }
  }

  lemma UncoveredBeforeFirst(expanded: seq<ExpandedRange>, n: int)
    requires Normal(expanded) && (expanded != [] ==> n < expanded[0].fromNew)
    ensures !Covered(expanded, n)
  {
    forall r | r in expanded
      ensures n < r.fromNew
    {
      var i :| 0 <= i < |expanded| && expanded[i] == r;
      assert expanded[0] in expanded;
    }
  }

  lemma TakenRangeSides(region: GapRegion, cursor: int, from: int, to: int, expanded: seq<ExpandedRange>,
                        headLines: seq<string>, split: bool)
    requires Normal(expanded) && expanded != []
    requires from == Max(expanded[0].fromNew, cursor) && to == Min(expanded[0].toNew, region.newEnd) && from <= to
    ensures var rows := GapIfAny(cursor, from - 1, region.delta)
                      + ContextRows(from, to + 1, region.delta, headLines, split);
      && NewSide(rows) == NewCellsOf(cursor, to + 1, expanded, headLines)
      && OldSide(rows) == OldCellsOf(cursor, to + 1, region.delta, expanded, headLines)
  {
    forall n | cursor <= n <= from - 1
      ensures !Covered(expanded, n)
    {
      UncoveredBeforeFirst(expanded, n);
    }
    forall n | from <= n < to + 1
      ensures Covered(expanded, n)
    {
      DropFirstRange(expanded, n);
    }
    hide NewCellsOf, OldCellsOf, NewCellAt, OldCellAt, ContextRows, GapIfAny, NewSide, OldSide;
    GapSides(cursor, from - 1, region.delta, expanded, headLines);
    ContextRowsSides(from, to + 1, region.delta, headLines, split, expanded);
    SidesAppend(GapIfAny(cursor, from - 1, region.delta), ContextRows(from, to + 1, region.delta, headLines, split));
    CellsSplit(cursor, from, to + 1, region.delta, expanded, headLines);
  }

  /**
   * The rows of a region account for every line of it once and in order, and line n is
   * visible exactly when some range covers it.
   */
  lemma {:induction false} RowsFromSides(region: GapRegion, cursor: int, expanded: seq<ExpandedRange>,
                                         headLines: seq<string>, split: bool)
    requires Normal(expanded) && cursor <= region.newEnd + 1
    ensures NewSide(RowsFrom(region, cursor, expanded, headLines, split))
         == NewCellsOf(cursor, region.newEnd + 1, expanded, headLines)
    ensures OldSide(RowsFrom(region, cursor, expanded, headLines, split))
         == OldCellsOf(cursor, region.newEnd + 1, region.delta, expanded, headLines)
    decreases |expanded|
  {
    hide NewCellsOf, OldCellsOf, NewCellAt, OldCellAt, ContextRows, GapIfAny, NewSide, OldSide;
    var end, delta := region.newEnd, region.delta;
    if expanded == [] || (expanded[0].toNew >= cursor && expanded[0].fromNew > end) {
      forall n | cursor <= n <= end
        ensures !Covered(expanded, n)
      {
        UncoveredBeforeFirst(expanded, n);
      }
      GapSides(cursor, end, delta, expanded, headLines);
    } else {
      var rest := expanded[1..];
      var from, to := Max(expanded[0].fromNew, cursor), Min(expanded[0].toNew, end);
      if expanded[0].toNew < cursor || to < from {
        RowsFromSides(region, cursor, rest, headLines, split);
        CellsWithoutFirst(cursor, end + 1, delta, expanded, headLines);
      } else {
        RowsFromSides(region, to + 1, rest, headLines, split);
        TakenRangeSides(region, cursor, from, to, expanded, headLines, split);
        CellsWithoutFirst(to + 1, end + 1, delta, expanded, headLines);
        CellsSplit(cursor, to + 1, end + 1, delta, expanded, headLines);
        SidesAppend(GapIfAny(cursor, from - 1, delta) + ContextRows(from, to + 1, delta, headLines, split),
                    RowsFrom(region, to + 1, rest, headLines, split));
      }
    }
  }
}

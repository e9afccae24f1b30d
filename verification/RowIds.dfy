/** Row identities, and what stays put when more lines are expanded. */
module RowIds {
  import opened Sequences
  import opened ExpandedRanges
  import opened WordSpans
  import opened DiffModel
  import opened GapRows
  import opened HunkRows
  import opened FileRows
  import opened Reconstruction
  import Decimals

  // ----- the shape of every row

  function NewNumbers(row: DiffRow): seq<int> { Numbers(NewCells(row)) }
  function OldNumbers(row: DiffRow): seq<int> { Numbers(OldCells(row)) }

  /** A non-empty interval whose two sides differ by one constant. */
  predicate GapShaped(g: GapInfo)
  {
    && g.newStart <= g.newEnd
    && g.oldEnd - g.oldStart == g.newEnd - g.newStart
    && g.count == g.newEnd - g.newStart + 1
  }

  /** A row's identity names a line that the row itself accounts for, of the old file only if it shows no other. */
  predicate Anchored(row: DiffRow)
  {
    match row.id
    case L(n) => row.Line? && n in NewNumbers(row)
    case R(n) => row.Pair? && n in NewNumbers(row)
    case O(n) => (row.Line? || row.Pair?) && NewCells(row) == [] && n in OldNumbers(row)
    case GapAt(n) => row.Gap? && n == row.gap.newStart && GapShaped(row.gap)
    case HunkAt(_) => row.HunkHeader?
  }

  lemma GapStartsAtItsId(row: DiffRow)
    requires Anchored(row) && row.id.GapAt?
    ensures row.id.n in NewNumbers(row)
  {
    assert NewNumbers(row)[0] == row.gap.newStart;
  }

  lemma ShownLineNumbers(line: DiffLine, spans: Spans)
    ensures !line.Del? ==> line.newLine in Numbers(NewLineCells(line, spans))
    ensures !line.Add? ==> line.oldLine in Numbers(OldLineCells(line, spans))
  {
    if !line.Del? {
      assert Numbers(NewLineCells(line, spans))[0] == line.newLine;
    }
    if !line.Add? {
      assert Numbers(OldLineCells(line, spans))[0] == line.oldLine;
    }
  }

  lemma {:induction false} RegionRowShapes(region: GapRegion, cursor: int, expanded: seq<ExpandedRange>,
                                           headLines: seq<string>, split: bool)
    ensures forall row :: row in RowsFrom(region, cursor, expanded, headLines, split) ==>
      Anchored(row) && (row.Gap? || (row.id.L? || row.id.R?))
    decreases |expanded|
  {
    if expanded != [] {
      RegionRowShapes(region, cursor, expanded[1..], headLines, split);
      RegionRowShapes(region, Min(expanded[0].toNew, region.newEnd) + 1, expanded[1..], headLines, split);
      var from, to := Max(expanded[0].fromNew, cursor), Min(expanded[0].toNew, region.newEnd);
      var shown := ContextRows(from, to + 1, region.delta, headLines, split);
      forall row | row in shown
        ensures Anchored(row) && (row.id.L? || row.id.R?)
      {
        var i :| 0 <= i < |shown| && shown[i] == row;
        assert row == ContextRow(from + i, region.delta, headLines, split);
        ShownLineNumbers(Context(from + i + region.delta, from + i, TextAt(headLines, from + i)), None);
      }
    }
  }

  lemma {:induction false} UnifiedRowShapes(lines: seq<DiffLine>, spans: SpanMap, i: nat)
    ensures forall row :: row in UnifiedFrom(lines, spans, i) ==> Anchored(row) && row.Line?
    decreases |lines| - i
  {
    if i < |lines| {
      UnifiedRowShapes(lines, spans, i + 1);
      ShownLineNumbers(lines[i], Lookup(spans, i));
    }
  }

  lemma {:induction false} RunRowShapes(lines: seq<DiffLine>, spans: SpanMap, dels: seq<nat>, adds: seq<nat>, k: nat)
    requires RunOf(lines, |lines|, dels, adds)
    ensures forall row :: row in RunRowsFrom(lines, spans, dels, adds, k) ==> Anchored(row) && row.Pair?
    decreases |dels| + |adds| - k
  {
    if k < |dels| || k < |adds| {
      RunRowShapes(lines, spans, dels, adds, k + 1);
      if k < |adds| {
        ShownLineNumbers(lines[adds[k]], Lookup(spans, adds[k]));
      } else {
        ShownLineNumbers(lines[dels[k]], Lookup(spans, dels[k]));
      }
    }
  }

  lemma {:induction false} SplitRowShapes(lines: seq<DiffLine>, spans: SpanMap, i: nat, dels: seq<nat>, adds: seq<nat>)
    requires RunOf(lines, i, dels, adds)
    ensures forall row :: row in SplitFrom(lines, spans, i, dels, adds) ==> Anchored(row) && row.Pair?
    decreases |lines| - i
  {
    RunRowShapes(lines, spans, dels, adds, 0);
    if i < |lines| {
      RunGrows(lines, i, dels, adds);
      match lines[i]
      case Context(_, _, _) =>
        SplitRowShapes(lines, spans, i + 1, [], []);
        ShownLineNumbers(lines[i], None);
      case Del(_, _) => SplitRowShapes(lines, spans, i + 1, dels + [i], adds);
      case Add(_, _) => SplitRowShapes(lines, spans, i + 1, dels, adds + [i]);
    }
  }

  lemma LineRowShapes(diff: WordDiff, lines: seq<DiffLine>, split: bool)
    ensures forall row :: row in LineRows(diff, lines, split) ==> Anchored(row) && (row.Line? || row.Pair?)
  {
    if split {
      SplitRowShapes(lines, HunkSpans(diff, lines), 0, [], []);
    } else {
      UnifiedRowShapes(lines, HunkSpans(diff, lines), 0);
    }
  }

  lemma RegionShapes(v: View, region: GapRegion)
    ensures forall row :: row in RegionRows(region, v.expanded, v.headLines, v.split) ==>
      Anchored(row) && !row.HunkHeader?
  {
    if v.headLines.Some? {
      RegionRowShapes(region, region.newStart, v.expanded, v.headLines.value, v.split);
    }
  }

  lemma {:induction false} RowShapes(v: View, status: FileStatus, hunks: seq<DiffHunk>, k: nat, o: int, n: int)
    ensures forall row :: row in RowsFromHunk(v, status, hunks, k, o, n) ==> Anchored(row)
    decreases |hunks| - k
  {
    hide RegionRows, LineRows;
    if k >= |hunks| {
      if v.headLines.Some? {
        RegionShapes(v, GapRegion(n, |v.headLines.value|, o - n));
      }
    } else {
      var h := hunks[k];
      RegionShapes(v, GapRegion(n, h.NewFrom() - 1, o - n));
      LineRowShapes(v.diff, h.lines, v.split);
      RowShapes(v, status, hunks, k + 1, h.OldFrom() + h.oldLines, h.NewFrom() + h.newLines);
    }
  }

  // ----- header indices

  function HeaderIndex(row: DiffRow): seq<int>
  {
    if row.HunkHeader? && row.id.HunkAt? then [row.id.index] else []
  }

  lemma {:induction false} NoHeaders(rows: seq<DiffRow>)
    requires forall row :: row in rows ==> !row.HunkHeader?
    ensures FlatMap(HeaderIndex, rows) == []
  {
    if rows != [] {
      NoHeaders(rows[1..]);
    }
  }

  lemma {:induction false} HeadersInOrder(v: View, status: FileStatus, hunks: seq<DiffHunk>, k: nat, o: int, n: int)
    requires k <= |hunks|
    ensures FlatMap(HeaderIndex, RowsFromHunk(v, status, hunks, k, o, n)) == Range(k, |hunks|)
    decreases |hunks| - k
  {
    hide RegionRows, LineRows, FlatMap;
    if k == |hunks| {
      if v.headLines.Some? {
        RegionShapes(v, GapRegion(n, |v.headLines.value|, o - n));
      }
      NoHeaders(RowsFromHunk(v, status, hunks, k, o, n));
    } else {
      var h := hunks[k];
      var gap, lines := GapBefore(v, status, h, o, n), LineRows(v.diff, h.lines, v.split);
      var header := HunkHeader(HunkAt(k), h.header);
      var rest := RowsFromHunk(v, status, hunks, k + 1, h.OldFrom() + h.oldLines, h.NewFrom() + h.newLines);
      RegionShapes(v, GapRegion(n, h.NewFrom() - 1, o - n));
      LineRowShapes(v.diff, h.lines, v.split);
      NoHeaders(gap);
      NoHeaders(lines);
      HeadersInOrder(v, status, hunks, k + 1, h.OldFrom() + h.oldLines, h.NewFrom() + h.newLines);
      FlatMapAppend(HeaderIndex, gap + ([header] + lines), rest);
      FlatMapAppend(HeaderIndex, gap, [header] + lines);
      FlatMapAppend(HeaderIndex, [header], lines);
      FlatMapOne(HeaderIndex, header);
    }
  }

  // ----- identities are distinct

  lemma {:induction false} NumbersOfSides(rows: seq<DiffRow>)
    ensures Numbers(NewSide(rows)) == FlatMap(NewNumbers, rows)
    ensures Numbers(OldSide(rows)) == FlatMap(OldNumbers, rows)
  {
    if rows != [] {
      NumbersOfSides(rows[1..]);
      assert NewSide(rows) == NewCells(rows[0]) + NewSide(rows[1..]);
      assert OldSide(rows) == OldCells(rows[0]) + OldSide(rows[1..]);
    }
  }

  lemma SameIdMeansSameRow(rows: seq<DiffRow>, i: nat, j: nat)
    requires i < j < |rows| && Anchored(rows[i]) && Anchored(rows[j])
    requires Increasing(FlatMap(NewNumbers, rows)) && Increasing(FlatMap(OldNumbers, rows))
    requires Increasing(FlatMap(HeaderIndex, rows))
    ensures rows[i].id != rows[j].id
  {
    if rows[i].id == rows[j].id {
      match rows[i].id
      case L(n) => FlatMapOrdered(NewNumbers, rows, i, j, n, n);
      case R(n) => FlatMapOrdered(NewNumbers, rows, i, j, n, n);
      case O(n) => FlatMapOrdered(OldNumbers, rows, i, j, n, n);
      case GapAt(n) =>
        GapStartsAtItsId(rows[i]);
        GapStartsAtItsId(rows[j]);
        FlatMapOrdered(NewNumbers, rows, i, j, n, n);
      case HunkAt(k) => FlatMapOrdered(HeaderIndex, rows, i, j, k, k);
    }
  }

  /** The string a row is keyed by. */
  function Rendered(id: RowId): string
    requires id.HunkAt? || id.n >= 0
  {
    match id
    case L(n) => "L" + Decimals.Print(n)
    case R(n) => "R" + Decimals.Print(n)
    case O(n) => "O" + Decimals.Print(n)
    case GapAt(n) => "gap:" + Decimals.Print(n)
    case HunkAt(i) => "hunk:" + Decimals.Print(i)
  }

  function Tag(id: RowId): string
  {
    match id case L(_) => "L" case R(_) => "R" case O(_) => "O" case GapAt(_) => "gap:" case HunkAt(_) => "hunk:"
  }

  function Number(id: RowId): int
  {
    if id.HunkAt? then id.index else id.n
  }

  lemma RenderedInjective(a: RowId, b: RowId)
    requires (a.HunkAt? || a.n >= 0) && (b.HunkAt? || b.n >= 0)
    requires Rendered(a) == Rendered(b)
    ensures a == b
  {
    assert Rendered(a)[0] == Tag(a)[0] && Rendered(b)[0] == Tag(b)[0];
    assert Tag(a) == Tag(b);
    assert Rendered(a)[|Tag(a)|..] == Decimals.Print(Number(a));
    assert Rendered(b)[|Tag(b)|..] == Decimals.Print(Number(b));
    Decimals.PrintInjective(Number(a), Number(b));
  }

  lemma RowsInLineOrder(v: View, model: FileDiffModel)
    requires Normal(v.expanded) && WellFormed(model)
    ensures var rows := RowsOfView(v, model);
      && Increasing(FlatMap(NewNumbers, rows)) && Increasing(FlatMap(OldNumbers, rows))
      && (forall x :: x in FlatMap(NewNumbers, rows) || x in FlatMap(OldNumbers, rows) ==> x >= 1)
  {
    hide FlatMap, RowsOfView;
    Coverage(v, model);
    NumbersOfSides(RowsOfView(v, model));
  }

  /** Within one layout no two rows share an identity, even as the strings the viewer uses. */
  lemma IdsDistinct(v: View, model: FileDiffModel, i: nat, j: nat)
    requires Normal(v.expanded) && WellFormed(model)
    requires i < j < |RowsOfView(v, model)|
    ensures var a, b := RowsOfView(v, model)[i].id, RowsOfView(v, model)[j].id;
      && (a.HunkAt? || a.n >= 1) && (b.HunkAt? || b.n >= 1)
      && Rendered(a) != Rendered(b)
  {
    hide FlatMap, RowsFromHunk, Rendered;
    var rows := RowsOfView(v, model);
    RowsInLineOrder(v, model);
    RowShapes(v, model.status, model.hunks, 0, 1, 1);
    HeadersInOrder(v, model.status, model.hunks, 0, 1, 1);
    SameIdMeansSameRow(rows, i, j);
    IdPositive(rows, i);
    IdPositive(rows, j);
    if Rendered(rows[i].id) == Rendered(rows[j].id) {
      RenderedInjective(rows[i].id, rows[j].id);
    }
  }

  lemma IdPositive(rows: seq<DiffRow>, i: nat)
    requires i < |rows| && Anchored(rows[i])
    requires forall x :: x in FlatMap(NewNumbers, rows) || x in FlatMap(OldNumbers, rows) ==> x >= 1
    ensures rows[i].id.HunkAt? || rows[i].id.n >= 1
  {
    match rows[i].id
    case L(n) => FlatMapMember(NewNumbers, rows, i, n);
    case R(n) => FlatMapMember(NewNumbers, rows, i, n);
    case O(n) => FlatMapMember(OldNumbers, rows, i, n);
    case GapAt(n) =>
      GapStartsAtItsId(rows[i]);
      FlatMapMember(NewNumbers, rows, i, n);
    case HunkAt(_) =>
  }
}

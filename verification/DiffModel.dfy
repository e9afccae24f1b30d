/** The structured form of one changed file, and the rows a viewer shows for it. */
module DiffModel {
  import opened Sequences
  import opened WordSpans

  /** A marker-stripped line. The kind decides which of the two line numbers exist. */
  datatype DiffLine =
    | Context(oldLine: int, newLine: int, text: string)
    | Add(newLine: int, text: string)
    | Del(oldLine: int, text: string)

  datatype DiffHunk = DiffHunk(oldStart: nat, oldLines: nat, newStart: nat, newLines: nat,
                               header: string, lines: seq<DiffLine>)
  {
    /** First old line the hunk owns; a side with no lines starts one before the change. */
    function OldFrom(): nat { if oldLines > 0 then oldStart else oldStart + 1 }
    function NewFrom(): nat { if newLines > 0 then newStart else newStart + 1 }
  }

  datatype FileStatus = Added | Modified | Removed | Renamed

  datatype FileDiffModel = FileDiffModel(status: FileStatus, binary: bool, tooLarge: bool, hunks: seq<DiffHunk>)

  /** A still-collapsed run of pure context. Both ranges are inclusive. */
  datatype GapInfo = GapInfo(oldStart: int, oldEnd: int, newStart: int, newEnd: int, count: int)

  type Spans = Option<seq<WordSpan>>

  datatype RowId = L(n: int) | R(n: int) | O(n: int) | GapAt(n: int) | HunkAt(index: nat)

  datatype DiffRow =
    | Gap(id: RowId, gap: GapInfo)
    | HunkHeader(id: RowId, header: string)
    | Line(id: RowId, line: DiffLine, wordSpans: Spans)
    | Pair(id: RowId, left: Option<DiffLine>, right: Option<DiffLine>, wordSpansLeft: Spans, wordSpansRight: Spans)

  /** Collapsed context in new-file coordinates; old line = new line + delta throughout. */
  datatype GapRegion = GapRegion(newStart: int, newEnd: int, delta: int)

  // ----- what a row shows of each file

  /** One line of one file as the rows account for it: visible with its text, or folded away. */
  datatype Cell = Shown(number: int, text: string, spans: Spans) | Folded(number: int)

  function NewLineCells(line: DiffLine, spans: Spans): seq<Cell>
  {
    if line.Del? then [] else [Shown(line.newLine, line.text, spans)]
  }

  function OldLineCells(line: DiffLine, spans: Spans): seq<Cell>
  {
    if line.Add? then [] else [Shown(line.oldLine, line.text, spans)]
  }

  function FoldedCells(lo: int, hi: int): (cells: seq<Cell>)
  {
    if hi <= lo then [] else seq(hi - lo, i => Folded(lo + i))
  }

  function NewCells(row: DiffRow): seq<Cell>
  {
    match row
    case Gap(_, g) => FoldedCells(g.newStart, g.newEnd + 1)
    case HunkHeader(_, _) => []
    case Line(_, line, spans) => NewLineCells(line, spans)
    case Pair(_, _, right, _, spans) => if right.Some? then NewLineCells(right.value, spans) else []
  }

  function OldCells(row: DiffRow): seq<Cell>
  {
    match row
    case Gap(_, g) => FoldedCells(g.oldStart, g.oldEnd + 1)
    case HunkHeader(_, _) => []
    case Line(_, line, spans) => OldLineCells(line, spans)
    case Pair(_, left, _, spans, _) => if left.Some? then OldLineCells(left.value, spans) else []
  }

  function NewSide(rows: seq<DiffRow>): seq<Cell> { FlatMap(NewCells, rows) }

  function OldSide(rows: seq<DiffRow>): seq<Cell> { FlatMap(OldCells, rows) }

  function Numbers(cells: seq<Cell>): (r: seq<int>)
    ensures |r| == |cells|
  {
    seq(|cells|, i requires 0 <= i < |cells| => cells[i].number)
  }

  lemma SidesAppend(a: seq<DiffRow>, b: seq<DiffRow>)
    ensures NewSide(a + b) == NewSide(a) + NewSide(b)
    ensures OldSide(a + b) == OldSide(a) + OldSide(b)
  {
    FlatMapAppend(NewCells, a, b);
    FlatMapAppend(OldCells, a, b);
  }

  lemma SidesOne(row: DiffRow)
    ensures NewSide([row]) == NewCells(row)
    ensures OldSide([row]) == OldCells(row)
  {
    FlatMapOne(NewCells, row);
    FlatMapOne(OldCells, row);
  }
}

/** Rows for the lines of one hunk, in the unified and in the split layout. */
module HunkRows {
  import opened Sequences
  import opened WordSpans
  import opened DiffModel

  /** Emphasis per line, keyed by the line's position in its hunk. */
  type SpanMap = map<nat, Spans>

  function Lookup(spans: SpanMap, i: nat): Spans
  {
    if i in spans then spans[i] else None
  }

  function Side(r: Option<SpanPair>, del: bool): Spans
  {
    if r.None? then None else Some(if del then r.value.del else r.value.add)
  }

  /** `lines` at these positions, for the two buffers of a pending del/add run. */
  ghost predicate RunOf(lines: seq<DiffLine>, i: nat, dels: seq<nat>, adds: seq<nat>)
  {
    && i <= |lines|
    && (forall k :: 0 <= k < |dels| ==> dels[k] < i && lines[dels[k]].Del?)
    && (forall k :: 0 <= k < |adds| ==> adds[k] < i && lines[adds[k]].Add?)
  }

  lemma RunGrows(lines: seq<DiffLine>, i: nat, dels: seq<nat>, adds: seq<nat>)
    requires RunOf(lines, i, dels, adds) && i < |lines|
    ensures RunOf(lines, i + 1, [], [])
    ensures lines[i].Del? ==> RunOf(lines, i + 1, dels + [i], adds)
    ensures lines[i].Add? ==> RunOf(lines, i + 1, dels, adds + [i])
  {
  }

  // ----- emphasis of a hunk

  /** Emphasis for the pairs k, k + 1, ... of a run. */
  function PairSpansFrom(diff: WordDiff, lines: seq<DiffLine>, dels: seq<nat>, adds: seq<nat>, k: nat): SpanMap
    requires forall j :: 0 <= j < |dels| ==> dels[j] < |lines|
    requires forall j :: 0 <= j < |adds| ==> adds[j] < |lines|
    decreases |dels| - k
  {
    if k >= |dels| || k >= |adds| then map[] else
      var r := Intraline(diff, lines[dels[k]].text, lines[adds[k]].text);
      map[dels[k] := Side(r, true), adds[k] := Side(r, false)] + PairSpansFrom(diff, lines, dels, adds, k + 1)
  }

  function SpansFrom(diff: WordDiff, lines: seq<DiffLine>, i: nat, dels: seq<nat>, adds: seq<nat>): SpanMap
    requires RunOf(lines, i, dels, adds)
    decreases |lines| - i
  {
    if i == |lines| then PairSpansFrom(diff, lines, dels, adds, 0)
    else
      match lines[i]
      case Context(_, _, _) => PairSpansFrom(diff, lines, dels, adds, 0) + SpansFrom(diff, lines, i + 1, [], [])
      case Del(_, _) => SpansFrom(diff, lines, i + 1, dels + [i], adds)
      case Add(_, _) => SpansFrom(diff, lines, i + 1, dels, adds + [i])
  }

  function HunkSpans(diff: WordDiff, lines: seq<DiffLine>): SpanMap
  {
    SpansFrom(diff, lines, 0, [], [])
  }

  // ----- rows

  function UnifiedRow(lines: seq<DiffLine>, spans: SpanMap, i: nat): DiffRow
    requires i < |lines|
  {
    Line(if lines[i].Del? then O(lines[i].oldLine) else L(lines[i].newLine), lines[i], Lookup(spans, i))
  }

  function UnifiedFrom(lines: seq<DiffLine>, spans: SpanMap, i: nat): seq<DiffRow>
    decreases |lines| - i
  {
    if i >= |lines| then [] else [UnifiedRow(lines, spans, i)] + UnifiedFrom(lines, spans, i + 1)
  }

  /** Row k of a run: the k-th del beside the k-th add, the shorter side left empty. */
  function RunRow(lines: seq<DiffLine>, spans: SpanMap, dels: seq<nat>, adds: seq<nat>, k: nat): DiffRow
    requires k < |dels| || k < |adds|
    requires forall j :: 0 <= j < |dels| ==> dels[j] < |lines| && lines[dels[j]].Del?
    requires forall j :: 0 <= j < |adds| ==> adds[j] < |lines| && lines[adds[j]].Add?
  {
    var left := if k < |dels| then Some(lines[dels[k]]) else None;
    var spansLeft := if k < |dels| then Lookup(spans, dels[k]) else None;
    if k < |adds| then
      Pair(R(lines[adds[k]].newLine), left, Some(lines[adds[k]]), spansLeft, Lookup(spans, adds[k]))
    else
      Pair(O(lines[dels[k]].oldLine), left, None, spansLeft, None)
  }

  function RunRowsFrom(lines: seq<DiffLine>, spans: SpanMap, dels: seq<nat>, adds: seq<nat>, k: nat): seq<DiffRow>
    requires forall j :: 0 <= j < |dels| ==> dels[j] < |lines| && lines[dels[j]].Del?
    requires forall j :: 0 <= j < |adds| ==> adds[j] < |lines| && lines[adds[j]].Add?
    decreases |dels| + |adds| - k
  {
    if k >= |dels| && k >= |adds| then [] else
      [RunRow(lines, spans, dels, adds, k)] + RunRowsFrom(lines, spans, dels, adds, k + 1)
  }

  function ContextPair(line: DiffLine): DiffRow
    requires line.Context?
  {
    Pair(R(line.newLine), Some(line), Some(line), None, None)
  }

  function SplitFrom(lines: seq<DiffLine>, spans: SpanMap, i: nat, dels: seq<nat>, adds: seq<nat>): seq<DiffRow>
    requires RunOf(lines, i, dels, adds)
    decreases |lines| - i
  {
    if i == |lines| then RunRowsFrom(lines, spans, dels, adds, 0)
    else
      match lines[i]
      case Context(_, _, _) =>
        RunRowsFrom(lines, spans, dels, adds, 0) + [ContextPair(lines[i])] + SplitFrom(lines, spans, i + 1, [], [])
      case Del(_, _) => SplitFrom(lines, spans, i + 1, dels + [i], adds)
      case Add(_, _) => SplitFrom(lines, spans, i + 1, dels, adds + [i])
  }

  function LineRows(diff: WordDiff, lines: seq<DiffLine>, split: bool): seq<DiffRow>
  {
    var spans := HunkSpans(diff, lines);
    if split then SplitFrom(lines, spans, 0, [], []) else UnifiedFrom(lines, spans, 0)
  }

  // ----- the two layouts show the same lines with the same emphasis

  /** New-side cells of the buffered adds from the k-th on, and old-side cells of the buffered dels. */
  function AddCells(lines: seq<DiffLine>, spans: SpanMap, adds: seq<nat>, k: nat): seq<Cell>
    requires forall j :: 0 <= j < |adds| ==> adds[j] < |lines|
    decreases |adds| - k
  {
    if k >= |adds| then [] else
      NewLineCells(lines[adds[k]], Lookup(spans, adds[k])) + AddCells(lines, spans, adds, k + 1)
  }

  function DelCells(lines: seq<DiffLine>, spans: SpanMap, dels: seq<nat>, k: nat): seq<Cell>
    requires forall j :: 0 <= j < |dels| ==> dels[j] < |lines|
    decreases |dels| - k
  {
    if k >= |dels| then [] else
      OldLineCells(lines[dels[k]], Lookup(spans, dels[k])) + DelCells(lines, spans, dels, k + 1)
  }

  lemma {:induction false} RunRowsSides(lines: seq<DiffLine>, spans: SpanMap, dels: seq<nat>, adds: seq<nat>, k: nat)
    requires forall j :: 0 <= j < |dels| ==> dels[j] < |lines| && lines[dels[j]].Del?
    requires forall j :: 0 <= j < |adds| ==> adds[j] < |lines| && lines[adds[j]].Add?
    ensures NewSide(RunRowsFrom(lines, spans, dels, adds, k)) == AddCells(lines, spans, adds, k)
    ensures OldSide(RunRowsFrom(lines, spans, dels, adds, k)) == DelCells(lines, spans, dels, k)
    decreases |dels| + |adds| - k
  {
    if k < |dels| || k < |adds| {
      hide FlatMap;
      var row, rest := RunRow(lines, spans, dels, adds, k), RunRowsFrom(lines, spans, dels, adds, k + 1);
      RunRowsSides(lines, spans, dels, adds, k + 1);
      SidesOne(row);
      SidesAppend([row], rest);
    }
  }

  lemma {:induction false} AddCellsAppend(lines: seq<DiffLine>, spans: SpanMap, adds: seq<nat>, i: nat, k: nat)
    requires i < |lines| && k <= |adds|
    requires forall j :: 0 <= j < |adds| ==> adds[j] < |lines|
    ensures AddCells(lines, spans, adds + [i], k)
         == AddCells(lines, spans, adds, k) + NewLineCells(lines[i], Lookup(spans, i))
    decreases |adds| - k
  {
    hide NewLineCells, Lookup;
    if k < |adds| {
      AddCellsAppend(lines, spans, adds, i, k + 1);
    } else {
      assert AddCells(lines, spans, adds + [i], k + 1) == [];
    }
  }

  lemma {:induction false} DelCellsAppend(lines: seq<DiffLine>, spans: SpanMap, dels: seq<nat>, i: nat, k: nat)
    requires i < |lines| && k <= |dels|
    requires forall j :: 0 <= j < |dels| ==> dels[j] < |lines|
    ensures DelCells(lines, spans, dels + [i], k)
         == DelCells(lines, spans, dels, k) + OldLineCells(lines[i], Lookup(spans, i))
    decreases |dels| - k
  {
    hide OldLineCells, Lookup;
    if k < |dels| {
      DelCellsAppend(lines, spans, dels, i, k + 1);
    } else {
      assert DelCells(lines, spans, dels + [i], k + 1) == [];
    }
  }

  ghost predicate NoContextSpans(lines: seq<DiffLine>, spans: SpanMap)
  {
    forall i: nat :: i < |lines| && lines[i].Context? ==> i !in spans
  }

  lemma UnifiedStep(lines: seq<DiffLine>, spans: SpanMap, i: nat)
    requires i < |lines|
    ensures NewSide(UnifiedFrom(lines, spans, i))
         == NewLineCells(lines[i], Lookup(spans, i)) + NewSide(UnifiedFrom(lines, spans, i + 1))
    ensures OldSide(UnifiedFrom(lines, spans, i))
         == OldLineCells(lines[i], Lookup(spans, i)) + OldSide(UnifiedFrom(lines, spans, i + 1))
  {
    hide FlatMap;
    var row, rest := UnifiedRow(lines, spans, i), UnifiedFrom(lines, spans, i + 1);
    SidesOne(row);
    SidesAppend([row], rest);
  }

  lemma RunThenContext(lines: seq<DiffLine>, spans: SpanMap, i: nat, dels: seq<nat>, adds: seq<nat>, rest: seq<DiffRow>)
    requires RunOf(lines, i, dels, adds) && i < |lines| && lines[i].Context? && i !in spans
    ensures var rows := RunRowsFrom(lines, spans, dels, adds, 0) + [ContextPair(lines[i])] + rest;
      && NewSide(rows) == AddCells(lines, spans, adds, 0) + (NewLineCells(lines[i], Lookup(spans, i)) + NewSide(rest))
      && OldSide(rows) == DelCells(lines, spans, dels, 0) + (OldLineCells(lines[i], Lookup(spans, i)) + OldSide(rest))
  {
    hide NewSide, OldSide;
    RunRowsSides(lines, spans, dels, adds, 0);
    var run, row := RunRowsFrom(lines, spans, dels, adds, 0), ContextPair(lines[i]);
    SidesAppend(run + [row], rest);
    SidesAppend(run, [row]);
    SidesOne(row);
  }

  /** A split layout shows, side by side, the buffered run and then what the unified layout shows. */
  lemma {:induction false} SplitSides(lines: seq<DiffLine>, spans: SpanMap, i: nat, dels: seq<nat>, adds: seq<nat>)
    requires RunOf(lines, i, dels, adds) && NoContextSpans(lines, spans)
    ensures NewSide(SplitFrom(lines, spans, i, dels, adds))
         == AddCells(lines, spans, adds, 0) + NewSide(UnifiedFrom(lines, spans, i))
    ensures OldSide(SplitFrom(lines, spans, i, dels, adds))
         == DelCells(lines, spans, dels, 0) + OldSide(UnifiedFrom(lines, spans, i))
    decreases |lines| - i
  {
    hide FlatMap, NewSide, OldSide, AddCells, DelCells, UnifiedFrom, RunRowsFrom;
    if i == |lines| {
      RunRowsSides(lines, spans, dels, adds, 0);
      NoMoreRows(lines, spans);
    } else {
      RunGrows(lines, i, dels, adds);
      UnifiedStep(lines, spans, i);
      match lines[i]
      case Context(_, _, _) =>
        SplitSides(lines, spans, i + 1, [], []);
        NoCells(lines, spans);
        RunThenContext(lines, spans, i, dels, adds, SplitFrom(lines, spans, i + 1, [], []));
      case Del(_, _) =>
        SplitSides(lines, spans, i + 1, dels + [i], adds);
        DelCellsAppend(lines, spans, dels, i, 0);
      case Add(_, _) =>
        SplitSides(lines, spans, i + 1, dels, adds + [i]);
        AddCellsAppend(lines, spans, adds, i, 0);
    }
  }

  lemma NoMoreRows(lines: seq<DiffLine>, spans: SpanMap)
    ensures NewSide(UnifiedFrom(lines, spans, |lines|)) == [] && OldSide(UnifiedFrom(lines, spans, |lines|)) == []
  {
  }

  lemma NoCells(lines: seq<DiffLine>, spans: SpanMap)
    ensures AddCells(lines, spans, [], 0) == [] && DelCells(lines, spans, [], 0) == []
  {
  }
}

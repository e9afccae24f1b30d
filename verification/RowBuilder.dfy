/** The viewer's row builder: one growing row list that every step pushes onto. */
module RowBuilder {
  import opened Sequences
  import opened ExpandedRanges
  import opened WordSpans
  import opened DiffModel
  import opened GapRows
  import opened HunkRows
  import opened FileRows

  class RowList {
    var rows: seq<DiffRow>

    constructor ()
      ensures rows == []
    {
      rows := [];
    }

    method PushGap(newStart: int, newEnd: int, delta: int)
      modifies this
      ensures rows == old(rows) + [GapRow(newStart, newEnd, delta)]
    {
      var gap := GapInfo(newStart + delta, newEnd + delta, newStart, newEnd, newEnd - newStart + 1);
      rows := rows + [Gap(GapAt(newStart), gap)];
    }

    /** Gap rows for the collapsed parts of a region, context rows for its expanded parts. */
    method EmitGapRegion(region: GapRegion, expanded: seq<ExpandedRange>, headLines: Option<seq<string>>, split: bool)
      modifies this
      ensures rows == old(rows) + RegionRows(region, expanded, headLines, split)
    {
      if region.newEnd < region.newStart {
        return;
      }
      if headLines.None? {
        PushGap(region.newStart, region.newEnd, region.delta);
        return;
      }
      ghost var goal := rows + RowsFrom(region, region.newStart, expanded, headLines.value, split);
      var cursor := region.newStart;
      var k := 0;
      while k < |expanded|
        invariant 0 <= k <= |expanded|
        invariant rows + RowsFrom(region, cursor, expanded[k..], headLines.value, split) == goal
      {
        var range := expanded[k];
        assert expanded[k..][1..] == expanded[k + 1..];
        if range.toNew < cursor {
          k := k + 1;
          continue;
        }
        if range.fromNew > region.newEnd {
          break;
        }
        var from := Max(range.fromNew, cursor);
        var to := Min(range.toNew, region.newEnd);
        if to < from {
          k := k + 1;
          continue;
        }
        ghost var before, rest := rows, RowsFrom(region, to + 1, expanded[k + 1..], headLines.value, split);
        if from > cursor {
          PushGap(cursor, from - 1, region.delta);
        }
        assert rows == before + GapIfAny(cursor, from - 1, region.delta);
        EmitContext(from, to, region.delta, headLines.value, split);
        AppendFour(before, GapIfAny(cursor, from - 1, region.delta),
                   ContextRows(from, to + 1, region.delta, headLines.value, split), rest);
        cursor := to + 1;
        k := k + 1;
      }
      if cursor <= region.newEnd {
        PushGap(cursor, region.newEnd, region.delta);
      }
    }

    /** Context rows synthesized from the head file for the lines from..to. */
    method EmitContext(from: int, to: int, delta: int, headLines: seq<string>, split: bool)
      requires from <= to
      modifies this
      ensures rows == old(rows) + ContextRows(from, to + 1, delta, headLines, split)
    {
      var n := from;
      while n <= to
        invariant from <= n <= to + 1
        invariant rows == old(rows) + ContextRows(from, n, delta, headLines, split)
      {
        var line := Context(n + delta, n, TextAt(headLines, n));
        if split {
          rows := rows + [Pair(R(n), Some(line), Some(line), None, None)];
        } else {
          rows := rows + [Line(L(n), line, None)];
        }
        assert ContextRows(from, n + 1, delta, headLines, split)
            == ContextRows(from, n, delta, headLines, split) + [ContextRow(n, delta, headLines, split)];
        n := n + 1;
      }
    }

    method EmitUnifiedLines(lines: seq<DiffLine>, spans: SpanMap)
      modifies this
      ensures rows == old(rows) + UnifiedFrom(lines, spans, 0)
    {
      for i := 0 to |lines|
        invariant rows + UnifiedFrom(lines, spans, i) == old(rows) + UnifiedFrom(lines, spans, 0)
      {
        var line := lines[i];
        var id := if line.Del? then O(line.oldLine) else L(line.newLine);
        rows := rows + [Line(id, line, Lookup(spans, i))];
      }
    }

    /** Rows for one finished run of changed lines. */
    method FlushRun(lines: seq<DiffLine>, spans: SpanMap, dels: seq<nat>, adds: seq<nat>)
      requires RunOf(lines, |lines|, dels, adds)
      modifies this
      ensures rows == old(rows) + RunRowsFrom(lines, spans, dels, adds, 0)
    {
      var count := Max(|dels|, |adds|);
      for k := 0 to count
        invariant rows + RunRowsFrom(lines, spans, dels, adds, k)
               == old(rows) + RunRowsFrom(lines, spans, dels, adds, 0)
      {
        var left := if k < |dels| then Some(lines[dels[k]]) else None;
        var spansLeft := if k < |dels| then Lookup(spans, dels[k]) else None;
        if k < |adds| {
          var right := lines[adds[k]];
          rows := rows + [Pair(R(right.newLine), left, Some(right), spansLeft, Lookup(spans, adds[k]))];
        } else {
          rows := rows + [Pair(O(lines[dels[k]].oldLine), left, None, spansLeft, None)];
        }
      }
    }

    method EmitSplitLines(lines: seq<DiffLine>, spans: SpanMap)
      modifies this
      ensures rows == old(rows) + SplitFrom(lines, spans, 0, [], [])
    {
      var dels: seq<nat>, adds: seq<nat> := [], [];
      for i := 0 to |lines|
        invariant RunOf(lines, i, dels, adds)
        invariant rows + SplitFrom(lines, spans, i, dels, adds) == old(rows) + SplitFrom(lines, spans, 0, [], [])
      {
        RunGrows(lines, i, dels, adds);
        match lines[i]
        case Context(_, _, _) =>
          ghost var before := rows;
          FlushRun(lines, spans, dels, adds);
          rows := rows + [Pair(R(lines[i].newLine), Some(lines[i]), Some(lines[i]), None, None)];
          AppendFour(before, RunRowsFrom(lines, spans, dels, adds, 0), [ContextPair(lines[i])],
                     SplitFrom(lines, spans, i + 1, [], []));
          dels, adds := [], [];
        case Del(_, _) => dels := dels + [i];
        case Add(_, _) => adds := adds + [i];
      }
      FlushRun(lines, spans, dels, adds);
    }
  }

  lemma AppendFour<T>(a: seq<T>, b: seq<T>, c: seq<T>, d: seq<T>)
    ensures a + (b + c + d) == a + b + c + d
  {
  }

  lemma MapAppendPair<K, V>(m: map<K, V>, k1: K, v1: V, k2: K, v2: V, rest: map<K, V>)
    ensures m + (map[k1 := v1, k2 := v2] + rest) == m[k1 := v1][k2 := v2] + rest
  {
  }

  /** Emphasis for every paired line of a hunk, found by buffering dels and adds up to each context line. */
  method ComputeIntralineSpans(diff: WordDiff, lines: seq<DiffLine>) returns (spans: SpanMap)
    ensures spans == HunkSpans(diff, lines)
  {
    spans := map[];
    var dels: seq<nat>, adds: seq<nat> := [], [];
    for i := 0 to |lines|
      invariant RunOf(lines, i, dels, adds)
      invariant spans + SpansFrom(diff, lines, i, dels, adds) == HunkSpans(diff, lines)
    {
      RunGrows(lines, i, dels, adds);
      match lines[i]
      case Context(_, _, _) =>
        var paired := PairRun(diff, lines, dels, adds);
        spans := spans + paired;
        dels, adds := [], [];
      case Del(_, _) => dels := dels + [i];
      case Add(_, _) => adds := adds + [i];
    }
    var paired := PairRun(diff, lines, dels, adds);
    spans := spans + paired;
  }

  /** Emphasis for one finished run. */
  method PairRun(diff: WordDiff, lines: seq<DiffLine>, dels: seq<nat>, adds: seq<nat>) returns (spans: SpanMap)
    requires RunOf(lines, |lines|, dels, adds)
    ensures spans == PairSpansFrom(diff, lines, dels, adds, 0)
  {
    hide Intraline;
    spans := map[];
    var pairs := Min(|dels|, |adds|);
    for k := 0 to pairs
      invariant spans + PairSpansFrom(diff, lines, dels, adds, k) == PairSpansFrom(diff, lines, dels, adds, 0)
    {
      var result := IntralineDiff(diff, lines[dels[k]].text, lines[adds[k]].text);
      MapAppendPair(spans, dels[k], Side(result, true), adds[k], Side(result, false),
                    PairSpansFrom(diff, lines, dels, adds, k + 1));
      spans := spans[dels[k] := if result.None? then None else Some(result.value.del)];
      spans := spans[adds[k] := if result.None? then None else Some(result.value.add)];
    }
  }

  /** The gap before one hunk, its header and its lines. */
  method EmitHunk(list: RowList, v: View, status: FileStatus, hunk: DiffHunk, index: nat, oldNext: int, newNext: int)
    modifies list
    ensures list.rows == old(list.rows) + GapBefore(v, status, hunk, oldNext, newNext) + HunkBlock(v, hunk, index)
  {
    hide RegionRows, HunkSpans, SplitFrom, UnifiedFrom;
    if !status.Added? {
      var gapNewEnd := if hunk.newLines > 0 then hunk.newStart - 1 else hunk.newStart;
      list.EmitGapRegion(GapRegion(newNext, gapNewEnd, oldNext - newNext), v.expanded, v.headLines, v.split);
    }
    list.rows := list.rows + [HunkHeader(HunkAt(index), hunk.header)];
    var spans := ComputeIntralineSpans(v.diff, hunk.lines);
    if v.split {
      list.EmitSplitLines(hunk.lines, spans);
    } else {
      list.EmitUnifiedLines(hunk.lines, spans);
    }
  }

  method BuildRows(diff: WordDiff, model: FileDiffModel, split: bool,
                   expandedRanges: seq<ExpandedRange>, headBlobContent: Option<string>)
    returns (rows: seq<DiffRow>)
    ensures rows == Rows(diff, model, split, expandedRanges, headBlobContent)
  {
    hide RegionRows, HunkBlock, GapBefore, NormalForm, HeadLines;
    if model.binary || model.tooLarge {
      return [];
    }
    var list := new RowList();
    var headLines := HeadLines(headBlobContent);
    var expanded := NormalizeExpanded(expandedRanges);
    var hasGaps := !model.status.Added?;
    var v := View(diff, split, expanded, headLines);

    if |model.hunks| == 0 {
      if hasGaps && !model.status.Removed? && headLines.Some? && |headLines.value| > 0 {
        list.EmitGapRegion(GapRegion(1, |headLines.value|, 0), expanded, headLines, split);
      }
      return list.rows;
    }

    var oldNext, newNext := 1, 1;
    for index := 0 to |model.hunks|
      invariant list.rows + RowsFromHunk(v, model.status, model.hunks, index, oldNext, newNext) == RowsOfView(v, model)
    {
      var hunk := model.hunks[index];
      ghost var before := list.rows;
      EmitHunk(list, v, model.status, hunk, index, oldNext, newNext);
      AppendFour(before, GapBefore(v, model.status, hunk, oldNext, newNext), HunkBlock(v, hunk, index),
                 RowsFromHunk(v, model.status, model.hunks, index + 1, hunk.OldFrom() + hunk.oldLines,
                              hunk.NewFrom() + hunk.newLines));
      oldNext := if hunk.oldLines > 0 then hunk.oldStart + hunk.oldLines else hunk.oldStart + 1;
      newNext := if hunk.newLines > 0 then hunk.newStart + hunk.newLines else hunk.newStart + 1;
    }

    if hasGaps && !model.status.Removed? && headLines.Some? && |headLines.value| >= newNext {
      list.EmitGapRegion(GapRegion(newNext, |headLines.value|, oldNext - newNext), expanded, headLines, split);
    }
    return list.rows;
  }
}

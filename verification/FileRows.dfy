/** The whole row list of one file: gaps, hunk headers and hunk lines. */
module FileRows {
  import opened Sequences
  import opened ExpandedRanges
  import opened WordSpans
  import opened TextLines
  import opened DiffModel
  import opened GapRows
  import opened HunkRows

  /** What the viewer asked for, with the expansion already in normal form. */
  datatype View = View(diff: WordDiff, split: bool, expanded: seq<ExpandedRange>, headLines: Option<seq<string>>)

  function HeadLines(headBlob: Option<string>): Option<seq<string>>
  {
    if headBlob.None? then None else Some(Lines(headBlob.value))
  }

  function GapBefore(v: View, status: FileStatus, h: DiffHunk, oldNext: int, newNext: int): seq<DiffRow>
  {
    if status.Added? then []
    else RegionRows(GapRegion(newNext, h.NewFrom() - 1, oldNext - newNext), v.expanded, v.headLines, v.split)
  }

  function GapAfter(v: View, status: FileStatus, oldNext: int, newNext: int): seq<DiffRow>
  {
    if status.Added? || status.Removed? || v.headLines.None? || |v.headLines.value| < newNext then []
    else RegionRows(GapRegion(newNext, |v.headLines.value|, oldNext - newNext), v.expanded, v.headLines, v.split)
  }

  function HunkBlock(v: View, h: DiffHunk, index: nat): seq<DiffRow>
  {
    [HunkHeader(HunkAt(index), h.header)] + LineRows(v.diff, h.lines, v.split)
  }

  function RowsFromHunk(v: View, status: FileStatus, hunks: seq<DiffHunk>, k: nat, oldNext: int,
                        newNext: int): seq<DiffRow>
    decreases |hunks| - k
  {
    if k >= |hunks| then GapAfter(v, status, oldNext, newNext)
    else
      var h := hunks[k];
      GapBefore(v, status, h, oldNext, newNext) + HunkBlock(v, h, k)
      + RowsFromHunk(v, status, hunks, k + 1, h.OldFrom() + h.oldLines, h.NewFrom() + h.newLines)
  }

  function RowsOfView(v: View, model: FileDiffModel): seq<DiffRow>
  {
    if model.binary || model.tooLarge then [] else RowsFromHunk(v, model.status, model.hunks, 0, 1, 1)
  }

  function Rows(diff: WordDiff, model: FileDiffModel, split: bool,
                expanded: seq<ExpandedRange>, headBlob: Option<string>): seq<DiffRow>
  {
    RowsOfView(View(diff, split, NormalForm(expanded), HeadLines(headBlob)), model)
  }
}

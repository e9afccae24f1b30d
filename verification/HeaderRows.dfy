/** Where each hunk's header row stands: after every line before the hunk and before its own. */
module HeaderRows {
  import opened Sequences
  import opened ExpandedRanges
  import opened WordSpans
  import opened DiffModel
  import opened GapRows
  import opened HunkRows
  import opened HunkPairing
  import opened FileRows
  import opened Reconstruction

  lemma ConsecutiveJoin(a: seq<Cell>, b: seq<Cell>, lo: int, mid: int, hi: int)
    requires Consecutive(a, lo, mid) && Consecutive(b, mid, hi)
    ensures Consecutive(a + b, lo, hi)
  {
  }

  /** The rows up to the end of a hunk account for the lines up to its end. */
  lemma LinesOfBlock(v: View, status: FileStatus, h: DiffHunk, index: nat, o: int, n: int)
    requires Normal(v.expanded) && HunkNumbered(h) && h.OldFrom() - o == h.NewFrom() - n >= 0
    requires status.Added? ==> h.NewFrom() == n
    ensures var gap := GapBefore(v, status, h, o, n);
      && Consecutive(NewSide(gap), n, h.NewFrom()) && Consecutive(OldSide(gap), o, h.OldFrom())
      && Consecutive(NewSide(gap + HunkBlock(v, h, index)), n, h.NewFrom() + h.newLines)
      && Consecutive(OldSide(gap + HunkBlock(v, h, index)), o, h.OldFrom() + h.oldLines)
  {
    hide HunkBlock, LineRows, RegionRows, Consecutive, NewCellsOf, OldCellsOf, HunkNumbered;
    var gap := GapBefore(v, status, h, o, n);
    CellsConsecutive(n, h.NewFrom(), o - n, Effective(v), HeadText(v));
    if status.Added? {
      NothingBefore(n, o);
    } else {
      RegionSides(v, GapRegion(n, h.NewFrom() - 1, o - n));
    }
    BlockSides(v, h, index);
    HunkConsecutive(v.diff, h);
    hide NewSide, OldSide;
    SidesAppend(gap, HunkBlock(v, h, index));
    ConsecutiveJoin(NewSide(gap), NewSide(HunkBlock(v, h, index)), n, h.NewFrom(), h.NewFrom() + h.newLines);
    ConsecutiveJoin(OldSide(gap), OldSide(HunkBlock(v, h, index)), o, h.OldFrom(), h.OldFrom() + h.oldLines);
  }

  lemma NothingBefore(n: int, o: int)
    ensures Consecutive(NewSide([]), n, n) && Consecutive(OldSide([]), o, o)
  {
  }

  lemma {:induction false} HeaderPlaceFrom(v: View, status: FileStatus, hunks: seq<DiffHunk>, k: nat, o: int, n: int,
                                           j: nat)
    returns (at: nat)
    requires Normal(v.expanded) && Aligned(hunks, k, o, n) && k <= j < |hunks|
    requires status.Added? ==> Gapless(hunks, k, n)
    ensures var rows := RowsFromHunk(v, status, hunks, k, o, n);
      && at < |rows| && rows[at] == HunkHeader(HunkAt(j), hunks[j].header)
      && Consecutive(NewSide(rows[..at]), n, hunks[j].NewFrom())
      && Consecutive(OldSide(rows[..at]), o, hunks[j].OldFrom())
    decreases j - k
  {
    hide NewSide, OldSide, LineRows, Consecutive, HunkNumbered, GapBefore;
    var h := hunks[k];
    var gap, block := GapBefore(v, status, h, o, n), HunkBlock(v, h, k);
    var o1, n1 := h.OldFrom() + h.oldLines, h.NewFrom() + h.newLines;
    var rest := RowsFromHunk(v, status, hunks, k + 1, o1, n1);
    var rows := RowsFromHunk(v, status, hunks, k, o, n);
    LinesOfBlock(v, status, h, k, o, n);
    if j == k {
      at := |gap|;
      assert rows[..at] == gap && rows[at] == block[0];
    } else {
      var later := HeaderPlaceFrom(v, status, hunks, k + 1, o1, n1, j);
      at := |gap + block| + later;
      assert rows[..at] == (gap + block) + rest[..later] && rows[at] == rest[later];
      SidesAppend(gap + block, rest[..later]);
      ConsecutiveJoin(NewSide(gap + block), NewSide(rest[..later]), n, n1, hunks[j].NewFrom());
      ConsecutiveJoin(OldSide(gap + block), OldSide(rest[..later]), o, o1, hunks[j].OldFrom());
    }
  }

  /**
   * Every hunk has a header row with its own text. The rows above it account for exactly the lines of both
   * files that come before the hunk, so those below it account for the hunk's own lines and all later ones.
   */
  lemma HeaderPlace(v: View, model: FileDiffModel, j: nat) returns (at: nat)
    requires Normal(v.expanded) && WellFormed(model) && j < |model.hunks|
    ensures var h := model.hunks[j];
      var rows := RowsOfView(v, model);
      && at < |rows| && rows[at] == HunkHeader(HunkAt(j), h.header)
      && Consecutive(NewSide(rows[..at]), 1, if h.newLines > 0 then h.newStart else h.newStart + 1)
      && Consecutive(OldSide(rows[..at]), 1, if h.oldLines > 0 then h.oldStart else h.oldStart + 1)
  {
    at := HeaderPlaceFrom(v, model.status, model.hunks, 0, 1, 1, j);
  }
}

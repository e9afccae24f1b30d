/** From the text of a patch to rows that show both files. */
module PatchPipeline {
  import opened Sequences
  import opened ExpandedRanges
  import opened WordSpans
  import opened TextLines
  import opened DiffModel
  import opened FileRows
  import opened Reconstruction
  import opened Fidelity
  import opened Expansion
  import opened PatchParser
  import opened PatchRoundTrip

  /** A changed file as the host lists it; `binaryName` says its extension is a known binary one. */
  datatype PullFile = PullFile(status: FileStatus, patch: Option<string>, binaryName: bool)

  function ParsePatch(file: PullFile): FileDiffModel
  {
    if file.patch.None? then FileDiffModel(file.status, file.binaryName, !file.binaryName, [])
    else FileDiffModel(file.status, false, false, Parse(file.patch.value))
  }

  /** A side with no lines may start anywhere: its cursor is never used. */
  lemma {:induction false} NumberedIsSequential(lines: seq<DiffLine>, i: nat, o: int, n: int, oEnd: int, nEnd: int,
                                                o': int, n': int)
    requires Numbered(lines, i, o, n, oEnd, nEnd)
    requires (o' == o || oEnd == o) && (n' == n || nEnd == n)
    ensures o <= oEnd && n <= nEnd && Sequential(lines, i, o', n')
    decreases |lines| - i
  {
    if i < |lines| {
      match lines[i]
      case Context(_, _, _) => NumberedIsSequential(lines, i + 1, o + 1, n + 1, oEnd, nEnd, o + 1, n + 1);
      case Del(_, _) => NumberedIsSequential(lines, i + 1, o + 1, n, oEnd, nEnd, o + 1, n');
      case Add(_, _) => NumberedIsSequential(lines, i + 1, o, n + 1, oEnd, nEnd, o', n + 1);
    }
  }

  lemma {:induction false} AlignedHunksNumbered(hunks: seq<DiffHunk>, k: nat, o: int, n: int)
    requires Aligned(hunks, k, o, n)
    ensures forall j :: k <= j < |hunks| ==> HunkNumbered(hunks[j])
    decreases |hunks| - k
  {
    if k < |hunks| {
      AlignedHunksNumbered(hunks, k + 1, hunks[k].OldFrom() + hunks[k].oldLines,
                           hunks[k].NewFrom() + hunks[k].newLines);
    }
  }

  lemma NumberedHunkIsOk(h: PrintedHunk)
    requires HunkShape(h) && HunkNumbered(HunkOf(h))
    ensures HunkOk(h)
  {
    hide HunkShape;
    var d := HunkOf(h);
    NumberedIsSequential(d.lines, 0, d.OldFrom(), d.NewFrom(), d.OldFrom() + d.oldLines, d.NewFrom() + d.newLines,
                         d.oldStart, d.newStart);
  }

  lemma AlignedPrintingIsOk(p: PrintedPatch)
    requires PreambleOk(p) && (forall h :: h in p.hunks ==> HunkShape(h))
    requires Aligned(HunksOf(p.hunks), 0, 1, 1)
    ensures PatchOk(p)
  {
    hide HunkShape, HunkOk, HunkNumbered, HunkOf;
    AlignedHunksNumbered(HunksOf(p.hunks), 0, 1, 1);
    forall h | h in p.hunks
      ensures HunkOk(h)
    {
      var j :| 0 <= j < |p.hunks| && p.hunks[j] == h;
      assert HunksOf(p.hunks)[j] == HunkOf(h);
      NumberedHunkIsOk(h);
    }
  }

  /**
   * Print any patch between two files, parse the text, expand everything: the rows hold no gap,
   * their right side reads as the head file and their left side as the base file.
   */
  lemma PatchTextShowsBothFiles(p: PrintedPatch, status: FileStatus, binaryName: bool, diff: WordDiff, split: bool,
                                expanded: seq<ExpandedRange>, base: seq<string>, headBlob: string)
    requires PreambleOk(p) && (forall h :: h in p.hunks ==> HunkShape(h))
    requires PatchBetween(FileDiffModel(status, false, false, HunksOf(p.hunks)), base, Lines(headBlob))
    requires forall n :: 1 <= n <= |Lines(headBlob)| ==> Requested(expanded, n)
    ensures var model := ParsePatch(PullFile(status, Some(Terminated(Raws(p))), binaryName));
      var rows := Rows(diff, model, split, expanded, Some(headBlob));
      && (forall c :: c in NewSide(rows) || c in OldSide(rows) ==> c.Shown?)
      && Texts(NewSide(rows)) == Lines(headBlob)
      && Texts(OldSide(rows)) == base
  {
    AlignedPrintingIsOk(p);
    RoundTrip(p);
    var model := FileDiffModel(status, false, false, HunksOf(p.hunks));
    FullExpansionShowsBothFiles(diff, model, split, expanded, headBlob, base);
  }

  lemma {:induction false} NumberedNoLonger(lines: seq<DiffLine>, x: DiffLine, i: nat, o: int, n: int, oEnd: int,
                                            nEnd: int)
    requires i <= |lines| && Numbered(lines, i, o, n, oEnd, nEnd)
    ensures !Numbered(lines + [x], i, o, n, oEnd, nEnd)
    decreases |lines| - i
  {
    if i < |lines| {
      match lines[i]
      case Context(_, _, _) => NumberedNoLonger(lines, x, i + 1, o + 1, n + 1, oEnd, nEnd);
      case Del(_, _) => NumberedNoLonger(lines, x, i + 1, o + 1, n, oEnd, nEnd);
      case Add(_, _) => NumberedNoLonger(lines, x, i + 1, o, n + 1, oEnd, nEnd);
    } else {
      assert i + 1 >= |lines + [x]|;
    }
  }

  /** A hunk that a following line bled into runs past what its header declares. */
  lemma BledHunkLeavesItsHeader(p: PrintedPatch, raw: string)
    requires PatchOk(p) && p.hunks != [] && OneLine(raw) && ReadHeader(raw).None? && (raw != "" ==> raw[0] != '\\')
    requires HunkNumbered(HunksOf(p.hunks)[|p.hunks| - 1])
    ensures var bled := Parse(Terminated(Raws(p) + [raw]));
      |bled| == |p.hunks| && !HunkNumbered(bled[|p.hunks| - 1])
  {
    hide PatchOk, Parse, Raws, Terminated, ReadHeader, OldCount, NewCount, HunksOf, HunkNumbered;
    FollowingFileBleedsIn(p, raw);
    ExtendedLeavesItsHeader(HunksOf(p.hunks)[|p.hunks| - 1], raw);
  }

  lemma ExtendedLeavesItsHeader(h: DiffHunk, raw: string)
    requires HunkNumbered(h)
    ensures !HunkNumbered(Extended(h, raw))
  {
    hide OldCount, NewCount, AsLine;
    var line := AsLine(raw, h.oldStart + OldCount(h.lines), h.newStart + NewCount(h.lines));
    NumberedNoLonger(h.lines, line, 0, h.OldFrom(), h.NewFrom(), h.OldFrom() + h.oldLines, h.NewFrom() + h.newLines);
  }
}

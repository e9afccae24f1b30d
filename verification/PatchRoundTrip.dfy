/** Printing hunks as a unified diff and parsing the text back. */
module PatchRoundTrip {
  import opened Sequences
  import opened TextLines
  import opened Decimals
  import opened DiffModel
  import opened PatchParser

  // ----- what a producer may print

  /** One hunk line: `bare` leaves out a context line's leading space; notes are `\ ...` lines after it. */
  datatype PrintedLine = PrintedLine(line: DiffLine, bare: bool, notes: seq<string>)

  /** One hunk: a count of 1 may be omitted, and any heading may follow the closing `@@`. */
  datatype PrintedHunk = PrintedHunk(oldStart: nat, oldLines: nat, newStart: nat, newLines: nat,
                                     omitOld: bool, omitNew: bool, heading: string,
                                     notes: seq<string>, lines: seq<PrintedLine>)

  datatype PrintedPatch = PrintedPatch(preamble: seq<string>, hunks: seq<PrintedHunk>)

  function RangeText(start: nat, count: nat, omit: bool): string
  {
    Print(start) + if omit then "" else "," + Print(count)
  }

  function HeaderText(h: PrintedHunk): string
  {
    "@@ -" + (RangeText(h.oldStart, h.oldLines, h.omitOld)
              + (" +" + (RangeText(h.newStart, h.newLines, h.omitNew) + (" @@" + h.heading))))
  }

  function RawLine(p: PrintedLine): string
  {
    match p.line
    case Add(_, text) => "+" + text
    case Del(_, text) => "-" + text
    case Context(_, _, text) => if p.bare then text else " " + text
  }

  function RawsOfLine(p: PrintedLine): seq<string> { [RawLine(p)] + p.notes }

  function RawsOfHunk(h: PrintedHunk): seq<string>
  {
    [HeaderText(h)] + (h.notes + FlatMap(RawsOfLine, h.lines))
  }

  function Raws(p: PrintedPatch): seq<string>
  {
    p.preamble + FlatMap(RawsOfHunk, p.hunks)
  }

  function LinesOf(ps: seq<PrintedLine>): (r: seq<DiffLine>)
    ensures |r| == |ps|
  {
    seq(|ps|, i requires 0 <= i < |ps| => ps[i].line)
  }

  /** The hunk a printed hunk stands for. */
  function HunkOf(h: PrintedHunk): DiffHunk
  {
    DiffHunk(h.oldStart, h.oldLines, h.newStart, h.newLines, HeaderText(h), LinesOf(h.lines))
  }

  function HunksOf(hs: seq<PrintedHunk>): (r: seq<DiffHunk>)
    ensures |r| == |hs|
  {
    seq(|hs|, i requires 0 <= i < |hs| => HunkOf(hs[i]))
  }

  // ----- when the printing is readable

  predicate IsNote(s: string)
  {
    s != "" && s[0] == '\\' && OneLine(s)
  }

  /** Without its space a context line must not look like anything else. */
  predicate BareOk(text: string)
  {
    text == "" || (text[0] !in {' ', '+', '-', '\\'} && ReadHeader(text).None?)
  }

  predicate LineOk(p: PrintedLine)
  {
    && OneLine(p.line.text)
    && (forall s :: s in p.notes ==> IsNote(s))
    && (p.bare && p.line.Context? ==> BareOk(p.line.text))
  }

  /** Lines i, i + 1, ... carry consecutive numbers from o and n. */
  predicate Sequential(lines: seq<DiffLine>, i: nat, o: int, n: int)
    decreases |lines| - i
  {
    i >= |lines| ||
    match lines[i]
    case Context(a, b, _) => a == o && b == n && Sequential(lines, i + 1, o + 1, n + 1)
    case Del(a, _) => a == o && Sequential(lines, i + 1, o + 1, n)
    case Add(b, _) => b == n && Sequential(lines, i + 1, o, n + 1)
  }

  predicate HunkShape(h: PrintedHunk)
  {
    && (h.omitOld ==> h.oldLines == 1) && (h.omitNew ==> h.newLines == 1)
    && OneLine(h.heading)
    && (forall s :: s in h.notes ==> IsNote(s))
    && (forall p :: p in h.lines ==> LineOk(p))
  }

  predicate HunkOk(h: PrintedHunk)
  {
    HunkShape(h) && Sequential(LinesOf(h.lines), 0, h.oldStart, h.newStart)
  }

  predicate PreambleOk(p: PrintedPatch)
  {
    forall s :: s in p.preamble ==> OneLine(s) && ReadHeader(s).None?
  }

  predicate PatchOk(p: PrintedPatch)
  {
    PreambleOk(p) && forall h :: h in p.hunks ==> HunkOk(h)
  }

  // ----- headers

  lemma {:induction false} DigitRunOfNumber(digits: string, tail: string)
    requires forall i :: 0 <= i < |digits| ==> IsDigit(digits[i])
    requires tail == "" || !IsDigit(tail[0])
    ensures DigitRun(digits + tail) == |digits|
  {
    if digits == "" {
      assert digits + tail == tail;
    } else {
      assert (digits + tail)[1..] == digits[1..] + tail;
      DigitRunOfNumber(digits[1..], tail);
    }
  }

  lemma StartAlone(start: nat, tail: string)
    requires tail != "" && !IsDigit(tail[0])
    ensures var s := Print(start) + tail;
      DigitRun(s) == |Print(start)| && s[..|Print(start)|] == Print(start) && s[|Print(start)|..] == tail
    ensures Value(Print(start)) == start
  {
    hide Print, Value;
    ValueOfPrint(start);
    DigitRunOfNumber(Print(start), tail);
  }

  lemma ReadRangeOfText(start: nat, count: nat, omit: bool, tail: string)
    requires omit ==> count == 1
    requires tail != "" && !IsDigit(tail[0]) && tail[0] != ','
    ensures ReadRange(RangeText(start, count, omit) + tail) == Some(SideRange(start, count, tail))
  {
    hide Print, Value, DigitRun;
    var a, b := Print(start), Print(count);
    if omit {
      assert RangeText(start, count, omit) + tail == a + tail;
      StartAlone(start, tail);
    } else {
      var rest := "," + b + tail;
      assert RangeText(start, count, omit) + tail == a + rest;
      StartAlone(start, rest);
      StartAlone(count, tail);
      assert rest[1..] == b + tail;
      assert rest[1..1 + |b|] == rest[1..][..|b|] && rest[1 + |b|..] == rest[1..][|b|..];
    }
  }

  lemma ReadHeaderOfText(h: PrintedHunk)
    requires HunkOk(h)
    ensures ReadHeader(HeaderText(h)) == Some(HeaderFields(h.oldStart, h.oldLines, h.newStart, h.newLines))
  {
    hide ReadRange, RangeText;
    var tail2 := " @@" + h.heading;
    var tail1 := " +" + (RangeText(h.newStart, h.newLines, h.omitNew) + tail2);
    var raw := "@@ -" + (RangeText(h.oldStart, h.oldLines, h.omitOld) + tail1);
    assert raw == HeaderText(h);
    assert raw[4..] == RangeText(h.oldStart, h.oldLines, h.omitOld) + tail1;
    assert tail1[0] == ' ' && tail2[0] == ' ';
    assert tail1[2..] == RangeText(h.newStart, h.newLines, h.omitNew) + tail2;
    ReadRangeOfText(h.oldStart, h.oldLines, h.omitOld, tail1);
    ReadRangeOfText(h.newStart, h.newLines, h.omitNew, tail2);
  }

  lemma NotAHeader(raw: string)
    requires raw != "" ==> raw[0] != '@'
    ensures ReadHeader(raw).None?
  {
  }

  // ----- lines

  lemma {:induction false} NotesIgnored(st: ParseState, notes: seq<string>)
    requires st.hunks != [] && forall s :: s in notes ==> IsNote(s)
    ensures st.Run(notes) == st
  {
    if notes != [] {
      assert IsNote(notes[0]);
      NotAHeader(notes[0]);
      NotesIgnored(st, notes[1..]);
    }
  }

  ghost predicate Expects(st: ParseState, line: DiffLine)
  {
    && (!line.Add? ==> line.oldLine == st.oldCursor)
    && (!line.Del? ==> line.newLine == st.newCursor)
  }

  lemma ReadsLine(st: ParseState, p: PrintedLine)
    requires st.hunks != [] && LineOk(p) && Expects(st, p.line)
    ensures st.Run(RawsOfLine(p)) == st.Push(p.line)
  {
    var raw := RawLine(p);
    assert ReadHeader(raw).None? by {
      if !(p.bare && p.line.Context?) || p.line.text == "" {
        NotAHeader(raw);
      }
    }
    assert raw != "" && raw[0] in {' ', '+', '-'} && !(p.bare && p.line.Context?) ==> raw[1..] == p.line.text;
    assert st.Step(raw) == st.Push(p.line);
    NotesIgnored(st.Push(p.line), p.notes);
    assert ([raw] + p.notes)[1..] == p.notes;
  }

  /** Appends lines to the open hunk. */
  function PushAll(st: ParseState, lines: seq<DiffLine>, i: nat): ParseState
    requires st.hunks != []
    decreases |lines| - i
  {
    if i >= |lines| then st else PushAll(st.Push(lines[i]), lines, i + 1)
  }

  lemma LinesRest(st: ParseState, ps: seq<PrintedLine>, i: nat)
    requires st.hunks != [] && i <= |ps|
    ensures i == |ps| ==> st.Run(FlatMap(RawsOfLine, ps[i..])) == st == PushAll(st, LinesOf(ps), i)
    ensures i < |ps| ==> FlatMap(RawsOfLine, ps[i..]) == RawsOfLine(ps[i]) + FlatMap(RawsOfLine, ps[i + 1..])
    ensures i < |ps| ==> PushAll(st, LinesOf(ps), i) == PushAll(st.Push(ps[i].line), LinesOf(ps), i + 1)
  {
    if i < |ps| {
      assert ps[i..][1..] == ps[i + 1..];
    }
  }

  lemma {:induction false} ReadsLines(st: ParseState, ps: seq<PrintedLine>, i: nat)
    requires st.hunks != [] && i <= |ps| && forall p :: p in ps ==> LineOk(p)
    requires Sequential(LinesOf(ps), i, st.oldCursor, st.newCursor)
    ensures st.Run(FlatMap(RawsOfLine, ps[i..])) == PushAll(st, LinesOf(ps), i)
    decreases |ps| - i
  {
    hide RawsOfLine, LineOk, FlatMap, ParseState.Run, PushAll;
    LinesRest(st, ps, i);
    if i < |ps| {
      var p := ps[i];
      assert LineOk(p) && Expects(st, p.line);
      ReadsLine(st, p);
      RunAppend(st, RawsOfLine(p), FlatMap(RawsOfLine, ps[i + 1..]));
      ReadsLines(st.Push(p.line), ps, i + 1);
    }
  }

  lemma {:induction false} PushAllResult(st: ParseState, lines: seq<DiffLine>, i: nat)
    requires st.hunks != [] && i <= |lines|
    ensures var k := |st.hunks| - 1;
      PushAll(st, lines, i).hunks == st.hunks[..k] + [st.hunks[k].(lines := st.hunks[k].lines + lines[i..])]
    decreases |lines| - i
  {
    var k := |st.hunks| - 1;
    if i == |lines| {
      assert st.hunks[k].lines + lines[i..] == st.hunks[k].lines;
    } else {
      PushAllResult(st.Push(lines[i]), lines, i + 1);
      assert lines[i..] == [lines[i]] + lines[i + 1..];
      assert st.hunks[k].lines + [lines[i]] + lines[i + 1..] == st.hunks[k].lines + lines[i..];
    }
  }

  // ----- hunks

  lemma ReadsHunk(st: ParseState, h: PrintedHunk)
    requires HunkOk(h)
    ensures st.Run(RawsOfHunk(h)).hunks == st.hunks + [HunkOf(h)]
  {
    ReadHeaderOfText(h);
    var header, body := HeaderText(h), FlatMap(RawsOfLine, h.lines);
    var opened_ := st.Step(header);
    var empty := DiffHunk(h.oldStart, h.oldLines, h.newStart, h.newLines, header, []);
    assert opened_ == ParseState(st.hunks + [empty], h.oldStart, h.newStart);
    assert RawsOfHunk(h)[1..] == h.notes + body;
    RunAppend(opened_, h.notes, body);
    NotesIgnored(opened_, h.notes);
    assert h.lines[0..] == h.lines;
    ReadsLines(opened_, h.lines, 0);
    PushAllResult(opened_, LinesOf(h.lines), 0);
    assert opened_.hunks[..|st.hunks|] == st.hunks;
    assert empty.lines + LinesOf(h.lines)[0..] == LinesOf(h.lines);
  }

  lemma HunksRest(st: ParseState, hs: seq<PrintedHunk>)
    ensures hs == [] ==> st.Run(FlatMap(RawsOfHunk, hs)) == st
    ensures hs != [] ==> FlatMap(RawsOfHunk, hs) == RawsOfHunk(hs[0]) + FlatMap(RawsOfHunk, hs[1..])
  {
  }

  lemma {:induction false} ReadsHunks(st: ParseState, hs: seq<PrintedHunk>)
    requires forall h :: h in hs ==> HunkOk(h)
    ensures st.Run(FlatMap(RawsOfHunk, hs)).hunks == st.hunks + HunksOf(hs)
    decreases |hs|
  {
    hide RawsOfHunk, HunkOk, HunkOf, FlatMap, ParseState.Run;
    HunksRest(st, hs);
    if hs == [] {
      assert st.hunks + [] == st.hunks;
    } else {
      var next := st.Run(RawsOfHunk(hs[0]));
      ReadsHunk(st, hs[0]);
      RunAppend(st, RawsOfHunk(hs[0]), FlatMap(RawsOfHunk, hs[1..]));
      ReadsHunks(next, hs[1..]);
      assert HunksOf(hs) == [HunkOf(hs[0])] + HunksOf(hs[1..]);
      assert st.hunks + [HunkOf(hs[0])] + HunksOf(hs[1..]) == st.hunks + HunksOf(hs);
    }
  }

  lemma {:induction false} PreambleIgnored(lines: seq<string>)
    requires forall s :: s in lines ==> ReadHeader(s).None?
    ensures NOTHING.Run(lines) == NOTHING
  {
    if lines != [] {
      PreambleIgnored(lines[1..]);
    }
  }

  lemma ReadsPatch(p: PrintedPatch)
    requires PatchOk(p)
    ensures NOTHING.Run(Raws(p)).hunks == HunksOf(p.hunks)
  {
    RunAppend(NOTHING, p.preamble, FlatMap(RawsOfHunk, p.hunks));
    PreambleIgnored(p.preamble);
    ReadsHunks(NOTHING, p.hunks);
    assert NOTHING.hunks + HunksOf(p.hunks) == HunksOf(p.hunks);
  }

  // ----- text

  lemma PrintIsOneLine(n: nat)
    ensures OneLine(Print(n))
  {
  }

  lemma HeaderIsOneLine(h: PrintedHunk)
    requires OneLine(h.heading)
    ensures OneLine(HeaderText(h))
  {
    PrintIsOneLine(h.oldStart);
    PrintIsOneLine(h.oldLines);
    PrintIsOneLine(h.newStart);
    PrintIsOneLine(h.newLines);
  }

  lemma RawsAreLines(p: PrintedPatch)
    requires PatchOk(p)
    ensures forall s :: s in Raws(p) ==> OneLine(s)
  {
    forall s | s in FlatMap(RawsOfHunk, p.hunks)
      ensures OneLine(s)
    {
      var k := FlatMapSource(RawsOfHunk, p.hunks, s);
      var h := p.hunks[k];
      assert HunkOk(h);
      if s == HeaderText(h) {
        HeaderIsOneLine(h);
      } else if s !in h.notes {
        var j := FlatMapSource(RawsOfLine, h.lines, s);
        assert LineOk(h.lines[j]);
      }
    }
  }

  /** Parsing a printed patch gives back its hunks, with every line number. */
  lemma RoundTrip(p: PrintedPatch)
    requires PatchOk(p)
    ensures Parse(Terminated(Raws(p))) == HunksOf(p.hunks)
  {
    RawsAreLines(p);
    LinesOfTerminated(Raws(p));
    ReadsPatch(p);
  }

  /** The patch with its final newline left off. */
  function Unterminated(raws: seq<string>): string
  {
    if raws == [] then "" else Terminated(raws[..|raws| - 1]) + raws[|raws| - 1]
  }

  /** The last line printed is a hunk's empty context line without its space. */
  predicate EndsBlank(p: PrintedPatch)
  {
    p.hunks != [] && Raws(p) != [] && Raws(p)[|Raws(p)| - 1] == ""
  }

  /**
   * Without a final newline the round trip still holds, except when the last line is a context line
   * printed as nothing at all: that line is taken for the end of the text and lost.
   */
  lemma RoundTripUnterminated(p: PrintedPatch)
    requires PatchOk(p)
    ensures Parse(Unterminated(Raws(p))) == HunksOf(p.hunks) <==> !EndsBlank(p)
  {
    hide PatchOk, HunksOf, Raws, ParseState.Run, Lines, Terminated;
    var raws := Raws(p);
    RawsAreLines(p);
    ReadsPatch(p);
    if raws == [] {
      NoText();
    } else {
      var k := |raws| - 1;
      var before, last := raws[..k], raws[k];
      assert raws == before + [last];
      LinesOfUnterminated(before, last);
      if last == "" {
        HunkCounts(p);
        NotAHeader(last);
        BlankLineCounts(before);
      }
    }
  }

  /** An empty line joins the open hunk, if there is one. */
  lemma BlankLineCounts(before: seq<string>)
    ensures var was, now := NOTHING.Run(before).hunks, NOTHING.Run(before + [""]).hunks;
      (now == was <==> was == []) && (now == [] <==> was == [])
  {
    hide ReadHeader, OldCount, NewCount, ParseState.Run;
    NotAHeader("");
    if NOTHING.Run(before).hunks != [] {
      OneMoreLine(before, "");
      WithLineChanges(NOTHING.Run(before).hunks, "");
    } else {
      BlankLineBeforeHunks(before);
    }
  }

  lemma BlankLineBeforeHunks(before: seq<string>)
    requires NOTHING.Run(before).hunks == []
    ensures NOTHING.Run(before + [""]).hunks == []
  {
    RunAppend(NOTHING, before, [""]);
    assert [""][1..] == [];
    NotAHeader("");
  }

  lemma NoText()
    ensures Parse("") == NOTHING.Run([]).hunks
  {
  }

  // ----- one more line

  /** How a line inside a hunk is read when the cursors stand at o and n. */
  function AsLine(raw: string, o: nat, n: nat): DiffLine
  {
    if raw != "" && raw[0] == '+' then Add(n, raw[1..])
    else if raw != "" && raw[0] == '-' then Del(o, raw[1..])
    else Context(o, n, if raw != "" && raw[0] == ' ' then raw[1..] else raw)
  }

  function OldCount(lines: seq<DiffLine>): nat
  {
    if lines == [] then 0 else OldCount(lines[..|lines| - 1]) + if lines[|lines| - 1].Add? then 0 else 1
  }

  function NewCount(lines: seq<DiffLine>): nat
  {
    if lines == [] then 0 else NewCount(lines[..|lines| - 1]) + if lines[|lines| - 1].Del? then 0 else 1
  }

  ghost predicate CursorsFollow(st: ParseState)
  {
    st.hunks != [] ==>
      var h := st.hunks[|st.hunks| - 1];
      st.oldCursor == h.oldStart + OldCount(h.lines) && st.newCursor == h.newStart + NewCount(h.lines)
  }

  lemma PushFollows(st: ParseState, line: DiffLine)
    requires st.hunks != [] && CursorsFollow(st)
    ensures CursorsFollow(st.Push(line))
  {
    var lines := st.hunks[|st.hunks| - 1].lines;
    assert (lines + [line])[..|lines|] == lines;
  }

  /** In any text, a hunk's lines are counted from the numbers of its header. */
  lemma {:induction false} RunFollows(st: ParseState, raws: seq<string>)
    requires CursorsFollow(st)
    ensures CursorsFollow(st.Run(raws))
    decreases |raws|
  {
    hide CursorsFollow, ParseState.Push, ReadHeader;
    if raws != [] {
      StepFollows(st, raws[0]);
      RunFollows(st.Step(raws[0]), raws[1..]);
    }
  }

  lemma StepFollows(st: ParseState, raw: string)
    requires CursorsFollow(st)
    ensures CursorsFollow(st.Step(raw))
  {
    hide ReadHeader;
    if ReadHeader(raw).None? && st.hunks != [] {
      PushFollows(st, AsLine(raw, st.oldCursor, st.newCursor));
    } else if ReadHeader(raw).Some? {
      var opened_ := st.Step(raw).hunks;
      assert opened_[|opened_| - 1].lines == [];
    }
  }

  /** The hunk with one more line, numbered after those it has. */
  function Extended(h: DiffHunk, raw: string): DiffHunk
  {
    h.(lines := h.lines + [AsLine(raw, h.oldStart + OldCount(h.lines), h.newStart + NewCount(h.lines))])
  }

  /** What one more line does to the hunks read so far. */
  function WithLine(hunks: seq<DiffHunk>, raw: string): seq<DiffHunk>
    requires hunks != []
  {
    var k, f := |hunks| - 1, ReadHeader(raw);
    if f.Some? then
      hunks + [DiffHunk(f.value.oldStart, f.value.oldLines, f.value.newStart, f.value.newLines, raw, [])]
    else if raw != "" && raw[0] == '\\' then hunks
    else hunks[k := Extended(hunks[k], raw)]
  }

  /** Only a note leaves the hunks as they are. */
  lemma WithLineChanges(hunks: seq<DiffHunk>, raw: string)
    requires hunks != []
    ensures WithLine(hunks, raw) == hunks <==> raw != "" && raw[0] == '\\'
    ensures WithLine(hunks, raw) != []
  {
    hide OldCount, NewCount;
    NoteIsNoHeader(raw);
    var k := |hunks| - 1;
    if ReadHeader(raw).None? && !(raw != "" && raw[0] == '\\') {
      assert |WithLine(hunks, raw)[k].lines| == |hunks[k].lines| + 1;
    }
  }

  lemma OneMoreLine(before: seq<string>, raw: string)
    requires NOTHING.Run(before).hunks != []
    ensures NOTHING.Run(before + [raw]).hunks == WithLine(NOTHING.Run(before).hunks, raw)
  {
    hide ReadHeader, OldCount, NewCount;
    var st := NOTHING.Run(before);
    RunAppend(NOTHING, before, [raw]);
    RunFollows(NOTHING, before);
    assert [raw][1..] == [] && st.Run([raw]) == st.Step(raw);
  }

  /**
   * The line counts of a header are never used to close its hunk: whatever follows in the same text is read
   * on. The line that introduces a following file becomes the next line of the last hunk, all others staying
   * as they are, so the hunks come back unchanged exactly when the line is a note.
   */
  lemma FollowingFileBleedsIn(p: PrintedPatch, raw: string)
    requires PatchOk(p) && p.hunks != [] && OneLine(raw)
    ensures Parse(Terminated(Raws(p) + [raw])) == WithLine(HunksOf(p.hunks), raw)
    ensures Parse(Terminated(Raws(p) + [raw])) == HunksOf(p.hunks) <==> raw != "" && raw[0] == '\\'
  {
    hide PatchOk, HunksOf, Raws, ParseState.Run, Lines, Terminated, OldCount, NewCount;
    HunkCounts(p);
    RawsAreLines(p);
    LinesOfTerminated(Raws(p) + [raw]);
    ReadsPatch(p);
    OneMoreLine(Raws(p), raw);
    WithLineChanges(HunksOf(p.hunks), raw);
  }

  lemma NoteIsNoHeader(raw: string)
    ensures raw != "" && raw[0] == '\\' ==> ReadHeader(raw).None?
  {
  }

  lemma HunkCounts(p: PrintedPatch)
    ensures |HunksOf(p.hunks)| == |p.hunks|
  {
  }

  // ----- the two failures on concrete patches

  function Plain(line: DiffLine): PrintedLine { PrintedLine(line, false, []) }

  const OWN_HUNK := PrintedHunk(1, 3, 1, 3, false, false, "", [],
    [Plain(Context(1, 1, "a")), Plain(Del(2, "b")), Plain(Add(2, "B")), Plain(Context(3, 3, "c"))])

  const OWN_LINES: seq<DiffLine> := [Context(1, 1, "a"), Del(2, "b"), Add(2, "B"), Context(3, 3, "c")]

  lemma OwnHunkIsOk()
    ensures HunkOk(OWN_HUNK) && HunkOf(OWN_HUNK) == DiffHunk(1, 3, 1, 3, "@@ -1,3 +1,3 @@", OWN_LINES)
  {
    hide ReadHeader;
    assert HeaderText(OWN_HUNK) == "@@ -1,3 +1,3 @@";
    assert LinesOf(OWN_HUNK.lines) == OWN_LINES;
    assert Sequential(OWN_LINES, 3, 3, 3) && Sequential(OWN_LINES, 2, 3, 2) && Sequential(OWN_LINES, 1, 2, 2);
  }

  lemma CountsAtTheEnd(lines: seq<DiffLine>, line: DiffLine)
    ensures OldCount(lines + [line]) == OldCount(lines) + if line.Add? then 0 else 1
    ensures NewCount(lines + [line]) == NewCount(lines) + if line.Del? then 0 else 1
  {
    assert (lines + [line])[..|lines|] == lines;
  }

  lemma OwnLinesCount()
    ensures OldCount(OWN_LINES) == 3 && NewCount(OWN_LINES) == 3
  {
    hide OldCount, NewCount;
    NoLinesCount();
    var a, b, c, d := OWN_LINES[0], OWN_LINES[1], OWN_LINES[2], OWN_LINES[3];
    CountsAtTheEnd([], a);
    CountsAtTheEnd([] + [a], b);
    CountsAtTheEnd([] + [a] + [b], c);
    CountsAtTheEnd([] + [a] + [b] + [c], d);
    assert [] + [a] + [b] + [c] + [d] == OWN_LINES;
  }

  lemma NoLinesCount()
    ensures OldCount([]) == 0 && NewCount([]) == 0
  {
  }

  /** The line introducing the next file becomes line 4 of a hunk whose header declares three. */
  lemma IntroducingLineIsContext()
    ensures Parse(Terminated(Raws(PrintedPatch([], [OWN_HUNK])) + ["diff --git a/n b/n"]))
         == [DiffHunk(1, 3, 1, 3, "@@ -1,3 +1,3 @@", OWN_LINES + [Context(4, 4, "diff --git a/n b/n")])]
  {
    hide Parse, Raws, Terminated, HunkOk, OldCount, NewCount, HunkOf;
    OwnHunkIsOk();
    OwnLinesCount();
    var p, raw := PrintedPatch([], [OWN_HUNK]), "diff --git a/n b/n";
    assert HunksOf(p.hunks) == [HunkOf(OWN_HUNK)];
    FollowingFileBleedsIn(p, raw);
    NotAHeader(raw);
  }

  const BLANK_HUNK := PrintedHunk(1, 1, 1, 1, true, true, "", [], [PrintedLine(Context(1, 1, ""), true, [])])

  /** A patch of one empty context line printed as nothing: without the final newline the line is lost. */
  lemma BlankLastLineIsLost()
    ensures var p := PrintedPatch([], [BLANK_HUNK]);
      && PatchOk(p) && EndsBlank(p)
      && Unterminated(Raws(p)) == "@@ -1 +1 @@\n"
      && HunksOf(p.hunks) == [DiffHunk(1, 1, 1, 1, "@@ -1 +1 @@", [Context(1, 1, "")])]
      && Parse(Unterminated(Raws(p))) == [DiffHunk(1, 1, 1, 1, "@@ -1 +1 @@", [])]
  {
    hide ReadHeader, Parse;
    var p, header := PrintedPatch([], [BLANK_HUNK]), "@@ -1 +1 @@";
    assert HeaderText(BLANK_HUNK) == header;
    BlankRaws();
    assert LinesOf(BLANK_HUNK.lines) == [Context(1, 1, "")];
    assert HunkOf(BLANK_HUNK) == DiffHunk(1, 1, 1, 1, header, [Context(1, 1, "")]);
    assert Sequential([Context(1, 1, "")], 0, 1, 1);
    assert [header, ""][..1] == [header];
    assert Terminated([header]) == header + "\n" + Terminated([]) == header + "\n";
    assert header + "\n" + "" == header + "\n";
    HeaderAlone();
  }

  lemma BlankRaws()
    ensures Raws(PrintedPatch([], [BLANK_HUNK])) == ["@@ -1 +1 @@", ""]
  {
    hide ReadHeader;
    assert HeaderText(BLANK_HUNK) == "@@ -1 +1 @@";
    FlatMapOne(RawsOfLine, BLANK_HUNK.lines[0]);
    FlatMapOne(RawsOfHunk, BLANK_HUNK);
    assert RawsOfHunk(BLANK_HUNK) == ["@@ -1 +1 @@", ""];
  }

  lemma HeaderAlone()
    ensures Parse("@@ -1 +1 @@\n") == [DiffHunk(1, 1, 1, 1, "@@ -1 +1 @@", [])]
  {
    hide ReadHeader, Parse, Terminated;
    var h := BLANK_HUNK.(lines := []);
    var p := PrintedPatch([], [h]);
    HeaderRaws();
    HeaderAsText();
    RoundTrip(p);
    assert HunksOf(p.hunks) == [HunkOf(h)];
    assert LinesOf([]) == [];
  }

  lemma HeaderRaws()
    ensures Raws(PrintedPatch([], [BLANK_HUNK.(lines := [])])) == ["@@ -1 +1 @@"]
  {
    hide ReadHeader;
    var h := BLANK_HUNK.(lines := []);
    assert HeaderText(h) == "@@ -1 +1 @@";
    FlatMapOne(RawsOfHunk, h);
    assert RawsOfHunk(h) == ["@@ -1 +1 @@"];
  }

  lemma HeaderAsText()
    ensures Terminated(["@@ -1 +1 @@"]) == "@@ -1 +1 @@\n" && HeaderText(BLANK_HUNK.(lines := [])) == "@@ -1 +1 @@"
  {
    assert ["@@ -1 +1 @@"][1..] == [];
    assert Terminated(["@@ -1 +1 @@"]) == "@@ -1 +1 @@" + "\n" + Terminated([]);
  }
}

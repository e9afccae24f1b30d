/** Reading a unified diff into hunks, and printing hunks as one. */
module PatchParser {
  import opened Sequences
  import opened Splitting
  import opened TextLines
  import opened Decimals
  import opened DiffModel

  // ----- hunk headers

  /** How many leading characters are digits. */
  function DigitRun(s: string): (k: nat)
    ensures k <= |s| && (forall i :: 0 <= i < k ==> IsDigit(s[i])) && (k < |s| ==> !IsDigit(s[k]))
  {
    if s == "" || !IsDigit(s[0]) then 0 else 1 + DigitRun(s[1..])
  }

  datatype SideRange = SideRange(start: nat, count: nat, rest: string)

  /** `a` or `a,b`; an omitted count means 1. */
  function ReadRange(s: string): Option<SideRange>
  {
    var k := DigitRun(s);
    if k == 0 then None else
      var tail := s[k..];
      var m := if tail != "" && tail[0] == ',' then DigitRun(tail[1..]) else 0;
      if m > 0 then Some(SideRange(Value(s[..k]), Value(tail[1..1 + m]), tail[1 + m..]))
      else Some(SideRange(Value(s[..k]), 1, tail))
  }

  datatype HeaderFields = HeaderFields(oldStart: nat, oldLines: nat, newStart: nat, newLines: nat)

  function ReadHeader(raw: string): Option<HeaderFields>
  {
    if !("@@ -" <= raw) then None else
      var a := ReadRange(raw[4..]);
      if a.None? || !(" +" <= a.value.rest) then None else
        var b := ReadRange(a.value.rest[2..]);
        if b.None? || !(" @@" <= b.value.rest) then None
        else Some(HeaderFields(a.value.start, a.value.count, b.value.start, b.value.count))
  }

  // ----- the line loop

  /** Hunks so far, the last one still open, and the next line number on each side. */
  datatype ParseState = ParseState(hunks: seq<DiffHunk>, oldCursor: nat, newCursor: nat)
  {
    function Push(line: DiffLine): ParseState
      requires hunks != []
    {
      var k := |hunks| - 1;
      ParseState(hunks[k := hunks[k].(lines := hunks[k].lines + [line])],
                 if line.Add? then oldCursor else oldCursor + 1,
                 if line.Del? then newCursor else newCursor + 1)
    }

    function Step(raw: string): ParseState
    {
      var m := ReadHeader(raw);
      if m.Some? then
        var f := m.value;
        ParseState(hunks + [DiffHunk(f.oldStart, f.oldLines, f.newStart, f.newLines, raw, [])], f.oldStart, f.newStart)
      else if hunks == [] then this
      else if raw != "" && raw[0] == '\\' then this
      else if raw != "" && raw[0] == '+' then Push(Add(newCursor, raw[1..]))
      else if raw != "" && raw[0] == '-' then Push(Del(oldCursor, raw[1..]))
      else Push(Context(oldCursor, newCursor, if raw != "" && raw[0] == ' ' then raw[1..] else raw))
    }

    function Run(raws: seq<string>): ParseState
      decreases |raws|
    {
      if raws == [] then this else Step(raws[0]).Run(raws[1..])
    }
  }

  const NOTHING := ParseState([], 0, 0)

  function Parse(patch: string): seq<DiffHunk>
  {
    NOTHING.Run(Lines(patch)).hunks
  }

  method ParseHunks(patch: string) returns (hunks: seq<DiffHunk>)
    ensures hunks == Parse(patch)
  {
    hide ReadHeader;
    hunks := [];
    if patch == "" {
      return;
    }
    var rawLines := SplitOn('\n', patch);
    if rawLines[|rawLines| - 1] == "" {
      rawLines := rawLines[..|rawLines| - 1];
    }
    var oldCursor: nat, newCursor: nat := 0, 0;
    for i := 0 to |rawLines|
      invariant ParseState(hunks, oldCursor, newCursor).Run(rawLines[i..]) == NOTHING.Run(Lines(patch))
    {
      var raw := rawLines[i];
      assert rawLines[i..][1..] == rawLines[i + 1..];
      var m := ReadHeader(raw);
      if m.Some? {
        var f := m.value;
        hunks := hunks + [DiffHunk(f.oldStart, f.oldLines, f.newStart, f.newLines, raw, [])];
        oldCursor, newCursor := f.oldStart, f.newStart;
        continue;
      }
      if hunks == [] {
        continue;
      }
      var current := |hunks| - 1;
      if raw != "" && raw[0] == '\\' {
        continue;
      }
      if raw != "" && raw[0] == '+' {
        hunks := hunks[current := hunks[current].(lines := hunks[current].lines + [Add(newCursor, raw[1..])])];
        newCursor := newCursor + 1;
      } else if raw != "" && raw[0] == '-' {
        hunks := hunks[current := hunks[current].(lines := hunks[current].lines + [Del(oldCursor, raw[1..])])];
        oldCursor := oldCursor + 1;
      } else {
        var text := if raw != "" && raw[0] == ' ' then raw[1..] else raw;
        var line := Context(oldCursor, newCursor, text);
        hunks := hunks[current := hunks[current].(lines := hunks[current].lines + [line])];
        oldCursor, newCursor := oldCursor + 1, newCursor + 1;
      }
    }
    assert rawLines[|rawLines|..] == [];
  }

  lemma {:induction false} RunAppend(st: ParseState, a: seq<string>, b: seq<string>)
    ensures st.Run(a + b) == st.Run(a).Run(b)
    decreases |a|
  {
    if a == [] {
      assert a + b == b;
    } else {
      assert (a + b)[1..] == a[1..] + b;
      RunAppend(st.Step(a[0]), a[1..], b);
    }
  }
}

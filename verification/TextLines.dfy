/** Splitting text at newlines, the way blobs and patches are read. */
module TextLines {
  import opened Splitting

  /** The lines of a text: a trailing newline ends the last line instead of opening an empty one. */
  function Lines(content: string): seq<string>
  {
    if content == "" then [] else
      var pieces := SplitOn('\n', content);
      if pieces[|pieces| - 1] == "" then pieces[..|pieces| - 1] else pieces
  }

  predicate OneLine(s: string)
  {
    '\n' !in s
  }

  /** Each line followed by a newline. */
  function Terminated(lines: seq<string>): string
  {
    if lines == [] then "" else lines[0] + "\n" + Terminated(lines[1..])
  }

  lemma {:induction false} SplitTerminated(lines: seq<string>, rest: string)
    requires forall l :: l in lines ==> OneLine(l)
    ensures SplitOn('\n', Terminated(lines) + rest) == lines + SplitOn('\n', rest)
  {
    if lines == [] {
      assert Terminated(lines) + rest == rest;
    } else {
      SplitTerminated(lines[1..], rest);
      assert OneLine(lines[0]);
      SplitAfterPiece('\n', lines[0], Terminated(lines[1..]) + rest);
      assert Terminated(lines) + rest == lines[0] + "\n" + (Terminated(lines[1..]) + rest);
      assert lines == [lines[0]] + lines[1..];
    }
  }

  /** Lines undoes newline termination. */
  lemma LinesOfTerminated(lines: seq<string>)
    requires forall l :: l in lines ==> OneLine(l)
    ensures Lines(Terminated(lines)) == lines
  {
    SplitTerminated(lines, "");
    assert Terminated(lines) + "" == Terminated(lines);
    assert (lines + [""])[..|lines|] == lines;
  }

  /** Leaving the last newline off changes nothing unless the last line is empty. */
  lemma LinesOfUnterminated(lines: seq<string>, last: string)
    requires OneLine(last) && forall l :: l in lines ==> OneLine(l)
    ensures Lines(Terminated(lines) + last) == if last == "" then lines else lines + [last]
  {
    SplitTerminated(lines, last);
    SplitPlain('\n', last);
    assert (lines + [""])[..|lines|] == lines;
    if lines == [] {
      assert Terminated(lines) + last == last;
    }
  }
}

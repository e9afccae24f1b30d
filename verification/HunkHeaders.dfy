/** Which lines open a hunk: exactly those of the header's shape, read for its four numbers. */
module HunkHeaders {
  import opened Sequences
  import opened Decimals
  import opened PatchParser
  import opened PatchRoundTrip

  predicate Digits(s: string)
  {
    s != "" && forall i :: 0 <= i < |s| ==> IsDigit(s[i])
  }

  /** One side of a header: a number alone counts one line, or a number, a comma and the count; zeros may lead. */
  ghost predicate RangeShaped(s: string, start: nat, count: nat)
  {
    || (Digits(s) && start == Value(s) && count == 1)
    || exists a, b :: Digits(a) && Digits(b) && s == a + "," + b && start == Value(a) && count == Value(b)
  }

  ghost predicate HeaderShaped(raw: string, f: HeaderFields)
  {
    exists x, y, heading ::
      && raw == "@@ -" + x + " +" + y + " @@" + heading
      && RangeShaped(x, f.oldStart, f.oldLines) && RangeShaped(y, f.newStart, f.newLines)
  }

  lemma AloneShaped(a: string)
    requires Digits(a)
    ensures RangeShaped(a, Value(a), 1)
  {
  }

  lemma PairShaped(a: string, b: string)
    requires Digits(a) && Digits(b)
    ensures RangeShaped(a + "," + b, Value(a), Value(b))
  {
  }

  /** What a range takes from the text is such a range. */
  lemma RangeTaken(s: string) returns (x: string)
    requires ReadRange(s).Some?
    ensures s == x + ReadRange(s).value.rest && RangeShaped(x, ReadRange(s).value.start, ReadRange(s).value.count)
  {
    hide Value, RangeShaped;
    var k := DigitRun(s);
    var tail := s[k..];
    var m := if tail != "" && tail[0] == ',' then DigitRun(tail[1..]) else 0;
    if m > 0 {
      x := s[..k] + "," + tail[1..1 + m];
      PairShaped(s[..k], tail[1..1 + m]);
      Rejoined(s, k, m);
    } else {
      x := s[..k];
      AloneShaped(x);
    }
  }

  lemma Rejoined(s: string, k: nat, m: nat)
    requires k + 1 + m <= |s| && s[k] == ','
    ensures s == s[..k] + "," + s[k..][1..1 + m] + s[k..][1 + m..]
  {
  }

  lemma PairRead(a: string, b: string, tail: string)
    requires Digits(a) && Digits(b) && tail != "" && tail[0] == ' '
    ensures ReadRange(a + "," + b + tail) == Some(SideRange(Value(a), Value(b), tail))
  {
    hide Value, DigitRun, ReadRange;
    var rest := "," + b + tail;
    assert a + "," + b + tail == a + rest;
    NumberRead(a, rest);
    NumberRead(b, tail);
    AfterComma(b, tail);
    ReadsPair(a + rest, rest, |b|);
  }

  lemma AfterComma(b: string, tail: string)
    ensures var rest := "," + b + tail;
      rest[1..] == b + tail && rest[1..1 + |b|] == b && rest[1 + |b|..] == tail
  {
  }

  lemma ReadsPair(s: string, rest: string, m: nat)
    requires DigitRun(s) > 0 && s[DigitRun(s)..] == rest != "" && rest[0] == ',' && DigitRun(rest[1..]) == m > 0
    ensures ReadRange(s) == Some(SideRange(Value(s[..DigitRun(s)]), Value(rest[1..][..m]), rest[1..][m..]))
  {
    hide Value, DigitRun;
    assert rest[1..1 + m] == rest[1..][..m] && rest[1 + m..] == rest[1..][m..];
  }

  lemma AloneRead(a: string, tail: string)
    requires Digits(a) && tail != "" && tail[0] == ' '
    ensures ReadRange(a + tail) == Some(SideRange(Value(a), 1, tail))
  {
    hide Value, DigitRun;
    NumberRead(a, tail);
  }

  lemma RangeRead(x: string, start: nat, count: nat, tail: string)
    requires RangeShaped(x, start, count) && tail != "" && tail[0] == ' '
    ensures ReadRange(x + tail) == Some(SideRange(start, count, tail))
  {
    hide Value, DigitRun, ReadRange;
    if Digits(x) && start == Value(x) && count == 1 {
      AloneRead(x, tail);
    } else {
      var a, b :| Digits(a) && Digits(b) && x == a + "," + b && start == Value(a) && count == Value(b);
      PairRead(a, b, tail);
    }
  }

  lemma NumberRead(digits: string, tail: string)
    requires Digits(digits) && tail != "" && !IsDigit(tail[0])
    ensures var s := digits + tail; var k := DigitRun(s); k == |digits| && s[..k] == digits && s[k..] == tail
  {
    DigitRunOfNumber(digits, tail);
  }

  /** A line opens a hunk with these numbers exactly when it has the header's shape with them. */
  lemma ReadHeaderIff(raw: string, f: HeaderFields)
    ensures ReadHeader(raw) == Some(f) <==> HeaderShaped(raw, f)
  {
    hide ReadRange, RangeShaped;
    if ReadHeader(raw) == Some(f) {
      var x := RangeTaken(raw[4..]);
      var a := ReadRange(raw[4..]).value;
      var y := RangeTaken(a.rest[2..]);
      var b := ReadRange(a.rest[2..]).value;
      assert raw == "@@ -" + raw[4..] && a.rest == " +" + a.rest[2..] && b.rest == " @@" + b.rest[3..];
      assert raw == "@@ -" + x + " +" + y + " @@" + b.rest[3..];
    }
    if HeaderShaped(raw, f) {
      ShapeRead(raw, f);
    }
  }

  lemma ShapeRead(raw: string, f: HeaderFields)
    requires HeaderShaped(raw, f)
    ensures ReadHeader(raw) == Some(f)
  {
    hide ReadRange, RangeShaped;
    var x, y, heading :|
      && raw == "@@ -" + x + " +" + y + " @@" + heading
      && RangeShaped(x, f.oldStart, f.oldLines) && RangeShaped(y, f.newStart, f.newLines);
    var tail2 := " @@" + heading;
    var tail1 := " +" + (y + tail2);
    assert raw == "@@ -" + (x + tail1);
    assert raw[4..] == x + tail1 && tail1[2..] == y + tail2;
    assert tail1[0] == ' ' && tail2[0] == ' ';
    RangeRead(x, f.oldStart, f.oldLines, tail1);
    RangeRead(y, f.newStart, f.newLines, tail2);
  }
}

/** Word-level emphasis for a deleted line shown against the added line it is paired with. */
module WordSpans {
  import opened Sequences

  /** Half-open character range into a line's text. */
  datatype WordSpan = WordSpan(start: nat, end: nat)

  datatype SpanPair = SpanPair(del: seq<WordSpan>, add: seq<WordSpan>)

  /** One piece of a word diff, as the word-diff library reports it. */
  datatype Change = Kept(value: string) | Removed(value: string) | Inserted(value: string)

  type WordDiff = (string, string) -> seq<Change>

  /** Lines longer than this are never word-diffed. */
  const MAX_LENGTH: nat := 10000

  /** What one piece contributes to the old text, to the new text and to the text they share. */
  function OldPiece(c: Change): string { if c.Inserted? then "" else c.value }
  function NewPiece(c: Change): string { if c.Removed? then "" else c.value }
  function KeptPiece(c: Change): string { if c.Kept? then c.value else "" }

  function OldText(changes: seq<Change>): string
  {
    if changes == [] then "" else var n := |changes| - 1; OldText(changes[..n]) + OldPiece(changes[n])
  }

  function NewText(changes: seq<Change>): string
  {
    if changes == [] then "" else var n := |changes| - 1; NewText(changes[..n]) + NewPiece(changes[n])
  }

  function KeptText(changes: seq<Change>): string
  {
    if changes == [] then "" else var n := |changes| - 1; KeptText(changes[..n]) + KeptPiece(changes[n])
  }

  /** The library's contract: its pieces spell out both of its inputs. */
  ghost predicate Sound(diff: WordDiff)
  {
    forall d, a :: OldText(diff(d, a)) == d && NewText(diff(d, a)) == a
  }

  // ----- the walk over the pieces

  function PushSpan(spans: seq<WordSpan>, start: nat, end: nat): seq<WordSpan>
  {
    if spans != [] && spans[|spans| - 1].end == start then
      spans[|spans| - 1 := spans[|spans| - 1].(end := end)]
    else
      spans + [WordSpan(start, end)]
  }

  datatype Walk = Walk(del: seq<WordSpan>, add: seq<WordSpan>,
                       delPos: nat, addPos: nat, delChanged: nat, addChanged: nat)
  {
    function Step(change: Change): Walk
    {
      var len := |change.value|;
      match change
      case Removed(_) =>
        this.(del := if len > 0 then PushSpan(del, delPos, delPos + len) else del,
              delPos := delPos + len, delChanged := delChanged + len)
      case Inserted(_) =>
        this.(add := if len > 0 then PushSpan(add, addPos, addPos + len) else add,
              addPos := addPos + len, addChanged := addChanged + len)
      case Kept(_) =>
        this.(delPos := delPos + len, addPos := addPos + len)
    }

  }

  const START := Walk([], [], 0, 0, 0, 0)

  function Run(changes: seq<Change>): Walk
  {
    if changes == [] then START else var n := |changes| - 1; Run(changes[..n]).Step(changes[n])
  }

  /** The changed part exceeds seven tenths of the line; an empty line never does. */
  predicate TooNoisy(changed: nat, length: nat)
  {
    length > 0 && 10 * changed > 7 * length
  }

  function Intraline(diff: WordDiff, delText: string, addText: string): Option<SpanPair>
  {
    if delText == addText then Some(SpanPair([], []))
    else if |delText| > MAX_LENGTH || |addText| > MAX_LENGTH then None
    else
      var w := Run(diff(delText, addText));
      if TooNoisy(w.delChanged, |delText|) || TooNoisy(w.addChanged, |addText|) then None
      else Some(SpanPair(w.del, w.add))
  }

  method IntralineDiff(diff: WordDiff, delText: string, addText: string) returns (r: Option<SpanPair>)
    ensures r == Intraline(diff, delText, addText)
  {
    hide PushSpan, TooNoisy;
    if delText == addText {
      return Some(SpanPair([], []));
    }
    if |delText| > MAX_LENGTH || |addText| > MAX_LENGTH {
      return None;
    }
    var changes := diff(delText, addText);
    var del: seq<WordSpan>, add: seq<WordSpan> := [], [];
    var delPos: nat, addPos: nat, delChanged: nat, addChanged: nat := 0, 0, 0, 0;
    for i := 0 to |changes|
      invariant Walk(del, add, delPos, addPos, delChanged, addChanged) == Run(changes[..i])
    {
      var change := changes[i];
      assert changes[..i + 1][..i] == changes[..i];
      var len := |change.value|;
      match change
      case Removed(_) =>
        if len > 0 {
          del := PushSpan(del, delPos, delPos + len);
        }
        delPos := delPos + len;
        delChanged := delChanged + len;
      case Inserted(_) =>
        if len > 0 {
          add := PushSpan(add, addPos, addPos + len);
        }
        addPos := addPos + len;
        addChanged := addChanged + len;
      case Kept(_) =>
        delPos := delPos + len;
        addPos := addPos + len;
    }
    assert changes[..|changes|] == changes;
    if TooNoisy(delChanged, |delText|) || TooNoisy(addChanged, |addText|) {
      return None;
    }
    return Some(SpanPair(del, add));
  }

  // ----- what the spans mean

  /** Non-empty spans inside a line of the given length, in order, with text between any two. */
  ghost predicate WellSpaced(spans: seq<WordSpan>, length: nat)
  {
    && (forall i :: 0 <= i < |spans| ==> spans[i].start < spans[i].end <= length)
    && (forall i, j :: 0 <= i < j < |spans| ==> spans[i].end < spans[j].start)
  }

  ghost predicate Inside(spans: seq<WordSpan>, k: int)
  {
    exists s :: s in spans && s.start <= k < s.end
  }

  /** The text left over when every emphasised character is removed. */
  ghost function Outside(text: string, spans: seq<WordSpan>): string
  {
    if text == "" then "" else
      var k := |text| - 1;
      Outside(text[..k], spans) + (if Inside(spans, k) then "" else [text[k]])
  }

  function Total(spans: seq<WordSpan>): int
  {
    if spans == [] then 0 else
      var k := |spans| - 1;
      Total(spans[..k]) + spans[k].end - spans[k].start
  }

  /** One side of a walk after it has consumed `text`, leaving `kept` of it outside the spans. */
  ghost predicate SideOk(spans: seq<WordSpan>, text: string, changed: nat, kept: string)
  {
    && WellSpaced(spans, |text|)
    && Total(spans) == changed
    && Outside(text, spans) == kept
  }

  lemma {:induction false} OutsideIgnoresLaterSpans(text: string, spans: seq<WordSpan>, more: seq<WordSpan>)
    requires forall k :: 0 <= k < |text| ==> (Inside(spans, k) <==> Inside(more, k))
    ensures Outside(text, spans) == Outside(text, more)
  {
    if text != "" {
      OutsideIgnoresLaterSpans(text[..|text| - 1], spans, more);
    }
  }

  lemma {:induction false} OutsideOfPlainTail(text: string, tail: string, spans: seq<WordSpan>)
    requires forall k :: |text| <= k < |text| + |tail| ==> !Inside(spans, k)
    ensures Outside(text + tail, spans) == Outside(text, spans) + tail
  {
    if tail == "" {
      assert text + tail == text;
    } else {
      var k := |tail| - 1;
      assert (text + tail)[..|text| + k] == text + tail[..k];
      OutsideOfPlainTail(text, tail[..k], spans);
      assert tail == tail[..k] + [tail[k]];
    }
  }

  lemma {:induction false} OutsideOfMarkedTail(text: string, tail: string, spans: seq<WordSpan>)
    requires forall k :: |text| <= k < |text| + |tail| ==> Inside(spans, k)
    ensures Outside(text + tail, spans) == Outside(text, spans)
  {
    if tail == "" {
      assert text + tail == text;
    } else {
      var k := |tail| - 1;
      assert (text + tail)[..|text| + k] == text + tail[..k];
      OutsideOfMarkedTail(text, tail[..k], spans);
    }
  }

  lemma PushSpanSpacing(spans: seq<WordSpan>, start: nat, end: nat)
    requires start < end && WellSpaced(spans, start)
    ensures WellSpaced(PushSpan(spans, start, end), end)
  {
  }

  lemma PushSpanMembership(spans: seq<WordSpan>, start: nat, end: nat, k: int)
    requires start < end && WellSpaced(spans, start)
    ensures Inside(PushSpan(spans, start, end), k) <==> Inside(spans, k) || start <= k < end
  {
    var after := PushSpan(spans, start, end);
    var n := |spans| - 1;
    if spans != [] && spans[n].end == start {
      assert spans == spans[..n] + [spans[n]] && after == spans[..n] + [after[n]];
    } else {
      assert after[|spans|] == WordSpan(start, end);
    }
  }

  lemma PushSpanTotal(spans: seq<WordSpan>, start: nat, end: nat)
    requires start < end
    ensures Total(PushSpan(spans, start, end)) == Total(spans) + end - start
  {
    var after := PushSpan(spans, start, end);
    assert after[..|after| - 1] == if |after| == |spans| then spans[..|spans| - 1] else spans;
  }

  lemma MarkedOutside(spans: seq<WordSpan>, text: string, value: string)
    requires WellSpaced(spans, |text|) && |value| > 0
    ensures Outside(text + value, PushSpan(spans, |text|, |text| + |value|)) == Outside(text, spans)
  {
    hide PushSpan;
    var end := |text| + |value|;
    var after := PushSpan(spans, |text|, end);
    forall k
      ensures Inside(after, k) <==> Inside(spans, k) || |text| <= k < end
    {
      PushSpanMembership(spans, |text|, end, k);
    }
    OutsideIgnoresLaterSpans(text, spans, after);
    OutsideOfMarkedTail(text, value, after);
  }

  lemma PlainSide(spans: seq<WordSpan>, text: string, changed: nat, kept: string, value: string)
    requires SideOk(spans, text, changed, kept)
    ensures SideOk(spans, text + value, changed, kept + value)
  {
    OutsideOfPlainTail(text, value, spans);
  }

  ghost predicate WalkOk(w: Walk, oldText: string, newText: string, kept: string)
  {
    && w.delPos == |oldText| && w.addPos == |newText|
    && SideOk(w.del, oldText, w.delChanged, kept)
    && SideOk(w.add, newText, w.addChanged, kept)
  }

  lemma StepMeaning(w: Walk, c: Change, oldText: string, newText: string, kept: string)
    requires WalkOk(w, oldText, newText, kept)
    ensures WalkOk(w.Step(c), oldText + OldPiece(c), newText + NewPiece(c), kept + KeptPiece(c))
  {
    hide Outside, Total, PushSpan, WellSpaced, Inside;
    assert oldText + "" == oldText && newText + "" == newText && kept + "" == kept;
    if c.value == "" {
    } else if c.Removed? {
      MarkedOutside(w.del, oldText, c.value);
      PushSpanTotal(w.del, |oldText|, |oldText| + |c.value|);
      PushSpanSpacing(w.del, |oldText|, |oldText| + |c.value|);
    } else if c.Inserted? {
      MarkedOutside(w.add, newText, c.value);
      PushSpanTotal(w.add, |newText|, |newText| + |c.value|);
      PushSpanSpacing(w.add, |newText|, |newText| + |c.value|);
    } else {
      PlainSide(w.del, oldText, w.delChanged, kept, c.value);
      PlainSide(w.add, newText, w.addChanged, kept, c.value);
    }
  }

  lemma {:induction false} RunMeaning(changes: seq<Change>)
    ensures WalkOk(Run(changes), OldText(changes), NewText(changes), KeptText(changes))
  {
    if changes != [] {
      var n := |changes| - 1;
      RunMeaning(changes[..n]);
      StepMeaning(Run(changes[..n]), changes[n], OldText(changes[..n]), NewText(changes[..n]), KeptText(changes[..n]));
    }
  }

  /**
   * Spans are in bounds, sorted, separated, and leave the same text outside them on both sides.
   */
  lemma IntralineSpans(diff: WordDiff, delText: string, addText: string)
    requires Sound(diff)
    ensures var r := Intraline(diff, delText, addText);
      r.Some? ==>
        && WellSpaced(r.value.del, |delText|)
        && WellSpaced(r.value.add, |addText|)
        && Outside(delText, r.value.del) == Outside(addText, r.value.add)
        && (delText != addText ==> Outside(delText, r.value.del) == KeptText(diff(delText, addText)))
  {
    RunMeaning(diff(delText, addText));
  }

  /**
   * A pair reads as a whole-line rewrite exactly when the lines differ and either one is too long
   * or has more than seven tenths of its characters outside the kept text.
   */
  lemma RewriteCondition(diff: WordDiff, delText: string, addText: string)
    requires Sound(diff)
    ensures Intraline(diff, delText, addText).None? <==>
      && delText != addText
      && var kept := |KeptText(diff(delText, addText))|;
         || |delText| > MAX_LENGTH || |addText| > MAX_LENGTH
         || 10 * (|delText| - kept) > 7 * |delText|
         || 10 * (|addText| - kept) > 7 * |addText|
  {
    RunMeaning(diff(delText, addText));
    var w := Run(diff(delText, addText));
    OutsideLength(delText, w.del);
    OutsideLength(addText, w.add);
  }

  /** Removing well-spaced spans removes exactly their total length. */
  lemma {:induction false} OutsideLength(text: string, spans: seq<WordSpan>)
    requires WellSpaced(spans, |text|)
    ensures |Outside(text, spans)| == |text| - Total(spans)
    decreases |spans|
  {
    if spans == [] {
      OutsideOfPlainTail("", text, spans);
      assert "" + text == text;
    } else {
      var n := |spans| - 1;
      var last, before := spans[n], spans[..n];
      assert spans == before + [last];
      var head, mid, tail := text[..last.start], text[last.start..last.end], text[last.end..];
      assert text == (head + mid) + tail;
      OutsideOfPlainTail(head + mid, tail, spans);
      OutsideOfMarkedTail(head, mid, spans);
      OutsideIgnoresLaterSpans(head, spans, before);
      OutsideLength(head, before);
    }
  }
}

/** Which lines of a hunk are shown side by side, and what emphasis they carry. */
module HunkPairing {
  import opened Sequences
  import opened WordSpans
  import opened DiffModel
  import opened HunkRows

  // ----- runs of changed lines

  /** The stretch [s, e) holds no context line and cannot be extended on either side. */
  ghost predicate MaximalRun(lines: seq<DiffLine>, s: nat, e: nat)
  {
    && s <= e <= |lines|
    && (forall i :: s <= i < e ==> !lines[i].Context?)
    && (s == 0 || lines[s - 1].Context?)
    && (e == |lines| || lines[e].Context?)
  }

  /** Positions of the dels (or the adds) in [s, e), in order. */
  function Positions(lines: seq<DiffLine>, s: nat, e: nat, del: bool): (r: seq<nat>)
    requires s <= e <= |lines|
    ensures forall k :: 0 <= k < |r| ==> s <= r[k] < e && (if del then lines[r[k]].Del? else lines[r[k]].Add?)
    ensures forall j, k :: 0 <= j < k < |r| ==> r[j] < r[k]
    decreases e - s
  {
    if s == e then [] else
      var before := Positions(lines, s, e - 1, del);
      if (if del then lines[e - 1].Del? else lines[e - 1].Add?) then before + [e - 1] else before
  }

  /** Row k of the run [s, e): its k-th del left of its k-th add, emphasised by comparing those two texts. */
  function PairedRow(diff: WordDiff, lines: seq<DiffLine>, s: nat, e: nat, k: nat): DiffRow
    requires s <= e <= |lines|
    requires k < |Positions(lines, s, e, true)| || k < |Positions(lines, s, e, false)|
  {
    var dels, adds := Positions(lines, s, e, true), Positions(lines, s, e, false);
    if k >= |dels| then
      Pair(R(lines[adds[k]].newLine), None, Some(lines[adds[k]]), None, None)
    else if k >= |adds| then
      Pair(O(lines[dels[k]].oldLine), Some(lines[dels[k]]), None, None, None)
    else
      var r := Intraline(diff, lines[dels[k]].text, lines[adds[k]].text);
      Pair(R(lines[adds[k]].newLine), Some(lines[dels[k]]), Some(lines[adds[k]]), Side(r, true), Side(r, false))
  }

  ghost predicate IsPairedRow(diff: WordDiff, lines: seq<DiffLine>, s: nat, e: nat, k: nat, row: DiffRow)
  {
    && MaximalRun(lines, s, e)
    && (k < |Positions(lines, s, e, true)| || k < |Positions(lines, s, e, false)|)
    && row == PairedRow(diff, lines, s, e, k)
  }

  ghost predicate IsContextRow(lines: seq<DiffLine>, c: nat, row: DiffRow)
  {
    c < |lines| && lines[c].Context? && row == ContextPair(lines[c])
  }

  ghost predicate Explained(diff: WordDiff, lines: seq<DiffLine>, row: DiffRow)
  {
    || (exists c: nat :: IsContextRow(lines, c, row))
    || (exists s: nat, e: nat, k: nat :: IsPairedRow(diff, lines, s, e, k, row))
  }

  // ----- the emphasis map

  lemma {:induction false} PairSpansKeys(diff: WordDiff, lines: seq<DiffLine>, dels: seq<nat>, adds: seq<nat>, k: nat)
    requires forall j :: 0 <= j < |dels| ==> dels[j] < |lines|
    requires forall j :: 0 <= j < |adds| ==> adds[j] < |lines|
    ensures forall x :: x in PairSpansFrom(diff, lines, dels, adds, k) ==>
      x in dels[if k < |dels| then k else |dels|..] || x in adds
    decreases |dels| - k
  {
    if k < |dels| && k < |adds| {
      PairSpansKeys(diff, lines, dels, adds, k + 1);
      assert dels[k..] == [dels[k]] + dels[k + 1..];
    }
  }

  /** Pair j of a run gets the two halves of comparing its del with its add. */
  lemma {:induction false} PairSpansAt(diff: WordDiff, lines: seq<DiffLine>, dels: seq<nat>, adds: seq<nat>, k: nat,
                                       j: nat)
    requires RunOf(lines, |lines|, dels, adds) && NoDuplicates(dels) && NoDuplicates(adds)
    requires k <= j
    ensures var spans := PairSpansFrom(diff, lines, dels, adds, k);
      && (j < |dels| && j < |adds| ==>
           var r := Intraline(diff, lines[dels[j]].text, lines[adds[j]].text);
           Lookup(spans, dels[j]) == Side(r, true) && Lookup(spans, adds[j]) == Side(r, false))
      && (j < |dels| && j >= |adds| ==> Lookup(spans, dels[j]) == None)
      && (j < |adds| && j >= |dels| ==> Lookup(spans, adds[j]) == None)
    decreases |dels| - k
  {
    if k < |dels| && k < |adds| {
      if k < j {
        PairSpansAt(diff, lines, dels, adds, k + 1, j);
      } else {
        PairSpansOmits(diff, lines, dels, adds, k + 1, k);
      }
    }
  }

  /** Later pairs of a run say nothing about the lines of an earlier one. */
  lemma {:induction false} PairSpansOmits(diff: WordDiff, lines: seq<DiffLine>, dels: seq<nat>, adds: seq<nat>,
                                          k: nat, j: nat)
    requires RunOf(lines, |lines|, dels, adds) && NoDuplicates(dels) && NoDuplicates(adds)
    requires j < k && j < |dels| && j < |adds|
    ensures var spans := PairSpansFrom(diff, lines, dels, adds, k); dels[j] !in spans && adds[j] !in spans
    decreases |dels| - k
  {
    if k < |dels| && k < |adds| {
      PairSpansOmits(diff, lines, dels, adds, k + 1, j);
    }
  }

  lemma {:induction false} SpansKeys(diff: WordDiff, lines: seq<DiffLine>, i: nat, dels: seq<nat>, adds: seq<nat>)
    requires RunOf(lines, i, dels, adds)
    ensures forall x :: x in SpansFrom(diff, lines, i, dels, adds) ==>
      x < |lines| && !lines[x].Context? && (x in dels || x in adds || x >= i)
    decreases |lines| - i
  {
    PairSpansKeys(diff, lines, dels, adds, 0);
    if i < |lines| {
      RunGrows(lines, i, dels, adds);
      match lines[i]
      case Context(_, _, _) => SpansKeys(diff, lines, i + 1, [], []);
      case Del(_, _) => SpansKeys(diff, lines, i + 1, dels + [i], adds);
      case Add(_, _) => SpansKeys(diff, lines, i + 1, dels, adds + [i]);
    }
  }

  lemma ContextHasNoSpans(diff: WordDiff, lines: seq<DiffLine>)
    ensures NoContextSpans(lines, HunkSpans(diff, lines))
  {
    SpansKeys(diff, lines, 0, [], []);
  }

  // ----- every split row is a context line or the k-th del beside the k-th add

  /** `spans` says of every line from `s` on what the rest of the scan will say. */
  ghost predicate AgreesFrom(spans: SpanMap, rest: SpanMap, s: nat)
  {
    forall x: nat :: x >= s ==> Lookup(spans, x) == Lookup(rest, x)
  }

  ghost predicate BufferedRun(lines: seq<DiffLine>, s: nat, i: nat, dels: seq<nat>, adds: seq<nat>)
  {
    && s <= i <= |lines|
    && (s == 0 || lines[s - 1].Context?)
    && (forall j :: s <= j < i ==> !lines[j].Context?)
    && dels == Positions(lines, s, i, true)
    && adds == Positions(lines, s, i, false)
  }

  lemma {:induction false} RunRowsExplained(diff: WordDiff, lines: seq<DiffLine>, spans: SpanMap,
                                            s: nat, e: nat, dels: seq<nat>, adds: seq<nat>, k: nat)
    requires MaximalRun(lines, s, e) && BufferedRun(lines, s, e, dels, adds)
    requires forall j: nat :: j < |dels| ==>
      Lookup(spans, dels[j]) == Lookup(PairSpansFrom(diff, lines, dels, adds, 0), dels[j])
    requires forall j: nat :: j < |adds| ==>
      Lookup(spans, adds[j]) == Lookup(PairSpansFrom(diff, lines, dels, adds, 0), adds[j])
    ensures forall row :: row in RunRowsFrom(lines, spans, dels, adds, k) ==> Explained(diff, lines, row)
    decreases |dels| + |adds| - k
  {
    if k < |dels| || k < |adds| {
      RunRowsExplained(diff, lines, spans, s, e, dels, adds, k + 1);
      PairSpansAt(diff, lines, dels, adds, 0, k);
      assert IsPairedRow(diff, lines, s, e, k, RunRow(lines, spans, dels, adds, k));
    }
  }

  /** At the end of a run, the scan says of the run's own lines what its pairs say, and nothing else. */
  lemma FlushLookup(diff: WordDiff, lines: seq<DiffLine>, i: nat, dels: seq<nat>, adds: seq<nat>, x: nat)
    requires RunOf(lines, i, dels, adds) && (i == |lines| || lines[i].Context?)
    ensures x < i ==>
      Lookup(SpansFrom(diff, lines, i, dels, adds), x) == Lookup(PairSpansFrom(diff, lines, dels, adds, 0), x)
    ensures i < |lines| && x > i ==>
      Lookup(SpansFrom(diff, lines, i, dels, adds), x) == Lookup(SpansFrom(diff, lines, i + 1, [], []), x)
  {
    hide PairSpansFrom;
    PairSpansKeys(diff, lines, dels, adds, 0);
    if i < |lines| {
      SpansKeys(diff, lines, i + 1, [], []);
    }
  }

  lemma FlushExplained(diff: WordDiff, lines: seq<DiffLine>, spans: SpanMap,
                       s: nat, i: nat, dels: seq<nat>, adds: seq<nat>)
    requires BufferedRun(lines, s, i, dels, adds) && (i == |lines| || lines[i].Context?)
    requires AgreesFrom(spans, SpansFrom(diff, lines, i, dels, adds), s)
    ensures forall row :: row in RunRowsFrom(lines, spans, dels, adds, 0) ==> Explained(diff, lines, row)
    ensures i < |lines| ==> AgreesFrom(spans, SpansFrom(diff, lines, i + 1, [], []), i + 1)
  {
    hide Explained, PairSpansFrom, SpansFrom, RunRowsFrom, Lookup;
    forall x: nat | x >= s
      ensures x < i ==> Lookup(spans, x) == Lookup(PairSpansFrom(diff, lines, dels, adds, 0), x)
      ensures i < |lines| && x > i ==> Lookup(spans, x) == Lookup(SpansFrom(diff, lines, i + 1, [], []), x)
    {
      FlushLookup(diff, lines, i, dels, adds, x);
    }
    RunRowsExplained(diff, lines, spans, s, i, dels, adds, 0);
  }

  lemma {:induction false} SplitExplained(diff: WordDiff, lines: seq<DiffLine>, spans: SpanMap,
                                          s: nat, i: nat, dels: seq<nat>, adds: seq<nat>)
    requires BufferedRun(lines, s, i, dels, adds)
    requires AgreesFrom(spans, SpansFrom(diff, lines, i, dels, adds), s)
    ensures forall row :: row in SplitFrom(lines, spans, i, dels, adds) ==> Explained(diff, lines, row)
    decreases |lines| - i
  {
    if i == |lines| {
      FlushExplained(diff, lines, spans, s, i, dels, adds);
    } else {
      RunGrows(lines, i, dels, adds);
      match lines[i]
      case Context(_, _, _) =>
        FlushExplained(diff, lines, spans, s, i, dels, adds);
        SplitExplained(diff, lines, spans, i + 1, i + 1, [], []);
        assert IsContextRow(lines, i, ContextPair(lines[i]));
      case Del(_, _) =>
        SplitExplained(diff, lines, spans, s, i + 1, dels + [i], adds);
      case Add(_, _) =>
        SplitExplained(diff, lines, spans, s, i + 1, dels, adds + [i]);
    }
  }

  /**
   * Every split row of a hunk is one mirrored context line, or pairs the k-th del of a maximal run
   * of changed lines with its k-th add and carries the emphasis computed from exactly those texts.
   */
  lemma SplitPairing(diff: WordDiff, lines: seq<DiffLine>)
    ensures forall row :: row in LineRows(diff, lines, true) ==> Explained(diff, lines, row)
  {
    SplitExplained(diff, lines, HunkSpans(diff, lines), 0, 0, [], []);
  }

  /** Both layouts of a hunk carry the same old lines and the same new lines, emphasis included. */
  lemma LayoutsAgree(diff: WordDiff, lines: seq<DiffLine>)
    ensures NewSide(LineRows(diff, lines, true)) == NewSide(LineRows(diff, lines, false))
    ensures OldSide(LineRows(diff, lines, true)) == OldSide(LineRows(diff, lines, false))
  {
    var spans := HunkSpans(diff, lines);
    ContextHasNoSpans(diff, lines);
    SplitSides(lines, spans, 0, [], []);
  }
}

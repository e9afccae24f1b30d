/** The set of new-file lines a reader has expanded, kept as sorted, separated ranges. */
module ExpandedRanges {

  /** Inclusive range of new-file line numbers. */
  datatype ExpandedRange = ExpandedRange(fromNew: int, toNew: int)

  ghost predicate Covered(ranges: seq<ExpandedRange>, n: int)
  {
    exists r :: r in ranges && r.fromNew <= n <= r.toNew
  }

  predicate Upright(ranges: seq<ExpandedRange>)
  {
    forall r :: r in ranges ==> r.fromNew <= r.toNew
  }

  /** Sorted, non-empty, and no two ranges overlap or even touch. */
  predicate Normal(ranges: seq<ExpandedRange>)
  {
    && Upright(ranges)
    && forall i, j :: 0 <= i < j < |ranges| ==> ranges[i].toNew + 1 < ranges[j].fromNew
  }

  function Normalized(r: ExpandedRange): ExpandedRange
  {
    if r.fromNew <= r.toNew then r else ExpandedRange(r.toNew, r.fromNew)
  }

  // ----- the sort that precedes merging

  predicate NotAfter(a: ExpandedRange, b: ExpandedRange)
  {
    a.fromNew < b.fromNew || (a.fromNew == b.fromNew && a.toNew <= b.toNew)
  }

  predicate Sorted(s: seq<ExpandedRange>)
  {
    forall i, j :: 0 <= i < j < |s| ==> NotAfter(s[i], s[j])
  }

  function Insert(r: ExpandedRange, s: seq<ExpandedRange>): seq<ExpandedRange>
  {
    if s == [] || NotAfter(r, s[0]) then [r] + s else [s[0]] + Insert(r, s[1..])
  }

  function SortRanges(s: seq<ExpandedRange>): seq<ExpandedRange>
  {
    if s == [] then [] else Insert(s[0], SortRanges(s[1..]))
  }

  lemma {:induction false} InsertPermutes(r: ExpandedRange, s: seq<ExpandedRange>)
    ensures multiset(Insert(r, s)) == multiset(s) + multiset{r}
  {
    if s != [] && !NotAfter(r, s[0]) {
      InsertPermutes(r, s[1..]);
      assert s == [s[0]] + s[1..];
    }
  }

  lemma {:induction false} InsertSorts(r: ExpandedRange, s: seq<ExpandedRange>)
    requires Sorted(s)
    ensures Sorted(Insert(r, s))
  {
    if s != [] && !NotAfter(r, s[0]) {
      var rest := Insert(r, s[1..]);
      InsertSorts(r, s[1..]);
      InsertPermutes(r, s[1..]);
      forall x | x in rest
        ensures NotAfter(s[0], x)
      {
        assert x in multiset(rest);
        assert x == r || x in s[1..];
      }
    }
  }

  lemma {:induction false} SortRangesSorts(s: seq<ExpandedRange>)
    ensures Sorted(SortRanges(s)) && multiset(SortRanges(s)) == multiset(s)
  {
    if s != [] {
      SortRangesSorts(s[1..]);
      InsertSorts(s[0], SortRanges(s[1..]));
      InsertPermutes(s[0], SortRanges(s[1..]));
      assert s == [s[0]] + s[1..];
    }
  }

  lemma SortKeepsMembers(s: seq<ExpandedRange>)
    ensures forall r :: r in SortRanges(s) <==> r in s
  {
    SortRangesSorts(s);
    forall r
      ensures r in SortRanges(s) <==> r in s
    {
      assert r in SortRanges(s) <==> r in multiset(SortRanges(s));
    }
  }

  // ----- merging

  /** One turn of the merge loop: grow the last range or start a new one. */
  function Absorb(out: seq<ExpandedRange>, range: ExpandedRange): seq<ExpandedRange>
  {
    if out != [] && range.fromNew <= out[|out| - 1].toNew + 1 then
      var last := out[|out| - 1];
      if range.toNew > last.toNew then out[|out| - 1 := last.(toNew := range.toNew)] else out
    else
      out + [range]
  }

  function Coalesce(out: seq<ExpandedRange>, pending: seq<ExpandedRange>): seq<ExpandedRange>
    decreases |pending|
  {
    if pending == [] then out else Coalesce(Absorb(out, pending[0]), pending[1..])
  }

  function Merged(ranges: seq<ExpandedRange>, add: ExpandedRange): seq<ExpandedRange>
  {
    Coalesce([], SortRanges(ranges + [Normalized(add)]))
  }

  method MergeExpanded(ranges: seq<ExpandedRange>, add: ExpandedRange) returns (out: seq<ExpandedRange>)
    ensures out == Merged(ranges, add)
    ensures forall n :: Covered(out, n) <==> Covered(ranges + [Normalized(add)], n)
    ensures Upright(ranges) ==> Normal(out)
  {
    var incoming := if add.fromNew <= add.toNew then add else ExpandedRange(add.toNew, add.fromNew);
    var sorted := SortRanges(ranges + [incoming]);
    out := [];
    for i := 0 to |sorted|
      invariant Coalesce(out, sorted[i..]) == Merged(ranges, add)
    {
      var range := sorted[i];
      assert sorted[i..][1..] == sorted[i + 1..];
      if out != [] && range.fromNew <= out[|out| - 1].toNew + 1 {
        var last := out[|out| - 1];
        if range.toNew > last.toNew {
          out := out[|out| - 1 := last.(toNew := range.toNew)];
        }
      } else {
        out := out + [range];
      }
    }
    assert sorted[|sorted|..] == [];
    MergedMeaning(ranges, add);
  }

  function NormalizeFrom(merged: seq<ExpandedRange>, ranges: seq<ExpandedRange>): seq<ExpandedRange>
    decreases |ranges|
  {
    if ranges == [] then merged else NormalizeFrom(Merged(merged, ranges[0]), ranges[1..])
  }

  function NormalForm(ranges: seq<ExpandedRange>): seq<ExpandedRange>
  {
    NormalizeFrom([], ranges)
  }

  method NormalizeExpanded(ranges: seq<ExpandedRange>) returns (merged: seq<ExpandedRange>)
    ensures merged == NormalForm(ranges)
  {
    merged := [];
    for i := 0 to |ranges|
      invariant NormalizeFrom(merged, ranges[i..]) == NormalForm(ranges)
    {
      assert ranges[i..][1..] == ranges[i + 1..];
      merged := MergeExpanded(merged, ranges[i]);
    }
    assert ranges[|ranges|..] == [];
  }

  // ----- what merging means

  lemma AbsorbCoverage(out: seq<ExpandedRange>, range: ExpandedRange, n: int)
    requires out != [] ==> out[|out| - 1].fromNew <= range.fromNew
    ensures Covered(Absorb(out, range), n) <==> Covered(out, n) || range.fromNew <= n <= range.toNew
  {
    var after := Absorb(out, range);
    if out != [] && range.fromNew <= out[|out| - 1].toNew + 1 {
      var last := out[|out| - 1];
      var k := |out| - 1;
      assert out == out[..k] + [last] && after == out[..k] + [after[k]];
      assert after[k].fromNew == last.fromNew;
    } else {
      assert range in after;
    }
  }

  lemma {:induction false} CoalesceCoverage(out: seq<ExpandedRange>, pending: seq<ExpandedRange>, n: int)
    requires Sorted(pending)
    requires out != [] && pending != [] ==> out[|out| - 1].fromNew <= pending[0].fromNew
    ensures Covered(Coalesce(out, pending), n) <==> Covered(out, n) || Covered(pending, n)
    decreases |pending|
  {
    if pending != [] {
      assert pending == [pending[0]] + pending[1..];
      AbsorbCoverage(out, pending[0], n);
      CoalesceCoverage(Absorb(out, pending[0]), pending[1..], n);
    }
  }

  lemma AbsorbNormal(out: seq<ExpandedRange>, range: ExpandedRange)
    requires Normal(out) && range.fromNew <= range.toNew
    requires out != [] ==> out[|out| - 1].fromNew <= range.fromNew
    ensures var next := Absorb(out, range); Normal(next) && next != [] && next[|next| - 1].fromNew <= range.fromNew
  {
    var next := Absorb(out, range);
    forall i | 0 <= i < |next|
      ensures next[i].fromNew <= next[i].toNew
    {
      assert i < |out| ==> out[i] in out;
    }
  }

  lemma {:induction false} CoalesceNormal(out: seq<ExpandedRange>, pending: seq<ExpandedRange>)
    requires Sorted(pending) && Upright(pending) && Normal(out)
    requires out != [] && pending != [] ==> out[|out| - 1].fromNew <= pending[0].fromNew
    ensures Normal(Coalesce(out, pending))
    decreases |pending|
  {
    hide Normal, Absorb;
    if pending != [] {
      assert pending == [pending[0]] + pending[1..] && pending[0] in pending;
      AbsorbNormal(out, pending[0]);
      CoalesceNormal(Absorb(out, pending[0]), pending[1..]);
    }
  }

  lemma MergedMeaning(ranges: seq<ExpandedRange>, add: ExpandedRange)
    ensures forall n :: Covered(Merged(ranges, add), n) <==> Covered(ranges + [Normalized(add)], n)
    ensures Upright(ranges) ==> Normal(Merged(ranges, add))
  {
    var all := ranges + [Normalized(add)];
    SortKeepsMembers(all);
    SortRangesSorts(all);
    forall n
      ensures Covered(Merged(ranges, add), n) <==> Covered(all, n)
    {
      CoalesceCoverage([], SortRanges(all), n);
    }
    if Upright(ranges) {
      CoalesceNormal([], SortRanges(all));
    }
  }

  /** The lines named by a list of ranges as a caller wrote them, inverted ones included. */
  ghost predicate Requested(ranges: seq<ExpandedRange>, n: int)
  {
    exists r :: r in ranges && Normalized(r).fromNew <= n <= Normalized(r).toNew
  }

  lemma {:induction false} NormalizeFromMeaning(merged: seq<ExpandedRange>, ranges: seq<ExpandedRange>)
    requires Normal(merged)
    ensures Normal(NormalizeFrom(merged, ranges))
    ensures forall n :: Covered(NormalizeFrom(merged, ranges), n) <==> Covered(merged, n) || Requested(ranges, n)
    decreases |ranges|
  {
    if ranges != [] {
      var next := Merged(merged, ranges[0]);
      MergedMeaning(merged, ranges[0]);
      NormalizeFromMeaning(next, ranges[1..]);
      assert ranges == [ranges[0]] + ranges[1..];
      forall n
        ensures Covered(NormalizeFrom(merged, ranges), n) <==> Covered(merged, n) || Requested(ranges, n)
      {
        var all := merged + [Normalized(ranges[0])];
        assert Covered(next, n) <==> Covered(all, n);
        assert Normalized(ranges[0]) in all;
      }
    }
  }

  lemma NormalFormMeaning(ranges: seq<ExpandedRange>)
    ensures Normal(NormalForm(ranges))
    ensures forall n :: Covered(NormalForm(ranges), n) <==> Requested(ranges, n)
  {
    NormalizeFromMeaning([], ranges);
  }

  // ----- there is only one normal list for a set of lines

  lemma NextLineUncovered(a: seq<ExpandedRange>)
    requires Normal(a) && a != []
    ensures !Covered(a, a[0].toNew + 1)
  {
    forall r | r in a
      ensures !(r.fromNew <= a[0].toNew + 1 <= r.toNew)
    {
      var i :| 0 <= i < |a| && a[i] == r;
    }
  }

  lemma FirstCovered(a: seq<ExpandedRange>, b: seq<ExpandedRange>)
    requires Normal(a) && Normal(b) && a != [] && b != []
    requires forall n :: Covered(a, n) <==> Covered(b, n)
    ensures b[0].fromNew <= a[0].fromNew && b[0].toNew <= a[0].toNew
  {
    assert a[0] in a && b[0] in b;
    assert Covered(a, a[0].fromNew);
    var r :| r in b && r.fromNew <= a[0].fromNew <= r.toNew;
    assert b[0].fromNew <= r.fromNew;
    NextLineUncovered(a);
    assert !Covered(b, a[0].toNew + 1);
  }

  lemma TailCoverage(a: seq<ExpandedRange>, n: int)
    requires Normal(a) && a != []
    ensures Covered(a[1..], n) <==> Covered(a, n) && n > a[0].toNew
  {
    assert a == [a[0]] + a[1..];
    if Covered(a[1..], n) {
      var r :| r in a[1..] && r.fromNew <= n <= r.toNew;
      var i :| 0 <= i < |a[1..]| && a[1..][i] == r;
      assert a[i + 1] == r;
    }
  }

  lemma SomethingCovered(a: seq<ExpandedRange>)
    requires Normal(a) && a != []
    ensures Covered(a, a[0].fromNew)
    ensures Normal(a[1..]) && a == [a[0]] + a[1..]
  {
    assert a[0] in a;
    assert forall r :: r in a[1..] ==> r in a;
  }

  /** Two normal lists that cover the same lines are the same list. */
  lemma {:induction false} NormalUnique(a: seq<ExpandedRange>, b: seq<ExpandedRange>)
    requires Normal(a) && Normal(b)
    requires forall n :: Covered(a, n) <==> Covered(b, n)
    ensures a == b
  {
    hide Normal;
    if a != [] {
      SomethingCovered(a);
    }
    if b != [] {
      SomethingCovered(b);
    }
    if a != [] && b != [] {
      hide Covered;
      FirstCovered(a, b);
      FirstCovered(b, a);
      forall n
        ensures Covered(a[1..], n) <==> Covered(b[1..], n)
      {
        TailCoverage(a, n);
        TailCoverage(b, n);
      }
      NormalUnique(a[1..], b[1..]);
    }
  }

  /** The normal form depends on the lines requested, not on order, duplication or direction. */
  lemma NormalFormDependsOnLinesOnly(r1: seq<ExpandedRange>, r2: seq<ExpandedRange>)
    ensures NormalForm(r1) == NormalForm(r2) <==> forall n :: Requested(r1, n) <==> Requested(r2, n)
  {
    NormalFormMeaning(r1);
    NormalFormMeaning(r2);
    if forall n :: Requested(r1, n) <==> Requested(r2, n) {
      NormalUnique(NormalForm(r1), NormalForm(r2));
    }
  }
}

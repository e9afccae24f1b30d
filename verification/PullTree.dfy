/** Arranging open pull requests by what they are stacked on. */
module PullTree {
  import opened Sequences

  datatype PullItem = PullItem(number: int, headRef: string, baseRef: string, isOpen: bool)

  /** The branch everything beneath it targets; `total` counts every pull at any depth. */
  datatype Root = Root(branch: string, children: seq<int>, total: nat)

  /** The finished arrangement. Nodes are known by their pull number. */
  datatype Forest = Forest(items: map<int, PullItem>, children: map<int, seq<int>>, depth: map<int, nat>,
                           roots: seq<Root>)

  predicate DistinctNumbers(items: seq<PullItem>)
  {
    forall i, j :: 0 <= i < j < |items| ==> items[i].number != items[j].number
  }

  function OpenOnes(items: seq<PullItem>): (r: seq<PullItem>)
    ensures forall it :: it in r <==> it in items && it.isOpen
  {
    if items == [] then [] else
      var n := |items| - 1;
      var before := OpenOnes(items[..n]);
      assert items == items[..n] + [items[n]];
      if items[n].isOpen then before + [items[n]] else before
  }

  lemma {:induction false} OpenOnesDistinct(items: seq<PullItem>)
    requires DistinctNumbers(items)
    ensures DistinctNumbers(OpenOnes(items))
  {
    if items != [] {
      var n := |items| - 1;
      OpenOnesDistinct(items[..n]);
      forall it | it in OpenOnes(items[..n])
        ensures it.number != items[n].number
      {
        var i :| 0 <= i < n && items[i] == it;
      }
    }
  }

  // ----- who is stacked on whom

  /** Of the open pulls with a given head branch, the lowest-numbered one. */
  ghost predicate FirstByHead(open: seq<PullItem>, byHead: map<string, PullItem>)
  {
    && (forall h :: h in byHead ==> byHead[h] in open && byHead[h].headRef == h)
    && (forall it :: it in open ==> it.headRef in byHead && byHead[it.headRef].number <= it.number)
  }

  function NumberOf(it: PullItem): int { it.number }

  method IndexHeads(open: seq<PullItem>) returns (byHead: map<string, PullItem>)
    ensures FirstByHead(open, byHead)
  {
    var sorted := SortBy(NumberOf, open);
    SortByKeeps(NumberOf, open);
    byHead := map[];
    for i := 0 to |sorted|
      invariant forall h :: h in byHead ==> byHead[h] in sorted[..i] && byHead[h].headRef == h
      invariant forall it :: it in sorted[..i] ==> it.headRef in byHead && byHead[it.headRef].number <= it.number
    {
      var head := sorted[i].headRef;
      assert sorted[..i + 1] == sorted[..i] + [sorted[i]];
      if head !in byHead {
        byHead := byHead[head := sorted[i]];
      } else {
        ghost var j :| 0 <= j < i && sorted[j] == byHead[head];
        assert NumberOf(sorted[j]) <= NumberOf(sorted[i]);
      }
    }
    assert sorted[..|sorted|] == sorted;
  }

  /** The pull this one is stacked on; a pull is never its own parent. */
  function Parent(byHead: map<string, PullItem>, it: PullItem): Option<int>
  {
    if it.baseRef in byHead && byHead[it.baseRef].number != it.number then Some(byHead[it.baseRef].number) else None
  }

  // ----- a well-placed forest

  function Numbers(open: seq<PullItem>): set<int>
  {
    set it | it in open :: it.number
  }

  /** `items` finds each open pull by its number. */
  ghost predicate Indexed(open: seq<PullItem>, items: map<int, PullItem>)
  {
    && items.Keys == Numbers(open)
    && (forall it :: it in open ==> items[it.number] == it)
    && (forall n :: n in items ==> items[n] in open && items[n].number == n)
  }

  method IndexItems(open: seq<PullItem>) returns (items: map<int, PullItem>)
    requires DistinctNumbers(open)
    ensures Indexed(open, items)
  {
    items := map[];
    for i := 0 to |open|
      invariant items.Keys == Numbers(open[..i])
      invariant forall it :: it in open[..i] ==> items[it.number] == it
      invariant forall n :: n in items ==> items[n] in open[..i] && items[n].number == n
    {
      assert open[..i + 1] == open[..i] + [open[i]];
      forall it | it in open[..i]
        ensures it.number != open[i].number
      {
        var j :| 0 <= j < i && open[j] == it;
      }
      items := items[open[i].number := open[i]];
    }
    assert open[..|open|] == open;
  }

  /** Where each pull hangs: under a parent pull, or (None) directly under its base branch. */
  type Owners = map<int, Option<int>>

  /** Each child list holds distinct pulls whose base branch is the parent's head, one level below it. */
  ghost predicate ChildrenPlaced(items: map<int, PullItem>, children: map<int, seq<int>>, depth: map<int, nat>,
                                 owner: Owners)
    requires children.Keys == depth.Keys == owner.Keys == items.Keys
  {
    && (forall p :: p in children ==> NoDuplicates(children[p]))
    && (forall p, c :: p in children && c in children[p] ==>
          c in items && owner[c] == Some(p) && depth[c] == depth[p] + 1 && items[c].baseRef == items[p].headRef)
    && (forall n :: n in items && owner[n].Some? ==> owner[n].value in children && n in children[owner[n].value])
  }

  /** Each branch group holds distinct pulls that target the branch, at level 0. */
  ghost predicate GroupsPlaced(items: map<int, PullItem>, depth: map<int, nat>, groups: map<string, seq<int>>,
                               owner: Owners)
    requires depth.Keys == owner.Keys == items.Keys
  {
    && (forall b :: b in groups ==> NoDuplicates(groups[b]))
    && (forall b, c :: b in groups && c in groups[b] ==>
          c in items && owner[c] == None && depth[c] == 0 && items[c].baseRef == b)
    && (forall n :: n in items && owner[n].None? ==> items[n].baseRef in groups && n in groups[items[n].baseRef])
  }

  /** Child lists and branch groups hold exactly what `owner` says, each pull in one place. */
  ghost predicate Placed(items: map<int, PullItem>, children: map<int, seq<int>>, depth: map<int, nat>,
                         groups: map<string, seq<int>>, owner: Owners)
  {
    && children.Keys == depth.Keys == owner.Keys == items.Keys
    && ChildrenPlaced(items, children, depth, owner)
    && GroupsPlaced(items, depth, groups, owner)
    && (forall n :: n in items ==> depth[n] < |items|)
  }
}

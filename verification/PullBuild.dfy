/** The whole arrangement: link, walk down, re-attach cycles, and order the roots. */
module PullBuild {
  import opened Sequences
  import opened PullTree
  import opened PullForest
  import opened PullFlatten

  // ----- re-attaching what no root reaches

  /** Owners once every pull outside `reached` hangs directly under its own base branch. */
  function Cut(parent: Owners, reached: set<int>): Owners
  {
    map n | n in parent :: if n in reached then parent[n] else None
  }

  lemma RootsStay(groups: Groups, items: map<int, PullItem>, parent: Owners, reached: set<int>)
    requires parent.Keys == items.Keys && reached <= items.Keys && GroupsHold(groups, items, parent, items.Keys)
    requires forall b, n :: b in groups && n in groups[b] ==> n in reached
    ensures GroupsHold(groups, items, Cut(parent, reached), reached)
  {
  }

  /** Lists with the children of re-attached pulls removed. */
  function Cleared(children: Lists, reached: set<int>, done: set<int>): Lists
  {
    map n | n in children :: if n in reached || n !in done then children[n] else []
  }

  function Reset(depth: Depths, reached: set<int>, done: set<int>): Depths
  {
    map n | n in depth :: if n in reached || n !in done then depth[n] else 0
  }

  lemma ChildrenAfterCut(items: map<int, PullItem>, parent: Owners, children: Lists, depth: Depths, reached: set<int>,
                         p: int, c: int)
    requires ParentsSound(items, parent) && ListsHold(children, parent, items.Keys)
    requires Levelled(parent, depth, reached) && Finished(children, reached, {})
    requires p in children && c in Cleared(children, reached, items.Keys)[p]
    ensures p in items && c in items && items[c].baseRef == items[p].headRef
    ensures Cut(parent, reached)[c] == Some(p)
    ensures Reset(depth, reached, items.Keys)[c] == Reset(depth, reached, items.Keys)[p] + 1
  {
    hide AscendingBy, NoDuplicates;
    assert p in reached && c in children[p];
  }

  lemma OwnersAfterCut(items: map<int, PullItem>, parent: Owners, children: Lists, depth: Depths, reached: set<int>,
                       n: int)
    requires ParentsSound(items, parent) && ListsHold(children, parent, items.Keys)
    requires Levelled(parent, depth, reached) && n in items && Cut(parent, reached)[n].Some?
    ensures Cut(parent, reached)[n].value in children
    ensures n in Cleared(children, reached, items.Keys)[Cut(parent, reached)[n].value]
  {
    hide NoDuplicates;
    assert n in reached;
  }

  lemma LevelsAfterCut(items: map<int, PullItem>, parent: Owners, depth: Depths, reached: set<int>, n: int)
    requires parent.Keys == items.Keys && Levelled(parent, depth, reached) && n in items
    ensures Reset(depth, reached, items.Keys)[n] < |items|
    ensures Cut(parent, reached)[n] == None ==> Reset(depth, reached, items.Keys)[n] == 0
  {
    Fewer(reached, items.Keys);
    Fewer({n}, items.Keys);
    assert |items.Keys| == |items|;
  }

  lemma KeysAfterCut(items: map<int, PullItem>, parent: Owners, children: Lists, depth: Depths, reached: set<int>)
    requires ParentsSound(items, parent) && depth.Keys == items.Keys && ListsHold(children, parent, items.Keys)
    ensures children.Keys == parent.Keys == items.Keys
    ensures Cleared(children, reached, items.Keys).Keys == items.Keys
    ensures Reset(depth, reached, items.Keys).Keys == items.Keys && Cut(parent, reached).Keys == items.Keys
    ensures forall p :: p in Cleared(children, reached, items.Keys) ==>
      NoDuplicates(Cleared(children, reached, items.Keys)[p])
  {
    NothingRepeats();
  }

  lemma GroupsPlacedAfterCut(items: map<int, PullItem>, parent: Owners, depth: Depths, groups: Groups,
                             reached: set<int>)
    requires parent.Keys == depth.Keys == items.Keys && Levelled(parent, depth, reached)
    requires GroupsHold(groups, items, Cut(parent, reached), items.Keys)
    ensures GroupsPlaced(items, Reset(depth, reached, items.Keys), groups, Cut(parent, reached))
  {
    hide NoDuplicates;
  }

  lemma ChildrenSoundAfterCut(items: map<int, PullItem>, parent: Owners, children: Lists, depth: Depths,
                              reached: set<int>)
    requires ParentsSound(items, parent) && depth.Keys == items.Keys
    requires ListsHold(children, parent, items.Keys) && Levelled(parent, depth, reached)
    requires Finished(children, reached, {})
    ensures var c1, d1 := Cleared(children, reached, items.Keys), Reset(depth, reached, items.Keys);
      var owner := Cut(parent, reached);
      && c1.Keys == d1.Keys == owner.Keys == items.Keys
      && (forall p :: p in c1 ==> NoDuplicates(c1[p]))
      && (forall p, c :: p in c1 && c in c1[p] ==>
            c in items && owner[c] == Some(p) && d1[c] == d1[p] + 1 && items[c].baseRef == items[p].headRef)
  {
    KeysAfterCut(items, parent, children, depth, reached);
    hide NoDuplicates, Finished, Levelled, ListsHold, ParentsSound, Cleared, Reset, Cut;
    var c1, d1 := Cleared(children, reached, items.Keys), Reset(depth, reached, items.Keys);
    var owner := Cut(parent, reached);
    forall p, c | p in c1 && c in c1[p]
      ensures c in items && owner[c] == Some(p) && d1[c] == d1[p] + 1 && items[c].baseRef == items[p].headRef
    {
      ChildrenAfterCut(items, parent, children, depth, reached, p, c);
    }
  }

  lemma ChildrenPlacedAfterCut(items: map<int, PullItem>, parent: Owners, children: Lists, depth: Depths,
                               reached: set<int>)
    requires ParentsSound(items, parent) && depth.Keys == items.Keys
    requires ListsHold(children, parent, items.Keys) && Levelled(parent, depth, reached)
    requires Finished(children, reached, {})
    ensures ChildrenPlaced(items, Cleared(children, reached, items.Keys), Reset(depth, reached, items.Keys),
                           Cut(parent, reached))
  {
    ChildrenSoundAfterCut(items, parent, children, depth, reached);
    hide NoDuplicates, Finished, Levelled, ListsHold, ParentsSound, Cleared, Reset, Cut;
    var c1, owner := Cleared(children, reached, items.Keys), Cut(parent, reached);
    forall n | n in items && owner[n].Some?
      ensures owner[n].value in c1 && n in c1[owner[n].value]
    {
      OwnersAfterCut(items, parent, children, depth, reached, n);
    }
  }

  lemma PlacedAfterCut(items: map<int, PullItem>, parent: Owners, children: Lists, depth: Depths, groups: Groups,
                       reached: set<int>)
    requires ParentsSound(items, parent) && parent.Keys == items.Keys
    requires ListsHold(children, parent, items.Keys) && Levelled(parent, depth, reached)
    requires Finished(children, reached, {})
    requires GroupsHold(groups, items, Cut(parent, reached), items.Keys)
    ensures Placed(items, Cleared(children, reached, items.Keys), Reset(depth, reached, items.Keys), groups,
                   Cut(parent, reached))
  {
    hide NoDuplicates, Finished, Levelled, ChildrenPlaced, GroupsPlaced, ListsHold, GroupsHold, ParentsSound, Cleared,
         Reset, Cut;
    LevelledKeys(parent, depth, reached);
    KeysAfterCut(items, parent, children, depth, reached);
    ChildrenPlacedAfterCut(items, parent, children, depth, reached);
    GroupsPlacedAfterCut(items, parent, depth, groups, reached);
    forall n | n in items
      ensures Reset(depth, reached, items.Keys)[n] < |items|
    {
      LevelsAfterCut(items, parent, depth, reached, n);
    }
  }

  lemma NothingRepeats()
    ensures NoDuplicates<int>([])
  {
  }

  lemma LevelledKeys(parent: Owners, depth: Depths, reached: set<int>)
    requires Levelled(parent, depth, reached)
    ensures depth.Keys == parent.Keys
  {
  }

  lemma Fewer(a: set<int>, b: set<int>)
    requires a <= b
    ensures |a| <= |b|
  {
    assert b == a + (b - a);
  }

  // ----- ordering the roots

  type Before = (string, string) -> bool

  ghost predicate Total(leq: Before)
  {
    && (forall a, b :: leq(a, b) || leq(b, a))
    && (forall a, b, c :: leq(a, b) && leq(b, c) ==> leq(a, c))
  }

  /** Largest first; equal sizes in the branch order. */
  predicate Precedes(leq: Before, a: Root, b: Root)
  {
    a.total > b.total || (a.total == b.total && leq(a.branch, b.branch))
  }

  ghost predicate Ordered(leq: Before, roots: seq<Root>)
  {
    forall i, j :: 0 <= i < j < |roots| ==>
      || roots[i].total > roots[j].total
      || (roots[i].total == roots[j].total && leq(roots[i].branch, roots[j].branch))
  }

  function InsertRoot(leq: Before, r: Root, roots: seq<Root>): seq<Root>
  {
    if roots == [] || Precedes(leq, r, roots[0]) then [r] + roots else [roots[0]] + InsertRoot(leq, r, roots[1..])
  }

  function SortRoots(leq: Before, roots: seq<Root>): seq<Root>
  {
    if roots == [] then [] else InsertRoot(leq, roots[0], SortRoots(leq, roots[1..]))
  }

  lemma {:induction false} InsertRootMembers(leq: Before, r: Root, roots: seq<Root>, x: Root)
    ensures x in InsertRoot(leq, r, roots) <==> x == r || x in roots
  {
    if roots != [] && !Precedes(leq, r, roots[0]) {
      InsertRootMembers(leq, r, roots[1..], x);
      assert roots == [roots[0]] + roots[1..];
    }
  }

  lemma {:induction false} InsertRootOrders(leq: Before, r: Root, roots: seq<Root>)
    requires Total(leq) && Ordered(leq, roots)
    ensures Ordered(leq, InsertRoot(leq, r, roots))
  {
    if roots != [] && !Precedes(leq, r, roots[0]) {
      var rest := InsertRoot(leq, r, roots[1..]);
      InsertRootOrders(leq, r, roots[1..]);
      forall i | 0 <= i < |rest|
        ensures Precedes(leq, roots[0], rest[i])
      {
        InsertRootMembers(leq, r, roots[1..], rest[i]);
        if rest[i] != r {
          var j :| 0 <= j < |roots[1..]| && roots[1..][j] == rest[i];
          assert roots[j + 1] == rest[i];
        }
      }
    } else if roots != [] {
      forall i | 0 <= i < |roots|
        ensures Precedes(leq, r, roots[i])
      {
        assert i > 0 ==> Precedes(leq, roots[0], roots[i]);
      }
    }
  }

  ghost predicate DistinctBranches(roots: seq<Root>)
  {
    forall i, j :: 0 <= i < j < |roots| ==> roots[i].branch != roots[j].branch
  }

  lemma {:induction false} InsertRootDistinct(leq: Before, r: Root, roots: seq<Root>)
    requires DistinctBranches(roots) && forall x :: x in roots ==> x.branch != r.branch
    ensures DistinctBranches(InsertRoot(leq, r, roots))
  {
    if roots != [] && !Precedes(leq, r, roots[0]) {
      var rest := InsertRoot(leq, r, roots[1..]);
      InsertRootDistinct(leq, r, roots[1..]);
      forall i | 0 <= i < |rest|
        ensures rest[i].branch != roots[0].branch
      {
        InsertRootMembers(leq, r, roots[1..], rest[i]);
        if rest[i] != r {
          var j :| 0 <= j < |roots[1..]| && roots[1..][j] == rest[i];
          assert roots[j + 1] == rest[i];
        }
      }
    }
  }

  lemma {:induction false} SortRootsKeeps(leq: Before, roots: seq<Root>)
    requires Total(leq) && DistinctBranches(roots)
    ensures Ordered(leq, SortRoots(leq, roots)) && DistinctBranches(SortRoots(leq, roots))
    ensures forall x :: x in SortRoots(leq, roots) <==> x in roots
  {
    if roots != [] {
      var rest := SortRoots(leq, roots[1..]);
      SortRootsKeeps(leq, roots[1..]);
      InsertRootOrders(leq, roots[0], rest);
      forall x | x in rest
        ensures x.branch != roots[0].branch
      {
        var j :| 0 <= j < |roots[1..]| && roots[1..][j] == x;
        assert roots[j + 1] == x;
      }
      InsertRootDistinct(leq, roots[0], rest);
      assert roots == [roots[0]] + roots[1..];
      forall x
        ensures x in SortRoots(leq, roots) <==> x in roots
      {
        InsertRootMembers(leq, roots[0], rest, x);
      }
    }
  }

  // ----- which pulls are re-attached

  /** Following parents k times from n ends at a pull without one. */
  predicate Climbs(parent: Owners, n: int, k: nat)
    decreases k
  {
    n in parent && if k == 0 then parent[n].None? else parent[n].Some? && Climbs(parent, parent[n].value, k - 1)
  }

  /** The stack n belongs to stands on a branch, rather than running into a cycle. */
  ghost predicate Grounded(parent: Owners, n: int)
  {
    exists k: nat :: Climbs(parent, n, k)
  }

  lemma {:induction false} ReachedIsGrounded(parent: Owners, depth: Depths, reached: set<int>, n: int)
    requires Levelled(parent, depth, reached) && n in reached
    ensures Climbs(parent, n, depth[n])
    decreases depth[n]
  {
    if parent[n].Some? {
      ReachedIsGrounded(parent, depth, reached, parent[n].value);
    }
  }

  lemma {:induction false} GroundedIsReached(parent: Owners, children: Lists, reached: set<int>, n: int, k: nat)
    requires ListsHold(children, parent, parent.Keys) && Finished(children, reached, {}) && reached <= parent.Keys
    requires forall m :: m in parent && parent[m].None? ==> m in reached
    requires Climbs(parent, n, k)
    ensures n in reached
    decreases k
  {
    hide AscendingBy;
    if k > 0 {
      GroundedIsReached(parent, children, reached, parent[n].value, k - 1);
      assert n in children[parent[n].value];
    }
  }

  /** The walk from the roots reaches exactly the grounded pulls; the others are the ones re-attached. */
  lemma ReachedIffGrounded(parent: Owners, depth: Depths, children: Lists, reached: set<int>)
    requires Levelled(parent, depth, reached)
    requires ListsHold(children, parent, parent.Keys) && Finished(children, reached, {})
    requires forall m :: m in parent && parent[m].None? ==> m in reached
    ensures forall n :: n in parent ==> (n in reached <==> Grounded(parent, n))
  {
    forall n | n in parent
      ensures n in reached <==> Grounded(parent, n)
    {
      if n in reached {
        ReachedIsGrounded(parent, depth, reached, n);
      }
      if Grounded(parent, n) {
        var k: nat :| Climbs(parent, n, k);
        GroundedIsReached(parent, children, reached, n, k);
      }
    }
  }

  // ----- the passes

  method LinkAll(b: Builder, open: seq<PullItem>)
    requires Indexed(open, b.items) && DistinctNumbers(open) && b.Linked({})
    modifies b`children, b`groups, b`branches
    ensures b.Linked(b.items.Keys)
  {
    hide Numbers, Indexed, DistinctNumbers, ParentsSound, ListsHold, GroupsHold;
    OpenNumbers(open, b.items, b.parent);
    ghost var done: set<int> := {};
    for i := 0 to |open|
      invariant done == Numbers(open[..i]) && b.Linked(done)
    {
      NextNumber(open, b.items, i);
      b.Link(open[i].number, done);
      done := done + {open[i].number};
    }
    assert open[..|open|] == open;
  }

  lemma NumberIsNew(open: seq<PullItem>, i: nat)
    requires DistinctNumbers(open) && i < |open|
    ensures open[i].number !in Numbers(open[..i])
  {
    forall it | it in open[..i]
      ensures it.number != open[i].number
    {
      var j :| 0 <= j < i && open[j] == it;
    }
  }

  /** Walks down from every root; afterwards exactly the pulls below some root are reached, each at its level. */
  method WalkFromRoots(b: Builder)
    requires b.Linked(b.items.Keys) && b.depth.Keys == b.items.Keys && b.reachable == {}
    modifies b`children, b`depth, b`reachable
    ensures b.children.Keys == b.depth.Keys == b.items.Keys
    ensures ListsHold(b.children, b.parent, b.items.Keys)
    ensures Levelled(b.parent, b.depth, b.reachable) && Finished(b.children, b.reachable, {})
    ensures forall g, n :: g in b.groups && n in b.groups[g] ==> n in b.reachable
  {
    hide SortBy, AscendingBy, Finished, Levelled, ListsHold, NoDuplicates, Untouched, SameDepths;
    ListsKnown(b.children, b.parent, b.items.Keys);
    StartOfWalk(b.children, b.parent, b.depth);
    for i := 0 to |b.branches|
      invariant b.children.Keys == b.depth.Keys == b.items.Keys
      invariant ListsHold(b.children, b.parent, b.items.Keys)
      invariant Levelled(b.parent, b.depth, b.reachable) && Finished(b.children, b.reachable, {})
      invariant forall k, n :: 0 <= k < i && n in b.groups[b.branches[k]] ==> n in b.reachable
    {
      var group := b.groups[b.branches[i]];
      for j := 0 to |group|
        invariant b.children.Keys == b.depth.Keys == b.items.Keys
        invariant ListsHold(b.children, b.parent, b.items.Keys)
        invariant Levelled(b.parent, b.depth, b.reachable) && Finished(b.children, b.reachable, {})
        invariant forall k, n :: 0 <= k < i && n in b.groups[b.branches[k]] ==> n in b.reachable
        invariant forall k :: 0 <= k < j ==> group[k] in b.reachable
      {
        ghost var was, visited := b.children, b.reachable;
        assert group[j] in b.groups[b.branches[i]];
        RootMayBeVisited(b.parent, b.depth, b.reachable, group[j]);
        b.AssignDepth(group[j], 0);
        FinishedGrows(was, visited, b.children, b.reachable, {});
      }
    }
    forall g, n | g in b.groups && n in b.groups[g]
      ensures n in b.reachable
    {
      var k :| 0 <= k < |b.branches| && b.branches[k] == g;
    }
  }

  lemma StartOfWalk(children: Lists, parent: Owners, depth: Depths)
    requires depth.Keys == parent.Keys && children.Keys == parent.Keys
    ensures Levelled(parent, depth, {}) && Finished(children, {}, {})
  {
  }

  lemma RootMayBeVisited(parent: Owners, depth: Depths, reachable: set<int>, n: int)
    requires Levelled(parent, depth, reachable) && n in parent && parent[n].None?
    ensures MayVisit(parent, depth, reachable, n, 0)
  {
  }

  /** Hangs every pull no root reached directly under its own base branch, without its children. */
  method Reattach(b: Builder, open: seq<PullItem>)
    requires Indexed(open, b.items) && DistinctNumbers(open) && b.BranchesListed()
    requires ParentsSound(b.items, b.parent) && GroupsHold(b.groups, b.items, b.parent, b.items.Keys)
    requires ListsHold(b.children, b.parent, b.items.Keys)
    requires Levelled(b.parent, b.depth, b.reachable) && Finished(b.children, b.reachable, {})
    requires forall g, n :: g in b.groups && n in b.groups[g] ==> n in b.reachable
    modifies b`children, b`depth, b`reachable, b`groups, b`branches
    ensures b.BranchesListed()
    ensures b.children == Cleared(old(b.children), old(b.reachable), b.items.Keys)
    ensures b.depth == Reset(old(b.depth), old(b.reachable), b.items.Keys)
    ensures GroupsHold(b.groups, b.items, Cut(b.parent, old(b.reachable)), b.items.Keys)
  {
    hide AscendingBy, NoDuplicates, Finished, ListsHold, Levelled, GroupsHold, Cleared, Reset, Cut,
         Numbers, Indexed, DistinctNumbers, ParentsSound;
    ghost var reached, lists, levels := b.reachable, b.children, b.depth;
    ghost var owner := Cut(b.parent, reached);
    ghost var done: set<int> := {};
    OpenNumbers(open, b.items, b.parent);
    LevelledKnown(b.parent, b.depth, reached);
    LevelledKeys(b.parent, b.depth, reached);
    ListsKnown(b.children, b.parent, b.items.Keys);
    RootsStay(b.groups, b.items, b.parent, reached);
    NothingCleared(lists, levels, b.parent, reached);
    assert reached + {} == reached;
    for i := 0 to |open|
      invariant done == Numbers(open[..i]) && done <= b.items.Keys
      invariant b.BranchesListed()
      invariant b.reachable == reached + done
      invariant b.children == Cleared(lists, reached, done) && b.depth == Reset(levels, reached, done)
      invariant GroupsHold(b.groups, b.items, owner, reached + done)
    {
      var n := open[i].number;
      NextNumber(open, b.items, i);
      ClearOne(lists, levels, reached, done, n);
      assert reached + done + {n} == reached + (done + {n});
      if n !in b.reachable {
        OwnerOfCut(b.parent, reached, n);
        LinkToBranch(b.groups, b.items, owner, reached + done, n);
        b.ReattachOne(n);
      } else {
        assert reached + done == reached + (done + {n});
      }
      done := done + {n};
    }
    assert open[..|open|] == open;
    assert reached + done == b.items.Keys;
  }

  lemma OpenNumbers(open: seq<PullItem>, items: map<int, PullItem>, parent: Owners)
    requires Indexed(open, items) && ParentsSound(items, parent)
    ensures Numbers(open) == items.Keys == parent.Keys && Numbers(open[..0]) == {}
  {
  }

  lemma NextNumber(open: seq<PullItem>, items: map<int, PullItem>, i: nat)
    requires Indexed(open, items) && DistinctNumbers(open) && i < |open|
    ensures open[i].number in items && open[i].number !in Numbers(open[..i])
    ensures Numbers(open[..i + 1]) == Numbers(open[..i]) + {open[i].number}
  {
    assert open[..i + 1] == open[..i] + [open[i]];
    NumberIsNew(open, i);
  }

  lemma NothingCleared(children: Lists, depth: Depths, parent: Owners, reached: set<int>)
    ensures Cleared(children, reached, {}) == children && Reset(depth, reached, {}) == depth
    ensures Cut(parent, reached).Keys == parent.Keys
  {
  }

  lemma OwnerOfCut(parent: Owners, reached: set<int>, n: int)
    requires n in parent && n !in reached
    ensures n in Cut(parent, reached) && Cut(parent, reached)[n] == None
  {
  }

  lemma ClearOne(children: Lists, depth: Depths, reached: set<int>, done: set<int>, n: int)
    requires n in children && n in depth && n !in done
    ensures n !in reached ==>
      && Cleared(children, reached, done)[n := []] == Cleared(children, reached, done + {n})
      && Reset(depth, reached, done)[n := 0] == Reset(depth, reached, done + {n})
    ensures n in reached ==>
      && Cleared(children, reached, done) == Cleared(children, reached, done + {n})
      && Reset(depth, reached, done) == Reset(depth, reached, done + {n})
  {
  }

  lemma ListsKnown(children: Lists, parent: Owners, done: set<int>)
    requires done <= parent.Keys && ListsHold(children, parent, done)
    ensures children.Keys == parent.Keys
  {
  }

  // ----- the result

  function SortedGroups(groups: Groups): Groups
  {
    map b | b in groups :: SortBy(Self, groups[b])
  }

  lemma SortedGroupsPlaced(items: map<int, PullItem>, depth: Depths, groups: Groups, owner: Owners)
    requires depth.Keys == owner.Keys == items.Keys && GroupsPlaced(items, depth, groups, owner)
    ensures GroupsPlaced(items, depth, SortedGroups(groups), owner)
    ensures forall b :: b in groups ==> AscendingBy(Self, SortedGroups(groups)[b])
  {
    hide SortBy;
    forall b | b in groups
      ensures (forall y :: y in SortBy(Self, groups[b]) <==> y in groups[b])
           && NoDuplicates(SortBy(Self, groups[b])) && AscendingBy(Self, SortBy(Self, groups[b]))
    {
      SortByKeeps(Self, groups[b]);
    }
  }

  /** One root per branch, its children by number and its total counted over the whole stack. */
  method MakeRoots(branches: seq<string>, groups: Groups, shape: Shape) returns (roots: seq<Root>)
    requires NoDuplicates(branches) && forall b :: b in branches <==> b in groups
    requires shape.Sound() && forall b :: b in groups ==> shape.Level(groups[b], 0)
    ensures RootsMatch(roots, groups)
    ensures forall r :: r in roots ==> shape.Level(r.children, 0) && r.total == shape.CountAll(r.children, 0)
  {
    roots := [];
    for i := 0 to |branches|
      invariant |roots| == i
      invariant forall j :: 0 <= j < i ==> roots[j].branch == branches[j] && roots[j].children == groups[branches[j]]
      invariant forall r :: r in roots ==> shape.Level(r.children, 0) && r.total == shape.CountAll(r.children, 0)
    {
      var list := groups[branches[i]];
      roots := roots + [Root(branches[i], list, shape.CountAll(list, 0))];
    }
    forall r | r in roots
      ensures r.branch in groups && groups[r.branch] == r.children
    {
      var i :| 0 <= i < |roots| && roots[i] == r;
    }
    forall b | b in groups
      ensures exists r :: r in roots && r.branch == b
    {
      var i :| 0 <= i < |branches| && branches[i] == b;
      assert roots[i] in roots;
    }
  }

  lemma MatchedRootsSorted(leq: Before, roots: seq<Root>, groups: Groups)
    requires Total(leq) && RootsMatch(roots, groups)
    ensures RootsMatch(SortRoots(leq, roots), groups) && Ordered(leq, SortRoots(leq, roots))
    ensures forall x :: x in SortRoots(leq, roots) <==> x in roots
  {
    hide SortRoots, Ordered;
    SortRootsKeeps(leq, roots);
    forall b | b in groups
      ensures exists r :: r in SortRoots(leq, roots) && r.branch == b
    {
      var r :| r in roots && r.branch == b;
      assert r in SortRoots(leq, roots);
    }
  }

  /** Siblings come in the order of their numbers. */
  ghost predicate SiblingsSorted(f: Forest)
  {
    && (forall p, i, j :: p in f.children && 0 <= i < j < |f.children[p]| ==> f.children[p][i] <= f.children[p][j])
    && (forall r, i, j :: r in f.roots && 0 <= i < j < |r.children| ==> r.children[i] <= r.children[j])
  }

  /** p is another open pull, the lowest-numbered of those that produce the branch this pull targets. */
  ghost predicate StackedOn(open: seq<PullItem>, it: PullItem, p: int)
  {
    && p != it.number
    && (exists q :: q in open && q.number == p && q.headRef == it.baseRef)
    && (forall q :: q in open && q.headRef == it.baseRef ==> p <= q.number)
  }

  /** Each pull hangs under the pull it is stacked on, unless its stack runs into a cycle. */
  ghost predicate OwnedByParents(open: seq<PullItem>, parent: Owners, owner: Owners)
  {
    && parent.Keys == owner.Keys == Numbers(open)
    && (forall it, p :: it in open && it.number in parent ==>
          (parent[it.number] == Some(p) <==> StackedOn(open, it, p)))
    && (forall n :: n in owner ==> owner[n] == if Grounded(parent, n) then parent[n] else None)
  }

  lemma ParentIsStackedOn(open: seq<PullItem>, byHead: map<string, PullItem>, it: PullItem, p: int)
    requires FirstByHead(open, byHead) && it in open
    ensures Parent(byHead, it) == Some(p) <==> StackedOn(open, it, p)
  {
    if StackedOn(open, it, p) {
      var q :| q in open && q.number == p && q.headRef == it.baseRef;
      assert q.headRef in byHead && byHead[q.headRef] in open;
    }
    if Parent(byHead, it) == Some(p) {
      assert byHead[it.baseRef] in open;
    }
  }

  lemma ParentsAreSound(open: seq<PullItem>, items: map<int, PullItem>, byHead: map<string, PullItem>, parent: Owners)
    requires Indexed(open, items) && FirstByHead(open, byHead)
    requires parent == map n | n in items :: Parent(byHead, items[n])
    ensures ParentsSound(items, parent)
  {
    forall n | n in items && parent[n].Some?
      ensures parent[n].value in items && parent[n].value != n && items[parent[n].value].headRef == items[n].baseRef
    {
      assert byHead[items[n].baseRef] in open;
    }
  }

  lemma RootsAreReached(items: map<int, PullItem>, parent: Owners, groups: Groups, reached: set<int>)
    requires parent.Keys == items.Keys && GroupsHold(groups, items, parent, items.Keys)
    requires forall g, n :: g in groups && n in groups[g] ==> n in reached
    ensures forall m :: m in parent && parent[m].None? ==> m in reached
  {
  }

  lemma ClearedStaySorted(children: Lists, reached: set<int>, all: set<int>)
    requires Finished(children, reached, {}) && children.Keys <= all
    ensures forall p :: p in Cleared(children, reached, all) ==> AscendingBy(Self, Cleared(children, reached, all)[p])
  {
  }

  /** Links, walks and re-attaches: afterwards every pull is in its place. */
  method PlaceAll(b: Builder, open: seq<PullItem>) returns (ghost reached: set<int>)
    requires Indexed(open, b.items) && DistinctNumbers(open)
    requires b.Linked({}) && b.depth.Keys == b.parent.Keys == b.items.Keys && b.reachable == {}
    modifies b`children, b`depth, b`reachable, b`groups, b`branches
    ensures b.BranchesListed()
    ensures Placed(b.items, b.children, b.depth, SortedGroups(b.groups), Cut(b.parent, reached))
    ensures forall p :: p in b.children ==> AscendingBy(Self, b.children[p])
    ensures forall g :: g in b.groups ==> AscendingBy(Self, SortedGroups(b.groups)[g])
    ensures forall n :: n in b.parent ==> (n in reached <==> Grounded(b.parent, n))
  {
    hide NoDuplicates, AscendingBy, Finished, Levelled, ListsHold, GroupsHold, ChildrenPlaced, GroupsPlaced, Cleared,
         Reset,
         Cut, Indexed, Numbers, ParentsSound, DistinctNumbers, SortedGroups, Grounded;
    LinkAll(b, open);
    WalkFromRoots(b);
    reached := b.reachable;
    ghost var lists, levels := b.children, b.depth;
    RootsAreReached(b.items, b.parent, b.groups, reached);
    ReachedIffGrounded(b.parent, levels, lists, reached);
    Reattach(b, open);
    PlacedAfterCut(b.items, b.parent, lists, levels, b.groups, reached);
    ClearedStaySorted(lists, reached, b.items.Keys);
    SortedGroupsPlaced(b.items, b.depth, b.groups, Cut(b.parent, reached));
  }

  /** Roots in order over a finished placement. */
  method Assemble(b: Builder, leq: Before, ghost owner: Owners) returns (f: Forest)
    requires Total(leq) && b.BranchesListed()
    requires Placed(b.items, b.children, b.depth, SortedGroups(b.groups), owner)
    requires forall p :: p in b.children ==> AscendingBy(Self, b.children[p])
    requires forall g :: g in b.groups ==> AscendingBy(Self, SortedGroups(b.groups)[g])
    ensures f.items == b.items && Arranged(f, SortedGroups(b.groups), owner)
    ensures ShapeOf(f).Sound() && (forall r :: r in f.roots ==> ShapeOf(f).Level(r.children, 0)) && TotalsCounted(f)
    ensures Ordered(leq, f.roots) && SiblingsSorted(f)
  {
    hide NoDuplicates, AscendingBy, Placed, Ordered, SortRoots, Total, RootsMatch, SortedGroups, Shape.CountAll,
         Shape.Sound, Shape.Level;
    var shape := Shape(b.children, b.depth, |b.items|);
    SameBranches(b.groups);
    PlacedShape(b.items, b.children, b.depth, SortedGroups(b.groups), owner);
    var roots := MakeRoots(b.branches, SortedGroups(b.groups), shape);
    MatchedRootsSorted(leq, roots, SortedGroups(b.groups));
    f := Forest(b.items, b.children, b.depth, SortRoots(leq, roots));
    assert ShapeOf(f) == shape;
    RootsSorted(f, SortedGroups(b.groups));
  }

  /**
   * The whole arrangement, for any list of pulls with distinct numbers, cycles included: every open pull
   * in exactly one place, roots largest first, siblings by number, totals counted.
   */
  method BuildPullTree(pulls: seq<PullItem>, leq: Before)
    returns (f: Forest, ghost groups: Groups, ghost owner: Owners, ghost parent: Owners)
    requires DistinctNumbers(pulls) && Total(leq)
    ensures Indexed(OpenOnes(pulls), f.items)
    ensures Arranged(f, groups, owner)
    ensures ShapeOf(f).Sound() && (forall r :: r in f.roots ==> ShapeOf(f).Level(r.children, 0)) && TotalsCounted(f)
    ensures Ordered(leq, f.roots) && SiblingsSorted(f)
    ensures OwnedByParents(OpenOnes(pulls), parent, owner)
  {
    hide *;
    var open := OpenOnes(pulls);
    OpenOnesDistinct(pulls);
    var b;
    ghost var byHead;
    b, byHead := Prepare(open);
    parent := b.parent;
    ghost var reached := PlaceAll(b, open);
    owner, groups := Cut(parent, reached), SortedGroups(b.groups);
    f := Assemble(b, leq, owner);
    OwnersExplained(open, b.items, byHead, parent, reached);
  }

  /** Unlinked nodes for the open pulls, each knowing the pull it is stacked on. */
  method Prepare(open: seq<PullItem>) returns (b: Builder, ghost byHead: map<string, PullItem>)
    requires DistinctNumbers(open)
    ensures fresh(b) && Indexed(open, b.items) && FirstByHead(open, byHead)
    ensures b.parent == map n | n in b.items :: Parent(byHead, b.items[n])
    ensures b.Linked({}) && b.depth.Keys == b.parent.Keys == b.items.Keys && b.reachable == {}
  {
    hide Indexed, FirstByHead, Parent, ParentsSound, ListsHold, GroupsHold, NoDuplicates;
    var heads := IndexHeads(open);
    var items := IndexItems(open);
    var up := map n | n in items :: Parent(heads, items[n]);
    byHead := heads;
    ParentsAreSound(open, items, heads, up);
    b := new Builder(items, up);
    NothingLinked(items, up);
  }

  lemma NothingLinked(items: map<int, PullItem>, parent: Owners)
    requires parent.Keys == items.Keys
    ensures ListsHold(map n | n in items :: [], parent, {}) && GroupsHold(map[], items, parent, {})
    ensures NoDuplicates<string>([])
  {
  }

  lemma SameBranches(groups: Groups)
    ensures SortedGroups(groups).Keys == groups.Keys
  {
  }

  lemma PlacedShape(items: map<int, PullItem>, children: Lists, depth: Depths, groups: Groups, owner: Owners)
    requires Placed(items, children, depth, groups, owner)
    ensures var shape := Shape(children, depth, |items|);
      shape.Sound() && forall b :: b in groups ==> shape.Level(groups[b], 0)
  {
    hide NoDuplicates;
  }

  lemma RootsSorted(f: Forest, groups: Groups)
    requires RootsMatch(f.roots, groups)
    requires forall b :: b in groups ==> AscendingBy(Self, groups[b])
    requires forall p :: p in f.children ==> AscendingBy(Self, f.children[p])
    ensures SiblingsSorted(f)
  {
    hide AscendingBy;
    forall p | p in f.children
      ensures forall i, j :: 0 <= i < j < |f.children[p]| ==> f.children[p][i] <= f.children[p][j]
    {
      AscendingNumbers(f.children[p]);
    }
    forall r | r in f.roots
      ensures forall i, j :: 0 <= i < j < |r.children| ==> r.children[i] <= r.children[j]
    {
      AscendingNumbers(r.children);
    }
  }

  lemma AscendingNumbers(s: seq<int>)
    requires AscendingBy(Self, s)
    ensures forall i, j :: 0 <= i < j < |s| ==> s[i] <= s[j]
  {
    assert forall i :: 0 <= i < |s| ==> Self(s[i]) == s[i];
  }

  lemma OwnersExplained(open: seq<PullItem>, items: map<int, PullItem>, byHead: map<string, PullItem>, parent: Owners,
                        reached: set<int>)
    requires Indexed(open, items) && FirstByHead(open, byHead)
    requires parent == map n | n in items :: Parent(byHead, items[n])
    requires forall n :: n in parent ==> (n in reached <==> Grounded(parent, n))
    ensures OwnedByParents(open, parent, Cut(parent, reached))
  {
    hide FirstByHead, Grounded, StackedOn, Parent;
    forall it, p | it in open && it.number in parent
      ensures parent[it.number] == Some(p) <==> StackedOn(open, it, p)
    {
      ParentIsStackedOn(open, byHead, it, p);
    }
  }
}

/** Building the forest: linking, walking down from the roots, and re-attaching what no root reaches. */
module PullForest {
  import opened Sequences
  import opened PullTree

  function Self(n: int): int { n }

  type Lists = map<int, seq<int>>
  type Groups = map<string, seq<int>>
  type Depths = map<int, nat>

  // ----- links

  /** Each parent is another known pull, whose head branch is the child's base branch. */
  ghost predicate ParentsSound(items: map<int, PullItem>, parent: Owners)
  {
    && parent.Keys == items.Keys
    && forall n :: n in items && parent[n].Some? ==>
         parent[n].value in items && parent[n].value != n && items[parent[n].value].headRef == items[n].baseRef
  }

  /** Child lists hold exactly the pulls of `done` that have a parent, each once. */
  ghost predicate ListsHold(children: Lists, parent: Owners, done: set<int>)
    requires done <= parent.Keys
  {
    && children.Keys == parent.Keys
    && (forall p :: p in children ==> NoDuplicates(children[p]))
    && (forall p, c :: p in children && c in children[p] ==> c in done && parent[c] == Some(p))
    && (forall n :: n in done && parent[n].Some? ==> parent[n].value in children && n in children[parent[n].value])
  }

  /** Branch groups hold exactly the pulls of `done` without a parent, each once, under its base branch. */
  ghost predicate GroupsHold(groups: Groups, items: map<int, PullItem>, parent: Owners, done: set<int>)
    requires done <= parent.Keys && parent.Keys == items.Keys
  {
    && (forall b :: b in groups ==> NoDuplicates(groups[b]))
    && (forall b, c :: b in groups && c in groups[b] ==> c in done && parent[c] == None && items[c].baseRef == b)
    && (forall n :: n in done && parent[n].None? ==> items[n].baseRef in groups && n in groups[items[n].baseRef])
  }

  function Group(groups: Groups, branch: string): seq<int>
  {
    if branch in groups then groups[branch] else []
  }

  lemma LinkToParent(children: Lists, parent: Owners, done: set<int>, n: int)
    requires done <= parent.Keys && ListsHold(children, parent, done)
    requires n in parent && n !in done && parent[n].Some? && parent[n].value in children
    ensures ListsHold(children[parent[n].value := children[parent[n].value] + [n]], parent, done + {n})
  {
  }

  lemma LinkToBranch(groups: Groups, items: map<int, PullItem>, parent: Owners, done: set<int>, n: int)
    requires done <= parent.Keys && parent.Keys == items.Keys && GroupsHold(groups, items, parent, done)
    requires n in parent && n !in done && parent[n].None?
    ensures GroupsHold(groups[items[n].baseRef := Group(groups, items[n].baseRef) + [n]], items, parent, done + {n})
  {
  }

  lemma ParentKnown(children: Lists, items: map<int, PullItem>, parent: Owners, done: set<int>, n: int)
    requires ParentsSound(items, parent) && done <= items.Keys && ListsHold(children, parent, done) && n in items
    ensures children.Keys == parent.Keys == items.Keys && (parent[n].Some? ==> parent[n].value in children)
  {
  }

  /** A pull without a parent changes no child list, and one with a parent no branch group. */
  lemma LinkElsewhere(children: Lists, groups: Groups, items: map<int, PullItem>, parent: Owners, done: set<int>,
                      n: int)
    requires done <= parent.Keys && parent.Keys == items.Keys && n in parent
    requires ListsHold(children, parent, done) && GroupsHold(groups, items, parent, done)
    ensures parent[n].None? ==> ListsHold(children, parent, done + {n})
    ensures parent[n].Some? ==> GroupsHold(groups, items, parent, done + {n})
  {
    hide NoDuplicates;
  }

  lemma SortedListsHold(children: Lists, parent: Owners, done: set<int>, n: int)
    requires done <= parent.Keys && ListsHold(children, parent, done) && n in children
    ensures ListsHold(children[n := SortBy(Self, children[n])], parent, done)
    ensures AscendingBy(Self, SortBy(Self, children[n]))
  {
    SortByKeeps(Self, children[n]);
  }

  // ----- levels

  /** Visited pulls sit at their level: roots at 0, the others one below their visited parent. */
  ghost predicate Levelled(parent: Owners, depth: Depths, reachable: set<int>)
  {
    && reachable <= parent.Keys && depth.Keys == parent.Keys
    && (forall n :: n in reachable ==> depth[n] < |reachable|)
    && (forall n :: n in reachable && parent[n].None? ==> depth[n] == 0)
    && (forall n :: n in reachable && parent[n].Some? ==>
          parent[n].value in reachable && depth[n] == depth[parent[n].value] + 1)
  }

  ghost predicate MayVisit(parent: Owners, depth: Depths, reachable: set<int>, n: int, d: nat)
  {
    && n in parent && reachable <= parent.Keys && depth.Keys == parent.Keys && d <= |reachable|
    && (if parent[n].None? then d == 0 else parent[n].value in reachable && d == depth[parent[n].value] + 1)
  }

  lemma VisitLevels(parent: Owners, depth: Depths, reachable: set<int>, n: int, d: nat)
    requires Levelled(parent, depth, reachable) && MayVisit(parent, depth, reachable, n, d) && n !in reachable
    ensures Levelled(parent, depth[n := d], reachable + {n})
  {
    assert |reachable + {n}| == |reachable| + 1;
  }

  /** Pulls visited since `before` have sorted child lists all of whose members were visited. */
  ghost predicate Finished(children: Lists, reachable: set<int>, before: set<int>)
  {
    forall m :: m in reachable && m !in before && m in children ==>
      AscendingBy(Self, children[m]) && forall c :: c in children[m] ==> c in reachable
  }

  /** Lists of pulls visited before, or not visited yet, stay as they were. */
  ghost predicate Untouched(was: Lists, now: Lists, before: set<int>, reachable: set<int>)
  {
    forall m :: m in was && m in now && (m in before || m !in reachable) ==> now[m] == was[m]
  }

  ghost predicate SameDepths(was: Depths, now: Depths, before: set<int>)
  {
    forall m :: m in before && m in was && m in now ==> now[m] == was[m]
  }

  lemma LevelledKnown(parent: Owners, depth: Depths, reachable: set<int>)
    requires Levelled(parent, depth, reachable)
    ensures reachable <= parent.Keys
  {
  }

  lemma ChildMayBeVisited(children: Lists, parent: Owners, depth: Depths, reachable: set<int>, n: int, c: int)
    requires ListsHold(children, parent, parent.Keys) && Levelled(parent, depth, reachable)
    requires n in reachable && n in children && c in children[n]
    ensures n in depth && c in parent && MayVisit(parent, depth, reachable, c, depth[n] + 1)
  {
  }

  lemma FewerLeft(all: set<int>, before: set<int>, n: int, now: set<int>)
    requires n in all && n !in before && before + {n} <= now
    ensures all - now < all - before
  {
    assert n in all - before && n !in all - now;
  }

  /** What was finished before a visit and is left alone by it stays finished, beside what the visit finishes. */
  lemma FinishedGrows(was: Lists, visited: set<int>, now: Lists, reachable: set<int>, before: set<int>)
    requires was.Keys == now.Keys && visited <= reachable
    requires Untouched(was, now, visited, reachable)
    requires Finished(was, visited, before) && Finished(now, reachable, visited)
    ensures Finished(now, reachable, before)
  {
  }

  lemma FinishedWith(children: Lists, reachable: set<int>, before: set<int>, n: int)
    requires n in children && Finished(children, reachable, before + {n})
    requires AscendingBy(Self, children[n]) && forall c :: c in children[n] ==> c in reachable
    ensures Finished(children, reachable, before)
  {
  }

  lemma NothingNew(children: Lists, depth: Depths, reachable: set<int>)
    ensures Finished(children, reachable, reachable)
    ensures Untouched(children, children, reachable, reachable) && SameDepths(depth, depth, reachable)
  {
  }

  lemma KeptMore(first: Lists, was: Lists, now: Lists, levels: Depths, wasDepth: Depths, depth: Depths,
                 before: set<int>, visited: set<int>, reachable: set<int>)
    requires first.Keys == was.Keys == now.Keys && before <= visited <= reachable
    requires levels.Keys == wasDepth.Keys == depth.Keys
    requires Untouched(first, was, before, visited) && Untouched(was, now, visited, reachable)
    requires SameDepths(levels, wasDepth, before) && SameDepths(wasDepth, depth, visited)
    ensures Untouched(first, now, before, reachable) && SameDepths(levels, depth, before)
  {
  }

  lemma KeptOne(was: Lists, now: Lists, depth: Depths, wasDepth: Depths, visited: set<int>, reachable: set<int>, n: int)
    requires Untouched(was, now, visited, reachable) && SameDepths(wasDepth, depth, visited)
    requires n in visited && n in was && n in now && n in depth && n in wasDepth
    ensures now[n] == was[n] && depth[n] == wasDepth[n]
  {
  }

  lemma KeptOld(start: Lists, first: Lists, now: Lists, startDepth: Depths, levels: Depths, depth: Depths,
                before: set<int>, reachable: set<int>, n: int)
    requires start.Keys == first.Keys == now.Keys && startDepth.Keys == levels.Keys == depth.Keys
    requires n in start && n in startDepth && n in reachable && n !in before
    requires first == start[n := first[n]] && levels == startDepth[n := levels[n]]
    requires Untouched(first, now, before + {n}, reachable) && SameDepths(levels, depth, before + {n})
    ensures Untouched(start, now, before, reachable) && SameDepths(startDepth, depth, before)
  {
  }

  /** What visits since `before` have done to the lists and levels found then. */
  ghost predicate Progress(was: Lists, wasDepth: Depths, before: set<int>, now: Lists, depth: Depths,
                           reachable: set<int>)
  {
    && was.Keys == now.Keys && wasDepth.Keys == depth.Keys && before <= reachable
    && Untouched(was, now, before, reachable) && SameDepths(wasDepth, depth, before)
    && Finished(now, reachable, before)
  }

  lemma NoProgress(children: Lists, depth: Depths, reachable: set<int>)
    ensures Progress(children, depth, reachable, children, depth, reachable)
  {
    NothingNew(children, depth, reachable);
  }

  lemma ProgressMore(first: Lists, levels: Depths, before: set<int>, was: Lists, wasDepth: Depths, visited: set<int>,
                     now: Lists, depth: Depths, reachable: set<int>, n: int)
    requires Progress(first, levels, before, was, wasDepth, visited)
    requires Progress(was, wasDepth, visited, now, depth, reachable)
    requires n in before && n in was && n in wasDepth
    ensures Progress(first, levels, before, now, depth, reachable)
    ensures now[n] == was[n] && depth[n] == wasDepth[n]
  {
    hide Untouched, SameDepths, Finished;
    KeptMore(first, was, now, levels, wasDepth, depth, before, visited, reachable);
    KeptOne(was, now, depth, wasDepth, visited, reachable, n);
    FinishedGrows(was, visited, now, reachable, before);
  }

  lemma ProgressWith(start: Lists, startDepth: Depths, before: set<int>, first: Lists, levels: Depths,
                     now: Lists, depth: Depths, reachable: set<int>, n: int)
    requires Progress(first, levels, before + {n}, now, depth, reachable)
    requires n in start && n in startDepth && n !in before
    requires start.Keys == first.Keys && startDepth.Keys == levels.Keys
    requires first == start[n := first[n]] && levels == startDepth[n := levels[n]]
    requires AscendingBy(Self, now[n]) && forall c :: c in now[n] ==> c in reachable
    ensures Progress(start, startDepth, before, now, depth, reachable)
  {
    hide Untouched, SameDepths, Finished, AscendingBy;
    KeptOld(start, first, now, startDepth, levels, depth, before, reachable, n);
    FinishedWith(now, reachable, before, n);
  }

  /** The nodes under construction, by pull number, and the branch groups in order of creation. */
  class Builder {
    const items: map<int, PullItem>
    const parent: Owners
    var children: Lists
    var depth: Depths
    var groups: Groups
    var branches: seq<string>
    var reachable: set<int>

    constructor (items: map<int, PullItem>, parent: Owners)
      ensures this.items == items && this.parent == parent
      ensures children == (map n | n in items :: []) && depth == (map n | n in items :: 0)
      ensures groups == map[] && branches == [] && reachable == {}
    {
      this.items, this.parent := items, parent;
      children := map n | n in items :: [];
      depth := map n | n in items :: 0;
      groups, branches, reachable := map[], [], {};
    }

    ghost predicate BranchesListed()
      reads this
    {
      NoDuplicates(branches) && forall b :: b in branches <==> b in groups
    }

    method AddToGroup(branch: string, n: int)
      requires BranchesListed()
      modifies this`groups, this`branches
      ensures BranchesListed()
      ensures groups == old(groups)[branch := Group(old(groups), branch) + [n]]
    {
      if branch in groups {
        groups := groups[branch := groups[branch] + [n]];
      } else {
        groups := groups[branch := [] + [n]];
        branches := branches + [branch];
      }
    }

    ghost predicate Linked(done: set<int>)
      reads this
    {
      && ParentsSound(items, parent) && BranchesListed() && done <= items.Keys
      && ListsHold(children, parent, done) && GroupsHold(groups, items, parent, done)
    }

    method Link(n: int, ghost done: set<int>)
      requires Linked(done) && n in items && n !in done
      modifies this`children, this`groups, this`branches
      ensures Linked(done + {n})
    {
      ParentKnown(children, items, parent, done, n);
      hide Group, ListsHold, GroupsHold, ParentsSound, NoDuplicates;
      LinkElsewhere(children, groups, items, parent, done, n);
      if parent[n].Some? {
        var p := parent[n].value;
        LinkToParent(children, parent, done, n);
        children := children[p := children[p] + [n]];
      } else {
        LinkToBranch(groups, items, parent, done, n);
        AddToGroup(items[n].baseRef, n);
      }
    }

    /** Hangs one pull directly under its base branch, without its children. */
    method ReattachOne(n: int)
      requires n in items && BranchesListed()
      modifies this`children, this`depth, this`reachable, this`groups, this`branches
      ensures BranchesListed()
      ensures children == old(children)[n := []] && depth == old(depth)[n := 0]
      ensures reachable == old(reachable) + {n}
      ensures groups == old(groups)[items[n].baseRef := Group(old(groups), items[n].baseRef) + [n]]
    {
      children := children[n := []];
      depth := depth[n := 0];
      reachable := reachable + {n};
      AddToGroup(items[n].baseRef, n);
    }

    method AssignDepth(n: int, d: nat)
      requires children.Keys == depth.Keys == parent.Keys == items.Keys && n in items
      requires ListsHold(children, parent, items.Keys)
      requires Levelled(parent, depth, reachable) && MayVisit(parent, depth, reachable, n, d)
      modifies this`children, this`depth, this`reachable
      ensures children.Keys == depth.Keys == items.Keys
      ensures ListsHold(children, parent, items.Keys)
      ensures Levelled(parent, depth, reachable)
      ensures old(reachable) + {n} <= reachable <= items.Keys
      ensures Progress(old(children), old(depth), old(reachable), children, depth, reachable)
      decreases items.Keys - reachable
    {
      hide SortBy, AscendingBy, Levelled, MayVisit, ListsHold, NoDuplicates, Progress;
      LevelledKnown(parent, depth, reachable);
      NoProgress(children, depth, reachable);
      if n in reachable {
        return;
      }
      ghost var start, startDepth, before := children, depth, reachable;
      VisitLevels(parent, depth, reachable, n, d);
      SortedListsHold(children, parent, items.Keys, n);
      reachable := reachable + {n};
      depth := depth[n := d];
      children := children[n := SortBy(Self, children[n])];
      var mine := children[n];
      ghost var first, levels := children, depth;
      NoProgress(first, levels, reachable);
      for i := 0 to |mine|
        invariant children.Keys == depth.Keys == items.Keys
        invariant ListsHold(children, parent, items.Keys)
        invariant Levelled(parent, depth, reachable)
        invariant before + {n} <= reachable <= items.Keys
        invariant children[n] == mine && depth[n] == d
        invariant forall j :: 0 <= j < i ==> mine[j] in reachable
        invariant Progress(first, levels, before + {n}, children, depth, reachable)
      {
        ghost var visited, was, wasDepth := reachable, children, depth;
        assert mine[i] in children[n];
        ChildMayBeVisited(children, parent, depth, reachable, n, mine[i]);
        FewerLeft(items.Keys, before, n, reachable);
        AssignDepth(mine[i], d + 1);
        ProgressMore(first, levels, before + {n}, was, wasDepth, visited, children, depth, reachable, n);
      }
      ProgressWith(start, startDepth, before, first, levels, children, depth, reachable, n);
    }
  }
}

/** Counting and flattening a finished forest: every open pull shows up in exactly one place. */
module PullFlatten {
  import opened Sequences
  import opened PullTree

  /** Child lists that lead one level down each, so that walking them ends. */
  datatype Shape = Shape(children: map<int, seq<int>>, depth: map<int, nat>, size: nat)
  {
    ghost predicate Sound()
    {
      && children.Keys == depth.Keys
      && (forall n :: n in depth ==> depth[n] < size)
      && (forall p, c :: p in children && c in children[p] ==> c in depth && depth[c] == depth[p] + 1)
    }

    ghost predicate Level(ns: seq<int>, d: nat)
    {
      forall n :: n in ns ==> n in depth && depth[n] == d
    }

    /** A node and everything beneath it, in display order. */
    function Walk(n: int): seq<int>
      requires Sound() && n in depth
      decreases size - depth[n], 0
    {
      [n] + WalkAll(children[n], depth[n] + 1)
    }

    function WalkAll(ns: seq<int>, d: nat): seq<int>
      requires Sound() && Level(ns, d) && d <= size
      decreases size - d, |ns| + 1
    {
      if ns == [] then [] else
        assert ns[0] in ns;
        Walk(ns[0]) + WalkAll(ns[1..], d)
    }

    function Count(n: int): nat
      requires Sound() && n in depth
      decreases size - depth[n], 0
    {
      1 + CountAll(children[n], depth[n] + 1)
    }

    function CountAll(ns: seq<int>, d: nat): nat
      requires Sound() && Level(ns, d) && d <= size
      decreases size - d, |ns| + 1
    {
      if ns == [] then 0 else
        assert ns[0] in ns;
        Count(ns[0]) + CountAll(ns[1..], d)
    }

    lemma {:induction false} CountIsLength(n: int)
      requires Sound() && n in depth
      ensures Count(n) == |Walk(n)|
      decreases size - depth[n], 0
    {
      CountAllIsLength(children[n], depth[n] + 1);
    }

    lemma {:induction false} CountAllIsLength(ns: seq<int>, d: nat)
      requires Sound() && Level(ns, d) && d <= size
      ensures CountAll(ns, d) == |WalkAll(ns, d)|
      decreases size - d, |ns| + 1
    {
      if ns != [] {
        assert ns[0] in ns;
        CountIsLength(ns[0]);
        CountAllIsLength(ns[1..], d);
      }
    }
  }

  function ShapeOf(f: Forest): Shape
  {
    Shape(f.children, f.depth, |f.items|)
  }

  ghost predicate RootsMatch(roots: seq<Root>, groups: map<string, seq<int>>)
  {
    && (forall i, j :: 0 <= i < j < |roots| ==> roots[i].branch != roots[j].branch)
    && (forall r :: r in roots ==> r.branch in groups && groups[r.branch] == r.children)
    && (forall b :: b in groups ==> exists r :: r in roots && r.branch == b)
  }

  /** The forest of these open pulls, each hanging where `owner` says. */
  ghost predicate Arranged(f: Forest, groups: map<string, seq<int>>, owner: Owners)
  {
    Placed(f.items, f.children, f.depth, groups, owner) && RootsMatch(f.roots, groups)
  }

  lemma ChildrenLevelled(items: map<int, PullItem>, children: map<int, seq<int>>, depth: map<int, nat>, owner: Owners)
    requires children.Keys == depth.Keys == owner.Keys == items.Keys && ChildrenPlaced(items, children, depth, owner)
    ensures forall p, c :: p in children && c in children[p] ==> c in depth && depth[c] == depth[p] + 1
  {
    hide NoDuplicates;
  }

  lemma GroupsLevelled(items: map<int, PullItem>, depth: map<int, nat>, groups: map<string, seq<int>>, owner: Owners)
    requires depth.Keys == owner.Keys == items.Keys && GroupsPlaced(items, depth, groups, owner)
    ensures forall b, c :: b in groups && c in groups[b] ==> c in depth && depth[c] == 0
  {
    hide NoDuplicates;
  }

  lemma ArrangedIsSound(f: Forest, groups: map<string, seq<int>>, owner: Owners)
    requires Arranged(f, groups, owner)
    ensures f.depth.Keys == f.items.Keys
    ensures ShapeOf(f).Sound()
    ensures forall r :: r in f.roots ==> ShapeOf(f).Level(r.children, 0)
  {
    hide NoDuplicates, ChildrenPlaced, GroupsPlaced;
    ChildrenLevelled(f.items, f.children, f.depth, owner);
    GroupsLevelled(f.items, f.depth, groups, owner);
    forall r | r in f.roots
      ensures ShapeOf(f).Level(r.children, 0)
    {
      assert r.branch in groups && groups[r.branch] == r.children;
    }
  }

  function FlattenFrom(f: Forest, k: nat): seq<int>
    requires ShapeOf(f).Sound() && forall r :: r in f.roots ==> ShapeOf(f).Level(r.children, 0)
    decreases |f.roots| - k
  {
    if k >= |f.roots| then [] else
      assert f.roots[k] in f.roots;
      ShapeOf(f).WalkAll(f.roots[k].children, 0) + FlattenFrom(f, k + 1)
  }

  /** The rows of a tree in display order. */
  method FlattenPullTree(f: Forest) returns (out: seq<int>)
    requires ShapeOf(f).Sound() && forall r :: r in f.roots ==> ShapeOf(f).Level(r.children, 0)
    ensures out == FlattenFrom(f, 0)
  {
    out := [];
    for k := 0 to |f.roots|
      invariant out + FlattenFrom(f, k) == FlattenFrom(f, 0)
    {
      assert f.roots[k] in f.roots;
      out := out + ShapeOf(f).WalkAll(f.roots[k].children, 0);
    }
  }

  // ----- ancestors

  /** The pull at level d on the way from x up to its branch. */
  ghost function Above(f: Forest, groups: map<string, seq<int>>, owner: Owners, x: int, d: nat): (a: int)
    requires Arranged(f, groups, owner) && x in f.items && d <= f.depth[x]
    ensures a in f.items && f.depth[a] == d
    decreases f.depth[x]
  {
    if f.depth[x] == d then x else
      HasOwner(f, groups, owner, x);
      Above(f, groups, owner, owner[x].value, d)
  }

  lemma HasOwner(f: Forest, groups: map<string, seq<int>>, owner: Owners, x: int)
    requires Arranged(f, groups, owner) && x in f.items
    ensures owner[x].Some? <==> f.depth[x] > 0
    ensures owner[x].Some? ==> owner[x].value in f.items && f.depth[x] == f.depth[owner[x].value] + 1
  {
    if owner[x].Some? {
      var p := owner[x].value;
      assert p in f.children && x in f.children[p];
    } else {
      var b := f.items[x].baseRef;
      assert b in groups && x in groups[b];
    }
  }

  lemma {:induction false} OneLevelUp(f: Forest, groups: map<string, seq<int>>, owner: Owners, x: int, d: nat)
    requires Arranged(f, groups, owner) && x in f.items && d < f.depth[x]
    ensures owner[Above(f, groups, owner, x, d + 1)] == Some(Above(f, groups, owner, x, d))
    decreases f.depth[x]
  {
    HasOwner(f, groups, owner, x);
    if f.depth[x] > d + 1 {
      OneLevelUp(f, groups, owner, owner[x].value, d);
    }
  }

  // ----- exactly once

  ghost function Hits(f: Forest, groups: map<string, seq<int>>, owner: Owners, ns: seq<int>, d: nat, x: int): nat
    requires Arranged(f, groups, owner)
  {
    if x in f.items && d <= f.depth[x] && Above(f, groups, owner, x, d) in ns then 1 else 0
  }

  lemma {:induction false} WalkOnce(f: Forest, groups: map<string, seq<int>>, owner: Owners, n: int, x: int)
    requires Arranged(f, groups, owner) && n in f.items
    ensures ShapeOf(f).Sound()
    ensures multiset(ShapeOf(f).Walk(n))[x] == Hits(f, groups, owner, [n], f.depth[n], x)
    decreases |f.items| - f.depth[n], 0
  {
    hide Arranged, Hits;
    ArrangedIsSound(f, groups, owner);
    ChildrenDistinct(f, groups, owner, n);
    WalkAllOnce(f, groups, owner, f.children[n], f.depth[n] + 1, x);
    ChildHits(f, groups, owner, n, x);
  }

  /** x hangs somewhere under n exactly when it is n or hangs under one of n's children. */
  lemma ChildHits(f: Forest, groups: map<string, seq<int>>, owner: Owners, n: int, x: int)
    requires Arranged(f, groups, owner) && n in f.items
    ensures n in f.depth && n in f.children
    ensures Hits(f, groups, owner, [n], f.depth[n], x)
         == (if x == n then 1 else 0) + Hits(f, groups, owner, f.children[n], f.depth[n] + 1, x)
  {
    hide Above, NoDuplicates;
    var d := f.depth[n];
    AboveItself(f, groups, owner, n, x);
    if x in f.items && d < f.depth[x] {
      OneLevelUp(f, groups, owner, x, d);
      ChildIffOwned(f, groups, owner, n, Above(f, groups, owner, x, d + 1));
    }
  }

  lemma ChildrenDistinct(f: Forest, groups: map<string, seq<int>>, owner: Owners, n: int)
    requires Arranged(f, groups, owner) && n in f.items
    ensures n in f.children && NoDuplicates(f.children[n])
  {
  }

  lemma AboveItself(f: Forest, groups: map<string, seq<int>>, owner: Owners, n: int, x: int)
    requires Arranged(f, groups, owner) && n in f.items
    ensures x in f.items && f.depth[x] == f.depth[n] ==> Above(f, groups, owner, x, f.depth[n]) == x
  {
  }

  lemma ChildIffOwned(f: Forest, groups: map<string, seq<int>>, owner: Owners, n: int, a: int)
    requires Arranged(f, groups, owner) && n in f.items && a in f.items
    ensures a in f.children[n] <==> owner[a] == Some(n)
  {
    hide NoDuplicates;
  }

  lemma {:induction false} WalkAllOnce(f: Forest, groups: map<string, seq<int>>, owner: Owners, ns: seq<int>, d: nat,
                                       x: int)
    requires Arranged(f, groups, owner) && d <= |f.items| && ShapeOf(f).Level(ns, d) && NoDuplicates(ns)
    ensures ShapeOf(f).Sound()
    ensures multiset(ShapeOf(f).WalkAll(ns, d))[x] == Hits(f, groups, owner, ns, d, x)
    decreases |f.items| - d, |ns| + 1
  {
    hide Arranged, Above, Hits, Shape.Walk;
    ArrangedIsSound(f, groups, owner);
    NoHits(f, groups, owner, d, x);
    if ns != [] {
      assert ns[0] in ns;
      WalkOnce(f, groups, owner, ns[0], x);
      WalkAllOnce(f, groups, owner, ns[1..], d, x);
      HitsSplit(f, groups, owner, ns, d, x);
    }
  }

  lemma NoHits(f: Forest, groups: map<string, seq<int>>, owner: Owners, d: nat, x: int)
    requires Arranged(f, groups, owner)
    ensures Hits(f, groups, owner, [], d, x) == 0
  {
  }

  lemma HitsSplit(f: Forest, groups: map<string, seq<int>>, owner: Owners, ns: seq<int>, d: nat, x: int)
    requires Arranged(f, groups, owner) && ns != [] && NoDuplicates(ns)
    ensures Hits(f, groups, owner, ns, d, x)
         == Hits(f, groups, owner, [ns[0]], d, x) + Hits(f, groups, owner, ns[1..], d, x)
  {
    hide Arranged, Above;
    assert ns == [ns[0]] + ns[1..];
    assert ns[0] !in ns[1..];
  }

  /** Some root from the k-th on lists x's topmost ancestor. */
  ghost predicate Listed(f: Forest, groups: map<string, seq<int>>, owner: Owners, k: nat, x: int)
    requires Arranged(f, groups, owner) && x in f.items
  {
    exists i :: k <= i < |f.roots| && Above(f, groups, owner, x, 0) in f.roots[i].children
  }

  lemma ListedUnderOneRoot(f: Forest, groups: map<string, seq<int>>, owner: Owners, i: nat, j: nat, a: int)
    requires Arranged(f, groups, owner) && i < |f.roots| && j < |f.roots|
    requires a in f.roots[i].children && a in f.roots[j].children
    ensures i == j
  {
    var ri, rj := f.roots[i], f.roots[j];
    assert ri in f.roots && rj in f.roots;
    assert a in groups[ri.branch] && a in groups[rj.branch];
    assert f.items[a].baseRef == ri.branch && f.items[a].baseRef == rj.branch;
  }

  lemma {:induction false} FlattenFromOnce(f: Forest, groups: map<string, seq<int>>, owner: Owners, k: nat, x: int)
    requires Arranged(f, groups, owner)
    ensures ShapeOf(f).Sound() && forall r :: r in f.roots ==> ShapeOf(f).Level(r.children, 0)
    ensures multiset(FlattenFrom(f, k))[x] == if x in f.items && Listed(f, groups, owner, k, x) then 1 else 0
    decreases |f.roots| - k
  {
    hide Above, NoDuplicates, ChildrenPlaced, Shape.WalkAll;
    ArrangedIsSound(f, groups, owner);
    if k < |f.roots| {
      var r := f.roots[k];
      assert r in f.roots && r.children == groups[r.branch];
      WalkAllOnce(f, groups, owner, r.children, 0, x);
      FlattenFromOnce(f, groups, owner, k + 1, x);
      if x in f.items {
        var a := Above(f, groups, owner, x, 0);
        if a in r.children && Listed(f, groups, owner, k + 1, x) {
          var i :| k + 1 <= i < |f.roots| && a in f.roots[i].children;
          ListedUnderOneRoot(f, groups, owner, k, i, a);
        }
        assert Listed(f, groups, owner, k, x) <==> a in r.children || Listed(f, groups, owner, k + 1, x);
      }
    }
  }

  lemma IsListed(f: Forest, groups: map<string, seq<int>>, owner: Owners, x: int)
    requires Arranged(f, groups, owner) && x in f.items
    ensures Listed(f, groups, owner, 0, x)
  {
    hide Above, NoDuplicates, ChildrenPlaced;
    var a := Above(f, groups, owner, x, 0);
    HasOwner(f, groups, owner, a);
    var b := f.items[a].baseRef;
    var r :| r in f.roots && r.branch == b;
    var i :| 0 <= i < |f.roots| && f.roots[i] == r;
    assert a in f.roots[i].children;
  }

  /** The flattening holds each open pull exactly once and nothing else. */
  lemma FlattenHoldsEachOnce(f: Forest, groups: map<string, seq<int>>, owner: Owners)
    requires Arranged(f, groups, owner)
    ensures ShapeOf(f).Sound() && forall r :: r in f.roots ==> ShapeOf(f).Level(r.children, 0)
    ensures multiset(FlattenFrom(f, 0)) == multiset(f.items.Keys)
  {
    hide Arranged, Listed, FlattenFrom, Shape.Sound, Shape.Level;
    ArrangedIsSound(f, groups, owner);
    forall x
      ensures multiset(FlattenFrom(f, 0))[x] == multiset(f.items.Keys)[x]
    {
      FlattenFromOnce(f, groups, owner, 0, x);
      if x in f.items {
        IsListed(f, groups, owner, x);
      }
    }
  }

  // ----- totals

  function TotalFrom(f: Forest, k: nat): nat
    decreases |f.roots| - k
  {
    if k >= |f.roots| then 0 else f.roots[k].total + TotalFrom(f, k + 1)
  }

  ghost predicate TotalsCounted(f: Forest)
    requires ShapeOf(f).Sound() && forall r :: r in f.roots ==> ShapeOf(f).Level(r.children, 0)
  {
    forall r :: r in f.roots ==> r.total == ShapeOf(f).CountAll(r.children, 0)
  }

  lemma {:induction false} TotalIsLength(f: Forest, k: nat)
    requires ShapeOf(f).Sound() && forall r :: r in f.roots ==> ShapeOf(f).Level(r.children, 0)
    requires TotalsCounted(f)
    ensures TotalFrom(f, k) == |FlattenFrom(f, k)|
    decreases |f.roots| - k
  {
    if k < |f.roots| {
      assert f.roots[k] in f.roots;
      ShapeOf(f).CountAllIsLength(f.roots[k].children, 0);
      TotalIsLength(f, k + 1);
    }
  }

  /** The totals of the roots add up to the number of open pulls. */
  lemma TotalsAddUp(f: Forest, groups: map<string, seq<int>>, owner: Owners)
    requires Arranged(f, groups, owner)
    requires ShapeOf(f).Sound() && (forall r :: r in f.roots ==> ShapeOf(f).Level(r.children, 0)) && TotalsCounted(f)
    ensures TotalFrom(f, 0) == |f.items|
  {
    TotalIsLength(f, 0);
    FlattenHoldsEachOnce(f, groups, owner);
    assert |FlattenFrom(f, 0)| == |multiset(FlattenFrom(f, 0))| == |multiset(f.items.Keys)| == |f.items.Keys|;
  }
}

/** The order in which a flattened forest lists its pulls. */
module PullOrder {
  import opened Sequences
  import opened PullTree
  import opened PullFlatten

  type Owned = map<string, seq<int>>

  // ----- display order, said of the forest alone

  /** x hangs at or under n. */
  ghost predicate Under(f: Forest, groups: Owned, owner: Owners, x: int, n: int)
    requires Arranged(f, groups, owner)
  {
    n in f.items && x in f.items && f.depth[n] <= f.depth[x] && Above(f, groups, owner, x, f.depth[n]) == n
  }

  /** u stands before v in the child list of one parent, or in the roots: by root first, then within one root. */
  ghost predicate SiblingBefore(f: Forest, owner: Owners, u: int, v: int)
    requires owner.Keys == f.items.Keys == f.children.Keys == f.depth.Keys
  {
    && u in f.items && v in f.items && owner[u] == owner[v] && f.depth[u] == f.depth[v]
    && match owner[u]
       case Some(p) =>
         && p in f.children
         && exists i, j :: 0 <= i < j < |f.children[p]| && f.children[p][i] == u && f.children[p][j] == v
       case None => RootBefore(f, u, v)
  }

  ghost predicate RootBefore(f: Forest, u: int, v: int)
  {
    exists r, s, i, j :: InRoot(f, u, r, i) && InRoot(f, v, s, j) && (r < s || (r == s && i < j))
  }

  /** u is the i-th pull directly under the r-th root. */
  ghost predicate InRoot(f: Forest, u: int, r: int, i: int)
  {
    0 <= r < |f.roots| && 0 <= i < |f.roots[r].children| && f.roots[r].children[i] == u
  }

  /** x comes before y: y hangs under x, or they hang under (or are) siblings in that order. */
  ghost predicate Comes(f: Forest, groups: Owned, owner: Owners, x: int, y: int)
    requires Arranged(f, groups, owner)
  {
    && x in f.items && y in f.items
    && ((x != y && Under(f, groups, owner, y, x)) || exists d :: Parted(f, groups, owner, x, y, d))
  }

  /** The ways from x and from y to the top first meet just above level d, where x's way stands before y's. */
  ghost predicate Parted(f: Forest, groups: Owned, owner: Owners, x: int, y: int, d: int)
    requires Arranged(f, groups, owner) && x in f.items && y in f.items
  {
    && 0 <= d <= f.depth[x] && d <= f.depth[y]
    && SiblingBefore(f, owner, Above(f, groups, owner, x, d), Above(f, groups, owner, y, d))
  }

  lemma SameKeys(f: Forest, groups: Owned, owner: Owners)
    requires Arranged(f, groups, owner)
    ensures owner.Keys == f.items.Keys == f.children.Keys == f.depth.Keys
    ensures forall n :: n in f.items ==> f.depth[n] < |f.items|
  {
  }

  // ----- an order indeed

  lemma {:induction false} AboveAbove(f: Forest, groups: Owned, owner: Owners, x: int, e: nat, d: nat)
    requires Arranged(f, groups, owner) && x in f.items && d <= e <= f.depth[x]
    ensures Above(f, groups, owner, Above(f, groups, owner, x, e), d) == Above(f, groups, owner, x, d)
    decreases f.depth[x]
  {
    hide NoDuplicates, ChildrenPlaced, GroupsPlaced, RootsMatch;
    if e < f.depth[x] {
      HasOwner(f, groups, owner, x);
      AboveAbove(f, groups, owner, owner[x].value, e, d);
    }
  }

  lemma SiblingsDiffer(f: Forest, groups: Owned, owner: Owners, u: int, v: int)
    requires Arranged(f, groups, owner) && SiblingBefore(f, owner, u, v)
    ensures u != v && !SiblingBefore(f, owner, v, u)
  {
    if owner[u].None? {
      RootsOnce(f, groups, owner, u);
      RootsOnce(f, groups, owner, v);
    } else {
      ChildrenDistinct(f, groups, owner, owner[u].value);
    }
  }

  lemma RootsOnce(f: Forest, groups: Owned, owner: Owners, u: int)
    requires Arranged(f, groups, owner)
    ensures forall r, s, i, j :: InRoot(f, u, r, i) && InRoot(f, u, s, j) ==> r == s && i == j
  {
    forall r, s, i, j | InRoot(f, u, r, i) && InRoot(f, u, s, j)
      ensures r == s && i == j
    {
      ListedUnderOneRoot(f, groups, owner, r, s, u);
      RootDistinct(f, groups, owner, r);
    }
  }

  lemma RootDistinct(f: Forest, groups: Owned, owner: Owners, r: int)
    requires Arranged(f, groups, owner) && 0 <= r < |f.roots|
    ensures NoDuplicates(f.roots[r].children)
  {
    assert f.roots[r] in f.roots;
  }

  /** Ways that meet just above level c + 1 meet at every level above it. */
  lemma MetAbove(f: Forest, groups: Owned, owner: Owners, x: int, y: int, d: nat, c: nat)
    requires Arranged(f, groups, owner) && x in f.items && y in f.items
    requires d <= c < f.depth[x] && c < f.depth[y]
    requires owner[Above(f, groups, owner, x, c + 1)] == owner[Above(f, groups, owner, y, c + 1)]
    ensures Above(f, groups, owner, x, d) == Above(f, groups, owner, y, d)
  {
    OneLevelUp(f, groups, owner, x, c);
    OneLevelUp(f, groups, owner, y, c);
    AboveAbove(f, groups, owner, x, c, d);
    AboveAbove(f, groups, owner, y, c, d);
    hide *;
  }

  lemma PartedOwners(f: Forest, groups: Owned, owner: Owners, x: int, y: int, d: int)
    requires Arranged(f, groups, owner) && x in f.items && y in f.items && Parted(f, groups, owner, x, y, d)
    ensures Above(f, groups, owner, x, d) != Above(f, groups, owner, y, d)
    ensures owner[Above(f, groups, owner, x, d)] == owner[Above(f, groups, owner, y, d)]
    ensures !Parted(f, groups, owner, y, x, d)
  {
    hide NoDuplicates, ChildrenPlaced, GroupsPlaced, RootsMatch, Above;
    SiblingsDiffer(f, groups, owner, Above(f, groups, owner, x, d), Above(f, groups, owner, y, d));
  }

  lemma PartedOnce(f: Forest, groups: Owned, owner: Owners, x: int, y: int, d: int, e: int)
    requires Arranged(f, groups, owner) && x in f.items && y in f.items
    requires Parted(f, groups, owner, x, y, d)
    ensures !Parted(f, groups, owner, y, x, e)
  {
    hide Arranged, SiblingBefore, Above;
    if Parted(f, groups, owner, y, x, e) {
      PartedOwners(f, groups, owner, x, y, d);
      PartedOwners(f, groups, owner, y, x, e);
      if d < e {
        MetAbove(f, groups, owner, x, y, d, e - 1);
      } else if e < d {
        MetAbove(f, groups, owner, x, y, e, d - 1);
      }
    }
  }

  /** A pull that hangs under x never parts from x's way. */
  lemma UnderNeverParts(f: Forest, groups: Owned, owner: Owners, x: int, y: int, d: int)
    requires Arranged(f, groups, owner) && Under(f, groups, owner, y, x)
    ensures !Parted(f, groups, owner, x, y, d) && !Parted(f, groups, owner, y, x, d)
  {
    hide NoDuplicates, ChildrenPlaced, GroupsPlaced, RootsMatch, SiblingBefore, Above;
    if Parted(f, groups, owner, x, y, d) || Parted(f, groups, owner, y, x, d) {
      AboveAbove(f, groups, owner, y, f.depth[x], d);
      if Parted(f, groups, owner, x, y, d) {
        PartedOwners(f, groups, owner, x, y, d);
      } else {
        PartedOwners(f, groups, owner, y, x, d);
      }
    }
  }

  lemma UnderOneWay(f: Forest, groups: Owned, owner: Owners, x: int, y: int)
    requires Arranged(f, groups, owner) && x != y && Under(f, groups, owner, y, x)
    ensures !Under(f, groups, owner, x, y)
  {
    hide NoDuplicates, ChildrenPlaced, GroupsPlaced, RootsMatch;
  }

  /** No two pulls come before one another, so the order leaves one place for each. */
  lemma ComesOneWay(f: Forest, groups: Owned, owner: Owners, x: int, y: int)
    requires Arranged(f, groups, owner) && Comes(f, groups, owner, x, y)
    ensures x != y && !Comes(f, groups, owner, y, x)
  {
    hide Arranged, Under, Parted;
    if x != y && Under(f, groups, owner, y, x) {
      UnderOneWay(f, groups, owner, x, y);
      forall d
        ensures !Parted(f, groups, owner, y, x, d)
      {
        UnderNeverParts(f, groups, owner, x, y, d);
      }
    } else {
      var d :| Parted(f, groups, owner, x, y, d);
      PartedApart(f, groups, owner, x, y, d);
      forall e
        ensures !Parted(f, groups, owner, y, x, e)
      {
        PartedOnce(f, groups, owner, x, y, d, e);
      }
    }
  }

  lemma PartedApart(f: Forest, groups: Owned, owner: Owners, x: int, y: int, d: int)
    requires Arranged(f, groups, owner) && x in f.items && y in f.items && Parted(f, groups, owner, x, y, d)
    ensures x != y && !Under(f, groups, owner, x, y) && !Under(f, groups, owner, y, x)
  {
    hide Arranged, Above, SiblingBefore;
    PartedOwners(f, groups, owner, x, y, d);
    if Under(f, groups, owner, x, y) {
      UnderNeverParts(f, groups, owner, y, x, d);
    }
    if Under(f, groups, owner, y, x) {
      UnderNeverParts(f, groups, owner, x, y, d);
    }
  }

  // ----- the flattening follows it

  ghost predicate InOrder(f: Forest, groups: Owned, owner: Owners, out: seq<int>)
    requires Arranged(f, groups, owner)
  {
    forall i, j :: 0 <= i < j < |out| ==> Comes(f, groups, owner, out[i], out[j])
  }

  lemma InOrderAppend(f: Forest, groups: Owned, owner: Owners, a: seq<int>, b: seq<int>)
    requires Arranged(f, groups, owner) && InOrder(f, groups, owner, a) && InOrder(f, groups, owner, b)
    requires forall x, y :: x in a && y in b ==> Comes(f, groups, owner, x, y)
    ensures InOrder(f, groups, owner, a + b)
  {
    hide Arranged, Comes;
  }

  lemma WalkHolds(f: Forest, groups: Owned, owner: Owners, n: int, x: int)
    requires Arranged(f, groups, owner) && n in f.items
    ensures ShapeOf(f).Sound() && (x in ShapeOf(f).Walk(n) <==> Under(f, groups, owner, x, n))
  {
    hide Above, Arranged;
    ArrangedIsSound(f, groups, owner);
    WalkOnce(f, groups, owner, n, x);
    var w := ShapeOf(f).Walk(n);
    assert x in w <==> x in multiset(w);
  }

  lemma {:induction false} WalkAllHolds(f: Forest, groups: Owned, owner: Owners, ns: seq<int>, d: nat, x: int)
    requires Arranged(f, groups, owner) && d <= |f.items| && ShapeOf(f).Level(ns, d)
    ensures ShapeOf(f).Sound()
    ensures x in ShapeOf(f).WalkAll(ns, d) <==> exists m :: m in ns && Under(f, groups, owner, x, m)
    decreases |ns|
  {
    hide Arranged, Under, Shape.Walk;
    ArrangedIsSound(f, groups, owner);
    if ns != [] {
      assert ns[0] in ns;
      WalkHolds(f, groups, owner, ns[0], x);
      WalkAllHolds(f, groups, owner, ns[1..], d, x);
      assert ns == [ns[0]] + ns[1..];
      assert forall m :: m in ns <==> m == ns[0] || m in ns[1..];
    }
  }

  ghost predicate SiblingsInOrder(f: Forest, owner: Owners, ns: seq<int>)
    requires owner.Keys == f.items.Keys == f.children.Keys == f.depth.Keys
  {
    forall i, j :: 0 <= i < j < |ns| ==> SiblingBefore(f, owner, ns[i], ns[j])
  }

  lemma UnderSiblings(f: Forest, groups: Owned, owner: Owners, u: int, v: int, x: int, y: int)
    requires Arranged(f, groups, owner) && SiblingBefore(f, owner, u, v)
    requires Under(f, groups, owner, x, u) && Under(f, groups, owner, y, v)
    ensures Comes(f, groups, owner, x, y)
  {
    hide Arranged, Above, SiblingBefore;
    SameKeys(f, groups, owner);
    SiblingsLevel(f, owner, u, v);
    assert Parted(f, groups, owner, x, y, f.depth[u]);
  }

  lemma SiblingsLevel(f: Forest, owner: Owners, u: int, v: int)
    requires owner.Keys == f.items.Keys == f.children.Keys == f.depth.Keys && SiblingBefore(f, owner, u, v)
    ensures u in f.items && v in f.items && f.depth[u] == f.depth[v]
  {
  }

  lemma {:induction false} WalkInOrder(f: Forest, groups: Owned, owner: Owners, n: int)
    requires Arranged(f, groups, owner) && n in f.items
    ensures ShapeOf(f).Sound() && InOrder(f, groups, owner, ShapeOf(f).Walk(n))
    decreases |f.items| - f.depth[n], 0
  {
    hide Arranged, Comes, Under, SiblingsInOrder, Shape.Level, Shape.Sound, Shape.WalkAll, InOrder;
    SameKeys(f, groups, owner);
    ArrangedIsSound(f, groups, owner);
    ChildrenInOrder(f, groups, owner, n);
    ChildrenDeeper(f, groups, owner, n);
    var rest := ShapeOf(f).WalkAll(f.children[n], f.depth[n] + 1);
    WalkAllInOrder(f, groups, owner, f.children[n], f.depth[n] + 1);
    forall x, y | x in [n] && y in rest
      ensures Comes(f, groups, owner, x, y)
    {
      BeneathComes(f, groups, owner, n, y);
    }
    OneInOrder(f, groups, owner, n);
    InOrderAppend(f, groups, owner, [n], rest);
  }

  lemma OneInOrder(f: Forest, groups: Owned, owner: Owners, n: int)
    requires Arranged(f, groups, owner)
    ensures InOrder(f, groups, owner, [n])
  {
  }

  lemma ChildrenInOrder(f: Forest, groups: Owned, owner: Owners, n: int)
    requires Arranged(f, groups, owner) && n in f.items
    ensures owner.Keys == f.items.Keys == f.children.Keys == f.depth.Keys && SiblingsInOrder(f, owner, f.children[n])
  {
    hide NoDuplicates, GroupsPlaced, RootsMatch, RootBefore;
    forall i, j | 0 <= i < j < |f.children[n]|
      ensures SiblingBefore(f, owner, f.children[n][i], f.children[n][j])
    {
      assert f.children[n][i] in f.children[n] && f.children[n][j] in f.children[n];
    }
  }

  lemma ChildrenDeeper(f: Forest, groups: Owned, owner: Owners, n: int)
    requires Arranged(f, groups, owner) && n in f.items
    ensures n in f.children && n in f.depth && f.depth[n] + 1 <= |f.items|
    ensures ShapeOf(f).Level(f.children[n], f.depth[n] + 1)
  {
    hide NoDuplicates, GroupsPlaced, RootsMatch;
  }

  lemma BeneathComes(f: Forest, groups: Owned, owner: Owners, n: int, y: int)
    requires Arranged(f, groups, owner) && n in f.items
    requires ShapeOf(f).Sound() && n in f.children && f.depth.Keys == f.children.Keys == f.items.Keys
    requires f.depth[n] + 1 <= |f.items| && ShapeOf(f).Level(f.children[n], f.depth[n] + 1)
    requires y in ShapeOf(f).WalkAll(f.children[n], f.depth[n] + 1)
    ensures Comes(f, groups, owner, n, y)
  {
    hide Arranged, Above, Shape.WalkAll, Shape.Sound, Parted;
    WalkHolds(f, groups, owner, n, y);
    WalkAllHolds(f, groups, owner, f.children[n], f.depth[n] + 1, y);
    var m :| m in f.children[n] && Under(f, groups, owner, y, m);
    assert f.depth[m] == f.depth[n] + 1;
    assert y in ShapeOf(f).Walk(n);
  }

  lemma {:induction false} WalkAllInOrder(f: Forest, groups: Owned, owner: Owners, ns: seq<int>, d: nat)
    requires Arranged(f, groups, owner) && d <= |f.items| && ShapeOf(f).Level(ns, d) && SiblingsInOrder(f, owner, ns)
    ensures ShapeOf(f).Sound() && InOrder(f, groups, owner, ShapeOf(f).WalkAll(ns, d))
    decreases |f.items| - d, |ns| + 1
  {
    hide Arranged, Comes, Under, SiblingBefore, Shape.Walk;
    ArrangedIsSound(f, groups, owner);
    if ns != [] {
      assert ns[0] in ns;
      var head, rest := ShapeOf(f).Walk(ns[0]), ShapeOf(f).WalkAll(ns[1..], d);
      WalkInOrder(f, groups, owner, ns[0]);
      WalkAllInOrder(f, groups, owner, ns[1..], d);
      forall x, y | x in head && y in rest
        ensures Comes(f, groups, owner, x, y)
      {
        WalkHolds(f, groups, owner, ns[0], x);
        WalkAllHolds(f, groups, owner, ns[1..], d, y);
        var m :| m in ns[1..] && Under(f, groups, owner, y, m);
        var k :| 0 <= k < |ns[1..]| && ns[1..][k] == m;
        UnderSiblings(f, groups, owner, ns[0], ns[k + 1], x, y);
      }
      InOrderAppend(f, groups, owner, head, rest);
    }
  }

  /** Pulls directly under the roots from the k-th on, in the order they are listed. */
  lemma RootChildrenInOrder(f: Forest, groups: Owned, owner: Owners, r: int)
    requires Arranged(f, groups, owner) && 0 <= r < |f.roots|
    ensures owner.Keys == f.items.Keys == f.children.Keys == f.depth.Keys
    ensures SiblingsInOrder(f, owner, f.roots[r].children)
  {
    hide NoDuplicates, ChildrenPlaced;
    assert f.roots[r] in f.roots;
    var ns := f.roots[r].children;
    forall i, j | 0 <= i < j < |ns|
      ensures SiblingBefore(f, owner, ns[i], ns[j])
    {
      assert ns[i] in ns && ns[j] in ns;
      assert InRoot(f, ns[i], r, i) && InRoot(f, ns[j], r, j);
    }
  }

  lemma RootsApart(f: Forest, groups: Owned, owner: Owners, r: int, s: int, u: int, v: int)
    requires Arranged(f, groups, owner) && 0 <= r < s < |f.roots|
    requires u in f.roots[r].children && v in f.roots[s].children
    ensures owner.Keys == f.items.Keys == f.children.Keys == f.depth.Keys
    ensures SiblingBefore(f, owner, u, v)
  {
    hide NoDuplicates, ChildrenPlaced;
    assert f.roots[r] in f.roots && f.roots[s] in f.roots;
    var i :| 0 <= i < |f.roots[r].children| && f.roots[r].children[i] == u;
    var j :| 0 <= j < |f.roots[s].children| && f.roots[s].children[j] == v;
    assert InRoot(f, u, r, i) && InRoot(f, v, s, j);
  }

  lemma {:induction false} FlattenHolds(f: Forest, groups: Owned, owner: Owners, k: nat, x: int)
    returns (r: nat, u: int)
    requires Arranged(f, groups, owner)
    requires ShapeOf(f).Sound() && forall root :: root in f.roots ==> ShapeOf(f).Level(root.children, 0)
    requires x in FlattenFrom(f, k)
    ensures k <= r < |f.roots| && u in f.roots[r].children && Under(f, groups, owner, x, u)
    decreases |f.roots| - k
  {
    hide Arranged, Under, Shape.WalkAll, Shape.Sound, Shape.Level;
    assert f.roots[k] in f.roots;
    if x in ShapeOf(f).WalkAll(f.roots[k].children, 0) {
      WalkAllHolds(f, groups, owner, f.roots[k].children, 0, x);
      r := k;
      u :| u in f.roots[k].children && Under(f, groups, owner, x, u);
    } else {
      r, u := FlattenHolds(f, groups, owner, k + 1, x);
    }
  }

  lemma {:induction false} FlattenFromInOrder(f: Forest, groups: Owned, owner: Owners, k: nat)
    requires Arranged(f, groups, owner)
    requires ShapeOf(f).Sound() && forall root :: root in f.roots ==> ShapeOf(f).Level(root.children, 0)
    ensures InOrder(f, groups, owner, FlattenFrom(f, k))
    decreases |f.roots| - k
  {
    hide Arranged, Under, Comes, Shape.WalkAll, Shape.Sound, Shape.Level, SiblingBefore, SiblingsInOrder, InOrder;
    if k >= |f.roots| {
      NothingInOrder(f, groups, owner);
    } else {
      assert f.roots[k] in f.roots;
      var head, rest := ShapeOf(f).WalkAll(f.roots[k].children, 0), FlattenFrom(f, k + 1);
      RootChildrenInOrder(f, groups, owner, k);
      WalkAllInOrder(f, groups, owner, f.roots[k].children, 0);
      FlattenFromInOrder(f, groups, owner, k + 1);
      forall x, y | x in head && y in rest
        ensures Comes(f, groups, owner, x, y)
      {
        WalkAllHolds(f, groups, owner, f.roots[k].children, 0, x);
        var u :| u in f.roots[k].children && Under(f, groups, owner, x, u);
        var r, v := FlattenHolds(f, groups, owner, k + 1, y);
        RootsApart(f, groups, owner, k, r, u, v);
        UnderSiblings(f, groups, owner, u, v, x, y);
      }
      InOrderAppend(f, groups, owner, head, rest);
    }
  }

  lemma NothingInOrder(f: Forest, groups: Owned, owner: Owners)
    requires Arranged(f, groups, owner)
    ensures InOrder(f, groups, owner, [])
  {
  }

  /** The rows come in display order: whatever stands earlier comes before whatever stands later. */
  lemma FlattenInOrder(f: Forest, groups: Owned, owner: Owners)
    requires Arranged(f, groups, owner)
    ensures ShapeOf(f).Sound() && forall root :: root in f.roots ==> ShapeOf(f).Level(root.children, 0)
    ensures InOrder(f, groups, owner, FlattenFrom(f, 0))
  {
    hide Arranged, InOrder;
    ArrangedIsSound(f, groups, owner);
    FlattenFromInOrder(f, groups, owner, 0);
  }

  // ----- what a reader sees

  /** Places of pulls in a list in display order agree with the order. */
  lemma PlacesAgree(f: Forest, groups: Owned, owner: Owners, out: seq<int>, a: nat, b: nat)
    requires Arranged(f, groups, owner) && InOrder(f, groups, owner, out) && a < |out| && b < |out|
    requires Comes(f, groups, owner, out[a], out[b])
    ensures a < b
  {
    hide Arranged, Comes;
    ComesOneWay(f, groups, owner, out[a], out[b]);
  }

  lemma UnderTwice(f: Forest, groups: Owned, owner: Owners, x: int, m: int, n: int)
    requires Arranged(f, groups, owner) && Under(f, groups, owner, x, m) && Under(f, groups, owner, m, n)
    ensures Under(f, groups, owner, x, n)
  {
    hide Arranged, Above;
    SameKeys(f, groups, owner);
    AboveAbove(f, groups, owner, x, f.depth[m], f.depth[n]);
  }

  lemma OwnerIsAbove(f: Forest, groups: Owned, owner: Owners, p: int, x: int)
    requires Arranged(f, groups, owner) && x in f.items && owner[x] == Some(p)
    ensures p != x && Under(f, groups, owner, x, p) && Comes(f, groups, owner, p, x)
  {
    hide NoDuplicates, ChildrenPlaced, GroupsPlaced, RootsMatch, Above;
    HasOwner(f, groups, owner, x);
    AboveItself(f, groups, owner, x, x);
    OneLevelUp(f, groups, owner, x, f.depth[p]);
  }

  /** Between a pull and one beneath it stand only pulls beneath it. */
  lemma OnlyBeneathBetween(f: Forest, groups: Owned, owner: Owners, p: int, z: int, x: int)
    requires Arranged(f, groups, owner) && Under(f, groups, owner, x, p)
    requires Comes(f, groups, owner, p, z) && Comes(f, groups, owner, z, x)
    ensures Under(f, groups, owner, z, p)
  {
    hide Arranged, Above, SiblingBefore;
    SameKeys(f, groups, owner);
    if !Under(f, groups, owner, z, p) {
      var d :| Parted(f, groups, owner, p, z, d);
      AboveAbove(f, groups, owner, x, f.depth[p], d);
      assert Parted(f, groups, owner, x, z, d);
      ComesOneWay(f, groups, owner, z, x);
    }
  }

  /**
   * In any list in display order a pull's owner stands before it with only pulls beneath that owner between
   * them; siblings stand as in their child list, and pulls of different roots in the order of the roots.
   */
  lemma DisplayOrder(f: Forest, groups: Owned, owner: Owners, out: seq<int>, a: nat, b: nat)
    requires Arranged(f, groups, owner) && InOrder(f, groups, owner, out) && a < |out| && b < |out|
    requires out[a] in f.items && out[b] in f.items
    ensures owner.Keys == f.items.Keys == f.children.Keys == f.depth.Keys
    ensures owner[out[b]] == Some(out[a]) ==>
      a < b && forall c :: a <= c <= b ==> Under(f, groups, owner, out[c], out[a])
    ensures SiblingBefore(f, owner, out[a], out[b]) ==> a < b
    ensures forall r, s, u, v ::
      (0 <= r < s < |f.roots| && u in f.roots[r].children && v in f.roots[s].children
       && Under(f, groups, owner, out[a], u) && Under(f, groups, owner, out[b], v)) ==> a < b
  {
    hide Arranged, Comes, Under, SiblingBefore;
    SameKeys(f, groups, owner);
    if owner[out[b]] == Some(out[a]) {
      OwnerIsAbove(f, groups, owner, out[a], out[b]);
      PlacesAgree(f, groups, owner, out, a, b);
      forall c | a <= c <= b
        ensures Under(f, groups, owner, out[c], out[a])
      {
        if c == a {
          UnderItself(f, groups, owner, out[a]);
        } else if c < b {
          OnlyBeneathBetween(f, groups, owner, out[a], out[c], out[b]);
        }
      }
    }
    if SiblingBefore(f, owner, out[a], out[b]) {
      UnderItself(f, groups, owner, out[a]);
      UnderItself(f, groups, owner, out[b]);
      UnderSiblings(f, groups, owner, out[a], out[b], out[a], out[b]);
      PlacesAgree(f, groups, owner, out, a, b);
    }
    forall r, s, u, v | 0 <= r < s < |f.roots| && u in f.roots[r].children && v in f.roots[s].children
        && Under(f, groups, owner, out[a], u) && Under(f, groups, owner, out[b], v)
      ensures a < b
    {
      RootsApart(f, groups, owner, r, s, u, v);
      UnderSiblings(f, groups, owner, u, v, out[a], out[b]);
      PlacesAgree(f, groups, owner, out, a, b);
    }
  }

  lemma UnderItself(f: Forest, groups: Owned, owner: Owners, n: int)
    requires Arranged(f, groups, owner) && n in f.items
    ensures Under(f, groups, owner, n, n)
  {
    hide NoDuplicates, ChildrenPlaced, GroupsPlaced, RootsMatch;
  }

  // ----- totals

  /** Every pull in the tree of the r-th root. */
  ghost function Beneath(f: Forest, groups: Owned, owner: Owners, r: int): set<int>
    requires Arranged(f, groups, owner) && 0 <= r < |f.roots|
  {
    set x | x in f.items && Above(f, groups, owner, x, 0) in f.roots[r].children
  }

  /** A root's total is the number of pulls in its tree. */
  lemma RootTotal(f: Forest, groups: Owned, owner: Owners, r: int)
    requires Arranged(f, groups, owner) && 0 <= r < |f.roots|
    requires ShapeOf(f).Sound() && (forall root :: root in f.roots ==> ShapeOf(f).Level(root.children, 0))
    requires TotalsCounted(f)
    ensures f.roots[r].total == |Beneath(f, groups, owner, r)|
  {
    assert f.roots[r] in f.roots;
    var ns, walk := f.roots[r].children, ShapeOf(f).WalkAll(f.roots[r].children, 0);
    ShapeOf(f).CountAllIsLength(ns, 0);
    RootDistinct(f, groups, owner, r);
    hide Arranged, Above, Shape.WalkAll, Shape.Sound, Shape.Level, NoDuplicates;
    forall x
      ensures multiset(walk)[x] == multiset(Beneath(f, groups, owner, r))[x]
    {
      WalkAllOnce(f, groups, owner, ns, 0, x);
    }
    assert multiset(walk) == multiset(Beneath(f, groups, owner, r));
    assert |walk| == |multiset(walk)| == |Beneath(f, groups, owner, r)|;
  }
}

/** The inbox: which reviews it shows, and the two ways it arranges them. */
module Inbox {
  import opened Sequences
  import opened PullTree
  import opened PullFlatten
  import opened PullForest
  import opened PullBuild
  import opened ReviewIds

  datatype Item = Item(pull: PullItem, author: Option<string>, unresolved: int, reviewers: seq<string>)

  /** A draft is only carried along; its text stands for it. */
  datatype Draft = Draft(text: string)

  datatype Row = Row(item: Item, draft: Option<Draft>)

  datatype SectionId = Local | Waiting | ToReview | Drafts | Everything

  datatype Section = Section(id: SectionId, rows: seq<Row>)

  /** `matches` stands for the filter box: whether an item's text holds the needle. */
  datatype Input = Input(items: seq<Item>, matches: Item -> bool, human: string, drafts: map<int, Draft>,
                         hasLocal: bool)

  predicate IsLocal(it: Item)
  {
    IsLocalReviewId(it.pull.number)
  }

  predicate ShowsInInbox(it: Item)
  {
    it.pull.isOpen || IsLocal(it)
  }

  function Filter<T>(test: T -> bool, s: seq<T>): seq<T>
  {
    if s == [] then [] else
      Filter(test, s[..|s| - 1]) + if test(s[|s| - 1]) then [s[|s| - 1]] else []
  }

  function VisibleTest(matches: Item -> bool): Item -> bool { (it: Item) => ShowsInInbox(it) && matches(it) }
  function LocalTest(): Item -> bool { (it: Item) => IsLocal(it) }
  function RemoteTest(): Item -> bool { (it: Item) => !IsLocal(it) }

  function VisibleRows(input: Input): seq<Item>
  {
    Filter(VisibleTest(input.matches), input.items)
  }

  function LocalSide(items: seq<Item>): seq<Item> { Filter(LocalTest(), items) }
  function GithubSide(items: seq<Item>): seq<Item> { Filter(RemoteTest(), items) }

  method PartitionInbox(items: seq<Item>) returns (local: seq<Item>, github: seq<Item>)
    ensures local == LocalSide(items) && github == GithubSide(items)
  {
    local, github := [], [];
    for i := 0 to |items|
      invariant local == LocalSide(items[..i]) && github == GithubSide(items[..i])
    {
      assert items[..i + 1][..i] == items[..i];
      if IsLocal(items[i]) {
        local := local + [items[i]];
      } else {
        github := github + [items[i]];
      }
    }
    assert items[..|items|] == items;
  }

  // ----- the intent buckets

  function WaitingTest(human: string): Item -> bool { (it: Item) => it.author == Some(human) && it.unresolved > 0 }
  function ReviewTest(human: string): Item -> bool { (it: Item) => it.author != Some(human) && human in it.reviewers }
  function DraftTest(drafts: map<int, Draft>): Item -> bool { (it: Item) => it.pull.number in drafts }
  function UnclaimedTest(claimed: set<int>): Item -> bool { (it: Item) => it.pull.number !in claimed }

  /** Where an item is to be listed, said of the item alone. */
  predicate Belongs(input: Input, id: SectionId, it: Item)
  {
    var local := it.pull.number >= 1_000_000_000;
    var waiting := it.author == Some(input.human) && it.unresolved > 0;
    var toReview := it.author != Some(input.human) && input.human in it.reviewers;
    var draft := it.pull.number in input.drafts;
    match id
    case Local => local
    case Waiting => !local && waiting
    case ToReview => !local && toReview
    case Drafts => !local && draft
    case Everything => !local && !waiting && !toReview && !draft
  }

  /** The inbox shows this item: it is open or local, and the filter box matches it. */
  predicate Shown(input: Input, it: Item)
  {
    it in input.items && (it.pull.isOpen || it.pull.number >= 1_000_000_000) && input.matches(it)
  }

  /** An item beside the draft kept under its number, if there is one. */
  predicate RowFor(input: Input, it: Item, r: Row)
  {
    && r.item == it
    && (it.pull.number in input.drafts ==> r.draft == Some(input.drafts[it.pull.number]))
    && (it.pull.number !in input.drafts ==> r.draft == None)
  }

  function ToRow(drafts: map<int, Draft>, it: Item): Row
  {
    Row(it, if it.pull.number in drafts then Some(drafts[it.pull.number]) else None)
  }

  function ToRows(drafts: map<int, Draft>, items: seq<Item>): seq<Row>
  {
    seq(|items|, i requires 0 <= i < |items| => ToRow(drafts, items[i]))
  }

  /** The sections in the order they are shown; `unclaimed` is what the catch-all holds. */
  function Arrange(input: Input, local: seq<Item>, github: seq<Item>, unclaimed: seq<Item>): seq<Section>
  {
    var pulls := [
      Section(Waiting, ToRows(input.drafts, Filter(WaitingTest(input.human), github))),
      Section(ToReview, ToRows(input.drafts, Filter(ReviewTest(input.human), github))),
      Section(Drafts, ToRows(input.drafts, Filter(DraftTest(input.drafts), github))),
      Section(Everything, ToRows(input.drafts, unclaimed))];
    var own := Section(Local, ToRows(input.drafts, local));
    if |local| > 0 then [own] + pulls else if input.hasLocal then pulls + [own] else pulls
  }

  ghost function Claimed(input: Input, github: seq<Item>): set<int>
  {
    set it | it in github
             && (WaitingTest(input.human)(it) || ReviewTest(input.human)(it) || DraftTest(input.drafts)(it))
      :: it.pull.number
  }

  ghost function Sections(input: Input): seq<Section>
  {
    var rows := VisibleRows(input);
    var github := GithubSide(rows);
    Arrange(input, LocalSide(rows), github, Filter(UnclaimedTest(Claimed(input, github)), github))
  }

  method BuildInboxSections(input: Input) returns (sections: seq<Section>)
    ensures sections == Sections(input)
  {
    hide Filter, Arrange, VisibleTest, IsLocal;
    var filtered := VisibleRows(input);
    var local, github := PartitionInbox(filtered);
    var waiting := Filter(WaitingTest(input.human), github);
    var toReview := Filter(ReviewTest(input.human), github);
    var drafts := Filter(DraftTest(input.drafts), github);
    var named := waiting + toReview + drafts;
    var claimed: set<int> := {};
    for i := 0 to |named|
      invariant claimed == NumbersIn(named[..i])
    {
      assert named[..i + 1] == named[..i] + [named[i]];
      claimed := claimed + {named[i].pull.number};
    }
    assert named[..|named|] == named;
    BucketsClaim(input, github);
    sections := Arrange(input, local, github, Filter(UnclaimedTest(claimed), github));
  }

  ghost function NumbersIn(items: seq<Item>): set<int>
  {
    set it | it in items :: it.pull.number
  }

  lemma BucketsClaim(input: Input, github: seq<Item>)
    ensures NumbersIn(Filter(WaitingTest(input.human), github) + Filter(ReviewTest(input.human), github)
                      + Filter(DraftTest(input.drafts), github)) == Claimed(input, github)
  {
    hide Filter;
    forall it
      ensures it in Filter(WaitingTest(input.human), github) <==> it in github && WaitingTest(input.human)(it)
      ensures it in Filter(ReviewTest(input.human), github) <==> it in github && ReviewTest(input.human)(it)
      ensures it in Filter(DraftTest(input.drafts), github) <==> it in github && DraftTest(input.drafts)(it)
    {
      FilterMembers(WaitingTest(input.human), github, it);
      FilterMembers(ReviewTest(input.human), github, it);
      FilterMembers(DraftTest(input.drafts), github, it);
    }
  }

  // ----- filtering

  lemma {:induction false} FilterCounts<T>(test: T -> bool, s: seq<T>, x: T)
    ensures multiset(Filter(test, s))[x] == if test(x) then multiset(s)[x] else 0
  {
    if s != [] {
      var n := |s| - 1;
      FilterCounts(test, s[..n], x);
      assert s == s[..n] + [s[n]];
    }
  }

  lemma FilterMembers<T>(test: T -> bool, s: seq<T>, x: T)
    ensures x in Filter(test, s) <==> x in s && test(x)
  {
    FilterCounts(test, s, x);
    assert x in Filter(test, s) <==> x in multiset(Filter(test, s));
    assert x in s <==> x in multiset(s);
  }

  predicate DistinctItems(items: seq<Item>)
  {
    forall i, j :: 0 <= i < j < |items| ==> items[i].pull.number != items[j].pull.number
  }

  lemma {:induction false} FilterDistinct(test: Item -> bool, items: seq<Item>)
    requires DistinctItems(items)
    ensures DistinctItems(Filter(test, items))
  {
    if items != [] {
      var n := |items| - 1;
      FilterDistinct(test, items[..n]);
      forall it | it in Filter(test, items[..n])
        ensures it.pull.number != items[n].pull.number
      {
        FilterMembers(test, items[..n], it);
        var k :| 0 <= k < n && items[k] == it;
      }
    }
  }

  lemma {:induction false} OnceWhenDistinct(items: seq<Item>, x: Item)
    requires DistinctItems(items)
    ensures multiset(items)[x] == if x in items then 1 else 0
  {
    if items != [] {
      var n := |items| - 1;
      assert items == items[..n] + [items[n]];
      OnceWhenDistinct(items[..n], x);
    }
  }

  // ----- sections

  lemma {:induction false} RowCounts(drafts: map<int, Draft>, items: seq<Item>, x: Item)
    ensures multiset(ToRows(drafts, items))[ToRow(drafts, x)] == multiset(items)[x]
  {
    if items == [] {
      assert ToRows(drafts, items) == [];
    } else {
      var n := |items| - 1;
      RowCounts(drafts, items[..n], x);
      assert items == items[..n] + [items[n]];
      assert ToRows(drafts, items) == ToRows(drafts, items[..n]) + [ToRow(drafts, items[n])];
    }
  }

  /** With distinct numbers the catch-all holds exactly the pulls that no bucket holds. */
  lemma UnclaimedMeansNoBucket(input: Input, github: seq<Item>, x: Item)
    requires DistinctItems(github) && x in github
    ensures x.pull.number in Claimed(input, github)
        <==> WaitingTest(input.human)(x) || ReviewTest(input.human)(x) || DraftTest(input.drafts)(x)
  {
    if x.pull.number in Claimed(input, github) {
      var it :| it in github && it.pull.number == x.pull.number
             && (WaitingTest(input.human)(it) || ReviewTest(input.human)(it) || DraftTest(input.drafts)(it));
      var i :| 0 <= i < |github| && github[i] == it;
      var j :| 0 <= j < |github| && github[j] == x;
      assert i == j;
    }
  }

  ghost function Held(sections: seq<Section>, id: SectionId): seq<Row>
  {
    if sections == [] then [] else Part(sections[0], id) + Held(sections[1..], id)
  }

  ghost function Part(section: Section, id: SectionId): seq<Row>
  {
    if section.id == id then section.rows else []
  }

  lemma ArrangedSections(input: Input, local: seq<Item>, github: seq<Item>, unclaimed: seq<Item>, id: SectionId)
    ensures Held(Arrange(input, local, github, unclaimed), id) == ToRows(input.drafts,
              match id
              case Local => local
              case Waiting => Filter(WaitingTest(input.human), github)
              case ToReview => Filter(ReviewTest(input.human), github)
              case Drafts => Filter(DraftTest(input.drafts), github)
              case Everything => unclaimed)
  {
    hide Filter, Held;
    assert |local| == 0 ==> ToRows(input.drafts, local) == [];
    HeldUnfolds(Arrange(input, local, github, unclaimed), id);
  }

  lemma HeldUnfolds(s: seq<Section>, id: SectionId)
    requires |s| == 4 || |s| == 5
    ensures Held(s, id)
         == Part(s[0], id) + (Part(s[1], id) + (Part(s[2], id)
            + (Part(s[3], id) + if |s| == 4 then [] else Part(s[4], id))))
  {
    HeldStep(s, id, 0);
    HeldStep(s, id, 1);
    HeldStep(s, id, 2);
    HeldStep(s, id, 3);
    if |s| == 5 {
      HeldStep(s, id, 4);
    }
    assert Held([], id) == [];
  }

  lemma HeldStep(s: seq<Section>, id: SectionId, k: nat)
    requires k < |s|
    ensures Held(s[k..], id) == Part(s[k], id) + Held(s[k + 1..], id)
    ensures s[0..] == s && s[|s|..] == []
  {
    assert s[k..][1..] == s[k + 1..];
  }

  /**
   * A visible review is listed once in every section it belongs to and in no other; a review that is not
   * visible is listed nowhere. A local review belongs to one section only.
   */
  lemma SectionsListExactly(input: Input, id: SectionId, x: Item, r: Row)
    requires DistinctItems(input.items) && RowFor(input, x, r)
    ensures multiset(Held(Sections(input), id))[r] == if Shown(input, x) && Belongs(input, id, x) then 1 else 0
  {
    assert r == ToRow(input.drafts, x);
    hide Filter, Arrange, Held, DistinctItems, Claimed, ToRows, ToRow;
    var rows := VisibleRows(input);
    var local, github := LocalSide(rows), GithubSide(rows);
    var unclaimed := Filter(UnclaimedTest(Claimed(input, github)), github);
    ArrangedSections(input, local, github, unclaimed, id);
    FilterDistinct(VisibleTest(input.matches), input.items);
    FilterDistinct(RemoteTest(), rows);
    OnceWhenDistinct(input.items, x);
    FilterCounts(VisibleTest(input.matches), input.items, x);
    FilterCounts(LocalTest(), rows, x);
    FilterCounts(RemoteTest(), rows, x);
    match id {
      case Local => RowCounts(input.drafts, local, x);
      case Waiting =>
        FilterCounts(WaitingTest(input.human), github, x);
        RowCounts(input.drafts, Filter(WaitingTest(input.human), github), x);
      case ToReview =>
        FilterCounts(ReviewTest(input.human), github, x);
        RowCounts(input.drafts, Filter(ReviewTest(input.human), github), x);
      case Drafts =>
        FilterCounts(DraftTest(input.drafts), github, x);
        RowCounts(input.drafts, Filter(DraftTest(input.drafts), github), x);
      case Everything =>
        FilterCounts(UnclaimedTest(Claimed(input, github)), github, x);
        RowCounts(input.drafts, unclaimed, x);
        CatchAll(input, github, x);
    }
  }

  lemma CatchAll(input: Input, github: seq<Item>, x: Item)
    requires DistinctItems(github)
    ensures multiset(github)[x] > 0 ==>
      (UnclaimedTest(Claimed(input, github))(x) <==>
        !WaitingTest(input.human)(x) && !ReviewTest(input.human)(x) && !DraftTest(input.drafts)(x))
  {
    hide Claimed, DistinctItems;
    if multiset(github)[x] > 0 {
      UnclaimedMeansNoBucket(input, github, x);
    }
  }

  /** No review is lost and none invented: every visible review belongs somewhere. */
  lemma EverySectionedReviewIsVisible(input: Input, x: Item, r: Row)
    requires DistinctItems(input.items) && RowFor(input, x, r)
    ensures Shown(input, x) <==> exists id :: r in Held(Sections(input), id)
  {
    hide Sections, Held, DistinctItems, Belongs, RowFor, Shown;
    if id :| r in Held(Sections(input), id) {
      SectionsListExactly(input, id, x, r);
    }
    var home := HomeOf(input, x);
    SectionsListExactly(input, home, x, r);
  }

  lemma HomeOf(input: Input, x: Item) returns (home: SectionId)
    ensures Belongs(input, home, x)
  {
    home := if IsLocal(x) then Local
            else if WaitingTest(input.human)(x) then Waiting
            else if ReviewTest(input.human)(x) then ToReview
            else if DraftTest(input.drafts)(x) then Drafts else Everything;
  }

  // ----- the order on the screen

  function IdsOf(sections: seq<Section>): seq<SectionId>
  {
    seq(|sections|, i requires 0 <= i < |sections| => sections[i].id)
  }

  function ItemsOf(rows: seq<Row>): seq<Item>
  {
    seq(|rows|, i requires 0 <= i < |rows| => rows[i].item)
  }

  ghost predicate ComesAfter(s: seq<Item>, x: Item, y: Item)
  {
    exists k, l :: 0 <= k < l < |s| && s[k] == x && s[l] == y
  }

  /** Any two items of the part come in the whole in the same order. */
  ghost predicate KeepsOrder(part: seq<Item>, whole: seq<Item>)
  {
    forall i, j :: 0 <= i < j < |part| ==> ComesAfter(whole, part[i], part[j])
  }

  lemma {:induction false} FilterKeepsOrder(test: Item -> bool, s: seq<Item>)
    ensures KeepsOrder(Filter(test, s), s)
  {
    if s != [] {
      var n := |s| - 1;
      var before := Filter(test, s[..n]);
      FilterKeepsOrder(test, s[..n]);
      var whole := Filter(test, s);
      assert whole == before || whole == before + [s[n]];
      hide Filter, ComesAfter;
      forall i, j | 0 <= i < j < |whole|
        ensures ComesAfter(s, whole[i], whole[j])
      {
        if j < |before| {
          StillAfter(s, whole[i], whole[j]);
        } else {
          FilterMembers(test, s[..n], whole[i]);
          AfterAll(s, whole[i]);
        }
      }
    }
  }

  lemma StillAfter(s: seq<Item>, x: Item, y: Item)
    requires s != [] && ComesAfter(s[..|s| - 1], x, y)
    ensures ComesAfter(s, x, y)
  {
    var k, l :| 0 <= k < l < |s| - 1 && s[..|s| - 1][k] == x && s[..|s| - 1][l] == y;
    assert s[k] == x && s[l] == y;
  }

  lemma AfterAll(s: seq<Item>, x: Item)
    requires s != [] && x in s[..|s| - 1]
    ensures ComesAfter(s, x, s[|s| - 1])
  {
    var k :| 0 <= k < |s| - 1 && s[k] == x;
  }

  lemma OrderThrough(part: seq<Item>, middle: seq<Item>, whole: seq<Item>)
    requires KeepsOrder(part, middle) && KeepsOrder(middle, whole)
    ensures KeepsOrder(part, whole)
  {
    hide ComesAfter;
    forall i, j | 0 <= i < j < |part|
      ensures ComesAfter(whole, part[i], part[j])
    {
      var m, n := PlacesOf(middle, part[i], part[j]);
    }
  }

  lemma PlacesOf(s: seq<Item>, x: Item, y: Item) returns (k: nat, l: nat)
    requires ComesAfter(s, x, y)
    ensures k < l < |s| && s[k] == x && s[l] == y
  {
    k, l :| 0 <= k < l < |s| && s[k] == x && s[l] == y;
  }

  /** What two filters in turn leave. */
  lemma SideKeepsOrder(input: Input, side: Item -> bool, test: Item -> bool)
    ensures var rows := VisibleRows(input);
      KeepsOrder(Filter(side, rows), input.items) && KeepsOrder(Filter(test, Filter(side, rows)), input.items)
  {
    hide Filter, KeepsOrder;
    var rows := VisibleRows(input);
    FilterKeepsOrder(VisibleTest(input.matches), input.items);
    FilterKeepsOrder(side, rows);
    FilterKeepsOrder(test, Filter(side, rows));
    OrderThrough(Filter(side, rows), rows, input.items);
    OrderThrough(Filter(test, Filter(side, rows)), Filter(side, rows), input.items);
  }

  /**
   * A shown local review puts the local section first; with none it comes last, and only if the repository
   * can hold local reviews. The four others always come, in one order.
   */
  lemma SectionsInOrder(input: Input)
    ensures IdsOf(Sections(input)) ==
      if exists x :: Shown(input, x) && x.pull.number >= 1_000_000_000 then
        [Local, Waiting, ToReview, Drafts, Everything]
      else if input.hasLocal then [Waiting, ToReview, Drafts, Everything, Local]
      else [Waiting, ToReview, Drafts, Everything]
  {
    hide Filter, ToRows;
    var rows := VisibleRows(input);
    var local := LocalSide(rows);
    forall x
      ensures x in local <==> Shown(input, x) && x.pull.number >= 1_000_000_000
    {
      FilterMembers(LocalTest(), rows, x);
      FilterMembers(VisibleTest(input.matches), input.items, x);
    }
    if local != [] {
      assert local[0] in local;
    }
  }

  /** Within every section the reviews come in the order of the input. */
  lemma RowsInOrder(input: Input, k: nat)
    requires k < |Sections(input)|
    ensures KeepsOrder(ItemsOf(Sections(input)[k].rows), input.items)
  {
    hide Filter, KeepsOrder;
    var rows := VisibleRows(input);
    var local, github := LocalSide(rows), GithubSide(rows);
    SideKeepsOrder(input, LocalTest(), LocalTest());
    SideKeepsOrder(input, RemoteTest(), WaitingTest(input.human));
    SideKeepsOrder(input, RemoteTest(), ReviewTest(input.human));
    SideKeepsOrder(input, RemoteTest(), DraftTest(input.drafts));
    SideKeepsOrder(input, RemoteTest(), UnclaimedTest(Claimed(input, github)));
    match Sections(input)[k].id {
      case Local => ItemsBack(input.drafts, local);
      case Waiting => ItemsBack(input.drafts, Filter(WaitingTest(input.human), github));
      case ToReview => ItemsBack(input.drafts, Filter(ReviewTest(input.human), github));
      case Drafts => ItemsBack(input.drafts, Filter(DraftTest(input.drafts), github));
      case Everything => ItemsBack(input.drafts, Filter(UnclaimedTest(Claimed(input, github)), github));
    }
  }

  lemma ItemsBack(drafts: map<int, Draft>, items: seq<Item>)
    ensures ItemsOf(ToRows(drafts, items)) == items
  {
  }

  // ----- the tree arrangement

  function PullsOf(items: seq<Item>): seq<PullItem>
  {
    seq(|items|, i requires 0 <= i < |items| => items[i].pull)
  }

  function NumbersOf(items: seq<Item>): seq<int>
  {
    seq(|items|, i requires 0 <= i < |items| => items[i].pull.number)
  }

  function Stackable(input: Input): seq<PullItem>
  {
    PullsOf(GithubSide(VisibleRows(input)))
  }

  lemma StackableIsOpen(input: Input)
    requires DistinctItems(input.items)
    ensures DistinctNumbers(Stackable(input))
    ensures forall p :: p in Stackable(input) ==> p.isOpen
  {
    hide Filter;
    var rows := VisibleRows(input);
    FilterDistinct(VisibleTest(input.matches), input.items);
    FilterDistinct(RemoteTest(), rows);
    forall it | it in GithubSide(rows)
      ensures it.pull.isOpen
    {
      FilterMembers(RemoteTest(), rows, it);
      FilterMembers(VisibleTest(input.matches), input.items, it);
    }
  }

  lemma {:induction false} AllOpen(pulls: seq<PullItem>)
    requires forall p :: p in pulls ==> p.isOpen
    ensures OpenOnes(pulls) == pulls
  {
    if pulls != [] {
      var n := |pulls| - 1;
      assert pulls == pulls[..n] + [pulls[n]];
      AllOpen(pulls[..n]);
    }
  }

  method BuildInboxTree(input: Input, leq: Before) returns (f: Forest, ghost groups: Groups, ghost owner: Owners)
    requires DistinctItems(input.items) && Total(leq)
    ensures Indexed(Stackable(input), f.items) && Arranged(f, groups, owner)
  {
    hide Arranged, Indexed, OwnedByParents, Ordered, SiblingsSorted, TotalsCounted, DistinctItems, Total,
         DistinctNumbers;
    StackableIsOpen(input);
    AllOpen(Stackable(input));
    var local, github := PartitionInbox(VisibleRows(input));
    ghost var parent;
    f, groups, owner, parent := BuildPullTree(PullsOf(github), leq);
  }

  lemma NumbersOfOne(items: seq<Item>, it: Item)
    ensures NumbersOf(items + [it]) == NumbersOf(items) + [it.pull.number]
  {
  }

  lemma SidesOfOne(items: seq<Item>, it: Item)
    ensures LocalSide(items + [it]) == if IsLocal(it) then LocalSide(items) + [it] else LocalSide(items)
    ensures GithubSide(items + [it]) == if IsLocal(it) then GithubSide(items) else GithubSide(items) + [it]
  {
    assert (items + [it])[..|items|] == items;
  }

  lemma {:induction false} PartitionCounts(items: seq<Item>)
    ensures multiset(NumbersOf(LocalSide(items))) + multiset(NumbersOf(GithubSide(items))) == multiset(NumbersOf(items))
  {
    if items != [] {
      var n := |items| - 1;
      var before, it := items[..n], items[n];
      assert items == before + [it];
      PartitionCounts(before);
      hide NumbersOf, LocalSide, GithubSide;
      SidesOfOne(before, it);
      NumbersOfOne(before, it);
      NumbersOfOne(LocalSide(before), it);
      NumbersOfOne(GithubSide(before), it);
    }
  }

  lemma {:induction false} DistinctNumbersCount(items: seq<Item>, n: int)
    requires DistinctItems(items)
    ensures multiset(NumbersOf(items))[n] == if n in Numbers(PullsOf(items)) then 1 else 0
  {
    if items != [] {
      var k := |items| - 1;
      DistinctNumbersCount(items[..k], n);
      assert NumbersOf(items) == NumbersOf(items[..k]) + [items[k].pull.number];
      assert PullsOf(items) == PullsOf(items[..k]) + [items[k].pull];
      assert items[k].pull.number !in Numbers(PullsOf(items[..k])) by {
        forall p | p in PullsOf(items[..k])
          ensures p.number != items[k].pull.number
        {
          var i :| 0 <= i < k && items[i].pull == p;
        }
      }
      assert Numbers(PullsOf(items)) == Numbers(PullsOf(items[..k])) + {items[k].pull.number};
    }
  }

  /**
   * The tree and the local group beside it account for the same reviews as the sections: together they
   * name every visible review exactly once and nothing else.
   */
  lemma TreeNamesVisibleRows(input: Input, f: Forest, groups: Groups, owner: Owners)
    requires DistinctItems(input.items)
    requires Indexed(Stackable(input), f.items) && Arranged(f, groups, owner)
    ensures ShapeOf(f).Sound() && forall r :: r in f.roots ==> ShapeOf(f).Level(r.children, 0)
    ensures multiset(FlattenFrom(f, 0)) + multiset(NumbersOf(LocalSide(VisibleRows(input))))
         == multiset(NumbersOf(VisibleRows(input)))
  {
    hide Filter, Arranged, Numbers, NumbersOf, FlattenFrom, DistinctItems, Shape.Sound, Shape.Level;
    var rows := VisibleRows(input);
    var github := GithubSide(rows);
    FlattenHoldsEachOnce(f, groups, owner);
    FilterDistinct(VisibleTest(input.matches), input.items);
    FilterDistinct(RemoteTest(), rows);
    PartitionCounts(rows);
    forall n
      ensures multiset(f.items.Keys)[n] == multiset(NumbersOf(github))[n]
    {
      DistinctNumbersCount(github, n);
    }
    assert multiset(f.items.Keys) == multiset(NumbersOf(github));
  }
}

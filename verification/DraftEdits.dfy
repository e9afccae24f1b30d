/** Editing the draft in the cache: what each edit changes, and what a run of edits leaves. */
module DraftEdits {
  import opened Sequences

  /** `text` stands for the fields of a comment that no edit looks at. */
  datatype Comment = Comment(key: string, text: string, createdAt: int, updatedAt: int)

  /** The commit the comments are anchored to, and the compare it belongs to, as one value. */
  datatype Head = Head(sha: string, compareKey: string)

  datatype Draft = Draft(headSha: string, compareKey: string, body: string, event: string,
                         comments: seq<Comment>, createdAt: int, updatedAt: int)

  datatype Edit =
    | Upsert(comment: Comment)
    | Remove(key: string)
    | SetBody(body: string)
    | SetEvent(event: string)
    | SetHead(head: Head)

  function WithDraftHead(d: Draft, head: Head): Draft
  {
    d.(headSha := head.sha, compareKey := head.compareKey)
  }

  function Keys(comments: seq<Comment>): seq<string>
  {
    seq(|comments|, i requires 0 <= i < |comments| => comments[i].key)
  }

  function Find(comments: seq<Comment>, key: string): Option<Comment>
  {
    if comments == [] then None
    else if comments[0].key == key then Some(comments[0]) else Find(comments[1..], key)
  }

  function Replaced(comments: seq<Comment>, c: Comment): seq<Comment>
  {
    seq(|comments|, i requires 0 <= i < |comments| => if comments[i].key == c.key then c else comments[i])
  }

  function Without(comments: seq<Comment>, key: string): seq<Comment>
  {
    if comments == [] then [] else
      var n := |comments| - 1;
      Without(comments[..n], key) + if comments[n].key == key then [] else [comments[n]]
  }

  function Edited(d: Draft, e: Edit, now: int): Draft
  {
    var next :=
      match e
      case Upsert(c) =>
        var existing := Find(d.comments, c.key);
        if existing.Some? then
          d.(comments := Replaced(d.comments, c.(createdAt := existing.value.createdAt, updatedAt := now)))
        else d.(comments := d.comments + [c])
      case Remove(key) => d.(comments := Without(d.comments, key))
      case SetBody(body) => d.(body := body)
      case SetEvent(event) => d.(event := event)
      case SetHead(head) => WithDraftHead(d, head);
    next.(updatedAt := now)
  }

  function Fresh(head: Head, now: int): Draft
  {
    Draft(head.sha, head.compareKey, "", "COMMENT", [], now, now)
  }

  /** The cached draft and the documents handed to the debounced save, in order. */
  class DraftCache {
    var cached: Option<Draft>
    var handed: seq<Draft>

    constructor ()
      ensures cached == None && handed == []
    {
      cached, handed := None, [];
    }

    /** A new draft is cached but not saved: only a first real edit makes it worth storing. */
    method EnsureDraft(head: Head, now: int) returns (d: Draft)
      modifies this`cached
      ensures d == if old(cached).Some? then old(cached).value else Fresh(head, now)
      ensures cached == Some(d)
    {
      if cached.Some? {
        return cached.value;
      }
      d := Fresh(head, now);
      cached := Some(d);
    }

    /** Every edit reaches the cache and the save as one document; without a draft there is nothing to edit. */
    method Mutate(e: Edit, now: int)
      modifies this
      ensures if old(cached).None? then cached == None && handed == old(handed)
              else cached == Some(Edited(old(cached).value, e, now)) && handed == old(handed) + [cached.value]
    {
      if cached.None? {
        return;
      }
      var next := Edited(cached.value, e, now);
      cached := Some(next);
      handed := handed + [next];
    }
  }

  // ----- what one edit does to the comments

  ghost predicate DistinctKeys(comments: seq<Comment>)
  {
    forall i, j :: 0 <= i < j < |comments| ==> comments[i].key != comments[j].key
  }

  /** The comments as a dictionary. */
  function Entries(comments: seq<Comment>): map<string, Comment>
  {
    if comments == [] then map[] else
      var n := |comments| - 1;
      Entries(comments[..n])[comments[n].key := comments[n]]
  }

  lemma {:induction false} EntriesMeaning(comments: seq<Comment>, i: nat)
    requires DistinctKeys(comments) && i < |comments|
    ensures comments[i].key in Entries(comments) && Entries(comments)[comments[i].key] == comments[i]
  {
    var n := |comments| - 1;
    if i < n {
      EntriesMeaning(comments[..n], i);
    }
  }

  lemma {:induction false} EntriesKeys(comments: seq<Comment>, key: string)
    ensures key in Entries(comments) <==> exists i :: 0 <= i < |comments| && comments[i].key == key
  {
    if comments != [] {
      var n := |comments| - 1;
      EntriesKeys(comments[..n], key);
      if i :| 0 <= i < n && comments[i].key == key {
        assert comments[..n][i].key == key;
      }
    }
  }

  lemma {:induction false} FindMeaning(comments: seq<Comment>, key: string)
    requires DistinctKeys(comments)
    ensures Find(comments, key) == if key in Entries(comments) then Some(Entries(comments)[key]) else None
  {
    EntriesKeys(comments, key);
    if comments != [] {
      FindMeaning(comments[1..], key);
      EntriesKeys(comments[1..], key);
      if key in Entries(comments) {
        var i :| 0 <= i < |comments| && comments[i].key == key;
        EntriesMeaning(comments, i);
        if i > 0 {
          EntriesMeaning(comments[1..], i - 1);
          assert comments[1..][i - 1].key == key;
        }
      }
    }
  }

  lemma {:induction false} ReplacedEntries(comments: seq<Comment>, c: Comment)
    ensures Keys(Replaced(comments, c)) == Keys(comments)
    ensures Entries(Replaced(comments, c))
         == if c.key in Entries(comments) then Entries(comments)[c.key := c] else Entries(comments)
  {
    if comments != [] {
      var n := |comments| - 1;
      ReplacedEntries(comments[..n], c);
      assert Replaced(comments, c)[..n] == Replaced(comments[..n], c);
    }
  }

  lemma {:induction false} WithoutMembers(comments: seq<Comment>, key: string, c: Comment)
    ensures c in Without(comments, key) <==> c in comments && c.key != key
  {
    if comments != [] {
      var n := |comments| - 1;
      WithoutMembers(comments[..n], key, c);
      assert comments == comments[..n] + [comments[n]];
    }
  }

  lemma {:induction false} WithoutDistinct(comments: seq<Comment>, key: string)
    requires DistinctKeys(comments)
    ensures DistinctKeys(Without(comments, key))
  {
    if comments != [] {
      var n := |comments| - 1;
      var before := Without(comments[..n], key);
      WithoutDistinct(comments[..n], key);
      forall i | 0 <= i < |before|
        ensures before[i].key != comments[n].key
      {
        WithoutMembers(comments[..n], key, before[i]);
        var j :| 0 <= j < n && comments[j] == before[i];
      }
    }
  }

  lemma {:induction false} WithoutEntries(comments: seq<Comment>, key: string)
    ensures Entries(Without(comments, key)) == Entries(comments) - {key}
  {
    hide Entries;
    if comments == [] {
      NoComments();
    } else {
      var n := |comments| - 1;
      var last := comments[n];
      WithoutEntries(comments[..n], key);
      EntryAtTheEnd(Without(comments[..n], key), last);
      EntryAtTheEnd(comments[..n], last);
      assert comments == comments[..n] + [last];
      DropFromUpdate(Entries(comments[..n]), last, key);
    }
  }

  lemma DropFromUpdate(m: map<string, Comment>, c: Comment, key: string)
    ensures m[c.key := c] - {key} == if c.key == key then m - {key} else (m - {key})[c.key := c]
  {
  }

  lemma EntryAtTheEnd(comments: seq<Comment>, c: Comment)
    ensures Entries(comments + [c]) == Entries(comments)[c.key := c]
    ensures comments + [] == comments
  {
    assert (comments + [c])[..|comments|] == comments;
  }

  /** What the comments are to be after an edit, as a dictionary. */
  function EditedEntries(m: map<string, Comment>, e: Edit, now: int): map<string, Comment>
  {
    match e
    case Upsert(c) =>
      if c.key in m then m[c.key := c.(createdAt := m[c.key].createdAt, updatedAt := now)] else m[c.key := c]
    case Remove(key) => m - {key}
    case _ => m
  }

  /** An edit acts on the list of comments as it would on a dictionary, and keeps the keys distinct. */
  lemma EditIsDictionaryEdit(d: Draft, e: Edit, now: int)
    requires DistinctKeys(d.comments)
    ensures DistinctKeys(Edited(d, e, now).comments)
    ensures Entries(Edited(d, e, now).comments) == EditedEntries(Entries(d.comments), e, now)
  {
    hide Entries, Find, Without, DistinctKeys, Replaced;
    match e
    case Upsert(c) =>
      FindMeaning(d.comments, c.key);
      if c.key in Entries(d.comments) {
        var stamped := c.(createdAt := Entries(d.comments)[c.key].createdAt, updatedAt := now);
        ReplacedEntries(d.comments, stamped);
        SameKeys(d.comments, Replaced(d.comments, stamped));
      } else {
        AppendEntry(d.comments, c);
      }
    case Remove(key) =>
      WithoutEntries(d.comments, key);
      WithoutDistinct(d.comments, key);
    case _ =>
  }

  lemma SameKeys(a: seq<Comment>, b: seq<Comment>)
    requires Keys(a) == Keys(b) && DistinctKeys(a)
    ensures DistinctKeys(b)
  {
    forall i | 0 <= i < |b|
      ensures |a| == |b| && b[i].key == a[i].key
    {
      assert |Keys(a)| == |Keys(b)| && Keys(b)[i] == Keys(a)[i];
    }
  }

  lemma AppendEntry(comments: seq<Comment>, c: Comment)
    requires DistinctKeys(comments) && c.key !in Entries(comments)
    ensures DistinctKeys(comments + [c]) && Entries(comments + [c]) == Entries(comments)[c.key := c]
  {
    var more := comments + [c];
    assert more[..|comments|] == comments;
    forall i | 0 <= i < |comments|
      ensures comments[i].key != c.key
    {
      EntriesKeys(comments, c.key);
    }
  }

  // ----- runs of edits

  function AfterEdits(d: Draft, edits: seq<(Edit, int)>): Draft
  {
    if edits == [] then d else
      var n := |edits| - 1;
      Edited(AfterEdits(d, edits[..n]), edits[n].0, edits[n].1)
  }

  function EntriesAfter(m: map<string, Comment>, edits: seq<(Edit, int)>): map<string, Comment>
  {
    if edits == [] then m else
      var n := |edits| - 1;
      EditedEntries(EntriesAfter(m, edits[..n]), edits[n].0, edits[n].1)
  }

  /** The head the last re-anchoring gave, else the one the draft was made with. */
  function LastHead(head: Head, edits: seq<(Edit, int)>): Head
  {
    if edits == [] then head
    else if edits[|edits| - 1].0.SetHead? then edits[|edits| - 1].0.head
    else LastHead(head, edits[..|edits| - 1])
  }

  /** The body last set, else the empty one of a fresh draft. */
  function LastBody(edits: seq<(Edit, int)>): string
  {
    if edits == [] then ""
    else if edits[|edits| - 1].0.SetBody? then edits[|edits| - 1].0.body
    else LastBody(edits[..|edits| - 1])
  }

  function LastEvent(edits: seq<(Edit, int)>): string
  {
    if edits == [] then "COMMENT"
    else if edits[|edits| - 1].0.SetEvent? then edits[|edits| - 1].0.event
    else LastEvent(edits[..|edits| - 1])
  }

  function Dropped(keys: seq<string>, key: string): seq<string>
  {
    if keys == [] then [] else
      var n := |keys| - 1;
      Dropped(keys[..n], key) + if keys[n] == key then [] else [keys[n]]
  }

  /** The keys in the order in which each was last added: replacing keeps the place, removing gives it up. */
  function KeysAfter(edits: seq<(Edit, int)>): seq<string>
  {
    if edits == [] then [] else
      var n := |edits| - 1;
      var before := KeysAfter(edits[..n]);
      match edits[n].0
      case Upsert(c) => if c.key in before then before else before + [c.key]
      case Remove(key) => Dropped(before, key)
      case _ => before
  }

  lemma {:induction false} KeysWithout(comments: seq<Comment>, key: string)
    ensures Keys(Without(comments, key)) == Dropped(Keys(comments), key)
  {
    if comments != [] {
      var n := |comments| - 1;
      KeysWithout(comments[..n], key);
      assert Keys(comments)[..n] == Keys(comments[..n]);
    }
  }

  lemma KeyListed(comments: seq<Comment>, key: string)
    ensures key in Keys(comments) <==> key in Entries(comments)
  {
    EntriesKeys(comments, key);
    if i :| 0 <= i < |comments| && comments[i].key == key {
      assert Keys(comments)[i] == key;
    }
  }

  lemma KeysOfEdit(d: Draft, e: Edit, now: int)
    requires DistinctKeys(d.comments)
    ensures var keys, edited := Keys(d.comments), Keys(Edited(d, e, now).comments);
      match e
      case Upsert(c) => edited == if c.key in keys then keys else keys + [c.key]
      case Remove(key) => edited == Dropped(keys, key)
      case _ => edited == keys
  {
    hide Entries, Find, Without, DistinctKeys, Replaced;
    match e
    case Upsert(c) =>
      FindMeaning(d.comments, c.key);
      KeyListed(d.comments, c.key);
      if c.key in Entries(d.comments) {
        ReplacedEntries(d.comments, c.(createdAt := Entries(d.comments)[c.key].createdAt, updatedAt := now));
      }
    case Remove(key) => KeysWithout(d.comments, key);
    case _ =>
  }

  /**
   * Over every run of edits to a fresh draft: the commit and the compare are always the two halves of one
   * head, body and event are those last set, keys stay distinct and in the order they were added, and the
   * comments are those of the dictionary the same edits build.
   */
  lemma {:induction false} RunOfEdits(head: Head, start: int, edits: seq<(Edit, int)>)
    ensures var d := AfterEdits(Fresh(head, start), edits);
      && Head(d.headSha, d.compareKey) == LastHead(head, edits)
      && d.body == LastBody(edits) && d.event == LastEvent(edits)
      && DistinctKeys(d.comments) && Keys(d.comments) == KeysAfter(edits)
      && Entries(d.comments) == EntriesAfter(map[], edits)
      && d.createdAt == start && d.updatedAt == if edits == [] then start else edits[|edits| - 1].1
  {
    hide DistinctKeys, Entries, EditedEntries, Dropped, Find, Without, Replaced, Keys;
    if edits == [] {
      NoComments();
    } else {
      var n := |edits| - 1;
      var before := AfterEdits(Fresh(head, start), edits[..n]);
      RunOfEdits(head, start, edits[..n]);
      EditIsDictionaryEdit(before, edits[n].0, edits[n].1);
      KeysOfEdit(before, edits[n].0, edits[n].1);
    }
  }

  lemma NoComments()
    ensures Entries([]) == map[] && DistinctKeys([]) && Keys([]) == []
  {
  }
}

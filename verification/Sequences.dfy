/** Stock types and sequence functions shared by the models of the individual files. */
module Sequences {

  datatype Option<+T> = None | Some(value: T)

  /** The integers lo, lo + 1, ..., hi - 1. */
  function Range(lo: int, hi: int): (r: seq<int>)
  {
    if hi <= lo then [] else seq(hi - lo, i => lo + i)
  }

  /** Concatenates f(x) over the elements x of xs, in order. */
  function FlatMap<A, B>(f: A -> seq<B>, xs: seq<A>): seq<B>
  {
    if xs == [] then [] else f(xs[0]) + FlatMap(f, xs[1..])
  }

  lemma {:induction false} FlatMapAppend<A, B>(f: A -> seq<B>, xs: seq<A>, ys: seq<A>)
    ensures FlatMap(f, xs + ys) == FlatMap(f, xs) + FlatMap(f, ys)
  {
    if xs == [] {
      assert xs + ys == ys;
    } else {
      assert (xs + ys)[1..] == xs[1..] + ys;
      FlatMapAppend(f, xs[1..], ys);
    }
  }

  lemma AppendAssociative<T>(a: seq<T>, b: seq<T>, c: seq<T>)
    ensures a + (b + c) == a + b + c
  {
  }

  lemma FlatMapOne<A, B>(f: A -> seq<B>, x: A)
    ensures FlatMap(f, [x]) == f(x)
  {
    assert [x][1..] == [];
  }

  /** Every element of the concatenation comes from some piece. */
  lemma {:induction false} FlatMapSource<A, B>(f: A -> seq<B>, xs: seq<A>, y: B) returns (k: nat)
    requires y in FlatMap(f, xs)
    ensures k < |xs| && y in f(xs[k])
  {
    if y in f(xs[0]) {
      k := 0;
    } else {
      var j := FlatMapSource(f, xs[1..], y);
      k := j + 1;
    }
  }

  /** Every element of every piece is an element of the concatenation. */
  lemma {:induction false} FlatMapMember<A, B>(f: A -> seq<B>, xs: seq<A>, k: nat, y: B)
    requires k < |xs| && y in f(xs[k])
    ensures y in FlatMap(f, xs)
  {
    if k > 0 {
      FlatMapMember(f, xs[1..], k - 1, y);
    }
  }

  ghost predicate Increasing(s: seq<int>)
  {
    forall i, j :: 0 <= i < j < |s| ==> s[i] < s[j]
  }

  ghost predicate NoDuplicates<T>(s: seq<T>)
  {
    forall i, j :: 0 <= i < j < |s| ==> s[i] != s[j]
  }

  /** When the concatenation increases, an earlier piece lies below every later one. */
  lemma {:induction false} FlatMapOrdered<A>(f: A -> seq<int>, xs: seq<A>, i: nat, j: nat, x: int, y: int)
    requires Increasing(FlatMap(f, xs))
    requires i < j < |xs| && x in f(xs[i]) && y in f(xs[j])
    ensures x < y
  {
    var head, tail := f(xs[0]), FlatMap(f, xs[1..]);
    var whole := FlatMap(f, xs);
    assert whole == head + tail;
    if i == 0 {
      FlatMapMember(f, xs[1..], j - 1, y);
      var a :| 0 <= a < |head| && head[a] == x;
      var b :| 0 <= b < |tail| && tail[b] == y;
      assert whole[a] == x && whole[|head| + b] == y;
    } else {
      forall a, b | 0 <= a < b < |tail|
        ensures tail[a] < tail[b]
      {
        assert tail[a] == whole[|head| + a] && tail[b] == whole[|head| + b];
      }
      FlatMapOrdered(f, xs[1..], i - 1, j - 1, x, y);
    }
  }

  // ----- stable sorting by a number

  ghost predicate AscendingBy<T>(key: T -> int, s: seq<T>)
  {
    forall i, j :: 0 <= i < j < |s| ==> key(s[i]) <= key(s[j])
  }

  function InsertBy<T>(key: T -> int, x: T, s: seq<T>): seq<T>
  {
    if s == [] || key(x) <= key(s[0]) then [x] + s else [s[0]] + InsertBy(key, x, s[1..])
  }

  function SortBy<T>(key: T -> int, s: seq<T>): seq<T>
  {
    if s == [] then [] else InsertBy(key, s[0], SortBy(key, s[1..]))
  }

  lemma {:induction false} InsertByMembers<T>(key: T -> int, x: T, s: seq<T>, y: T)
    ensures y in InsertBy(key, x, s) <==> y == x || y in s
  {
    if s != [] && key(x) > key(s[0]) {
      InsertByMembers(key, x, s[1..], y);
      assert s == [s[0]] + s[1..];
    }
  }

  lemma {:induction false} InsertByAscends<T>(key: T -> int, x: T, s: seq<T>)
    requires AscendingBy(key, s)
    ensures AscendingBy(key, InsertBy(key, x, s))
  {
    if s != [] && key(x) > key(s[0]) {
      var rest := InsertBy(key, x, s[1..]);
      InsertByAscends(key, x, s[1..]);
      forall i | 0 <= i < |rest|
        ensures key(s[0]) <= key(rest[i])
      {
        InsertByMembers(key, x, s[1..], rest[i]);
        if rest[i] != x {
          var j :| 0 <= j < |s[1..]| && s[1..][j] == rest[i];
          assert s[j + 1] == rest[i];
        }
      }
    }
  }

  lemma {:induction false} InsertByDistinct<T>(key: T -> int, x: T, s: seq<T>)
    requires NoDuplicates(s) && x !in s
    ensures NoDuplicates(InsertBy(key, x, s))
  {
    if s != [] && key(x) > key(s[0]) {
      var rest := InsertBy(key, x, s[1..]);
      InsertByDistinct(key, x, s[1..]);
      InsertByMembers(key, x, s[1..], s[0]);
      assert s == [s[0]] + s[1..];
      assert s[0] !in s[1..];
    }
  }

  lemma {:induction false} SortByMembers<T>(key: T -> int, s: seq<T>, y: T)
    ensures y in SortBy(key, s) <==> y in s
  {
    if s != [] {
      SortByMembers(key, s[1..], y);
      InsertByMembers(key, s[0], SortBy(key, s[1..]), y);
      assert s == [s[0]] + s[1..];
    }
  }

  /** Sorting orders the list and keeps its members; a list without duplicates stays one. */
  lemma {:induction false} SortByKeeps<T>(key: T -> int, s: seq<T>)
    ensures forall y :: y in SortBy(key, s) <==> y in s
    ensures AscendingBy(key, SortBy(key, s))
    ensures NoDuplicates(s) ==> NoDuplicates(SortBy(key, s))
  {
    forall y
      ensures y in SortBy(key, s) <==> y in s
    {
      SortByMembers(key, s, y);
    }
    if s != [] {
      var rest := SortBy(key, s[1..]);
      SortByKeeps(key, s[1..]);
      InsertByAscends(key, s[0], rest);
      if NoDuplicates(s) {
        assert s[0] !in s[1..];
        InsertByDistinct(key, s[0], rest);
      }
    }
  }
}

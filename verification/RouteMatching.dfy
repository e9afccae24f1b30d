/** What it means for a request path to match a template, said of its segments alone. */
module RouteMatching {
  import opened Sequences
  import opened Splitting
  import opened Percent
  import opened Routes

  // ----- the segments of a path

  lemma {:induction false} NonEmptyAppend(a: seq<string>, b: seq<string>)
    ensures NonEmpty(a + b) == NonEmpty(a) + NonEmpty(b)
  {
    if a == [] {
      assert a + b == b;
    } else {
      NonEmptyAppend(a[1..], b);
      assert a + b == [a[0]] + (a[1..] + b) && a == [a[0]] + a[1..];
      hide NonEmpty;
      NonEmptyCons(a[0], a[1..] + b);
      NonEmptyCons(a[0], a[1..]);
    }
  }

  lemma {:induction false} SplitAtSlash(a: string, b: string)
    ensures SplitOn('/', a + "/" + b) == SplitOn('/', a) + SplitOn('/', b)
  {
    var whole := a + "/" + b;
    if a == "" {
      assert whole[1..] == b;
    } else {
      assert whole[1..] == a[1..] + "/" + b;
      SplitAtSlash(a[1..], b);
    }
  }

  /**
   * A slash divides the segments before it from those after it, and a text without one is a single segment, or
   * none if empty. So leading, trailing and doubled slashes make no difference.
   */
  lemma SegmentsDivide(a: string, b: string)
    ensures SegmentsOf(a + "/" + b) == SegmentsOf(a) + SegmentsOf(b)
    ensures '/' !in a ==> SegmentsOf(a) == if a == "" then [] else [a]
  {
    SplitAtSlash(a, b);
    NonEmptyAppend(SplitOn('/', a), SplitOn('/', b));
    if '/' !in a {
      SplitPlain('/', a);
    }
  }

  /** The path built for a template is a slash before each literal or encoded parameter, and nothing more. */
  lemma {:induction false} FilledPathText(path: seq<Segment>, params: Params)
    requires PlainPath(path) && Fillable(path, params)
    ensures FillPath(path, params).Some?
    ensures path != [] ==> SplitOn('/', FillPath(path, params).value) == [""] + Texts(path, params)
    ensures path == [] ==> FillPath(path, params).value == ""
  {
    FillSucceedsIff(path, params);
    if path != [] {
      hide SplitOn, PlainPath;
      assert path == [path[0]] + path[1..];
      assert PlainPath(path[1..]) by { RestIsPlain(path); }
      TextIsPlain(path, params, 0);
      var text, rest := Texts(path, params)[0], FillPath(path[1..], params).value;
      FilledPathText(path[1..], params);
      assert Texts(path, params) == [text] + Texts(path[1..], params);
      SlashTextRest(text, rest, Texts(path[1..], params));
      assert FillPath(path, params).value == "/" + text + rest;
    }
  }

  lemma RestIsPlain(path: seq<Segment>)
    requires path != [] && PlainPath(path)
    ensures PlainPath(path[1..])
  {
  }

  lemma SlashTextRest(text: string, rest: string, texts: seq<string>)
    requires '/' !in text && if rest == "" then texts == [] else SplitOn('/', rest) == [""] + texts
    ensures SplitOn('/', "/" + text + rest) == [""] + ([text] + texts)
  {
    hide SplitOn;
    assert "/" + text + rest == "" + "/" + (text + rest);
    SplitAtSlash("", text + rest);
    SplitPlain('/', "");
    SplitPlain('/', text);
    if rest == "" {
      assert text + rest == text;
    } else {
      StartsWithSlash(rest);
      assert rest == "" + "/" + rest[1..] && text + rest == text + "/" + rest[1..];
      SplitAtSlash("", rest[1..]);
      SplitAtSlash(text, rest[1..]);
      assert SplitOn('/', rest)[1..] == SplitOn('/', rest[1..]) == texts;
    }
  }

  lemma StartsWithSlash(rest: string)
    requires rest != "" && SplitOn('/', rest)[0] == ""
    ensures rest[0] == '/'
  {
  }

  // ----- one template

  /** The first n segments are as the template says: literals the same, parameters decodable. */
  ghost predicate FitsUpTo(path: seq<Segment>, segments: seq<string>, n: nat)
  {
    && n <= |path| && n <= |segments|
    && forall i :: 0 <= i < n ==> if path[i].Lit? then segments[i] == path[i].text else Decode(segments[i]).Some?
  }

  ghost predicate BadEscapeAt(path: seq<Segment>, segments: seq<string>, i: nat)
  {
    FitsUpTo(path, segments, i) && i < |path| == |segments| && path[i].Param? && Decode(segments[i]).None?
  }

  /** The i-th segment is the last to give its parameter. */
  ghost predicate Gives(path: seq<Segment>, i: nat, name: string)
  {
    i < |path| && path[i] == Param(name) && Param(name) !in path[i + 1..]
  }

  lemma {:induction false} MatchFromMeaning(path: seq<Segment>, segments: seq<string>, i: nat, params: Params)
    requires |path| == |segments| && FitsUpTo(path, segments, i)
    ensures MatchFrom(path, segments, i, params).Matched? <==> FitsUpTo(path, segments, |path|)
    ensures MatchFrom(path, segments, i, params).Malformed? <==> exists k :: i <= k && BadEscapeAt(path, segments, k)
    decreases |path| - i
  {
    hide Decode;
    if i < |path| {
      if path[i].Param? && Decode(segments[i]).None? {
        assert BadEscapeAt(path, segments, i);
      } else if path[i].Lit? && segments[i] != path[i].text {
      } else {
        var next := if path[i].Lit? then params else params[path[i].name := Decode(segments[i]).value];
        MatchFromMeaning(path, segments, i + 1, next);
        assert !BadEscapeAt(path, segments, i);
      }
    }
  }

  lemma {:induction false} MatchedParams(path: seq<Segment>, segments: seq<string>, i: nat, params: Params,
                                         name: string)
    requires |path| == |segments| && i <= |path| && MatchFrom(path, segments, i, params).Matched?
    ensures var r := MatchFrom(path, segments, i, params).params;
      && (Param(name) !in path[i..] ==> (name in r <==> name in params) && (name in r ==> r[name] == params[name]))
      && (forall k :: i <= k && Gives(path, k, name) ==> name in r && Decode(segments[k]) == Some(r[name]))
    decreases |path| - i
  {
    hide Decode;
    if i < |path| {
      assert path[i..] == [path[i]] + path[i + 1..];
      var next := if path[i].Lit? then params else params[path[i].name := Decode(segments[i]).value];
      MatchedParams(path, segments, i + 1, next, name);
    }
  }

  /**
   * A template matches exactly the segment lists of its length that have its literals and a decodable text for
   * each parameter; a bad escape is thrown exactly when everything before it fits. The parameters are the names
   * in the template, each with the decoded text of its last place.
   */
  lemma TemplateMatchesIff(path: seq<Segment>, segments: seq<string>, name: string)
    ensures var m := MatchTemplate(path, segments);
      && (m.Matched? <==> |path| == |segments| && FitsUpTo(path, segments, |path|))
      && (m.Malformed? <==> exists k: nat :: BadEscapeAt(path, segments, k))
      && (m.Matched? ==> (name in m.params <==> Param(name) in path))
      && (m.Matched? ==> forall k: nat :: Gives(path, k, name) ==>
           name in m.params && Decode(segments[k]) == Some(m.params[name]))
  {
    hide Decode, MatchFrom, FitsUpTo, Gives;
    if |path| == |segments| {
      NothingToFit(path, segments);
      MatchFromMeaning(path, segments, 0, map[]);
      if MatchTemplate(path, segments).Matched? {
        MatchedParams(path, segments, 0, map[], name);
        assert path[0..] == path;
        if Param(name) in path {
          var k := LastPlace(path, name);
        }
      }
    }
  }

  lemma NothingToFit(path: seq<Segment>, segments: seq<string>)
    ensures FitsUpTo(path, segments, 0)
  {
  }

  lemma {:induction false} LastPlace(path: seq<Segment>, name: string) returns (k: nat)
    requires Param(name) in path
    ensures Gives(path, k, name)
  {
    var n := |path| - 1;
    if path[n] == Param(name) {
      k := n;
    } else {
      assert path == path[..n] + [path[n]];
      k := LastPlace(path[..n], name);
      assert path[k + 1..] == path[..n][k + 1..] + [path[n]];
    }
  }

  // ----- the whole table

  /** No route of the verb before the k-th has a say. */
  ghost predicate PassedOver(routes: seq<Route>, verb: Verb, segments: seq<string>, k: nat)
  {
    k <= |routes| &&
    forall j :: 0 <= j < k && routes[j].verb == verb ==> MatchTemplate(routes[j].path, segments).NoMatch?
  }

  /** The k-th route is the first of its verb that does not miss. */
  ghost predicate Decides(routes: seq<Route>, verb: Verb, segments: seq<string>, k: nat)
  {
    && PassedOver(routes, verb, segments, k) && k < |routes| && routes[k].verb == verb
    && !MatchTemplate(routes[k].path, segments).NoMatch?
  }

  /** What the router answers once the k-th route decides. */
  ghost predicate AnswersBy(routes: seq<Route>, segments: seq<string>, k: nat, r: Found)
    requires k < |routes|
  {
    var m := MatchTemplate(routes[k].path, segments);
    r == if m.Matched? then Route_(k, m.params) else BadEscape
  }

  lemma {:induction false} FindFromMeaning(routes: seq<Route>, verb: Verb, segments: seq<string>, k: nat)
    requires PassedOver(routes, verb, segments, k)
    ensures FindFrom(routes, verb, segments, k).NoRoute? <==> PassedOver(routes, verb, segments, |routes|)
    ensures forall j :: k <= j && Decides(routes, verb, segments, j) ==>
      AnswersBy(routes, segments, j, FindFrom(routes, verb, segments, k))
    decreases |routes| - k
  {
    hide MatchTemplate;
    if k < |routes| && (routes[k].verb != verb || MatchTemplate(routes[k].path, segments).NoMatch?) {
      FindFromMeaning(routes, verb, segments, k + 1);
    }
  }

  /**
   * The daemon's router answers by the first route of the verb that does not miss, whether it matches or throws,
   * and with no route exactly when every one misses.
   */
  lemma FirstRouteIsFound(routes: seq<Route>, verb: Verb, segments: seq<string>)
    ensures var r := FindFrom(routes, verb, segments, 0);
      if PassedOver(routes, verb, segments, |routes|) then r == NoRoute
      else exists j :: Decides(routes, verb, segments, j) && AnswersBy(routes, segments, j, r)
  {
    hide MatchTemplate, FindFrom;
    FindFromMeaning(routes, verb, segments, 0);
    if !PassedOver(routes, verb, segments, |routes|) {
      var j := FirstToDecide(routes, verb, segments, |routes|);
    }
  }

  lemma {:induction false} FirstToDecide(routes: seq<Route>, verb: Verb, segments: seq<string>, n: nat) returns (j: nat)
    requires n <= |routes| && !PassedOver(routes, verb, segments, n)
    ensures Decides(routes, verb, segments, j)
  {
    hide MatchTemplate;
    if n == 0 || PassedOver(routes, verb, segments, n - 1) {
      j := n - 1;
    } else {
      j := FirstToDecide(routes, verb, segments, n - 1);
    }
  }
}

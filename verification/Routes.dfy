/** The route table, building a path for a route, and matching a path back to its route. */
module Routes {
  import opened Sequences
  import opened Splitting
  import opened Percent

  datatype Verb = GET | POST | PUT | DELETE

  datatype Segment = Lit(text: string) | Param(name: string)

  /** A path template is its list of segments, each preceded by a slash. */
  datatype Route = Route(name: string, verb: Verb, path: seq<Segment>)

  const ROUTES: seq<Route> := [
    Route("getSession", GET, [Lit("api"), Lit("session")]),
    Route("listPulls", GET, [Lit("api"), Lit("pulls")]),
    Route("syncPull", POST, [Lit("api"), Lit("pulls"), Param("n"), Lit("sync")]),
    Route("getSnapshot", GET, [Lit("api"), Lit("pulls"), Param("n"), Lit("snapshot")]),
    Route("getBlob", GET, [Lit("api"), Lit("blobs"), Param("sha")]),
    Route("listReviewThreads", GET, [Lit("api"), Lit("pulls"), Param("n"), Lit("threads")]),
    Route("replyToThread", POST,
          [Lit("api"), Lit("pulls"), Param("n"), Lit("threads"), Param("threadId"), Lit("reply")]),
    Route("resolveThread", POST,
          [Lit("api"), Lit("pulls"), Param("n"), Lit("threads"), Param("threadId"), Lit("resolve")]),
    Route("addReaction", POST, [Lit("api"), Lit("comments"), Param("id"), Lit("reactions")]),
    Route("submitReview", POST, [Lit("api"), Lit("pulls"), Param("n"), Lit("review")]),
    Route("reconcileDraft", GET, [Lit("api"), Lit("pulls"), Param("n"), Lit("reconcile")]),
    Route("getDraft", GET, [Lit("api"), Lit("pulls"), Param("n"), Lit("draft")]),
    Route("saveDraft", PUT, [Lit("api"), Lit("pulls"), Param("n"), Lit("draft")]),
    Route("discardDraft", DELETE, [Lit("api"), Lit("pulls"), Param("n"), Lit("draft")]),
    Route("getFileViewed", GET, [Lit("api"), Lit("pulls"), Param("n"), Lit("viewed")]),
    Route("setFileViewed", PUT, [Lit("api"), Lit("pulls"), Param("n"), Lit("viewed")]),
    Route("getPreferences", GET, [Lit("api"), Lit("preferences")]),
    Route("setPreferences", PUT, [Lit("api"), Lit("preferences")]),
    Route("getRateLimit", GET, [Lit("api"), Lit("rate-limit")]),
    Route("listBranches", GET, [Lit("api"), Lit("branches")]),
    Route("createLocalReview", POST, [Lit("api"), Lit("local-reviews")]),
    Route("listLocalReviews", GET, [Lit("api"), Lit("local-reviews")]),
    Route("deleteLocalReview", DELETE, [Lit("api"), Lit("local-reviews"), Param("n")])
  ]

  type Params = map<string, string>

  // ----- building a path

  function SegmentText(seg: Segment, params: Params): Option<string>
  {
    match seg
    case Lit(text) => Some(text)
    case Param(name) => if name in params && params[name] != "" then Some(Encode(params[name])) else None
  }

  /** None when a parameter is missing or empty. */
  function FillPath(path: seq<Segment>, params: Params): Option<string>
  {
    if path == [] then Some("") else
      var head, rest := SegmentText(path[0], params), FillPath(path[1..], params);
      if head.None? || rest.None? then None else Some("/" + head.value + rest.value)
  }

  // ----- matching

  function NonEmpty(pieces: seq<string>): seq<string>
  {
    if pieces == [] then [] else (if pieces[0] == "" then [] else [pieces[0]]) + NonEmpty(pieces[1..])
  }

  function SegmentsOf(pathname: string): seq<string>
  {
    NonEmpty(SplitOn('/', pathname))
  }

  /** A malformed escape in a parameter's place is thrown, not treated as a miss. */
  datatype Match = NoMatch | Malformed | Matched(params: Params)

  function MatchFrom(path: seq<Segment>, segments: seq<string>, i: nat, params: Params): Match
    requires |path| == |segments|
    decreases |path| - i
  {
    if i >= |path| then Matched(params)
    else
      match path[i]
      case Param(name) =>
        var value := Decode(segments[i]);
        if value.None? then Malformed else MatchFrom(path, segments, i + 1, params[name := value.value])
      case Lit(text) =>
        if text != segments[i] then NoMatch else MatchFrom(path, segments, i + 1, params)
  }

  /** One template against one path, as the direct router asks. */
  function MatchTemplate(path: seq<Segment>, segments: seq<string>): Match
  {
    if |path| != |segments| then NoMatch else MatchFrom(path, segments, 0, map[])
  }

  method MatchPath(path: seq<Segment>, pathname: string) returns (m: Match)
    ensures m == MatchTemplate(path, SegmentsOf(pathname))
  {
    var segments := SegmentsOf(pathname);
    if |path| != |segments| {
      return NoMatch;
    }
    var params: Params := map[];
    for i := 0 to |path|
      invariant MatchFrom(path, segments, i, params) == MatchFrom(path, segments, 0, map[])
    {
      match path[i]
      case Param(name) =>
        var value := Decode(segments[i]);
        if value.None? {
          return Malformed;
        }
        params := params[name := value.value];
      case Lit(text) =>
        if text != segments[i] {
          return NoMatch;
        }
    }
    return Matched(params);
  }

  datatype Found = NoRoute | BadEscape | Route_(index: nat, params: Params)

  /** The first route from the k-th on that matches, as the daemon's router asks. */
  function FindFrom(routes: seq<Route>, verb: Verb, segments: seq<string>, k: nat): Found
    decreases |routes| - k
  {
    if k >= |routes| then NoRoute
    else if routes[k].verb != verb then FindFrom(routes, verb, segments, k + 1)
    else
      match MatchTemplate(routes[k].path, segments)
      case NoMatch => FindFrom(routes, verb, segments, k + 1)
      case Malformed => BadEscape
      case Matched(params) => Route_(k, params)
  }

  method MatchRoute(routes: seq<Route>, verb: Verb, pathname: string) returns (r: Found)
    ensures r == FindFrom(routes, verb, SegmentsOf(pathname), 0)
  {
    hide Decode, NonEmpty;
    var segments := SegmentsOf(pathname);
    for k := 0 to |routes|
      invariant FindFrom(routes, verb, segments, k) == FindFrom(routes, verb, segments, 0)
    {
      var route := routes[k];
      if route.verb != verb || |route.path| != |segments| {
        continue;
      }
      var params: Params := map[];
      var ok := true;
      var i := 0;
      while i < |route.path| && ok
        invariant 0 <= i <= |route.path|
        invariant MatchFrom(route.path, segments, 0, map[])
               == if ok then MatchFrom(route.path, segments, i, params) else NoMatch
        decreases |route.path| - i, ok
      {
        match route.path[i]
        case Param(name) =>
          var value := Decode(segments[i]);
          if value.None? {
            return BadEscape;
          }
          params := params[name := value.value];
          i := i + 1;
        case Lit(text) =>
          if text != segments[i] {
            ok := false;
          } else {
            i := i + 1;
          }
      }
      if ok {
        return Route_(k, params);
      }
    }
    return NoRoute;
  }

  // ----- a filled path splits back into its segments

  predicate PlainLiteral(text: string)
  {
    text != "" && '/' !in text && Decode(text).Some?
  }

  predicate PlainPath(path: seq<Segment>)
  {
    forall seg :: seg in path && seg.Lit? ==> PlainLiteral(seg.text)
  }

  predicate Fillable(path: seq<Segment>, params: Params)
  {
    forall seg :: seg in path && seg.Param? ==> seg.name in params && params[seg.name] != ""
  }

  function Texts(path: seq<Segment>, params: Params): (texts: seq<string>)
    requires Fillable(path, params)
    ensures |texts| == |path|
  {
    seq(|path|, i requires 0 <= i < |path| => if path[i].Lit? then path[i].text else Encode(params[path[i].name]))
  }

  lemma TextIsPlain(path: seq<Segment>, params: Params, i: nat)
    requires PlainPath(path) && Fillable(path, params) && i < |path|
    ensures var t := Texts(path, params)[i]; t != "" && '/' !in t && Decode(t).Some?
    ensures SegmentText(path[i], params) == Some(Texts(path, params)[i])
    ensures path[i].Param? ==> Decode(Texts(path, params)[i]) == Some(params[path[i].name])
  {
    assert path[i] in path;
    if path[i].Param? {
      RoundTrip(params[path[i].name]);
    }
  }

  /** Building succeeds exactly when every parameter is there and non-empty. */
  lemma {:induction false} FillSucceedsIff(path: seq<Segment>, params: Params)
    ensures FillPath(path, params).Some? <==> Fillable(path, params)
  {
    if path != [] {
      FillSucceedsIff(path[1..], params);
      assert path == [path[0]] + path[1..];
    }
  }

  lemma {:induction false} FilledPathSplits(path: seq<Segment>, params: Params)
    requires PlainPath(path) && Fillable(path, params)
    ensures FillPath(path, params).Some?
    ensures SegmentsOf(FillPath(path, params).value) == Texts(path, params)
  {
    FillSucceedsIff(path, params);
    if path != [] {
      assert path == [path[0]] + path[1..];
      TextIsPlain(path, params, 0);
      var text, rest := Texts(path, params)[0], FillPath(path[1..], params).value;
      FilledPathSplits(path[1..], params);
      assert Texts(path, params) == [text] + Texts(path[1..], params);
      SlashThenText(text, rest, path[1..] == []);
      if path[1..] != [] {
        assert rest[0] == '/';
      }
    }
  }

  lemma SlashThenText(text: string, rest: string, last: bool)
    requires text != "" && '/' !in text
    requires if last then rest == "" else rest != "" && rest[0] == '/'
    ensures SegmentsOf("/" + text + rest) == [text] + SegmentsOf(rest)
  {
    var whole := "/" + text + rest;
    assert whole == "" + ['/'] + (text + rest);
    SplitAfterPiece('/', "", text + rest);
    if last {
      assert text + rest == text;
      SplitPlain('/', text);
      SplitPlain('/', "");
    } else {
      assert text + rest == text + ['/'] + rest[1..];
      SplitAfterPiece('/', text, rest[1..]);
      assert rest == "" + ['/'] + rest[1..];
      SplitAfterPiece('/', "", rest[1..]);
      NonEmptyCons("", SplitOn('/', rest[1..]));
      NonEmptyCons(text, SplitOn('/', rest[1..]));
    }
    NonEmptyCons("", SplitOn('/', text + rest));
  }

  lemma NonEmptyCons(piece: string, pieces: seq<string>)
    ensures NonEmpty([piece] + pieces) == (if piece == "" then [] else [piece]) + NonEmpty(pieces)
  {
    assert ([piece] + pieces)[1..] == pieces;
  }

  // ----- round trip

  /** The parameters a template names, with the values they were filled with. */
  function Named(path: seq<Segment>, params: Params, i: nat): Params
    requires Fillable(path, params) && i <= |path|
  {
    map k | k in params && Param(k) in path[..i] :: params[k]
  }

  lemma NamedGrows(path: seq<Segment>, params: Params, i: nat)
    requires Fillable(path, params) && i < |path|
    ensures Named(path, params, i + 1)
         == if path[i].Param? then Named(path, params, i)[path[i].name := params[path[i].name]]
            else Named(path, params, i)
  {
    assert path[..i + 1] == path[..i] + [path[i]];
    assert path[i] in path;
  }

  lemma {:induction false} OwnTemplateMatches(path: seq<Segment>, params: Params, i: nat)
    requires PlainPath(path) && Fillable(path, params) && i <= |path|
    ensures MatchFrom(path, Texts(path, params), i, Named(path, params, i)) == Matched(Named(path, params, |path|))
    decreases |path| - i
  {
    if i < |path| {
      TextIsPlain(path, params, i);
      NamedGrows(path, params, i);
      OwnTemplateMatches(path, params, i + 1);
    }
  }

  /** Two routes that no request can both match: they differ in verb, in length or in their last, literal, segment. */
  predicate ApartAtEnd(a: Route, b: Route)
  {
    || a.verb != b.verb || |a.path| != |b.path|
    || (a.path != [] && a.path[|a.path| - 1].Lit? && b.path[|b.path| - 1].Lit?
          && a.path[|a.path| - 1].text != b.path[|b.path| - 1].text)
  }

  lemma {:induction false} OtherTemplateMisses(path: seq<Segment>, texts: seq<string>, i: nat, params: Params)
    requires |path| == |texts| && i < |path| && path[|path| - 1].Lit? && path[|path| - 1].text != texts[|path| - 1]
    requires forall k :: 0 <= k < |texts| ==> Decode(texts[k]).Some?
    ensures MatchFrom(path, texts, i, params) == NoMatch
    decreases |path| - i
  {
    if i < |path| - 1 {
      match path[i]
      case Param(name) => OtherTemplateMisses(path, texts, i + 1, params[name := Decode(texts[i]).value]);
      case Lit(_) => OtherTemplateMisses(path, texts, i + 1, params);
    }
  }

  predicate GoodTable(routes: seq<Route>)
  {
    && (forall r :: r in routes ==> PlainPath(r.path))
    && (forall i, j :: 0 <= i < |routes| && 0 <= j < |routes| && i != j ==> ApartAtEnd(routes[i], routes[j]))
  }

  lemma AllTextsDecode(path: seq<Segment>, params: Params)
    requires PlainPath(path) && Fillable(path, params)
    ensures forall k :: 0 <= k < |path| ==> Decode(Texts(path, params)[k]).Some?
  {
    forall k | 0 <= k < |path|
      ensures Decode(Texts(path, params)[k]).Some?
    {
      TextIsPlain(path, params, k);
    }
  }

  /** The direct router's question: the route's own template gives the parameters back, every other one misses. */
  lemma TemplateRoundTrip(routes: seq<Route>, i: nat, j: nat, params: Params)
    requires GoodTable(routes) && i < |routes| && j < |routes| && Fillable(routes[i].path, params)
    requires routes[j].verb == routes[i].verb
    ensures FillPath(routes[i].path, params).Some?
    ensures MatchTemplate(routes[j].path, SegmentsOf(FillPath(routes[i].path, params).value))
         == if i == j then Matched(Named(routes[i].path, params, |routes[i].path|)) else NoMatch
  {
    var path := routes[i].path;
    assert routes[i] in routes;
    FilledPathSplits(path, params);
    AllTextsDecode(path, params);
    if i == j {
      OwnTemplateMatches(path, params, 0);
      assert Named(path, params, 0) == map[];
    } else if |routes[j].path| == |path| {
      assert ApartAtEnd(routes[i], routes[j]);
      OtherTemplateMisses(routes[j].path, Texts(path, params), 0, map[]);
    }
  }

  lemma {:induction false} FindsFrom(routes: seq<Route>, i: nat, params: Params, k: nat)
    requires GoodTable(routes) && k <= i < |routes| && Fillable(routes[i].path, params)
    ensures FillPath(routes[i].path, params).Some?
    ensures FindFrom(routes, routes[i].verb, SegmentsOf(FillPath(routes[i].path, params).value), k)
         == Route_(i, Named(routes[i].path, params, |routes[i].path|))
    decreases i - k
  {
    hide GoodTable, MatchTemplate, SegmentsOf, Named, FillPath;
    FillSucceedsIff(routes[i].path, params);
    if routes[k].verb == routes[i].verb {
      TemplateRoundTrip(routes, i, k, params);
    }
    if k < i {
      FindsFrom(routes, i, params, k + 1);
    }
  }

  lemma FirstRoutesApart()
    ensures |ROUTES| == 23
    ensures forall i, j :: 0 <= i < 8 && i < j < |ROUTES| ==> ApartAtEnd(ROUTES[i], ROUTES[j])
  {
  }

  lemma LaterRoutesApart()
    ensures |ROUTES| == 23
    ensures forall i, j :: 8 <= i < j < |ROUTES| ==> ApartAtEnd(ROUTES[i], ROUTES[j])
  {
  }

  lemma {:induction false} AsciiDecodes(s: string)
    requires forall i :: 0 <= i < |s| ==> s[i] as int < 128 && s[i] != '%'
    ensures Decode(s).Some?
  {
    if s != "" {
      AsciiDecodes(s[1..]);
    }
  }

  const WORDS: seq<string> := ["api", "session", "pulls", "sync", "snapshot", "blobs", "threads", "reply",
    "resolve", "comments",
    "reactions", "review", "reconcile", "draft", "viewed", "preferences", "rate-limit", "branches", "local-reviews"]

  lemma AsciiWordIsPlain(w: string)
    requires w != "" && forall k :: 0 <= k < |w| ==> w[k] as int < 128 && w[k] != '%' && w[k] != '/'
    ensures PlainLiteral(w)
  {
    AsciiDecodes(w);
  }

  lemma EarlyWordIsPlain(i: nat)
    requires i < 10
    ensures PlainLiteral(WORDS[i])
  {
    hide PlainLiteral, Decode;
    AsciiWordIsPlain(WORDS[i]);
  }

  lemma LateWordIsPlain(i: nat)
    requires 10 <= i < |WORDS|
    ensures PlainLiteral(WORDS[i])
  {
    hide PlainLiteral, Decode;
    AsciiWordIsPlain(WORDS[i]);
  }

  lemma TableUsesWords(r: nat, k: nat)
    requires r < |ROUTES| && k < |ROUTES[r].path| && ROUTES[r].path[k].Lit?
    ensures ROUTES[r].path[k].text in WORDS
  {
  }

  lemma TablePathIsPlain(r: nat)
    requires r < |ROUTES|
    ensures PlainPath(ROUTES[r].path)
  {
    hide PlainLiteral;
    forall seg | seg in ROUTES[r].path && seg.Lit?
      ensures PlainLiteral(seg.text)
    {
      var k :| 0 <= k < |ROUTES[r].path| && ROUTES[r].path[k] == seg;
      TableUsesWords(r, k);
      var i: nat :| i < |WORDS| && WORDS[i] == seg.text;
      if i < 10 {
        EarlyWordIsPlain(i);
      } else {
        LateWordIsPlain(i);
      }
    }
  }

  lemma GoodWhenPlainAndApart(routes: seq<Route>)
    requires forall r :: 0 <= r < |routes| ==> PlainPath(routes[r].path)
    requires forall i, j :: 0 <= i < j < |routes| ==> ApartAtEnd(routes[i], routes[j])
    ensures GoodTable(routes)
  {
    hide PlainPath;
    forall i, j | 0 <= i < |routes| && 0 <= j < |routes| && i != j
      ensures ApartAtEnd(routes[i], routes[j])
    {
      assert i < j || ApartAtEnd(routes[j], routes[i]);
    }
  }

  lemma TableIsGood()
    ensures |ROUTES| == 23 && GoodTable(ROUTES)
  {
    hide PlainPath, ApartAtEnd, GoodTable;
    FirstRoutesApart();
    LaterRoutesApart();
    forall r | 0 <= r < |ROUTES|
      ensures PlainPath(ROUTES[r].path)
    {
      TablePathIsPlain(r);
    }
    GoodWhenPlainAndApart(ROUTES);
  }

  /**
   * For every route of the table and every assignment of its parameters, the path built for it is found
   * again as that route, with exactly those parameters, and matches no other route of its verb.
   */
  lemma RouteRoundTrip(i: nat, j: nat, params: Params)
    requires i < |ROUTES| && Fillable(ROUTES[i].path, params)
    requires j < |ROUTES| && j != i && ROUTES[j].verb == ROUTES[i].verb
    ensures FillPath(ROUTES[i].path, params).Some?
    ensures var segments := SegmentsOf(FillPath(ROUTES[i].path, params).value);
      && FindFrom(ROUTES, ROUTES[i].verb, segments, 0) == Route_(i, Named(ROUTES[i].path, params, |ROUTES[i].path|))
      && MatchTemplate(ROUTES[i].path, segments) == Matched(Named(ROUTES[i].path, params, |ROUTES[i].path|))
      && MatchTemplate(ROUTES[j].path, segments) == NoMatch
  {
    hide GoodTable, Fillable, FillPath, SegmentsOf, FindFrom, MatchTemplate, Named;
    TableIsGood();
    FindsFrom(ROUTES, i, params, 0);
    TemplateRoundTrip(ROUTES, i, i, params);
    TemplateRoundTrip(ROUTES, i, j, params);
  }
}

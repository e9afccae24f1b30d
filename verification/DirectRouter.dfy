/** The direct router: the gates and the dispatch chain, proved to serve what the route table says. */
module DirectRouter {
  import opened Sequences
  import opened Splitting
  import opened Percent
  import opened Routes
  import opened ReviewIds

  /** What `Number(...)` makes of a text, or a number of a JSON body: an integer or anything else. */
  datatype Num = Whole(value: int) | NotWhole

  /** The body as each validator finds it; None or false when the validator rejects it. */
  datatype Body = Body(draft: Option<Num>, viewed: bool, preferences: bool, create: bool, submit: Option<Num>,
                       reply: bool, resolve: bool, reaction: bool, prNumber: Option<Num>)

  /** `verb` is None for a method that no route uses; `queryPr` is `?pr=` read as a number. */
  datatype Request = Request(verb: Option<Verb>, path: string, queryPr: Num, body: Body)

  datatype Deployment = Deployment(broker: bool, brokerWrites: bool, github: bool, pullList: bool,
                                   numeric: string -> Num)
  {
    predicate ReadsOnly() { broker && !brokerWrites }
  }

  /** The surface's methods; the review a call acts on is an argument. */
  datatype Call =
    | ListPulls | SyncPull(n: int) | GetRateLimit | GetSnapshot(n: int) | ReconcileDraft(n: int) | GetBlob(sha: string)
    | GetDraft(n: int) | SaveDraft(n: int) | DiscardDraft(n: int) | GetFileViewed(n: int) | SetFileViewed(n: int)
    | GetPreferences | SetPreferences | ListBranches | ListLocalReviews | CreateLocalReview | DeleteLocalReview(n: int)
    | SubmitReview(n: int) | ReplyToThread(n: int, thread: string) | ResolveThread(n: int, thread: string)
    | AddReaction(review: Num, comment: int)

  datatype Refusal = ReadsOnlyBroker | NoGithubRepository

  /** `Called` is whatever the surface answers, an error envelope included; `Failed` is an error before any call. */
  datatype Outcome = NotApi | Session | Refused(why: Refusal) | BadNumber | Mismatch | Invalid | Called(call: Call)
                   | NotImplemented | NotFound | Failed

  // ----- which review a request names

  function PullNumber(d: Deployment, params: Params): Option<int>
  {
    var n := if "n" in params then d.numeric(params["n"]) else NotWhole;
    if n.Whole? && n.value > 0 then Some(n.value) else None
  }

  predicate NamesLocalReview(review: Option<Num>)
  {
    review.Some? && review.value.Whole? && IsLocalReviewId(review.value.value)
  }

  function ReviewId(n: Option<int>): Option<Num>
  {
    if n.Some? then Some(Whole(n.value)) else None
  }

  /** The query wins when it holds a positive integer; otherwise a number in the body. */
  function ReactionReview(r: Request): Option<Num>
  {
    if r.queryPr.Whole? && r.queryPr.value > 0 then Some(r.queryPr) else r.body.prNumber
  }

  function ThreadOf(params: Params): string
  {
    if "threadId" in params then params["threadId"] else ""
  }

  // ----- what the table says

  const SESSION := 0
  const LIST := 1
  const SYNC := 2
  const SNAPSHOT := 3
  const BLOB := 4
  const THREADS := 5
  const REPLY := 6
  const RESOLVE := 7
  const REACTION := 8
  const SUBMIT := 9
  const RECONCILE := 10
  const GET_DRAFT := 11
  const SAVE_DRAFT := 12
  const DISCARD_DRAFT := 13
  const GET_VIEWED := 14
  const SET_VIEWED := 15
  const GET_PREFERENCES := 16
  const SET_PREFERENCES := 17
  const RATE_LIMIT := 18
  const BRANCHES := 19
  const CREATE_LOCAL := 20
  const LIST_LOCAL := 21
  const DELETE_LOCAL := 22

  const COUNT := 23

  function VerbOf(k: nat): Option<Verb>
  {
    if k < |ROUTES| then Some(ROUTES[k].verb) else None
  }

  function PathOf(k: nat): seq<Segment>
  {
    if k < |ROUTES| then ROUTES[k].path else []
  }

  /** The request matches the k-th route, with these parameters. */
  predicate MatchesAs(r: Request, k: nat, params: Params)
  {
    k < COUNT && r.verb == VerbOf(k) && MatchTemplate(PathOf(k), SegmentsOf(r.path)) == Matched(params)
  }

  /** The path of a route without parameters, as written in the table. */
  function Plain(k: nat): string
  {
    var text := FillPath(PathOf(k), map[]);
    if text.Some? then text.value else ""
  }

  predicate EndsWith(s: string, suffix: string)
  {
    |s| >= |suffix| && s[|s| - |suffix|..] == suffix
  }

  /** Answers for the number in the path, or not at all. */
  function OnPull(n: Option<int>, answer: int -> Outcome): Outcome
  {
    if n.None? then BadNumber else answer(n.value)
  }

  function Gated(d: Deployment, write: bool, review: Option<Num>, answer: Outcome): Outcome
  {
    if write && d.ReadsOnly() && !NamesLocalReview(review) then Refused(ReadsOnlyBroker)
    else if !d.github && !NamesLocalReview(review) then Refused(NoGithubRepository)
    else answer
  }

  function ServePull(k: nat, d: Deployment, r: Request, params: Params): Outcome
  {
    var n := PullNumber(d, params);
    if k == SYNC then Gated(d, false, ReviewId(n), OnPull(n, m => Called(SyncPull(m))))
    else if k == SNAPSHOT then Gated(d, false, ReviewId(n), OnPull(n, m => Called(GetSnapshot(m))))
    else if k == SUBMIT then
      Gated(d, true, ReviewId(n), OnPull(n, m =>
        if r.body.submit.None? then Invalid
        else if r.body.submit.value != Whole(m) then Mismatch else Called(SubmitReview(m))))
    else if k == REPLY then
      Gated(d, true, ReviewId(n), OnPull(n, m =>
        if !r.body.reply then Invalid else Called(ReplyToThread(m, ThreadOf(params)))))
    else if k == RESOLVE then
      Gated(d, true, ReviewId(n), OnPull(n, m =>
        if !r.body.resolve then Invalid else Called(ResolveThread(m, ThreadOf(params)))))
    else if k == RECONCILE then OnPull(n, m => Called(ReconcileDraft(m)))
    else if k == DELETE_LOCAL then OnPull(n, m => Called(DeleteLocalReview(m)))
    else NotImplemented
  }

  /** The draft and viewed routes are looked at only when the path ends in their last word. */
  function ServePersonal(k: nat, d: Deployment, r: Request, params: Params): Outcome
  {
    var n := PullNumber(d, params);
    if GET_DRAFT <= k <= DISCARD_DRAFT && EndsWith(r.path, "/draft") then
      OnPull(n, m =>
        if k == GET_DRAFT then Called(GetDraft(m))
        else if k == DISCARD_DRAFT then Called(DiscardDraft(m))
        else if r.body.draft.None? then Invalid
        else if r.body.draft.value != Whole(m) then Mismatch else Called(SaveDraft(m)))
    else if GET_VIEWED <= k <= SET_VIEWED && EndsWith(r.path, "/viewed") then
      OnPull(n, m =>
        if k == GET_VIEWED then Called(GetFileViewed(m))
        else if !r.body.viewed then Invalid else Called(SetFileViewed(m)))
    else NotImplemented
  }

  function ServeReaction(d: Deployment, r: Request, params: Params): Outcome
  {
    var review := ReactionReview(r);
    var id := if "id" in params then d.numeric(params["id"]) else NotWhole;
    Gated(d, true, review,
      if id.NotWhole? || id.value <= 0 then BadNumber
      else if review.None? then BadNumber
      else if !r.body.reaction then Invalid
      else Called(AddReaction(review.value, id.value)))
  }

  function ServePlain(k: nat, d: Deployment, r: Request): Outcome
  {
    if k == RATE_LIMIT then
      if d.github then Called(GetRateLimit) else Refused(NoGithubRepository)
    else if r.path != Plain(k) then NotImplemented
    else if k == SESSION then Session
    else if k == LIST then if d.pullList then Called(ListPulls) else NotImplemented
    else if k == GET_PREFERENCES then Called(GetPreferences)
    else if k == SET_PREFERENCES then if r.body.preferences then Called(SetPreferences) else Invalid
    else if k == BRANCHES then Called(ListBranches)
    else if k == LIST_LOCAL then Called(ListLocalReviews)
    else if k == CREATE_LOCAL then if r.body.create then Called(CreateLocalReview) else Invalid
    else NotImplemented
  }

  predicate IsPlain(k: nat)
  {
    k == SESSION || k == LIST || GET_PREFERENCES <= k <= LIST_LOCAL
  }

  /** What a request that matches the k-th route of the table is to be answered with. */
  function Serve(k: nat, d: Deployment, r: Request, params: Params): Outcome
  {
    if IsPlain(k) then ServePlain(k, d, r)
    else if k == BLOB then
      var sha := if "sha" in params then params["sha"] else "";
      if sha == "" then BadNumber else Called(GetBlob(sha))
    else if k == REACTION then ServeReaction(d, r, params)
    else if GET_DRAFT <= k <= SET_VIEWED then ServePersonal(k, d, r, params)
    else ServePull(k, d, r, params)
  }

  // ----- facts about the table

  lemma TheTable()
    ensures |ROUTES| == COUNT
    ensures forall k :: 0 <= k < COUNT ==> PathOf(k) == ROUTES[k].path && VerbOf(k) == Some(ROUTES[k].verb)
  {
  }

  /** The verb each route answers to. */
  lemma Verbs()
    ensures forall k :: k in {SESSION, LIST, SNAPSHOT, BLOB, THREADS, RECONCILE} ==> VerbOf(k) == Some(GET)
    ensures forall k :: k in {GET_DRAFT, GET_VIEWED, GET_PREFERENCES} ==> VerbOf(k) == Some(GET)
    ensures forall k :: k in {RATE_LIMIT, BRANCHES, LIST_LOCAL} ==> VerbOf(k) == Some(GET)
    ensures forall k :: k in {SYNC, REPLY, RESOLVE, REACTION, SUBMIT, CREATE_LOCAL} ==> VerbOf(k) == Some(POST)
    ensures forall k :: k in {SAVE_DRAFT, SET_VIEWED, SET_PREFERENCES} ==> VerbOf(k) == Some(PUT)
    ensures forall k :: k in {DISCARD_DRAFT, DELETE_LOCAL} ==> VerbOf(k) == Some(DELETE)
  {
  }

  /** The parameters of every route stand at the same places. */
  lemma ParamPlaces(i: nat, k: nat)
    requires i < COUNT && k < |PathOf(i)|
    ensures PathOf(i)[k].Param? <==> k == 2 || k == 4
  {
  }

  lemma {:induction false} MatchedFrom(path: seq<Segment>, segments: seq<string>, i: nat, acc: Params, k: nat)
    requires |path| == |segments| && i <= k < |path| && MatchFrom(path, segments, i, acc).Matched?
    ensures match path[k] case Param(_) => Decode(segments[k]).Some? case Lit(text) => text == segments[k]
    decreases |path| - i
  {
    match path[i]
    case Param(name) => if i < k { MatchedFrom(path, segments, i + 1, acc[name := Decode(segments[i]).value], k); }
    case Lit(_) => if i < k { MatchedFrom(path, segments, i + 1, acc, k); }
  }

  lemma {:induction false} NeverMalformed(path: seq<Segment>, segments: seq<string>, i: nat, acc: Params)
    requires |path| == |segments|
    requires forall k :: i <= k < |path| && path[k].Param? ==> Decode(segments[k]).Some?
    ensures !MatchFrom(path, segments, i, acc).Malformed?
    decreases |path| - i
  {
    if i < |path| {
      match path[i]
      case Param(name) => NeverMalformed(path, segments, i + 1, acc[name := Decode(segments[i]).value]);
      case Lit(_) => NeverMalformed(path, segments, i + 1, acc);
    }
  }

  lemma LastWordsDiffer(i: nat, j: nat)
    requires i < COUNT && j < COUNT && i != j && VerbOf(i) == VerbOf(j) && |PathOf(i)| == |PathOf(j)|
    ensures var last := |PathOf(i)| - 1;
      last >= 0 && PathOf(i)[last].Lit? && PathOf(j)[last].Lit? && PathOf(i)[last].text != PathOf(j)[last].text
  {
    hide PlainPath;
    TheTable();
    TableIsGood();
    assert ApartAtEnd(ROUTES[i], ROUTES[j]);
  }

  lemma NoneMalformed(i: nat, j: nat, segments: seq<string>)
    requires i < COUNT && j < COUNT && MatchTemplate(PathOf(i), segments).Matched?
    ensures !MatchTemplate(PathOf(j), segments).Malformed?
  {
    hide VerbOf, PathOf, MatchFrom, Decode;
    var a, b := PathOf(i), PathOf(j);
    if |a| == |b| {
      forall k | 0 <= k < |b| && b[k].Param?
        ensures Decode(segments[k]).Some?
      {
        ParamPlaces(i, k);
        ParamPlaces(j, k);
        MatchedFrom(a, segments, 0, map[], k);
      }
      NeverMalformed(b, segments, 0, map[]);
    }
  }

  /** A path that one route matches is malformed for none, and no other route of that verb matches it. */
  lemma OneRouteMatches(i: nat, j: nat, segments: seq<string>)
    requires i < COUNT && j < COUNT && MatchTemplate(PathOf(i), segments).Matched?
    ensures !MatchTemplate(PathOf(j), segments).Malformed?
    ensures i != j && VerbOf(i) == VerbOf(j) ==> MatchTemplate(PathOf(j), segments).NoMatch?
  {
    hide VerbOf, PathOf, MatchFrom, Decode;
    NoneMalformed(i, j, segments);
    var a, b := PathOf(i), PathOf(j);
    if i != j && VerbOf(i) == VerbOf(j) && MatchTemplate(b, segments).Matched? {
      LastWordsDiffer(i, j);
      MatchedFrom(a, segments, 0, map[], |a| - 1);
      MatchedFrom(b, segments, 0, map[], |b| - 1);
    }
  }

  // ----- the one route a request matches, if any

  datatype Hit = NoHit | Hit(k: nat, params: Params)

  ghost predicate IsHit(r: Request, hit: Hit)
  {
    match hit
    case NoHit => forall k, params :: !MatchesAs(r, k, params)
    case Hit(k, params) => MatchesAs(r, k, params)
  }

  ghost function Matching(r: Request): (hit: Hit)
    ensures IsHit(r, hit)
  {
    if k: nat, params: Params :| MatchesAs(r, k, params) then Hit(k, params) else NoHit
  }

  lemma HitIsUnique(r: Request, hit: Hit, k: nat, params: Params)
    requires IsHit(r, hit) && MatchesAs(r, k, params)
    ensures hit == Hit(k, params)
  {
    OneRouteMatches(hit.k, k, SegmentsOf(r.path));
  }

  /** What asking one template of the request's verb tells. */
  lemma Look(r: Request, hit: Hit, j: nat)
    requires IsHit(r, hit) && j < COUNT
    ensures var m := MatchTemplate(PathOf(j), SegmentsOf(r.path));
      && (hit.Hit? ==> !m.Malformed?)
      && (r.verb == VerbOf(j) && m.Matched? ==> hit == Hit(j, m.params))
      && (hit.Hit? && hit.k == j ==> m == Matched(hit.params))
  {
    hide MatchTemplate, SegmentsOf;
    var m := MatchTemplate(PathOf(j), SegmentsOf(r.path));
    if hit.Hit? {
      OneRouteMatches(hit.k, j, SegmentsOf(r.path));
    }
    if r.verb == VerbOf(j) && m.Matched? {
      assert MatchesAs(r, j, m.params);
      HitIsUnique(r, hit, j, m.params);
    }
  }

  lemma PlainRoutes(j: nat)
    requires j < COUNT && IsPlain(j)
    ensures Fillable(PathOf(j), map[])
  {
  }

  lemma LookPlain(r: Request, hit: Hit, j: nat)
    requires IsHit(r, hit) && j < COUNT && IsPlain(j)
    requires r.verb == VerbOf(j) && r.path == Plain(j)
    ensures hit.Hit? && hit.k == j
  {
    hide MatchTemplate, SegmentsOf, FillPath, GoodTable;
    TableIsGood();
    PlainRoutes(j);
    TemplateRoundTrip(ROUTES, j, j, map[]);
    Look(r, hit, j);
  }

  lemma StateRoutes(k: nat)
    requires k < COUNT && |PathOf(k)| == 4
    ensures PathOf(k)[3].Lit?
    ensures PathOf(k)[3].text == "draft" <==> GET_DRAFT <= k <= DISCARD_DRAFT
    ensures PathOf(k)[3].text == "viewed" <==> GET_VIEWED <= k <= SET_VIEWED
    ensures GET_DRAFT <= k <= DISCARD_DRAFT ==> PathOf(k) == PathOf(GET_DRAFT)
    ensures GET_VIEWED <= k <= SET_VIEWED ==> PathOf(k) == PathOf(GET_VIEWED)
  {
  }

  /** The draft and viewed templates are asked whatever the verb. */
  lemma LookState(r: Request, hit: Hit, first: nat, last: nat)
    requires COUNT == 23 && IsHit(r, hit)
    requires (first == GET_DRAFT && last == DISCARD_DRAFT) || (first == GET_VIEWED && last == SET_VIEWED)
    ensures var m := MatchTemplate(PathOf(first), SegmentsOf(r.path));
      && (hit.Hit? ==> m == if first <= hit.k <= last then Matched(hit.params) else NoMatch)
      && (m.Matched? ==> forall k :: first <= k <= last && r.verb == VerbOf(k) ==> hit == Hit(k, m.params))
  {
    hide SegmentsOf, MatchFrom;
    var segments := SegmentsOf(r.path);
    var m := MatchTemplate(PathOf(first), segments);
    StateRoutes(first);
    if m.Matched? {
      MatchedFrom(PathOf(first), segments, 0, map[], 3);
      forall k | first <= k <= last && r.verb == VerbOf(k)
        ensures hit == Hit(k, m.params)
      {
        StateRoutes(k);
        Look(r, hit, k);
      }
    }
    if hit.Hit? {
      Look(r, hit, first);
      if first <= hit.k <= last {
        StateRoutes(hit.k);
      } else if m.Matched? {
        StateRoutes(hit.k);
        MatchedFrom(PathOf(hit.k), segments, 0, map[], 3);
      }
    }
  }

  // ----- the chain

  const READS_ONLY_GATED: seq<nat> := [SUBMIT, REPLY, RESOLVE]
  const GITHUB_ONLY: seq<nat> := [SYNC, SNAPSHOT, SUBMIT, REPLY, RESOLVE]

  predicate IsApi(path: string)
  {
    path == "/api" || (|path| >= 5 && path[..5] == "/api/")
  }

  function CallsOf(o: Option<Outcome>): seq<Call>
  {
    if o.Some? && o.value.Called? then [o.value.call] else []
  }

  /** A stretch of the chain answers its own routes as the table says and lets everything else through. */
  ghost predicate AnswersOnly(own: set<nat>, d: Deployment, r: Request, hit: Hit, o: Option<Outcome>)
    requires IsHit(r, hit)
  {
    match hit
    case NoHit => o.None? || o == Some(Failed) || o == Some(BadNumber)
    case Hit(k, params) =>
      var due := Serve(k, d, r, params);
      o == if k in own && !due.NotImplemented? then Some(due) else None
  }

  ghost predicate Passed(d: Deployment, r: Request, hit: Hit)
    requires IsHit(r, hit)
  {
    hit.Hit? && hit.k != REACTION ==> !Serve(hit.k, d, r, hit.params).Refused?
  }

  function ReviewIn(d: Deployment, params: Params): PathReview
  {
    var n := PullNumber(d, params);
    if n.None? then BadId else Review(n.value, params)
  }

  /** What a handler finds in the path: another route, a bad escape, no positive number, or its review. */
  datatype PathReview = Elsewhere | Broken | BadId | Review(n: int, params: Params)

  class Surface {
    var calls: seq<Call>

    method Do(call: Call) returns (o: Option<Outcome>)
      modifies this
      ensures o == Some(Called(call)) && calls == old(calls) + CallsOf(o)
    {
      calls := calls + [call];
      return Some(Called(call));
    }

    /** Asks one template of the request's own verb. */
    method Ask(k: nat, r: Request, ghost hit: Hit) returns (m: Match)
      requires IsHit(r, hit) && k < COUNT && r.verb == VerbOf(k)
      ensures hit.Hit? ==> m == if hit.k == k then Matched(hit.params) else NoMatch
      ensures hit.NoHit? ==> !m.Matched?
    {
      hide VerbOf, PathOf, MatchTemplate, IsHit;
      Look(r, hit, k);
      m := MatchPath(PathOf(k), r.path);
    }

    method AskReview(k: nat, r: Request, d: Deployment, ghost hit: Hit) returns (p: PathReview)
      requires IsHit(r, hit) && k < COUNT && r.verb == VerbOf(k)
      ensures hit.Hit? ==> p == if hit.k == k then ReviewIn(d, hit.params) else Elsewhere
      ensures hit.NoHit? ==> p == Elsewhere || p == Broken
    {
      var m := Ask(k, r, hit);
      match m
      case NoMatch => return Elsewhere;
      case Malformed => return Broken;
      case Matched(params) => return ReviewIn(d, params);
    }

    /** Refuses on any of the listed routes whose path names no local review. */
    method Gate(routes: seq<nat>, why: Refusal, r: Request, d: Deployment, ghost hit: Hit) returns (o: Option<Outcome>)
      requires IsHit(r, hit) && forall i :: 0 <= i < |routes| ==> routes[i] < COUNT
      ensures hit.NoHit? ==> o.None? || o == Some(Failed)
      ensures hit.Hit? ==>
        var refused := hit.k in routes && !NamesLocalReview(ReviewId(PullNumber(d, hit.params)));
        o == if refused then Some(Refused(why)) else None
    {
      hide VerbOf, PathOf, MatchesAs, NamesLocalReview, IsHit, PullNumber, MatchTemplate;
      for i := 0 to |routes|
        invariant hit.Hit? ==> !(hit.k in routes[..i] && !NamesLocalReview(ReviewId(PullNumber(d, hit.params))))
      {
        var k := routes[i];
        assert routes[..i + 1] == routes[..i] + [k];
        if r.verb == VerbOf(k) {
          Look(r, hit, k);
          var m := MatchPath(PathOf(k), r.path);
          if m.Malformed? {
            return Some(Failed);
          }
          if m.Matched? && !NamesLocalReview(ReviewId(PullNumber(d, m.params))) {
            return Some(Refused(why));
          }
        } else {
          OfItsVerb(r, hit);
        }
      }
      assert routes[..|routes|] == routes;
      return None;
    }

    /** The two gates that come before any handler. */
    method Gates(r: Request, d: Deployment, ghost hit: Hit) returns (o: Option<Outcome>)
      requires IsHit(r, hit)
      ensures hit.NoHit? ==> o.None? || o == Some(Failed)
      ensures hit.Hit? ==>
        var due := Serve(hit.k, d, r, hit.params);
        o == if due.Refused? && hit.k != REACTION then Some(due) else None
    {
      hide VerbOf, PathOf, MatchTemplate, NamesLocalReview, PullNumber, Plain, IsHit;
      Verbs();
      o := None;
      OfItsVerb(r, hit);
      GatedRoutes(d, r, hit);
      if d.ReadsOnly() {
        o := Gate(READS_ONLY_GATED, ReadsOnlyBroker, r, d, hit);
        if o.Some? {
          return;
        }
      }
      if !d.github {
        if r.verb == Some(GET) {
          Look(r, hit, RATE_LIMIT);
          var m := MatchPath(PathOf(RATE_LIMIT), r.path);
          if m.Malformed? {
            return Some(Failed);
          }
          if m.Matched? {
            return Some(Refused(NoGithubRepository));
          }
        }
        o := Gate(GITHUB_ONLY, NoGithubRepository, r, d, hit);
      }
    }

    method ServeReads(r: Request, d: Deployment, ghost hit: Hit) returns (o: Option<Outcome>)
      requires IsHit(r, hit) && Passed(d, r, hit)
      modifies this
      ensures AnswersOnly({LIST, SYNC, RATE_LIMIT, SNAPSHOT, RECONCILE, BLOB}, d, r, hit, o)
      ensures calls == old(calls) + CallsOf(o)
    {
      hide VerbOf, PathOf, MatchTemplate, PullNumber, Plain, NamesLocalReview, IsHit;
      Verbs();
      OfItsVerb(r, hit);
      if d.pullList && r.verb == Some(GET) && r.path == Plain(LIST) {
        LookPlain(r, hit, LIST);
        o := Do(ListPulls);
        return;
      }
      if r.verb == Some(POST) {
        var p := AskReview(SYNC, r, d, hit);
        match p
        case Elsewhere => return None;
        case Broken => return Some(Failed);
        case BadId => return Some(BadNumber);
        case Review(n, _) =>
          o := Do(SyncPull(n));
          return;
      }
      if r.verb == Some(GET) {
        o := ServeLimits(r, d, hit);
        if o.None? {
          o := ServeStored(r, d, hit);
        }
        return;
      }
      return None;
    }

    method ServeLimits(r: Request, d: Deployment, ghost hit: Hit) returns (o: Option<Outcome>)
      requires IsHit(r, hit) && Passed(d, r, hit) && r.verb == Some(GET)
      modifies this
      ensures AnswersOnly({RATE_LIMIT, SNAPSHOT}, d, r, hit, o)
      ensures calls == old(calls) + CallsOf(o)
    {
      hide VerbOf, PathOf, MatchTemplate, PullNumber, Plain, NamesLocalReview, IsHit;
      Verbs();
      OfItsVerb(r, hit);
      var m := Ask(RATE_LIMIT, r, hit);
      if m.Malformed? {
        return Some(Failed);
      }
      if m.Matched? {
        o := Do(GetRateLimit);
        return;
      }
      var p := AskReview(SNAPSHOT, r, d, hit);
      match p
      case Elsewhere => return None;
      case Broken => return Some(Failed);
      case BadId => return Some(BadNumber);
      case Review(n, _) => o := Do(GetSnapshot(n));
    }

    method ServeStored(r: Request, d: Deployment, ghost hit: Hit) returns (o: Option<Outcome>)
      requires IsHit(r, hit) && r.verb == Some(GET)
      modifies this
      ensures AnswersOnly({RECONCILE, BLOB}, d, r, hit, o)
      ensures calls == old(calls) + CallsOf(o)
    {
      hide VerbOf, PathOf, MatchTemplate, PullNumber, Plain, NamesLocalReview, IsHit;
      Verbs();
      OfItsVerb(r, hit);
      var p := AskReview(RECONCILE, r, d, hit);
      match p {
        case Elsewhere =>
        case Broken => return Some(Failed);
        case BadId => return Some(BadNumber);
        case Review(n, _) =>
          o := Do(ReconcileDraft(n));
          return;
      }
      var m := Ask(BLOB, r, hit);
      match m
      case NoMatch => return None;
      case Malformed => return Some(Failed);
      case Matched(params) =>
        var sha := if "sha" in params then params["sha"] else "";
        if |sha| == 0 {
          return Some(BadNumber);
        }
        o := Do(GetBlob(sha));
    }

    method ServeDrafts(r: Request, d: Deployment, ghost hit: Hit) returns (o: Option<Outcome>)
      requires IsHit(r, hit)
      modifies this
      ensures AnswersOnly({GET_DRAFT, SAVE_DRAFT, DISCARD_DRAFT}, d, r, hit, o)
      ensures calls == old(calls) + CallsOf(o)
    {
      hide VerbOf, PathOf, MatchTemplate, PullNumber, Plain, NamesLocalReview, IsHit, EndsWith;
      Verbs();
      OfItsVerb(r, hit);
      if !EndsWith(r.path, "/draft") {
        return None;
      }
      LookState(r, hit, GET_DRAFT, DISCARD_DRAFT);
      assert VerbOf(GET_DRAFT) == Some(GET) && VerbOf(SAVE_DRAFT) == Some(PUT) && VerbOf(DISCARD_DRAFT) == Some(DELETE);
      var m := MatchPath(PathOf(GET_DRAFT), r.path);
      if m.Malformed? {
        return Some(Failed);
      }
      if m.Matched? {
        var n := PullNumber(d, m.params);
        if n.None? {
          return Some(BadNumber);
        }
        if r.verb == Some(GET) {
          o := Do(GetDraft(n.value));
          return;
        }
        if r.verb == Some(PUT) {
          if r.body.draft.None? {
            return Some(Invalid);
          }
          if r.body.draft.value != Whole(n.value) {
            return Some(Mismatch);
          }
          o := Do(SaveDraft(n.value));
          return;
        }
        if r.verb == Some(DELETE) {
          o := Do(DiscardDraft(n.value));
          return;
        }
      }
      return None;
    }

    method ServeViewed(r: Request, d: Deployment, ghost hit: Hit) returns (o: Option<Outcome>)
      requires IsHit(r, hit)
      modifies this
      ensures AnswersOnly({GET_VIEWED, SET_VIEWED}, d, r, hit, o)
      ensures calls == old(calls) + CallsOf(o)
    {
      hide VerbOf, PathOf, MatchTemplate, PullNumber, Plain, NamesLocalReview, IsHit, EndsWith;
      Verbs();
      OfItsVerb(r, hit);
      if !EndsWith(r.path, "/viewed") {
        return None;
      }
      LookState(r, hit, GET_VIEWED, SET_VIEWED);
      assert VerbOf(GET_VIEWED) == Some(GET) && VerbOf(SET_VIEWED) == Some(PUT);
      var m := MatchPath(PathOf(GET_VIEWED), r.path);
      if m.Malformed? {
        return Some(Failed);
      }
      if m.Matched? {
        var n := PullNumber(d, m.params);
        if n.None? {
          return Some(BadNumber);
        }
        if r.verb == Some(GET) {
          o := Do(GetFileViewed(n.value));
          return;
        }
        if r.verb == Some(PUT) {
          if !r.body.viewed {
            return Some(Invalid);
          }
          o := Do(SetFileViewed(n.value));
          return;
        }
      }
      return None;
    }

    method ServePreferences(r: Request, d: Deployment, ghost hit: Hit) returns (o: Option<Outcome>)
      requires IsHit(r, hit)
      modifies this
      ensures AnswersOnly({GET_PREFERENCES, SET_PREFERENCES}, d, r, hit, o)
      ensures calls == old(calls) + CallsOf(o)
    {
      hide VerbOf, PathOf, MatchTemplate, NamesLocalReview, IsHit;
      Verbs();
      OfItsVerb(r, hit);
      PreferencesPath();
      if r.path == Plain(GET_PREFERENCES) {
        if r.verb == Some(GET) {
          LookPlain(r, hit, GET_PREFERENCES);
          o := Do(GetPreferences);
          return;
        }
        if r.verb == Some(PUT) {
          LookPlain(r, hit, SET_PREFERENCES);
          if !r.body.preferences {
            return Some(Invalid);
          }
          o := Do(SetPreferences);
          return;
        }
      }
      return None;
    }

    method ServeLocals(r: Request, d: Deployment, ghost hit: Hit) returns (o: Option<Outcome>)
      requires IsHit(r, hit)
      modifies this
      ensures AnswersOnly({BRANCHES, LIST_LOCAL, CREATE_LOCAL, DELETE_LOCAL}, d, r, hit, o)
      ensures calls == old(calls) + CallsOf(o)
    {
      hide VerbOf, PathOf, MatchTemplate, PullNumber, Plain, NamesLocalReview, IsHit;
      Verbs();
      OfItsVerb(r, hit);
      if r.verb == Some(GET) && r.path == Plain(BRANCHES) {
        LookPlain(r, hit, BRANCHES);
        o := Do(ListBranches);
        return;
      }
      if r.verb == Some(GET) && r.path == Plain(LIST_LOCAL) {
        LookPlain(r, hit, LIST_LOCAL);
        o := Do(ListLocalReviews);
        return;
      }
      if r.verb == Some(POST) && r.path == Plain(CREATE_LOCAL) {
        LookPlain(r, hit, CREATE_LOCAL);
        if !r.body.create {
          return Some(Invalid);
        }
        o := Do(CreateLocalReview);
        return;
      }
      if r.verb == Some(DELETE) {
        var p := AskReview(DELETE_LOCAL, r, d, hit);
        match p
        case Elsewhere => return None;
        case Broken => return Some(Failed);
        case BadId => return Some(BadNumber);
        case Review(n, _) =>
          o := Do(DeleteLocalReview(n));
          return;
      }
      return None;
    }

    method ServeWrites(r: Request, d: Deployment, ghost hit: Hit) returns (o: Option<Outcome>)
      requires IsHit(r, hit) && Passed(d, r, hit)
      modifies this
      ensures AnswersOnly({SUBMIT, REPLY, RESOLVE}, d, r, hit, o)
      ensures calls == old(calls) + CallsOf(o)
    {
      hide VerbOf, PathOf, MatchTemplate, PullNumber, Plain, NamesLocalReview, IsHit;
      Verbs();
      OfItsVerb(r, hit);
      if r.verb != Some(POST) {
        return None;
      }
      var p := AskReview(SUBMIT, r, d, hit);
      match p {
        case Elsewhere =>
        case Broken => return Some(Failed);
        case BadId => return Some(BadNumber);
        case Review(n, _) =>
          if r.body.submit.None? {
            return Some(Invalid);
          }
          if r.body.submit.value != Whole(n) {
            return Some(Mismatch);
          }
          o := Do(SubmitReview(n));
          return;
      }
      o := ServeThreads(r, d, hit);
    }

    method ServeThreads(r: Request, d: Deployment, ghost hit: Hit) returns (o: Option<Outcome>)
      requires IsHit(r, hit) && Passed(d, r, hit) && r.verb == Some(POST)
      modifies this
      ensures AnswersOnly({REPLY, RESOLVE}, d, r, hit, o)
      ensures calls == old(calls) + CallsOf(o)
    {
      hide VerbOf, PathOf, MatchTemplate, PullNumber, Plain, NamesLocalReview, IsHit;
      Verbs();
      OfItsVerb(r, hit);
      var p := AskReview(REPLY, r, d, hit);
      match p {
        case Elsewhere =>
        case Broken => return Some(Failed);
        case BadId => return Some(BadNumber);
        case Review(n, params) =>
          if !r.body.reply {
            return Some(Invalid);
          }
          o := Do(ReplyToThread(n, ThreadOf(params)));
          return;
      }
      p := AskReview(RESOLVE, r, d, hit);
      match p
      case Elsewhere => return None;
      case Broken => return Some(Failed);
      case BadId => return Some(BadNumber);
      case Review(n, params) =>
        if !r.body.resolve {
          return Some(Invalid);
        }
        o := Do(ResolveThread(n, ThreadOf(params)));
    }

    /** The review is resolved once; both gates and the call use that one value. */
    method ServeReactions(r: Request, d: Deployment, ghost hit: Hit) returns (o: Option<Outcome>)
      requires IsHit(r, hit)
      modifies this
      ensures AnswersOnly({REACTION}, d, r, hit, o)
      ensures calls == old(calls) + CallsOf(o)
    {
      hide VerbOf, PathOf, MatchTemplate, NamesLocalReview, IsHit, ReactionReview;
      Verbs();
      OfItsVerb(r, hit);
      if r.verb != Some(POST) {
        return None;
      }
      var m := Ask(REACTION, r, hit);
      if m.Malformed? {
        return Some(Failed);
      }
      if m.NoMatch? {
        return None;
      }
      var review := ReactionReview(r);
      if d.ReadsOnly() && !NamesLocalReview(review) {
        return Some(Refused(ReadsOnlyBroker));
      }
      if !d.github && !NamesLocalReview(review) {
        return Some(Refused(NoGithubRepository));
      }
      var comment := if "id" in m.params then d.numeric(m.params["id"]) else NotWhole;
      if comment.NotWhole? || comment.value <= 0 {
        return Some(BadNumber);
      }
      if review.None? {
        return Some(BadNumber);
      }
      if !r.body.reaction {
        return Some(Invalid);
      }
      o := Do(AddReaction(review.value, comment.value));
    }

    method ServeState(r: Request, d: Deployment, ghost hit: Hit) returns (o: Option<Outcome>)
      requires IsHit(r, hit) && Passed(d, r, hit)
      modifies this
      ensures AnswersOnly({LIST, SYNC, RATE_LIMIT, SNAPSHOT, RECONCILE, BLOB, GET_DRAFT, SAVE_DRAFT, DISCARD_DRAFT,
                           GET_VIEWED, SET_VIEWED}, d, r, hit, o)
      ensures calls == old(calls) + CallsOf(o)
    {
      hide Serve, MatchesAs, IsHit;
      o := ServeReads(r, d, hit);
      if o.None? {
        o := ServeDrafts(r, d, hit);
      }
      if o.None? {
        o := ServeViewed(r, d, hit);
      }
    }

    method ServeRest(r: Request, d: Deployment, ghost hit: Hit) returns (o: Option<Outcome>)
      requires IsHit(r, hit) && Passed(d, r, hit)
      modifies this
      ensures AnswersOnly({GET_PREFERENCES, SET_PREFERENCES, BRANCHES, LIST_LOCAL, CREATE_LOCAL, DELETE_LOCAL, SUBMIT,
                           REPLY, RESOLVE, REACTION}, d, r, hit, o)
      ensures calls == old(calls) + CallsOf(o)
    {
      hide Serve, MatchesAs, IsHit;
      o := ServePreferences(r, d, hit);
      if o.None? {
        o := ServeLocals(r, d, hit);
      }
      if o.None? {
        o := ServeWrites(r, d, hit);
      }
      if o.None? {
        o := ServeReactions(r, d, hit);
      }
    }

    /** Whether some route of this verb has the path's shape, parameters unread. */
    method IsKnownApiPath(verb: Option<Verb>, path: string) returns (known: bool)
      ensures known <==> exists k :: 0 <= k < COUNT && verb == VerbOf(k) && LiteralsFit(PathOf(k), SegmentsOf(path))
    {
      hide VerbOf, PathOf, SegmentsOf;
      var segments := SegmentsOf(path);
      for k := 0 to COUNT
        invariant forall j :: 0 <= j < k ==> !(verb == VerbOf(j) && LiteralsFit(PathOf(j), segments))
      {
        var template := PathOf(k);
        if verb != VerbOf(k) || |template| != |segments| {
          continue;
        }
        var ok, i := true, 0;
        while i < |template| && ok
          invariant 0 <= i <= |template|
          invariant ok ==> forall j :: 0 <= j < i && template[j].Lit? ==> template[j].text == segments[j]
          invariant !ok ==> !LiteralsFit(template, segments)
        {
          if template[i].Lit? && template[i].text != segments[i] {
            ok := false;
          }
          i := i + 1;
        }
        if ok {
          return true;
        }
      }
      return false;
    }

    /** What is left: a known path that is not served, or no route at all. */
    method Unserved(r: Request, ghost hit: Hit) returns (o: Outcome)
      requires IsHit(r, hit)
      ensures hit.Hit? ==> o == NotImplemented
      ensures o == NotImplemented || o == NotFound || o == Failed
    {
      hide VerbOf, PathOf, MatchTemplate;
      Verbs();
      var known := IsKnownApiPath(r.verb, r.path);
      if hit.Hit? {
        HitIsKnown(r, hit);
      }
      if !known {
        return NotFound;
      }
      Look(r, hit, THREADS);
      var m := MatchPath(PathOf(THREADS), r.path);
      return if m.Malformed? then Failed else NotImplemented;
    }

    /**
     * The whole chain: a request that matches a route of the table gets exactly what is due for that route,
     * any other request reaches no method of the surface, and at most one method is called.
     */
    method HandleDirectApi(r: Request, d: Deployment) returns (o: Outcome)
      modifies this
      ensures !IsApi(r.path) ==> o == NotApi
      ensures IsApi(r.path) ==> forall k, params :: MatchesAs(r, k, params) ==> o == Serve(k, d, r, params)
      ensures !(exists k, params :: MatchesAs(r, k, params)) ==> !o.Called? && !o.Refused? && !o.Session?
      ensures calls == old(calls) + CallsOf(Some(o))
      ensures o.Called? ==> Permitted(d, o.call)
      ensures o.Called? ==> exists k, params ::
        MatchesAs(r, k, params) && CallName(o.call) == NameOf(k) && BodyAgrees(k, NumberInPath(d, r), r.body)
      ensures o.Called? ==> ArgumentsFrom(d, SegmentsOf(r.path), o.call)
      ensures o.Called? && ReviewOf(o.call).Some? ==> ReviewOf(o.call) == ReviewNamed(d, r, o.call.AddReaction?)
    {
      hide VerbOf, PathOf, MatchesAs, Serve, Plain, Permitted, ReviewOf, ReviewNamed, NameOf, CallName, BodyAgrees,
           ArgumentsFrom, NumberInPath, SegmentsOf;
      if !IsApi(r.path) {
        return NotApi;
      }
      Verbs();
      ghost var hit := Matching(r);
      o := Chain(r, d, hit);
      forall k, params | MatchesAs(r, k, params)
        ensures hit == Hit(k, params)
      {
        HitIsUnique(r, hit, k, params);
      }
      if o.Called? {
        OnlyPermittedCalls(hit.k, d, r, hit.params);
        ActsOnTheReviewNamed(hit.k, d, r, hit.params);
        CallsByName(hit.k, d, r, hit.params);
        CallsWithSegments(hit.k, d, r, hit.params);
        NotTheSessionCall(hit.k, d, r, hit.params);
        CallDueIff(hit.k, d, r, hit.params);
      }
    }

    method Chain(r: Request, d: Deployment, ghost hit: Hit) returns (o: Outcome)
      requires IsHit(r, hit)
      modifies this
      ensures match hit
              case NoHit => !o.Called? && !o.Refused? && !o.Session?
              case Hit(k, params) => o == Serve(k, d, r, params)
      ensures calls == old(calls) + CallsOf(Some(o))
    {
      hide VerbOf, PathOf, MatchesAs, Serve, Plain, IsHit;
      Verbs();
      OfItsVerb(r, hit);
      if r.verb == Some(GET) && r.path == Plain(SESSION) {
        LookPlain(r, hit, SESSION);
        ServesSession(d, r, hit);
        return Session;
      }
      NotTheSession(d, r, hit);
      var answer := Gates(r, d, hit);
      if answer.Some? {
        return answer.value;
      }
      answer := ServeState(r, d, hit);
      if answer.None? {
        answer := ServeRest(r, d, hit);
      }
      if answer.Some? {
        return answer.value;
      }
      o := Unserved(r, hit);
    }
  }

  predicate LiteralsFit(path: seq<Segment>, segments: seq<string>)
  {
    |path| == |segments| && forall i :: 0 <= i < |path| && path[i].Lit? ==> path[i].text == segments[i]
  }

  lemma HitIsKnown(r: Request, hit: Hit)
    requires IsHit(r, hit) && hit.Hit?
    ensures hit.k < COUNT && r.verb == VerbOf(hit.k) && LiteralsFit(PathOf(hit.k), SegmentsOf(r.path))
  {
    var path := PathOf(hit.k);
    forall i | 0 <= i < |path| && path[i].Lit?
      ensures path[i].text == SegmentsOf(r.path)[i]
    {
      MatchedFrom(path, SegmentsOf(r.path), 0, map[], i);
    }
  }

  lemma PreferencesPath()
    ensures COUNT == 23 && Plain(SET_PREFERENCES) == Plain(GET_PREFERENCES)
  {
    assert PathOf(SET_PREFERENCES) == PathOf(GET_PREFERENCES);
  }

  lemma GatedRoutes(d: Deployment, r: Request, hit: Hit)
    requires IsHit(r, hit)
    ensures hit.Hit? ==> hit.k < COUNT
    ensures hit.Hit? ==>
      var due := Serve(hit.k, d, r, hit.params);
      var local := NamesLocalReview(ReviewId(PullNumber(d, hit.params)));
      hit.k != REACTION ==>
        if hit.k in READS_ONLY_GATED && d.ReadsOnly() && !local then due == Refused(ReadsOnlyBroker)
        else if !d.github && (hit.k == RATE_LIMIT || (hit.k in GITHUB_ONLY && !local))
        then due == Refused(NoGithubRepository)
        else !due.Refused?
  {
    hide VerbOf, PathOf, MatchTemplate, NamesLocalReview, PullNumber, Plain;
  }

  lemma ServesSession(d: Deployment, r: Request, hit: Hit)
    requires IsHit(r, hit) && hit.Hit? && hit.k == SESSION && hit.k < COUNT && r.path == Plain(SESSION)
    ensures Serve(hit.k, d, r, hit.params) == Session
  {
  }

  lemma NotTheSession(d: Deployment, r: Request, hit: Hit)
    requires IsHit(r, hit) && COUNT == 23 && !(r.verb == Some(GET) && r.path == Plain(SESSION))
    ensures hit.Hit? ==> hit.k < COUNT
    ensures hit.Hit? && (hit.k == SESSION || hit.k == THREADS) ==> Serve(hit.k, d, r, hit.params) == NotImplemented
  {
  }

  lemma OfItsVerb(r: Request, hit: Hit)
    requires IsHit(r, hit)
    ensures hit.Hit? ==> hit.k < COUNT && r.verb == VerbOf(hit.k)
  {
  }

  // ----- what the gates guarantee

  predicate IsWrite(c: Call)
  {
    c.SubmitReview? || c.ReplyToThread? || c.ResolveThread? || c.AddReaction?
  }

  predicate NeedsGithub(c: Call)
  {
    IsWrite(c) || c.SyncPull? || c.GetSnapshot? || c.GetRateLimit?
  }

  /** The review a call acts on, for the calls that act on one. */
  function ReviewOf(c: Call): Option<Num>
  {
    match c
    case SyncPull(n) => Some(Whole(n))
    case GetSnapshot(n) => Some(Whole(n))
    case ReconcileDraft(n) => Some(Whole(n))
    case GetDraft(n) => Some(Whole(n))
    case SaveDraft(n) => Some(Whole(n))
    case DiscardDraft(n) => Some(Whole(n))
    case GetFileViewed(n) => Some(Whole(n))
    case SetFileViewed(n) => Some(Whole(n))
    case DeleteLocalReview(n) => Some(Whole(n))
    case SubmitReview(n) => Some(Whole(n))
    case ReplyToThread(n, _) => Some(Whole(n))
    case ResolveThread(n, _) => Some(Whole(n))
    case AddReaction(review, _) => Some(review)
    case _ => None
  }

  /** The positive integer in the third segment of a path, if that is what stands there. */
  function NumberInPath(d: Deployment, r: Request): Option<int>
  {
    var segments := SegmentsOf(r.path);
    if |segments| <= 2 || Decode(segments[2]).None? then None else
      match d.numeric(Decode(segments[2]).value)
      case Whole(n) => if n > 0 then Some(n) else None
      case NotWhole => None
  }

  /** The review a reaction names: the query's, if it is a positive integer, else the number in the body. */
  function ReactionNames(r: Request): Option<Num>
  {
    match r.queryPr
    case Whole(n) => if n > 0 then Some(Whole(n)) else r.body.prNumber
    case NotWhole => r.body.prNumber
  }

  /** The review a request to this route names. */
  function ReviewNamed(d: Deployment, r: Request, reaction: bool): Option<Num>
  {
    if reaction then ReactionNames(r)
    else match NumberInPath(d, r) case Some(n) => Some(Whole(n)) case None => None
  }

  /** An integer in the band of local reviews. */
  predicate InLocalBand(review: Option<Num>)
  {
    match review case Some(Whole(n)) => n >= 1_000_000_000 case _ => false
  }

  /** The deployments and reviews for which a call may be made. */
  predicate Permitted(d: Deployment, c: Call)
  {
    && (d.broker && !d.brokerWrites && IsWrite(c) ==> InLocalBand(ReviewOf(c)))
    && (!d.github && NeedsGithub(c) ==> InLocalBand(ReviewOf(c)))
  }

  /** A reads-only broker writes to local reviews only; without a repository nothing asks GitHub. */
  lemma OnlyPermittedCalls(k: nat, d: Deployment, r: Request, params: Params)
    requires Serve(k, d, r, params).Called?
    ensures Permitted(d, Serve(k, d, r, params).call)
  {
    hide Plain, ReactionReview, EndsWith;
  }

  /** And a request is refused only when the call it asks for is not permitted. */
  lemma RefusedOnlyWhenNeeded(k: nat, d: Deployment, r: Request, params: Params)
    requires Serve(k, d, r, params).Refused?
    ensures match Serve(k, d, r, params).why
      case ReadsOnlyBroker => d.ReadsOnly() && k in {SUBMIT, REPLY, RESOLVE, REACTION}
      case NoGithubRepository => !d.github && k in {SUBMIT, REPLY, RESOLVE, REACTION, SYNC, SNAPSHOT, RATE_LIMIT}
    ensures k != RATE_LIMIT ==>
      !NamesLocalReview(if k == REACTION then ReactionReview(r) else ReviewId(PullNumber(d, params)))
  {
    hide Plain, ReactionReview, EndsWith, NamesLocalReview, PullNumber;
  }

  lemma {:induction false} CapturedFrom(path: seq<Segment>, segments: seq<string>, i: nat, acc: Params, k: nat)
    requires |path| == |segments| && i <= |path| && k < |path| && MatchFrom(path, segments, i, acc).Matched?
    requires path[k].Param? && (forall j :: 0 <= j < |path| && j != k ==> path[j] != path[k])
    requires i > k ==> path[k].name in acc && Decode(segments[k]) == Some(acc[path[k].name])
    ensures var params := MatchFrom(path, segments, i, acc).params;
      path[k].name in params && Decode(segments[k]) == Some(params[path[k].name])
    decreases |path| - i
  {
    if i < |path| {
      match path[i]
      case Param(name) => CapturedFrom(path, segments, i + 1, acc[name := Decode(segments[i]).value], k);
      case Lit(_) => CapturedFrom(path, segments, i + 1, acc, k);
    }
  }

  lemma NumberedRoutes(k: nat)
    requires k < COUNT && !IsPlain(k) && k != BLOB && k != REACTION
    ensures |PathOf(k)| > 2 && PathOf(k)[2] == Param("n")
    ensures forall j :: 0 <= j < |PathOf(k)| && j != 2 ==> PathOf(k)[j] != PathOf(k)[2]
  {
  }

  /** What stands at a parameter's place in the path is what the handler reads. */
  lemma Captured(k: nat, r: Request, params: Params, place: nat)
    requires MatchesAs(r, k, params) && place < |PathOf(k)| && PathOf(k)[place].Param?
    requires forall j :: 0 <= j < |PathOf(k)| && j != place ==> PathOf(k)[j] != PathOf(k)[place]
    ensures place < |SegmentsOf(r.path)| && PathOf(k)[place].name in params
    ensures Decode(SegmentsOf(r.path)[place]) == Some(params[PathOf(k)[place].name])
  {
    hide VerbOf, PathOf, SegmentsOf;
    CapturedFrom(PathOf(k), SegmentsOf(r.path), 0, map[], place);
  }

  lemma NumberCaptured(k: nat, d: Deployment, r: Request, params: Params)
    requires MatchesAs(r, k, params) && !IsPlain(k) && k != BLOB && k != REACTION
    ensures PullNumber(d, params) == NumberInPath(d, r)
  {
    hide VerbOf, PathOf, SegmentsOf, MatchTemplate;
    NumberedRoutes(k);
    Captured(k, r, params, 2);
  }

  /** The review acted on is the one the request names. */
  lemma ActsOnTheReviewNamed(k: nat, d: Deployment, r: Request, params: Params)
    requires MatchesAs(r, k, params) && Serve(k, d, r, params).Called?
    ensures var c := Serve(k, d, r, params).call;
      ReviewOf(c).Some? ==> ReviewOf(c) == ReviewNamed(d, r, c.AddReaction?)
  {
    hide Plain, EndsWith, VerbOf, PathOf, SegmentsOf, MatchTemplate, PullNumber, NumberInPath;
    if !IsPlain(k) && k != BLOB && k != REACTION {
      NumberCaptured(k, d, r, params);
    }
  }

  // ----- which method a route calls, and when

  /** The name a method of the surface goes by in the route table. */
  function CallName(c: Call): string
  {
    match c
    case ListPulls => "listPulls"
    case SyncPull(_) => "syncPull"
    case GetRateLimit => "getRateLimit"
    case GetSnapshot(_) => "getSnapshot"
    case ReconcileDraft(_) => "reconcileDraft"
    case GetBlob(_) => "getBlob"
    case GetDraft(_) => "getDraft"
    case SaveDraft(_) => "saveDraft"
    case DiscardDraft(_) => "discardDraft"
    case GetFileViewed(_) => "getFileViewed"
    case SetFileViewed(_) => "setFileViewed"
    case GetPreferences => "getPreferences"
    case SetPreferences => "setPreferences"
    case ListBranches => "listBranches"
    case ListLocalReviews => "listLocalReviews"
    case CreateLocalReview => "createLocalReview"
    case DeleteLocalReview(_) => "deleteLocalReview"
    case SubmitReview(_) => "submitReview"
    case ReplyToThread(_, _) => "replyToThread"
    case ResolveThread(_, _) => "resolveThread"
    case AddReaction(_, _) => "addReaction"
  }

  function NameOf(k: nat): string
  {
    if k < |ROUTES| then ROUTES[k].name else ""
  }

  lemma FirstNames()
    ensures NameOf(SESSION) == "getSession" && NameOf(LIST) == "listPulls"
  {
  }

  lemma PullNames()
    ensures NameOf(SYNC) == "syncPull" && NameOf(SNAPSHOT) == "getSnapshot"
  {
  }

  lemma ThreadNames()
    ensures NameOf(THREADS) == "listReviewThreads" && NameOf(REPLY) == "replyToThread"
    ensures NameOf(RESOLVE) == "resolveThread"
  {
  }

  lemma NextNames()
    ensures NameOf(BLOB) == "getBlob" && NameOf(REACTION) == "addReaction" && NameOf(SUBMIT) == "submitReview"
  {
  }

  lemma StateNames()
    ensures NameOf(RECONCILE) == "reconcileDraft" && NameOf(GET_DRAFT) == "getDraft"
    ensures NameOf(SAVE_DRAFT) == "saveDraft" && NameOf(DISCARD_DRAFT) == "discardDraft"
    ensures NameOf(GET_VIEWED) == "getFileViewed" && NameOf(SET_VIEWED) == "setFileViewed"
    ensures NameOf(GET_PREFERENCES) == "getPreferences" && NameOf(SET_PREFERENCES) == "setPreferences"
  {
  }

  lemma OtherNames()
    ensures NameOf(RATE_LIMIT) == "getRateLimit" && NameOf(BRANCHES) == "listBranches"
    ensures NameOf(CREATE_LOCAL) == "createLocalReview" && NameOf(LIST_LOCAL) == "listLocalReviews"
    ensures NameOf(DELETE_LOCAL) == "deleteLocalReview"
  {
  }

  /** A call made for a route is the one the route is named for; the session is answered for its own route only. */
  lemma CallsByName(k: nat, d: Deployment, r: Request, params: Params)
    requires MatchesAs(r, k, params)
    ensures Serve(k, d, r, params).Called? ==> CallName(Serve(k, d, r, params).call) == NameOf(k)
    ensures Serve(k, d, r, params).Session? ==> NameOf(k) == "getSession"
  {
    hide NameOf, Plain, EndsWith, VerbOf, PathOf, SegmentsOf, MatchTemplate;
    hide PullNumber, ReactionReview, NamesLocalReview;
    FirstNames();
    PullNames();
    ThreadNames();
    NextNames();
    StateNames();
    OtherNames();
  }

  /** A call's arguments beside the review are the decoded segments of the path. */
  lemma CallsWithSegments(k: nat, d: Deployment, r: Request, params: Params)
    requires MatchesAs(r, k, params) && Serve(k, d, r, params).Called?
    ensures ArgumentsFrom(d, SegmentsOf(r.path), Serve(k, d, r, params).call)
  {
    hide Plain, EndsWith, VerbOf, PathOf, SegmentsOf, MatchTemplate, PullNumber, ReactionReview, NamesLocalReview;
    ParamNames();
    if k == BLOB || k == REACTION {
      Captured(k, r, params, 2);
    } else if k == REPLY || k == RESOLVE {
      Captured(k, r, params, 4);
    }
  }

  lemma ParamNames()
    ensures |PathOf(BLOB)| == 3 && PathOf(BLOB)[2] == Param("sha")
    ensures |PathOf(REACTION)| == 4 && PathOf(REACTION)[2] == Param("id")
    ensures |PathOf(REPLY)| == |PathOf(RESOLVE)| == 6
    ensures PathOf(REPLY)[4] == PathOf(RESOLVE)[4] == Param("threadId")
    ensures forall k, i, j :: (k in {BLOB, REACTION, REPLY, RESOLVE} && 0 <= i < j < |PathOf(k)|) ==>
      PathOf(k)[i] != PathOf(k)[j] || PathOf(k)[i].Lit?
  {
  }

  predicate ArgumentsFrom(d: Deployment, segments: seq<string>, c: Call)
  {
    match c
    case GetBlob(sha) => |segments| > 2 && Decode(segments[2]) == Some(sha)
    case ReplyToThread(_, thread) => |segments| > 4 && Decode(segments[4]) == Some(thread)
    case ResolveThread(_, thread) => |segments| > 4 && Decode(segments[4]) == Some(thread)
    case AddReaction(_, comment) =>
      && |segments| > 2 && Decode(segments[2]).Some?
      && d.numeric(Decode(segments[2]).value) == Whole(comment) && comment > 0
    case _ => true
  }

  // ----- when the call is due

  /** The route's path names a review or a comment by number. */
  predicate NeedsNumber(k: nat)
  {
    k in {SYNC, SNAPSHOT, REPLY, RESOLVE, REACTION, SUBMIT, RECONCILE, GET_DRAFT, SAVE_DRAFT, DISCARD_DRAFT, GET_VIEWED,
          SET_VIEWED, DELETE_LOCAL}
  }

  /** The validator of the route's body, if it has one, accepts the body. */
  predicate BodyAccepted(k: nat, body: Body)
  {
    && (k == SAVE_DRAFT ==> body.draft.Some?)
    && (k == SUBMIT ==> body.submit.Some?)
    && (k == SET_VIEWED ==> body.viewed)
    && (k == SET_PREFERENCES ==> body.preferences)
    && (k == CREATE_LOCAL ==> body.create)
    && (k == REPLY ==> body.reply)
    && (k == RESOLVE ==> body.resolve)
    && (k == REACTION ==> body.reaction)
  }

  /** A draft or review in the body says the number of the path. */
  predicate BodyAgrees(k: nat, n: Option<int>, body: Body)
  {
    && (k == SAVE_DRAFT ==> n.Some? && body.draft == Some(Whole(n.value)))
    && (k == SUBMIT ==> n.Some? && body.submit == Some(Whole(n.value)))
  }

  /** Every number the request must name is there. */
  predicate NumbersGiven(k: nat, d: Deployment, r: Request)
  {
    && (NeedsNumber(k) ==> NumberInPath(d, r).Some?)
    && (k == REACTION ==> ReactionNames(r).Some?)
    && (k == BLOB ==> var s := SegmentsOf(r.path); |s| > 2 && Decode(s[2]).Some? && Decode(s[2]).value != "")
  }

  /**
   * A matched request that is neither refused nor left unserved makes its call exactly when its numbers are
   * given, its body is accepted and the two agree; otherwise the answer names the first of these that fails.
   */
  lemma CallDueIff(k: nat, d: Deployment, r: Request, params: Params)
    requires MatchesAs(r, k, params)
    requires !Serve(k, d, r, params).Refused? && !Serve(k, d, r, params).NotImplemented?
    requires k != SESSION
    ensures var due, n := Serve(k, d, r, params), NumberInPath(d, r);
      && (due.Called? <==> NumbersGiven(k, d, r) && BodyAccepted(k, r.body) && BodyAgrees(k, n, r.body))
      && (due.BadNumber? <==> !NumbersGiven(k, d, r))
      && (due.Invalid? <==> NumbersGiven(k, d, r) && !BodyAccepted(k, r.body))
      && (due.Mismatch? <==> NumbersGiven(k, d, r) && BodyAccepted(k, r.body) && !BodyAgrees(k, n, r.body))
  {
    hide Plain, EndsWith, VerbOf, PathOf, SegmentsOf, MatchTemplate, ReactionReview, NamesLocalReview, PullNumber,
         NumberInPath;
    ReactionNamed(r);
    if k == BLOB {
      ParamNames();
      Captured(k, r, params, 2);
    } else if k == REACTION {
      CommentCaptured(d, r, params);
    } else if !IsPlain(k) {
      NumberCaptured(k, d, r, params);
    }
  }

  lemma NotTheSessionCall(k: nat, d: Deployment, r: Request, params: Params)
    requires Serve(k, d, r, params).Called?
    ensures k != SESSION
  {
  }

  lemma ReactionNamed(r: Request)
    ensures ReactionReview(r) == ReactionNames(r)
  {
  }

  /** The routes a reads-only broker keeps for local reviews, and those it or anyone needs the repository for. */
  predicate WritesReview(k: nat)
  {
    k in {SUBMIT, REPLY, RESOLVE, REACTION}
  }

  predicate AsksGithub(k: nat)
  {
    WritesReview(k) || k in {SYNC, SNAPSHOT}
  }

  /**
   * A matched request is refused exactly when it names no local review and its route writes to a reads-only
   * broker, which is said first, or needs the repository a deployment lacks; the rate limit names no review.
   */
  lemma RefusedIff(k: nat, d: Deployment, r: Request, params: Params)
    requires MatchesAs(r, k, params)
    ensures var local := InLocalBand(ReviewNamed(d, r, k == REACTION));
      var readsOnly := d.broker && !d.brokerWrites && WritesReview(k) && !local;
      && (Serve(k, d, r, params) == Refused(ReadsOnlyBroker) <==> readsOnly)
      && (Serve(k, d, r, params) == Refused(NoGithubRepository) <==>
            !d.github && !readsOnly && ((AsksGithub(k) && !local) || k == RATE_LIMIT))
  {
    hide Plain, EndsWith, VerbOf, PathOf, SegmentsOf, MatchTemplate, ReactionReview, PullNumber, NumberInPath;
    ReactionNamed(r);
    if !IsPlain(k) && k != BLOB && k != REACTION {
      NumberCaptured(k, d, r, params);
    }
  }

  lemma CommentCaptured(d: Deployment, r: Request, params: Params)
    requires MatchesAs(r, REACTION, params)
    ensures "id" in params
    ensures var id := d.numeric(params["id"]);
      NumberInPath(d, r) == if id.Whole? && id.value > 0 then Some(id.value) else None
  {
    hide VerbOf, PathOf, SegmentsOf, MatchTemplate;
    ParamNames();
    Captured(REACTION, r, params, 2);
  }

  // ----- the client's own paths are served

  lemma {:induction false} LiteralPath(path: seq<Segment>, params: Params)
    requires forall seg :: seg in path ==> seg.Lit?
    ensures FillPath(path, params) == FillPath(path, map[])
  {
    if path != [] {
      LiteralPath(path[1..], params);
    }
  }

  lemma {:induction false} EndsInLastWord(path: seq<Segment>, params: Params)
    requires path != [] && path[|path| - 1].Lit? && FillPath(path, params).Some?
    ensures EndsWith(FillPath(path, params).value, "/" + path[|path| - 1].text)
  {
    var rest := FillPath(path[1..], params).value;
    var head := SegmentText(path[0], params).value;
    if |path| == 1 {
      assert rest == "" && FillPath(path, params).value == "/" + head;
    } else {
      EndsInLastWord(path[1..], params);
      hide EndsWith;
      EndsAlike("/" + head, rest, "/" + path[|path| - 1].text);
    }
  }

  lemma EndsAlike(front: string, rest: string, suffix: string)
    requires EndsWith(rest, suffix)
    ensures EndsWith(front + rest, suffix)
  {
    assert (front + rest)[|front| + |rest| - |suffix|..] == rest[|rest| - |suffix|..];
  }

  lemma StartsWithApi(k: nat, params: Params)
    requires k < COUNT && FillPath(PathOf(k), params).Some?
    ensures IsApi(FillPath(PathOf(k), params).value)
  {
    var path := PathOf(k);
    ApiFirst(k);
    var rest := FillPath(path[1..], params).value;
    assert rest != "" && rest[0] == '/';
    assert FillPath(path, params).value == "/" + "api" + rest;
  }

  lemma ApiFirst(k: nat)
    requires k < COUNT
    ensures |PathOf(k)| > 1 && PathOf(k)[0] == Lit("api")
  {
  }

  lemma PlainIsLiteral(k: nat)
    requires k < COUNT && IsPlain(k)
    ensures forall seg :: seg in PathOf(k) ==> seg.Lit?
  {
  }

  lemma StateWords(k: nat)
    ensures GET_DRAFT <= k <= DISCARD_DRAFT ==> |PathOf(k)| == 4 && PathOf(k)[3] == Lit("draft")
    ensures GET_VIEWED <= k <= SET_VIEWED ==> |PathOf(k)| == 4 && PathOf(k)[3] == Lit("viewed")
  {
  }

  /** A route goes unserved for its number, for a list nobody keeps, or for the spelling of the path. */
  lemma UnservedIff(k: nat, d: Deployment, r: Request, params: Params)
    requires k < COUNT
    ensures Serve(k, d, r, params).NotImplemented? <==>
      || k == THREADS
      || (k == LIST && !d.pullList)
      || (IsPlain(k) && k != RATE_LIMIT && r.path != Plain(k))
      || (GET_DRAFT <= k <= DISCARD_DRAFT && !EndsWith(r.path, "/draft"))
      || (GET_VIEWED <= k <= SET_VIEWED && !EndsWith(r.path, "/viewed"))
  {
    hide Plain, EndsWith, PullNumber, NamesLocalReview, ReactionReview;
  }

  /**
   * Every path the client builds reaches its own route, and the only ones left unanswered are the thread
   * read and the list of a surface without a list. (Other spellings of a path may match a route and still
   * go unserved: a trailing slash does.)
   */
  lemma FilledPathIsServed(k: nat, d: Deployment, r: Request, params: Params)
    requires k < COUNT && Fillable(PathOf(k), params)
    requires r.verb == VerbOf(k) && FillPath(PathOf(k), params) == Some(r.path)
    ensures var captured := Routes.Named(PathOf(k), params, |PathOf(k)|);
      && IsApi(r.path) && MatchesAs(r, k, captured)
      && (Serve(k, d, r, captured).NotImplemented? <==> k == THREADS || (k == LIST && !d.pullList))
  {
    hide VerbOf, PathOf, FillPath, MatchTemplate, SegmentsOf, GoodTable, Fillable, Routes.Named, EndsWith, IsApi, Serve;
    TheTable();
    TableIsGood();
    StartsWithApi(k, params);
    TemplateRoundTrip(ROUTES, k, k, params);
    if IsPlain(k) {
      PlainIsLiteral(k);
      LiteralPath(PathOf(k), params);
      assert r.path == Plain(k);
    } else if GET_DRAFT <= k <= SET_VIEWED {
      StateWords(k);
      EndsInLastWord(PathOf(k), params);
      assert "/" + "draft" == "/draft" && "/" + "viewed" == "/viewed";
    }
    UnservedIff(k, d, r, Routes.Named(PathOf(k), params, |PathOf(k)|));
  }

  /** The preferences path with a slash appended still matches its route but is not served. */
  lemma TrailingSlashIsNotServed(d: Deployment, body: Body)
    ensures var r := Request(Some(GET), Plain(GET_PREFERENCES) + "/", NotWhole, body);
      MatchesAs(r, GET_PREFERENCES, map[]) && Serve(GET_PREFERENCES, d, r, map[]) == NotImplemented
  {
    hide MatchTemplate, VerbOf, PathOf, SegmentsOf, FillPath, GoodTable;
    var plain := Plain(GET_PREFERENCES);
    TheTable();
    Verbs();
    TableIsGood();
    PlainRoutes(GET_PREFERENCES);
    TemplateRoundTrip(ROUTES, GET_PREFERENCES, GET_PREFERENCES, map[]);
    SlashAtTheEnd(plain);
  }

  lemma SlashAtTheEnd(path: string)
    ensures SegmentsOf(path + "/") == SegmentsOf(path)
  {
    SplitThenSlash(path);
    EmptyPieceAtTheEnd(SplitOn('/', path));
  }

  lemma {:induction false} SplitThenSlash(path: string)
    ensures SplitOn('/', path + "/") == SplitOn('/', path) + [""]
  {
    if path == "" {
      assert path + "/" == "/";
      SplitAfterPiece('/', "", "");
      assert "" + ['/'] + "" == "/";
    } else {
      assert (path + "/")[1..] == path[1..] + "/";
      SplitThenSlash(path[1..]);
      assert (SplitOn('/', path[1..]) + [""])[1..] == SplitOn('/', path[1..])[1..] + [""];
    }
  }

  lemma {:induction false} EmptyPieceAtTheEnd(pieces: seq<string>)
    ensures NonEmpty(pieces + [""]) == NonEmpty(pieces)
  {
    if pieces == [] {
      assert pieces + [""] == [""];
    } else {
      assert (pieces + [""])[1..] == pieces[1..] + [""];
      EmptyPieceAtTheEnd(pieces[1..]);
    }
  }
}

/** The route table: each endpoint's method, path pattern, handler and
    whether `AuthMiddleware` runs before it, in registration order, with the
    framework's first-match dispatch. Requests to the posts endpoints are
    then served end to end: middleware (where the table says so), then the
    handler. */
module Routes {
  import opened Common
  import opened Models
  import opened Http
  import PostRepository
  import opened PostHandlers
  import opened Middleware

  datatype Verb = GET | POST | PUT | DELETE

  datatype Handler =
    | HelloWorld | HealthCheck
    | RegisterHandler | LoginHandler | GetMeHandler
    | GetAllPostsHandler | GetMyPostsHandler | GetPostHandler
    | CreatePostHandler | UpdatePostHandler | DeletePostHandler
  {
    /** Handlers that read the claims the middleware stores. */
    predicate ReadsClaims()
    {
      this in {GetMeHandler, GetMyPostsHandler, CreatePostHandler, UpdatePostHandler, DeletePostHandler}
    }

    predicate ServesPosts()
    {
      this in {GetAllPostsHandler, GetMyPostsHandler, GetPostHandler, CreatePostHandler, UpdatePostHandler, DeletePostHandler}
    }
  }

  /** A path pattern is a sequence of segments; ":id" matches any one
      non-empty segment. The group prefix "/api/posts/" and "/api/posts"
      are the same path. */
  datatype Route = Route(verb: Verb, pattern: seq<string>, guarded: bool, handler: Handler)

  const IdParam := ":id"

  const Table: seq<Route> := [
    Route(GET, [], false, HelloWorld),
    Route(GET, ["health"], false, HealthCheck),
    Route(POST, ["api", "auth", "register"], false, RegisterHandler),
    Route(POST, ["api", "auth", "login"], false, LoginHandler),
    Route(GET, ["api", "auth", "me"], true, GetMeHandler),
    Route(GET, ["api", "posts"], false, GetAllPostsHandler),
    Route(GET, ["api", "posts", "my", "posts"], true, GetMyPostsHandler),
    Route(GET, ["api", "posts", IdParam], false, GetPostHandler),
    Route(POST, ["api", "posts"], true, CreatePostHandler),
    Route(PUT, ["api", "posts", IdParam], true, UpdatePostHandler),
    Route(DELETE, ["api", "posts", IdParam], true, DeletePostHandler)]

  predicate SegmentMatches(pattern: string, segment: string)
  {
    if pattern == IdParam then segment != "" else pattern == segment
  }

  predicate Matches(r: Route, verb: Verb, path: seq<string>)
  {
    r.verb == verb && |r.pattern| == |path| && forall i :: 0 <= i < |path| ==> SegmentMatches(r.pattern[i], path[i])
  }

  /** First-match dispatch: the earliest route that matches, or none. */
  function Dispatch(routes: seq<Route>, verb: Verb, path: seq<string>): (r: Option<nat>)
    ensures r.Some? ==> r.value < |routes| && Matches(routes[r.value], verb, path)
    ensures r.Some? ==> forall j :: 0 <= j < r.value ==> !Matches(routes[j], verb, path)
    ensures r.None? ==> forall j :: 0 <= j < |routes| ==> !Matches(routes[j], verb, path)
  {
    if routes == [] then None
    else if Matches(routes[0], verb, path) then Some(0)
    else
      match Dispatch(routes[1..], verb, path)
      case None => None
      case Some(k) => Some(k + 1)
  }

  /** Exactly the handlers that read claims run behind the middleware. */
  lemma GuardedExactlyWhereClaimsAreRead()
    ensures forall i :: 0 <= i < |Table| ==> (Table[i].guarded <==> Table[i].handler.ReadsClaims())
  {
  }

  /** Dispatch picks the first matching route. */
  lemma DispatchFirstMatch(routes: seq<Route>, verb: Verb, path: seq<string>, i: nat)
    requires i < |routes| && Matches(routes[i], verb, path)
    requires forall j :: 0 <= j < i ==> !Matches(routes[j], verb, path)
    ensures Dispatch(routes, verb, path) == Some(i)
  {
  }

  /** `PUT` on "/api/posts/<id>", for any non-empty segment, reaches the
      guarded update handler. */
  lemma UpdatePathDispatch(segment: string)
    requires segment != ""
    ensures Dispatch(Table, PUT, ["api", "posts", segment]) == Some(9)
    ensures Table[9].handler == UpdatePostHandler && Table[9].guarded
  {
    var path := ["api", "posts", segment];
    assert Matches(Table[9], PUT, path);
    DispatchFirstMatch(Table, PUT, path, 9);
  }

  /** `DELETE` on "/api/posts/<id>" reaches the guarded delete handler. */
  lemma DeletePathDispatch(segment: string)
    requires segment != ""
    ensures Dispatch(Table, DELETE, ["api", "posts", segment]) == Some(10)
    ensures Table[10].handler == DeletePostHandler && Table[10].guarded
  {
    var path := ["api", "posts", segment];
    assert Matches(Table[10], DELETE, path);
    DispatchFirstMatch(Table, DELETE, path, 10);
  }

  /** `GET` on "/api/posts/<id>" reaches the unguarded single-post handler. */
  lemma GetPathDispatch(segment: string)
    requires segment != ""
    ensures Dispatch(Table, GET, ["api", "posts", segment]) == Some(7)
    ensures Table[7].handler == GetPostHandler && !Table[7].guarded
  {
    var path := ["api", "posts", segment];
    forall j | 0 <= j < 7
      ensures !Matches(Table[j], GET, path)
    {
      assert |Table[j].pattern| != 3 || Table[j].pattern[1] != "posts";
    }
    assert Matches(Table[7], GET, path);
    DispatchFirstMatch(Table, GET, path, 7);
  }

  /** "/api/posts/my/posts" is not read as a post id: it reaches the guarded
      list of one's own posts. */
  lemma MyPostsPathDispatch()
    ensures Dispatch(Table, GET, ["api", "posts", "my", "posts"]) == Some(6)
    ensures Table[6].handler == GetMyPostsHandler && Table[6].guarded
  {
    var path := ["api", "posts", "my", "posts"];
    forall j | 0 <= j < 6
      ensures !Matches(Table[j], GET, path)
    {
      assert |Table[j].pattern| != 4;
    }
    assert Matches(Table[6], GET, path);
    DispatchFirstMatch(Table, GET, path, 6);
  }

  /** A request to a posts endpoint: the session cookies, the path (whose
      third segment is the `:id` parameter), and the body as each handler
      would parse it. */
  datatype PostRequest = PostRequest(
    cookies: map<string, string>,
    path: seq<string>,
    createBody: Option<CreatePostRequest>,
    updateBody: Option<UpdatePostRequest>)

  /** The `:id` parameter as `strconv.ParseInt` reads it. */
  function IdOf(path: seq<string>, parseId: string -> Option<int>): Option<int>
  {
    if |path| == 3 then parseId(path[2]) else None
  }

  /** The handler behind `route`, given the claims stored for it. */
  function RunPostHandler(h: Handler, claims: Option<Claims>, req: PostRequest,
                          parseId: string -> Option<int>, repo: PostRepo): Outcome
    requires h.ServesPosts()
  {
    match h
    case GetAllPostsHandler => GetAllPosts(repo)
    case GetMyPostsHandler => GetMyPosts(claims, repo)
    case GetPostHandler => GetPost(IdOf(req.path, parseId), repo)
    case CreatePostHandler => CreatePost(claims, req.createBody, repo)
    case UpdatePostHandler => UpdatePost(claims, IdOf(req.path, parseId), req.updateBody, repo)
    case DeletePostHandler => DeletePost(claims, IdOf(req.path, parseId), repo)
  }

  /** Serve a request the table routes to a posts handler: a guarded route
      runs the middleware first and stops at its refusal; an unguarded one
      runs the handler with no claims stored. */
  function ServePost(route: Route, req: PostRequest, validate: string -> Result<Claims, string>,
                     parseId: string -> Option<int>, repo: PostRepo): (o: Outcome)
    requires route.handler.ServesPosts()
    ensures route.guarded && AuthMiddleware(req.cookies, validate).Rejected? ==> o == Outcome(Unauthorized, [])
    ensures route.guarded && AuthMiddleware(req.cookies, validate).Admitted? ==>
              o == RunPostHandler(route.handler, Some(AuthMiddleware(req.cookies, validate).claims), req, parseId, repo)
    ensures !route.guarded ==> o == RunPostHandler(route.handler, None, req, parseId, repo)
  {
    if !route.guarded then RunPostHandler(route.handler, None, req, parseId, repo)
    else
      match AuthMiddleware(req.cookies, validate)
      case Rejected(response, _) => Outcome(response, [])
      case Admitted(claims) => RunPostHandler(route.handler, Some(claims), req, parseId, repo)
  }

  /** The end-to-end guarantee of the posts API: whatever the request, an
      update or delete reaches the repository only when the request carries
      a non-empty session token that validates, and the ownership check for
      the validated user returned `(true, nil)` for that very post. */
  lemma MutationsNeedOwnerSession(verb: Verb, req: PostRequest, validate: string -> Result<Claims, string>,
                                  parseId: string -> Option<int>, repo: PostRepo)
    requires Dispatch(Table, verb, req.path).Some?
    requires Table[Dispatch(Table, verb, req.path).value].handler.ServesPosts()
    ensures var o := ServePost(Table[Dispatch(Table, verb, req.path).value], req, validate, parseId, repo);
            var token := CookieValue(req.cookies, SessionCookieName);
            forall k :: 0 <= k < |o.calls| && o.calls[k].Mutates() ==>
              && token != ""
              && validate(token).Success?
              && repo.checkOwnership(o.calls[k].postId, validate(token).value.userId) == PostRepository.Owner
  {
  }

  /** A guarded posts endpoint refuses a request without a session cookie
      with 401 before touching the repository. */
  lemma NoCookieNoRepositoryCall(route: Route, req: PostRequest, validate: string -> Result<Claims, string>,
                                 parseId: string -> Option<int>, repo: PostRepo)
    requires route in Table && route.guarded && route.handler.ServesPosts()
    requires SessionCookieName !in req.cookies
    ensures ServePost(route, req, validate, parseId, repo) == Outcome(Unauthorized, [])
  {
  }
}

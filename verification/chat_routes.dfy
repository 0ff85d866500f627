/** The chat router: two router-level middlewares run in mounting order on
    every request, then the first route whose method and path pattern match
    gets the request.

    Nothing mounted ahead of this router sets `req.user`, so every request
    enters the chain without a user. */
module ChatRoutes {
  import opened Js
  import opened Http
  import opened UserModel
  import RateLimiter
  import AuthMiddleware

  /** The limiter of the chat router: 50 requests per 15 minutes. */
  const ChatLimit := RateLimiter.Config(50, 15 * 60 * 1000)

  datatype Middleware = RateLimit(cfg: RateLimiter.Config) | Protect

  /** The router-level chain in the order it is mounted. */
  const AsMounted: seq<Middleware> := [RateLimit(ChatLimit), Protect]

  datatype Method = GET | POST | PUT | DELETE

  datatype Segment = Lit(text: string) | Param

  datatype Handler =
    | SendMessage | GetChatHistory | GetAvailableModels | GetChat
    | UpdateChatSettings | ClearChatMessages | DeleteChat | GetChatSummary

  datatype Route = Route(verb: Method, pattern: seq<Segment>, handler: Handler)

  /** The routes in registration order. */
  const Routes: seq<Route> := [
    Route(POST, [Lit("send")], SendMessage),
    Route(GET, [Lit("history")], GetChatHistory),
    Route(GET, [Lit("models")], GetAvailableModels),
    Route(GET, [Param], GetChat),
    Route(PUT, [Param, Lit("settings")], UpdateChatSettings),
    Route(DELETE, [Param, Lit("messages")], ClearChatMessages),
    Route(DELETE, [Param], DeleteChat),
    Route(GET, [Param, Lit("summary")], GetChatSummary)
  ]

  /** A path matches a pattern segment by segment. `express.Router()` is
      case-insensitive by default, so a literal (all of them are lower case)
      matches in any letter case; a parameter takes any non-empty segment, as sent. */
  predicate SegmentMatches(p: Segment, s: string) {
    match p
    case Lit(t) => Lower(s) == t
    case Param => s != ""
  }

  /** A lower-case literal matches itself. */
  lemma LiteralMatchesItself(t: string)
    requires LowerCased(t)
    ensures SegmentMatches(Lit(t), t)
  {
    LowerFixesLowerCased(t);
  }

  predicate PathMatches(pattern: seq<Segment>, path: seq<string>) {
    |pattern| == |path| && forall k :: 0 <= k < |path| ==> SegmentMatches(pattern[k], path[k])
  }

  /** The value of `:id`, when the pattern has one. */
  function ParamOf(pattern: seq<Segment>, path: seq<string>): Option<string>
    requires |pattern| == |path|
  {
    if |pattern| >= 1 && pattern[0] == Param then Some(path[0]) else None
  }

  datatype Dispatch = Dispatch(handler: Handler, id: Option<string>)

  /** The first route that matches, searching from position `from`. */
  function MatchFrom(routes: seq<Route>, from: nat, m: Method, path: seq<string>): (r: Option<nat>)
    requires from <= |routes|
    ensures r.Some? ==> from <= r.value < |routes|
    ensures r.Some? ==> routes[r.value].verb == m && PathMatches(routes[r.value].pattern, path)
    ensures r.Some? ==> forall k :: from <= k < r.value ==> !(routes[k].verb == m && PathMatches(routes[k].pattern, path))
    ensures r.None? ==> forall k :: from <= k < |routes| ==> !(routes[k].verb == m && PathMatches(routes[k].pattern, path))
    decreases |routes| - from
  {
    if from == |routes| then None
    else if routes[from].verb == m && PathMatches(routes[from].pattern, path) then Some(from)
    else MatchFrom(routes, from + 1, m, path)
  }

  /** Express's dispatch: the first registered route matching method and path. */
  function Select(m: Method, path: seq<string>): (r: Option<Dispatch>)
    ensures r.Some? ==> exists k :: (0 <= k < |Routes| && Routes[k].handler == r.value.handler
                                     && Routes[k].verb == m && PathMatches(Routes[k].pattern, path))
    ensures r.None? <==> forall k :: 0 <= k < |Routes| ==> !(Routes[k].verb == m && PathMatches(Routes[k].pattern, path))
  {
    match MatchFrom(Routes, 0, m, path)
    case None => None
    case Some(k) => Some(Dispatch(Routes[k].handler, ParamOf(Routes[k].pattern, path)))
  }

  /** GET /models reaches the model list although `/:id` would also match it,
      because it is registered first. */
  lemma ModelsBeforeChatId()
    ensures Select(GET, ["models"]) == Some(Dispatch(GetAvailableModels, None))
  {
    LiteralMatchesItself("models");
    ModelsInAnyCase("models");
  }

  lemma HistoryRoute()
    ensures Select(GET, ["history"]) == Some(Dispatch(GetChatHistory, None))
  {
    LiteralMatchesItself("history");
    assert PathMatches(Routes[1].pattern, ["history"]);
  }

  /** The two literal GET routes take their segment in any letter case. */
  lemma ModelsInAnyCase(s: string)
    requires Lower(s) == "models"
    ensures Select(GET, [s]) == Some(Dispatch(GetAvailableModels, None))
  {
    assert Lower(s) != "history" by {
      assert Lower(s)[0] != "history"[0];
    }
    var path := [s];
    assert path[0] == s;
    assert Routes[1].pattern[0] == Lit("history") && !SegmentMatches(Routes[1].pattern[0], path[0]);
    assert !PathMatches(Routes[1].pattern, path);
    assert PathMatches(Routes[2].pattern, path);
  }

  lemma HistoryInAnyCase(s: string)
    requires Lower(s) == "history"
    ensures Select(GET, [s]) == Some(Dispatch(GetChatHistory, None))
  {
    assert PathMatches(Routes[1].pattern, [s]);
  }

  /** `GET /Models` is the model list, not the chat with id `Models`. */
  lemma CapitalizedModelsIsTheList()
    ensures Select(GET, ["Models"]) == Some(Dispatch(GetAvailableModels, None))
  {
    assert Lower("Models") == "models";
    ModelsInAnyCase("Models");
  }

  /** Any other single segment reaches `getChat` with that segment as `:id`. */
  lemma ChatIdRoute(id: string)
    requires id != "" && Lower(id) != "history" && Lower(id) != "models"
    ensures Select(GET, [id]) == Some(Dispatch(GetChat, Some(id)))
  {
    var path := [id];
    assert path[0] == id;
    assert Routes[1].pattern[0] == Lit("history") && !SegmentMatches(Routes[1].pattern[0], path[0]);
    assert !PathMatches(Routes[1].pattern, path);
    assert Routes[2].pattern[0] == Lit("models") && !SegmentMatches(Routes[2].pattern[0], path[0]);
    assert !PathMatches(Routes[2].pattern, path);
    assert PathMatches(Routes[3].pattern, path);
    assert MatchFrom(Routes, 0, GET, path) == Some(3);
  }

  lemma SettingsRoute(id: string)
    requires id != ""
    ensures Select(PUT, [id, "settings"]) == Some(Dispatch(UpdateChatSettings, Some(id)))
  {
    LiteralMatchesItself("settings");
    assert PathMatches(Routes[4].pattern, [id, "settings"]);
  }

  /** `DELETE /:id/messages` and `DELETE /:id` do not shadow each other. */
  lemma DeleteRoutes(id: string)
    requires id != ""
    ensures Select(DELETE, [id, "messages"]) == Some(Dispatch(ClearChatMessages, Some(id)))
    ensures Select(DELETE, [id]) == Some(Dispatch(DeleteChat, Some(id)))
  {
    LiteralMatchesItself("messages");
    assert PathMatches(Routes[5].pattern, [id, "messages"]);
    assert !PathMatches(Routes[5].pattern, [id]);
    assert PathMatches(Routes[6].pattern, [id]);
  }

  /** `GET /:id/summary` is not taken by `GET /:id`, which needs a single segment. */
  lemma SummaryRoute(id: string)
    requires id != ""
    ensures Select(GET, [id, "summary"]) == Some(Dispatch(GetChatSummary, Some(id)))
  {
    assert !PathMatches(Routes[3].pattern, [id, "summary"]);
    LiteralMatchesItself("summary");
    assert PathMatches(Routes[7].pattern, [id, "summary"]);
  }

  lemma SendRoute()
    ensures Select(POST, ["send"]) == Some(Dispatch(SendMessage, None))
  {
    LiteralMatchesItself("send");
    assert PathMatches(Routes[0].pattern, ["send"]);
  }

  // ---------------------------------------------------------------------------
  // The middleware chain

  /** What the server holds across requests: the limiter's Map and the users. */
  datatype Server = Server(limiter: RateLimiter.Store, users: seq<User>)

  datatype ChatRequest = ChatRequest(verb: Method, path: seq<string>, header: Option<string>, at: nat)

  /** How a request ends: in a handler, with `req.user` as the chain left
      it; with a reply from a middleware; or with no matching route (the
      router passes the request on, and Express answers 404). */
  datatype Ending = Handled(dispatch: Dispatch, user: Option<UserId>) | Replied(status: nat, error: string) | NoRoute

  datatype Served = Served(ending: Ending, server: Server)

  /** After the last middleware, the selected route runs. */
  function Reach(s: Server, req: ChatRequest, user: Option<UserId>): Served {
    match Select(req.verb, req.path)
    case None => Served(NoRoute, s)
    case Some(d) => Served(Handled(d, user), s)
  }

  /** The reply a middleware's refusal sends. */
  function Reply(r: Response<()>): Ending {
    Replied(r.status, if r.Fail? then r.error else "")
  }

  /** Runs the chain from middleware `k` on, with `user` as `req.user` so far. */
  function Chain(chain: seq<Middleware>, k: nat, s: Server, req: ChatRequest,
                 verify: string -> Option<UserId>, user: Option<UserId>): (r: Served)
    requires k <= |chain|
    decreases |chain| - k
  {
    if k == |chain| then Reach(s, req, user)
    else
      match chain[k]
      case RateLimit(cfg) =>
        var step := RateLimiter.Step(cfg, s.limiter, user, req.at);
        if step.decision.Limited? then Served(Replied(429, "Rate limit exceeded"), s.(limiter := step.store))
        else Chain(chain, k + 1, s.(limiter := step.store), req, verify, user)
      case Protect =>
        var g := AuthMiddleware.Protect(s.users, req.header, verify, req.at);
        match g.outcome
        case Deny(reply) => Served(Reply(reply), s.(users := g.users))
        case Pass(u) => Chain(chain, k + 1, s.(users := g.users), req, verify, Some(u))
  }

  function Serve(chain: seq<Middleware>, s: Server, req: ChatRequest, verify: string -> Option<UserId>): Served {
    Chain(chain, 0, s, req, verify, None)
  }

  /** The mounted chain, unfolded: the limiter passes the request on without
      a trace, and `protect` alone decides. */
  lemma MountedUnfolds(s: Server, req: ChatRequest, verify: string -> Option<UserId>)
    ensures var g := AuthMiddleware.Protect(s.users, req.header, verify, req.at);
      Serve(AsMounted, s, req, verify) ==
        match g.outcome
        case Deny(reply) => Served(Reply(reply), s.(users := g.users))
        case Pass(u) => Reach(s.(users := g.users), req, Some(u))
  {
    var step := RateLimiter.Step(ChatLimit, s.limiter, None, req.at);
    assert step == RateLimiter.StepResult(RateLimiter.Proceed, s.limiter);
    assert s.(limiter := step.store) == s;
    assert Serve(AsMounted, s, req, verify) == Chain(AsMounted, 1, s, req, verify, None);
    var g := AuthMiddleware.Protect(s.users, req.header, verify, req.at);
    if g.outcome.Pass? {
      assert Chain(AsMounted, 1, s, req, verify, None)
        == Chain(AsMounted, 2, s.(users := g.users), req, verify, Some(g.outcome.user));
    }
  }

  /** As mounted, the limiter sees no user on any request: it lets every
      request through and records nothing, so no chat request is ever
      answered with 429. */
  lemma LimiterNeverCounts(s: Server, req: ChatRequest, verify: string -> Option<UserId>)
    ensures Serve(AsMounted, s, req, verify).server.limiter == s.limiter
    ensures Serve(AsMounted, s, req, verify).ending != Replied(429, "Rate limit exceeded")
  {
    MountedUnfolds(s, req, verify);
    var g := AuthMiddleware.Protect(s.users, req.header, verify, req.at);
    if g.outcome.Deny? {
      assert g.outcome.reply.status == 401;
    }
  }

  /** Replays requests through a chain. */
  function ServeAll(chain: seq<Middleware>, s: Server, reqs: seq<ChatRequest>, verify: string -> Option<UserId>): (r: (seq<Ending>, Server))
    ensures |r.0| == |reqs|
    decreases |reqs|
  {
    if |reqs| == 0 then ([], s)
    else
      var first := Serve(chain, s, reqs[0], verify);
      var rest := ServeAll(chain, first.server, reqs[1..], verify);
      ([first.ending] + rest.0, rest.1)
  }

  /** Over any sequence of requests the mounted limiter's Map never changes
      and no request is limited. */
  lemma {:induction false} LimiterNeverCountsOverTrace(s: Server, reqs: seq<ChatRequest>, verify: string -> Option<UserId>)
    ensures ServeAll(AsMounted, s, reqs, verify).1.limiter == s.limiter
    ensures forall k :: 0 <= k < |reqs| ==> ServeAll(AsMounted, s, reqs, verify).0[k] != Replied(429, "Rate limit exceeded")
    decreases |reqs|
  {
    if |reqs| > 0 {
      LimiterNeverCounts(s, reqs[0], verify);
      var first := Serve(AsMounted, s, reqs[0], verify);
      LimiterNeverCountsOverTrace(first.server, reqs[1..], verify);
      var r := ServeAll(AsMounted, s, reqs, verify);
      var rest := ServeAll(AsMounted, first.server, reqs[1..], verify);
      assert r.0 == [first.ending] + rest.0;
      forall k | 0 <= k < |reqs|
        ensures r.0[k] != Replied(429, "Rate limit exceeded")
      {
        if k > 0 {
          assert r.0[k] == rest.0[k - 1];
        }
      }
    }
  }

  /** Every chat route is behind `protect`: without a Bearer header the
      request is refused for want of a token and reaches no handler. */
  lemma NoBearerNoHandler(s: Server, req: ChatRequest, verify: string -> Option<UserId>)
    requires !AuthMiddleware.Bearer(req.header)
    ensures Serve(AsMounted, s, req, verify) == Served(Replied(401, "Not authorized, no token"), s)
  {
    MountedUnfolds(s, req, verify);
  }

  /** A request that passes `protect` reaches the route Express selects, as the authenticated user. */
  lemma AuthenticatedReachesRoute(s: Server, req: ChatRequest, verify: string -> Option<UserId>)
    requires AuthMiddleware.Protect(s.users, req.header, verify, req.at).outcome.Pass?
    ensures var u := AuthMiddleware.Protect(s.users, req.header, verify, req.at).outcome.user;
      Serve(AsMounted, s, req, verify).ending ==
        match Select(req.verb, req.path) { case None => NoRoute case Some(d) => Handled(d, Some(u)) }
  {
    MountedUnfolds(s, req, verify);
  }

  /** Only a request `protect` lets through reaches a handler, and it does so
      with `req.user` set. */
  lemma HandlersSeeAuthenticatedUser(s: Server, req: ChatRequest, verify: string -> Option<UserId>)
    requires Serve(AsMounted, s, req, verify).ending.Handled?
    ensures AuthMiddleware.Protect(s.users, req.header, verify, req.at).outcome.Pass?
    ensures Serve(AsMounted, s, req, verify).ending.user ==
      Some(AuthMiddleware.Protect(s.users, req.header, verify, req.at).outcome.user)
  {
    MountedUnfolds(s, req, verify);
  }

  // ---------------------------------------------------------------------------
  // The chain as evidently intended: authenticate, then limit

  const Intended: seq<Middleware> := [Protect, RateLimit(ChatLimit)]

  /** The intended chain, unfolded: `protect` decides first, then the limiter counts the user. */
  lemma IntendedUnfolds(s: Server, req: ChatRequest, verify: string -> Option<UserId>)
    requires AuthMiddleware.Protect(s.users, req.header, verify, req.at).outcome.Pass?
    ensures var g := AuthMiddleware.Protect(s.users, req.header, verify, req.at);
      var step := RateLimiter.Step(ChatLimit, s.limiter, Some(g.outcome.user), req.at);
      var s2 := Server(step.store, g.users);
      Serve(Intended, s, req, verify) ==
        if step.decision.Limited? then Served(Replied(429, "Rate limit exceeded"), s2)
        else Reach(s2, req, Some(g.outcome.user))
  {
    var g := AuthMiddleware.Protect(s.users, req.header, verify, req.at);
    var s1 := s.(users := g.users);
    assert Serve(Intended, s, req, verify) == Chain(Intended, 1, s1, req, verify, Some(g.outcome.user));
    var step := RateLimiter.Step(ChatLimit, s1.limiter, Some(g.outcome.user), req.at);
    if !step.decision.Limited? {
      assert Chain(Intended, 1, s1, req, verify, Some(g.outcome.user))
        == Chain(Intended, 2, s1.(limiter := step.store), req, verify, Some(g.outcome.user));
    }
  }

  /** With `protect` first, the limiter counts every authenticated request
      against that user's window, exactly as `RateLimiter.Step` does. */
  lemma IntendedChainCounts(s: Server, req: ChatRequest, verify: string -> Option<UserId>)
    requires AuthMiddleware.Protect(s.users, req.header, verify, req.at).outcome.Pass?
    ensures var u := AuthMiddleware.Protect(s.users, req.header, verify, req.at).outcome.user;
      var step := RateLimiter.Step(ChatLimit, s.limiter, Some(u), req.at);
      && Serve(Intended, s, req, verify).server.limiter == step.store
      && (step.decision.Limited? <==> Serve(Intended, s, req, verify).ending == Replied(429, "Rate limit exceeded"))
  {
    IntendedUnfolds(s, req, verify);
  }

  /** With `protect` first, a user who has used up the window is refused with
      429 until the window resets. */
  lemma IntendedChainLimits(s: Server, req: ChatRequest, verify: string -> Option<UserId>)
    requires AuthMiddleware.Protect(s.users, req.header, verify, req.at).outcome.Pass?
    requires var u := AuthMiddleware.Protect(s.users, req.header, verify, req.at).outcome.user;
      u in s.limiter && s.limiter[u].count >= 50 && req.at < s.limiter[u].resetTime
    ensures Serve(Intended, s, req, verify).ending == Replied(429, "Rate limit exceeded")
  {
    var u := AuthMiddleware.Protect(s.users, req.header, verify, req.at).outcome.user;
    RateLimiter.OverBudgetRefused(ChatLimit, s.limiter, u, req.at);
    IntendedUnfolds(s, req, verify);
  }
}

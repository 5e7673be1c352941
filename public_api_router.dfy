/** The public order API: the constant table of routes, the middleware chain of
    each route, and what a request must present to reach a handler. */
module PublicApiRouter {
  import opened Common
  import opened ApiKeyModel
  import opened Store
  import opened ApiKeyMiddleware

  datatype Verb = GET | POST | PUT

  datatype Handler = CreateOrderPublic | UpdateOrderPublic | GetOrderPublic | ListOrdersPublic

  /** A path segment of a route: a literal, or a parameter such as `:orderId`. */
  datatype Segment = Literal(text: string) | Param(name: string)

  datatype Stage = ApiKeyAuthStage | RequirePermissionStage(permission: string) | HandlerStage(handler: Handler)

  datatype Route = Route(verb: Verb, path: seq<Segment>, chain: seq<Stage>)

  /** Authentication, then the permission guard, then the handler. */
  predicate GuardedChain(chain: seq<Stage>) {
    && |chain| == 3
    && chain[0] == ApiKeyAuthStage
    && chain[1].RequirePermissionStage?
    && chain[2].HandlerStage?
  }

  function Guarded(permission: string, handler: Handler): seq<Stage> {
    [ApiKeyAuthStage, RequirePermissionStage(permission), HandlerStage(handler)]
  }

  /** The routes in registration order. Every chain authenticates, then checks
      a permission from the vocabulary, then runs its handler; none asks for
      `order:delete`. */
  function PublicRoutes(): (routes: seq<Route>)
    ensures |routes| == 4
    ensures forall i :: 0 <= i < |routes| ==>
              GuardedChain(routes[i].chain) && routes[i].chain[1].permission in PermissionVocabulary - {ORDER_DELETE}
  {
    [ Route(POST, [Literal("orders")], Guarded(ORDER_CREATE, CreateOrderPublic)),
      Route(PUT, [Literal("orders"), Param("orderId")], Guarded(ORDER_UPDATE, UpdateOrderPublic)),
      Route(GET, [Literal("orders"), Param("orderId")], Guarded(ORDER_READ, GetOrderPublic)),
      Route(GET, [Literal("orders")], Guarded(ORDER_READ, ListOrdersPublic)) ]
  }

  /** A request path, split at '/', matches a route path segment by segment; a
      parameter matches any non-empty segment. */
  predicate PathMatches(pattern: seq<Segment>, segments: seq<string>) {
    && |pattern| == |segments|
    && forall i :: 0 <= i < |pattern| ==>
         match pattern[i]
         case Literal(text) => segments[i] == text
         case Param(_) => segments[i] != ""
  }

  /** The first registered route whose verb and path match. */
  function ResolveFrom(routes: seq<Route>, verb: Verb, segments: seq<string>): (r: Option<nat>)
    ensures r.Some? ==> r.value < |routes| && routes[r.value].verb == verb && PathMatches(routes[r.value].path, segments)
    ensures r.Some? ==> forall j :: 0 <= j < r.value ==> !(routes[j].verb == verb && PathMatches(routes[j].path, segments))
    ensures r.None? ==> forall j :: 0 <= j < |routes| ==> !(routes[j].verb == verb && PathMatches(routes[j].path, segments))
  {
    if |routes| == 0 then None
    else if routes[0].verb == verb && PathMatches(routes[0].path, segments) then Some(0)
    else match ResolveFrom(routes[1..], verb, segments)
      case None => None
      case Some(i) => Some(i + 1)
  }

  function Resolve(verb: Verb, segments: seq<string>): (r: Option<Route>)
    ensures r.Some? ==> r.value in PublicRoutes() && GuardedChain(r.value.chain)
  {
    match ResolveFrom(PublicRoutes(), verb, segments)
    case None => None
    case Some(i) => Some(PublicRoutes()[i])
  }

  /** The permission a request must hold to reach a handler. */
  function RequiredPermission(verb: Verb, segments: seq<string>): (p: Option<string>)
    ensures p.Some? ==> p.value != ORDER_DELETE
  {
    match Resolve(verb, segments)
    case None => None
    case Some(route) => Some(route.chain[1].permission)
  }

  /** The table: POST /orders needs `order:create`, PUT /orders/:orderId needs
      `order:update`, and both GET routes need `order:read`. */
  lemma {:induction false} RoutePermissions(orderId: string)
    requires orderId != ""
    ensures RequiredPermission(POST, ["orders"]) == Some(ORDER_CREATE)
    ensures RequiredPermission(PUT, ["orders", orderId]) == Some(ORDER_UPDATE)
    ensures RequiredPermission(GET, ["orders", orderId]) == Some(ORDER_READ)
    ensures RequiredPermission(GET, ["orders"]) == Some(ORDER_READ)
    ensures Resolve(GET, ["orders", orderId]).value.chain[2] == HandlerStage(GetOrderPublic)
    ensures Resolve(GET, ["orders"]).value.chain[2] == HandlerStage(ListOrdersPublic)
  {
    var routes := PublicRoutes();
    assert PathMatches(routes[0].path, ["orders"]);
    assert PathMatches(routes[1].path, ["orders", orderId]);
    assert PathMatches(routes[2].path, ["orders", orderId]);
    assert !PathMatches(routes[2].path, ["orders"]);
    assert PathMatches(routes[3].path, ["orders"]);
  }

  /** The outcome of the first two stages of a chain that guards with `permission`,
      as a function of the stored keys and the request's headers. */
  function Admission(keys: seq<ApiKey>, xApiKey: Option<string>, authorization: Option<string>,
                     now: Time, permission: string): (g: Gate)
    ensures g.Reject? ==> g.code == UNAUTHORIZED || g.code == FORBIDDEN
  {
    var r := Authenticate(keys, xApiKey, authorization, now);
    if r.Authenticated? then RequirePermission(Some(WithLastUsed(r.key, now)), permission)
    else AuthRejection(r)
  }

  /** With unique tokens, a request gets past both middlewares exactly when its
      token is a stored key that is valid now and grants the permission. */
  lemma AdmissionIff(keys: seq<ApiKey>, xApiKey: Option<string>, authorization: Option<string>,
                     now: Time, permission: string)
    requires TokensUnique(keys)
    ensures Admission(keys, xApiKey, authorization, now, permission).Next? <==>
              exists i :: 0 <= i < |keys| && Credential(xApiKey, authorization) == Some(keys[i].key)
                          && IsValid(keys[i], now) && permission in keys[i].permissions
  {
    var c := Credential(xApiKey, authorization);
    if i :| 0 <= i < |keys| && c == Some(keys[i].key) && IsValid(keys[i], now) && permission in keys[i].permissions {
      AuthenticateStoredKey(keys, xApiKey, authorization, now, i);
    }
  }

  /** What becomes of a request to the public API. */
  datatype Dispatch = NoRoute | Rejected(code: nat, message: string, availablePermissions: seq<string>)
                    | Reached(handler: Handler)

  /** The router: find the route, run `apiKeyAuth`, then `requirePermission`,
      then hand over to the route's handler. A handler is reached only by a
      request the two middlewares admitted. A 401 changes nothing; once the key
      is authenticated, the request carries the key (with `lastUsedAt` set),
      its owner as `req.user` and the `apiUser` flag, whether or not the
      permission check then passes, and the `lastUsedAt` save is stored when
      it lands. */
  method HandlePublicRequest(db: Database, req: Request, verb: Verb, segments: seq<string>,
                             now: Time, touchSaved: bool) returns (d: Dispatch)
    requires db.Valid()
    modifies db`apiKeys, req`apiKey, req`user, req`apiUser
    ensures db.Valid()
    ensures Resolve(verb, segments).None? ==> d == NoRoute && unchanged(db) && unchanged(req)
    ensures Resolve(verb, segments).Some? ==>
      var route := Resolve(verb, segments).value;
      var g := Admission(old(db.apiKeys), req.xApiKey, req.authorization, now, route.chain[1].permission);
      && (g.Next? ==> d == Reached(route.chain[2].handler))
      && (g.Reject? ==> d == Rejected(g.code, g.message, g.availablePermissions))
    ensures Resolve(verb, segments).Some? ==>
      var r := Authenticate(old(db.apiKeys), req.xApiKey, req.authorization, now);
      && (!r.Authenticated? ==> unchanged(db) && unchanged(req))
      && (r.Authenticated? ==>
            && req.apiKey == Some(WithLastUsed(r.key, now))
            && req.user == Some(r.key.user)
            && req.apiUser
            && db.apiKeys == if touchSaved then old(db.apiKeys)[r.index := WithLastUsed(r.key, now)]
                             else old(db.apiKeys))
  {
    var route := Resolve(verb, segments);
    if route.None? {
      return NoRoute;
    }
    var chain := route.value.chain;
    var g := ApiKeyAuth(db, req, now, touchSaved);
    if g.Reject? {
      return Rejected(g.code, g.message, g.availablePermissions);
    }
    g := RequirePermission(req.apiKey, chain[1].permission);
    if g.Reject? {
      return Rejected(g.code, g.message, g.availablePermissions);
    }
    d := Reached(chain[2].handler);
  }
}

/** `apiKeyAuth` and `requirePermission`: credential extraction, the
    authentication ladder that binds the principal to the request, and the
    permission guard. */
module ApiKeyMiddleware {
  import opened Common
  import opened Seqs
  import opened ApiKeyModel
  import opened Store

  const BEARER_PREFIX: string := "Bearer "

  const MSG_KEY_REQUIRED: string := "API key is required. Provide it in 'X-API-Key' header."
  const MSG_INVALID_KEY: string := "Invalid API key"
  const MSG_EXPIRED: string := "API key has expired"
  const MSG_REVOKED: string := "API key has been revoked"
  const MSG_AUTH_REQUIRED: string := "API key authentication required"
  const MSG_PERMISSION_DENIED: string := "Permission denied. Required permission: "

  /** `req.headers["x-api-key"] || req.headers["authorization"]`, with a falsy
      result as `None`: `X-API-Key` wins when non-empty. */
  function SelectHeader(xApiKey: Option<string>, authorization: Option<string>): (h: Option<string>)
    ensures h.Some? <==> TruthyString(xApiKey) || TruthyString(authorization)
    ensures TruthyString(xApiKey) ==> h == xApiKey
    ensures !TruthyString(xApiKey) && TruthyString(authorization) ==> h == authorization
  {
    if TruthyString(xApiKey) then xApiKey
    else if TruthyString(authorization) then authorization
    else None
  }

  predicate HasBearerPrefix(h: string) {
    |h| >= |BEARER_PREFIX| && h[..|BEARER_PREFIX|] == BEARER_PREFIX
  }

  /** `startsWith("Bearer ") ? substring(7) : value` */
  function StripBearer(h: string): (token: string)
    ensures HasBearerPrefix(h) ==> BEARER_PREFIX + token == h
    ensures !HasBearerPrefix(h) ==> token == h
    ensures |token| == if HasBearerPrefix(h) then |h| - 7 else |h|
  {
    if HasBearerPrefix(h) then h[|BEARER_PREFIX|..] else h
  }

  /** Whatever follows "Bearer " is presented as the token, verbatim. */
  lemma {:induction false} BearerRoundTrip(token: string)
    ensures StripBearer(BEARER_PREFIX + token) == token
  {
    assert (BEARER_PREFIX + token)[..|BEARER_PREFIX|] == BEARER_PREFIX;
  }

  /** The token the request presents, if any. */
  function Credential(xApiKey: Option<string>, authorization: Option<string>): (c: Option<string>)
    ensures c.None? <==> !TruthyString(xApiKey) && !TruthyString(authorization)
    ensures TruthyString(xApiKey) ==> c == Some(StripBearer(xApiKey.value))
    ensures !TruthyString(xApiKey) && TruthyString(authorization) ==> c == Some(StripBearer(authorization.value))
  {
    match SelectHeader(xApiKey, authorization)
    case None => None
    case Some(h) => Some(StripBearer(h))
  }

  datatype AuthResult =
    | MissingKey
    | UnknownKey
    | RevokedKey
    | ExpiredKey
    | Authenticated(index: nat, key: ApiKey)

  /** The decision ladder of `apiKeyAuth`: missing, then unknown (the first key
      document whose `key` equals the token), then revoked or expired, then success. */
  function Authenticate(keys: seq<ApiKey>, xApiKey: Option<string>, authorization: Option<string>,
                        now: Time): (r: AuthResult)
    ensures r.MissingKey? <==> Credential(xApiKey, authorization).None?
    ensures r.UnknownKey? <==>
              (Credential(xApiKey, authorization).Some? &&
               forall i :: 0 <= i < |keys| ==> keys[i].key != Credential(xApiKey, authorization).value)
    ensures r.Authenticated? ==>
              && r.index < |keys| && r.key == keys[r.index]
              && Credential(xApiKey, authorization) == Some(r.key.key)
              && IsValid(r.key, now)
    ensures r.RevokedKey? ==> exists i :: 0 <= i < |keys| && Credential(xApiKey, authorization) == Some(keys[i].key)
                                          && !keys[i].isActive
    ensures r.ExpiredKey? ==> exists i :: 0 <= i < |keys| && Credential(xApiKey, authorization) == Some(keys[i].key)
                                          && keys[i].isActive && !IsValid(keys[i], now)
  {
    match Credential(xApiKey, authorization)
    case None => MissingKey
    case Some(token) =>
      match FirstIndex(keys, (k: ApiKey) => k.key == token)
      case None => UnknownKey
      case Some(i) =>
        if IsValid(keys[i], now) then Authenticated(i, keys[i])
        else if keys[i].isActive then ExpiredKey
        else RevokedKey
  }

  /** With unique tokens the ladder's outcome for a stored key is decided by that
      key alone: valid gives success, otherwise "revoked" when it is inactive
      (even if it has also expired) and "expired" when it is active. */
  lemma AuthenticateStoredKey(keys: seq<ApiKey>, xApiKey: Option<string>, authorization: Option<string>,
                              now: Time, i: nat)
    requires TokensUnique(keys) && i < |keys|
    requires Credential(xApiKey, authorization) == Some(keys[i].key)
    ensures Authenticate(keys, xApiKey, authorization, now) ==
              if IsValid(keys[i], now) then Authenticated(i, keys[i])
              else if keys[i].isActive then ExpiredKey
              else RevokedKey
  {
  }

  /** How a middleware ends: `next()`, or a JSON error reply. */
  datatype Gate = Next | Reject(code: nat, message: string, availablePermissions: seq<string>)

  /** The 401 reply for each failure of the ladder. */
  function AuthRejection(r: AuthResult): (g: Gate)
    requires !r.Authenticated?
    ensures g.Reject? && g.code == UNAUTHORIZED && g.availablePermissions == []
    ensures r.RevokedKey? <==> g.message == MSG_REVOKED
    ensures r.ExpiredKey? <==> g.message == MSG_EXPIRED
    ensures r.UnknownKey? <==> g.message == MSG_INVALID_KEY
    ensures r.MissingKey? <==> g.message == MSG_KEY_REQUIRED
  {
    match r
    case MissingKey => Reject(UNAUTHORIZED, MSG_KEY_REQUIRED, [])
    case UnknownKey => Reject(UNAUTHORIZED, MSG_INVALID_KEY, [])
    case RevokedKey => Reject(UNAUTHORIZED, MSG_REVOKED, [])
    case ExpiredKey => Reject(UNAUTHORIZED, MSG_EXPIRED, [])
  }

  /** The parts of an Express request the middleware reads and writes. */
  class Request {
    const xApiKey: Option<string>
    const authorization: Option<string>
    var apiKey: Option<ApiKey>
    var user: Option<UserId>
    var apiUser: bool

    constructor (xApiKey: Option<string>, authorization: Option<string>)
      ensures this.xApiKey == xApiKey && this.authorization == authorization
      ensures apiKey.None? && user.None? && !apiUser
    {
      this.xApiKey := xApiKey;
      this.authorization := authorization;
      apiKey, user, apiUser := None, None, false;
    }
  }

  /** `apiKeyAuth`. On success the principal is bound to the request before
      `next()`: `req.apiKey` is the loaded document, whose `lastUsedAt`
      `updateLastUsed` has already set to `now`, `req.user` its owner, and
      `req.apiUser` true. The save of `lastUsedAt` is not awaited: whether it
      lands (`touchSaved`) changes the store but never the outcome. On every
      failure nothing changes. */
  method ApiKeyAuth(db: Database, req: Request, now: Time, touchSaved: bool) returns (g: Gate)
    requires db.Valid()
    modifies db`apiKeys, req`apiKey, req`user, req`apiUser
    ensures db.Valid()
    ensures var r := Authenticate(old(db.apiKeys), req.xApiKey, req.authorization, now);
      && (g.Next? <==> r.Authenticated?)
      && (!r.Authenticated? ==>
            && g == AuthRejection(r)
            && db.apiKeys == old(db.apiKeys)
            && req.apiKey == old(req.apiKey) && req.user == old(req.user) && req.apiUser == old(req.apiUser))
      && (r.Authenticated? ==>
            && req.apiKey == Some(WithLastUsed(r.key, now))
            && req.user == Some(r.key.user)
            && req.apiUser
            && db.apiKeys == if touchSaved then old(db.apiKeys)[r.index := WithLastUsed(r.key, now)]
                             else old(db.apiKeys))
  {
    var header := SelectHeader(req.xApiKey, req.authorization);
    if header.None? {
      return AuthRejection(MissingKey);
    }
    var token := StripBearer(header.value);
    var found := FirstIndex(db.apiKeys, (k: ApiKey) => k.key == token);
    if found.None? {
      return AuthRejection(UnknownKey);
    }
    var apiKey := db.apiKeys[found.value];
    if !IsValid(apiKey, now) {
      return Reject(UNAUTHORIZED, if apiKey.isActive then MSG_EXPIRED else MSG_REVOKED, []);
    }
    if touchSaved {
      db.UpdateLastUsed(found.value, now);
    }
    req.apiKey := Some(WithLastUsed(apiKey, now));
    req.user := Some(apiKey.user);
    req.apiUser := true;
    g := Next;
  }

  /** `requirePermission(permission)`: 403 without a bound key, 403 listing the
      granted permissions when the list lacks `permission`, otherwise `next()`. */
  function RequirePermission(apiKey: Option<ApiKey>, permission: string): (g: Gate)
    ensures g.Next? <==> apiKey.Some? && permission in apiKey.value.permissions
    ensures g.Reject? ==> g.code == FORBIDDEN
    ensures apiKey.None? ==> g == Reject(FORBIDDEN, MSG_AUTH_REQUIRED, [])
    ensures g.Reject? && apiKey.Some? ==>
              g.availablePermissions == apiKey.value.permissions && g.message == MSG_PERMISSION_DENIED + permission
  {
    if apiKey.None? then Reject(FORBIDDEN, MSG_AUTH_REQUIRED, [])
    else if permission !in apiKey.value.permissions then
      Reject(FORBIDDEN, MSG_PERMISSION_DENIED + permission, apiKey.value.permissions)
    else Next
  }
}

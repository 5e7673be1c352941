/** The owner-scoped key store operations: `createApiKey`, `getApiKeys`,
    `getApiKeyById`, `updateApiKey`, `revokeApiKey`. The owner is the
    session's `req.user._id`, passed as `owner`. */
module ApiKeyController {
  import opened Common
  import opened Seqs
  import opened ApiKeyModel
  import opened Store
  import opened ApiKeyMiddleware

  const MSG_NAME_REQUIRED: string := "Name is required"
  const MSG_KEY_NOT_FOUND: string := "API key not found"
  const MSG_CREATE_FAILED: string := "Error creating API key"
  const MSG_UPDATE_FAILED: string := "Error updating API key"
  const MSG_REVOKED_OK: string := "API key revoked successfully"

  datatype CreateKeyBody = CreateKeyBody(
    name: Option<string>,
    description: Option<string>,
    permissions: Option<seq<string>>,
    expiresAt: Option<Time>)

  /** The body of the create reply: the only reply that carries the raw `key`. */
  datatype CreatedKey = CreatedKey(
    id: Id, name: string, key: string, description: Option<string>, permissions: seq<string>,
    isActive: bool, expiresAt: Option<Time>, createdAt: Time)

  /** A key as `select("-key")` returns it: every field but the raw key. */
  datatype KeyView = KeyView(
    id: Id, name: string, user: UserId, description: Option<string>, permissions: seq<string>,
    isActive: bool, lastUsedAt: Option<Time>, expiresAt: Option<Time>, createdAt: Time)

  /** The body of the update reply. */
  datatype UpdatedKey = UpdatedKey(
    id: Id, name: string, description: Option<string>, permissions: seq<string>,
    isActive: bool, expiresAt: Option<Time>, lastUsedAt: Option<Time>)

  function CreatedOf(k: ApiKey): CreatedKey {
    CreatedKey(k.id, k.name, k.key, k.description, k.permissions, k.isActive, k.expiresAt, k.createdAt)
  }

  function ViewOf(k: ApiKey): KeyView {
    KeyView(k.id, k.name, k.user, k.description, k.permissions, k.isActive, k.lastUsedAt, k.expiresAt, k.createdAt)
  }

  function UpdatedOf(k: ApiKey): UpdatedKey {
    UpdatedKey(k.id, k.name, k.description, k.permissions, k.isActive, k.expiresAt, k.lastUsedAt)
  }

  /** `findOne({ _id: apiKeyId, user: userId })` */
  function OwnedKeyIndex(keys: seq<ApiKey>, id: Id, owner: UserId): (r: Option<nat>)
    ensures r.Some? ==> r.value < |keys| && keys[r.value].id == id && keys[r.value].user == owner
    ensures r.None? <==> forall i :: 0 <= i < |keys| ==> !(keys[i].id == id && keys[i].user == owner)
  {
    FirstIndex(keys, (k: ApiKey) => k.id == id && k.user == owner)
  }

  predicate TokenTaken(keys: seq<ApiKey>, token: string) {
    exists i :: 0 <= i < |keys| && keys[i].key == token
  }

  /** `expiresAt || null`: a falsy expiry (absent, null or 0) is stored as no
      expiry at all. */
  function StoredExpiry(expiresAt: Option<Time>): (e: Option<Time>)
    ensures e.Some? <==> TruthyNumber(expiresAt)
    ensures e.Some? ==> e == expiresAt
  {
    if TruthyNumber(expiresAt) then expiresAt else None
  }

  /** A key created with a falsy expiry never expires. */
  lemma FalsyExpiryNeverExpires(id: Id, name: string, key: string, owner: UserId, description: Option<string>,
                                permissions: Option<seq<string>>, expiresAt: Option<Time>, now: Time)
    requires !TruthyNumber(expiresAt)
    ensures forall t :: IsValid(NewApiKey(id, name, key, owner, description, permissions,
                                          StoredExpiry(expiresAt), now), t)
  {
  }

  /** `createApiKey`. A missing name gives 400 and stores nothing. Otherwise a key
      is generated and a document built with the defaults; a save that the
      schema validators or the unique index reject gives 500 and stores nothing;
      a save that succeeds appends the document and one audit entry and replies
      201 with the raw key. */
  method CreateApiKey(db: Database, owner: UserId, ipAddress: string, now: Time,
                      body: CreateKeyBody, randomBytes: seq<byte>) returns (r: Reply<CreatedKey>)
    requires db.Valid() && |randomBytes| == KEY_RANDOM_BYTES
    modifies db`apiKeys, db`audit, db`nextId
    ensures db.Valid()
    ensures !TruthyString(body.name) ==>
              r == Err(BAD_REQUEST, MSG_NAME_REQUIRED) && db.apiKeys == old(db.apiKeys) && db.audit == old(db.audit)
    ensures TruthyString(body.name) ==>
      var k := NewApiKey(old(db.nextId), body.name.value, GenerateKey(randomBytes), owner, body.description,
                         body.permissions, StoredExpiry(body.expiresAt), now);
      if !ApiKeySchemaValid(k) || TokenTaken(old(db.apiKeys), k.key) then
        r == Err(SERVER_ERROR, MSG_CREATE_FAILED) && db.apiKeys == old(db.apiKeys) && db.audit == old(db.audit)
      else
        && r == Ok(CREATED, CreatedOf(k))
        && db.apiKeys == old(db.apiKeys) + [k]
        && db.audit == old(db.audit) + [AuditEntry("Create API Key", "API key \"" + k.name + "\" was created.",
                                                   "apiKey", k.id, owner, ipAddress, now)]
        && GetApiKeyById(db.apiKeys, k.id, owner) == Ok(OK, ViewOf(k))
  {
    if !TruthyString(body.name) {
      return Err(BAD_REQUEST, MSG_NAME_REQUIRED);
    }
    var name := body.name.value;
    var key := GenerateKey(randomBytes);
    var id := db.FreshId();
    var newApiKey := NewApiKey(id, name, key, owner, body.description, body.permissions, StoredExpiry(body.expiresAt), now);
    var clash := FirstIndex(db.apiKeys, (k: ApiKey) => k.key == key);
    if !ApiKeySchemaValid(newApiKey) || clash.Some? {
      return Err(SERVER_ERROR, MSG_CREATE_FAILED);
    }
    db.InsertApiKey(newApiKey);
    GetApiKeyByIdFinds(db.apiKeys, |db.apiKeys| - 1);
    db.LogActivity("Create API Key", "API key \"" + name + "\" was created.", "apiKey", id, owner, ipAddress, now);
    r := Ok(CREATED, CreatedOf(newApiKey));
  }

  /** The caller's key documents, each once as stored, newest first. */
  function OwnedNewestFirst(keys: seq<ApiKey>, owner: UserId): (s: seq<ApiKey>)
    ensures forall j :: 0 <= j < |s| ==> s[j].user == owner && s[j] in keys
    ensures forall i :: 0 <= i < |keys| && keys[i].user == owner ==> keys[i] in s
    ensures forall k :: multiset(s)[k] == if k.user == owner then multiset(keys)[k] else 0
    ensures forall j, l :: 0 <= j < l < |s| ==> s[j].createdAt >= s[l].createdAt
  {
    SelectNewestFirst(keys, (k: ApiKey) => k.user == owner, (k: ApiKey) => k.createdAt)
  }

  function Views(ks: seq<ApiKey>): (vs: seq<KeyView>)
    ensures |vs| == |ks| && forall j :: 0 <= j < |ks| ==> vs[j] == ViewOf(ks[j])
  {
    if |ks| == 0 then [] else [ViewOf(ks[0])] + Views(ks[1..])
  }

  lemma ViewOfMember(k: ApiKey, s: seq<ApiKey>)
    requires k in s
    ensures ViewOf(k) in Views(s)
  {
    var j :| 0 <= j < |s| && s[j] == k;
    assert Views(s)[j] == ViewOf(k);
  }

  /** Each of the owner's documents is shown. */
  lemma ViewsCoverOwned(keys: seq<ApiKey>, owner: UserId, s: seq<ApiKey>)
    requires forall i :: 0 <= i < |keys| && keys[i].user == owner ==> keys[i] in s
    ensures forall i :: 0 <= i < |keys| && keys[i].user == owner ==> ViewOf(keys[i]) in Views(s)
  {
    forall i | 0 <= i < |keys| && keys[i].user == owner
      ensures ViewOf(keys[i]) in Views(s)
    {
      ViewOfMember(keys[i], s);
    }
  }

  /** `v` shows one of `owner`'s documents. */
  predicate ViewOfOwned(keys: seq<ApiKey>, owner: UserId, v: KeyView) {
    exists i :: 0 <= i < |keys| && keys[i].user == owner && ViewOf(keys[i]) == v
  }

  /** Each view shown is one of the owner's documents. */
  lemma ViewsFromOwned(keys: seq<ApiKey>, owner: UserId, s: seq<ApiKey>)
    requires forall j :: 0 <= j < |s| ==> s[j].user == owner && s[j] in keys
    ensures forall j :: 0 <= j < |s| ==> ViewOfOwned(keys, owner, Views(s)[j])
  {
    forall j | 0 <= j < |s|
      ensures ViewOfOwned(keys, owner, Views(s)[j])
    {
      ViewFromOwned(keys, owner, s, j);
    }
  }

  lemma ViewFromOwned(keys: seq<ApiKey>, owner: UserId, s: seq<ApiKey>, j: nat)
    requires j < |s| && s[j].user == owner && s[j] in keys
    ensures ViewOfOwned(keys, owner, Views(s)[j])
  {
  }

  /** `getApiKeys`: the caller's keys and no one else's, newest first, without
      the raw key. */
  function GetApiKeys(keys: seq<ApiKey>, owner: UserId): (r: seq<KeyView>)
    ensures forall j :: 0 <= j < |r| ==> r[j].user == owner
    ensures forall i :: 0 <= i < |keys| && keys[i].user == owner ==> ViewOf(keys[i]) in r
    ensures forall j :: 0 <= j < |r| ==> ViewOfOwned(keys, owner, r[j])
    ensures forall j, l :: 0 <= j < l < |r| ==> r[j].createdAt >= r[l].createdAt
    ensures |r| == |OwnedNewestFirst(keys, owner)|
  {
    var s := OwnedNewestFirst(keys, owner);
    ViewsCoverOwned(keys, owner, s);
    ViewsFromOwned(keys, owner, s);
    Views(s)
  }

  /** `getApiKeyById`: found only when both the id and the owner match; another
      user's key reads as 404. */
  function GetApiKeyById(keys: seq<ApiKey>, id: Id, owner: UserId): (r: Reply<KeyView>)
    ensures r.Ok? <==> exists i :: 0 <= i < |keys| && keys[i].id == id && keys[i].user == owner
    ensures r.Ok? ==> r.code == OK && exists i :: 0 <= i < |keys| && keys[i].id == id && keys[i].user == owner
                                                  && r.value == ViewOf(keys[i])
    ensures r.Err? ==> r == Err(NOT_FOUND, MSG_KEY_NOT_FOUND)
  {
    match OwnedKeyIndex(keys, id, owner)
    case None => Err(NOT_FOUND, MSG_KEY_NOT_FOUND)
    case Some(i) => Ok(OK, ViewOf(keys[i]))
  }

  /** With distinct ids, the document found is the one stored under that id. */
  lemma GetApiKeyByIdFinds(keys: seq<ApiKey>, i: nat)
    requires KeyIdsDistinct(keys) && i < |keys|
    ensures GetApiKeyById(keys, keys[i].id, keys[i].user) == Ok(OK, ViewOf(keys[i]))
  {
    var found := OwnedKeyIndex(keys, keys[i].id, keys[i].user);
    assert found.Some?;
  }

  /** The fields of an update body; `None` is `undefined` and `Some(None)` an
      explicit `null`. A null `name` is written as `""`, which the required
      validator refuses exactly as it refuses null; a null `isActive` is written
      as `false`, which `isValid` and the middleware read exactly as they read
      null. */
  datatype KeyPatch = KeyPatch(
    name: Option<Option<string>>,
    description: Option<Option<string>>,
    permissions: Option<seq<string>>,
    isActive: Option<Option<bool>>,
    expiresAt: Option<Option<Time>>)

  /** The assignments of `updateApiKey`: each supplied field among name,
      description, permissions, isActive and expiresAt is written, null
      included, and every other field keeps its value. */
  function ApplyKeyPatch(k: ApiKey, p: KeyPatch): (k': ApiKey)
    ensures k'.id == k.id && k'.key == k.key && k'.user == k.user
    ensures k'.lastUsedAt == k.lastUsedAt && k'.createdAt == k.createdAt
    ensures k'.name == (if p.name.Some? then p.name.value.GetOr("") else k.name)
    ensures k'.description == (if p.description.Some? then p.description.value else k.description)
    ensures k'.permissions == (if p.permissions.Some? then p.permissions.value else k.permissions)
    ensures k'.isActive == (if p.isActive.Some? then p.isActive.value.GetOr(false) else k.isActive)
    ensures k'.expiresAt == (if p.expiresAt.Some? then p.expiresAt.value else k.expiresAt)
  {
    k.(name := if p.name.Some? then p.name.value.GetOr("") else k.name,
       description := p.description.GetOr(k.description),
       permissions := p.permissions.GetOr(k.permissions),
       isActive := if p.isActive.Some? then p.isActive.value.GetOr(false) else k.isActive,
       expiresAt := p.expiresAt.GetOr(k.expiresAt))
  }

  /** An update that sets `name` to null or `""` fails validation on save. */
  lemma NullNameIsRefused(k: ApiKey, p: KeyPatch)
    requires p.name == Some(None) || p.name == Some(Some(""))
    ensures !ApiKeySchemaValid(ApplyKeyPatch(k, p))
  {
  }

  /** Applying the same update twice is applying it once, and an empty update
      changes nothing. */
  lemma ApplyKeyPatchIdempotent(k: ApiKey, p: KeyPatch)
    ensures ApplyKeyPatch(ApplyKeyPatch(k, p), p) == ApplyKeyPatch(k, p)
    ensures ApplyKeyPatch(k, KeyPatch(None, None, None, None, None)) == k
  {
  }

  /** Setting `isActive` to false or null revokes the key for every later
      request, and this wins over any expiry the same update sets. */
  lemma DeactivatedKeyIsRejectedAsRevoked(keys: seq<ApiKey>, i: nat, p: KeyPatch, now: Time)
    requires TokensUnique(keys) && i < |keys| && (p.isActive == Some(Some(false)) || p.isActive == Some(None))
    ensures Authenticate(keys[i := ApplyKeyPatch(keys[i], p)], None, Some(BEARER_PREFIX + keys[i].key), now)
              == RevokedKey
  {
    var updated := keys[i := ApplyKeyPatch(keys[i], p)];
    assert TokensUnique(updated) by {
      forall a, b | 0 <= a < b < |updated| ensures updated[a].key != updated[b].key {
        assert updated[a].key == keys[a].key && updated[b].key == keys[b].key;
      }
    }
    BearerRoundTrip(keys[i].key);
    assert Credential(None, Some(BEARER_PREFIX + keys[i].key)) == Some(updated[i].key);
    AuthenticateStoredKey(updated, None, Some(BEARER_PREFIX + keys[i].key), now, i);
  }

  /** `updateApiKey`. Not found (wrong id or another owner's key) gives 404 and
      changes nothing. Otherwise the supplied fields are assigned; a save the
      validators reject gives 500 and changes nothing; a save that succeeds
      replaces the document in place and appends one audit entry. */
  method UpdateApiKey(db: Database, id: Id, owner: UserId, ipAddress: string, now: Time,
                      patch: KeyPatch) returns (r: Reply<UpdatedKey>)
    requires db.Valid()
    modifies db`apiKeys, db`audit
    ensures db.Valid()
    ensures OwnedKeyIndex(old(db.apiKeys), id, owner).None? ==>
              r == Err(NOT_FOUND, MSG_KEY_NOT_FOUND) && db.apiKeys == old(db.apiKeys) && db.audit == old(db.audit)
    ensures OwnedKeyIndex(old(db.apiKeys), id, owner).Some? ==>
      var i := OwnedKeyIndex(old(db.apiKeys), id, owner).value;
      var k' := ApplyKeyPatch(old(db.apiKeys)[i], patch);
      if !ApiKeySchemaValid(k') then
        r == Err(SERVER_ERROR, MSG_UPDATE_FAILED) && db.apiKeys == old(db.apiKeys) && db.audit == old(db.audit)
      else
        && r == Ok(OK, UpdatedOf(k'))
        && db.apiKeys == old(db.apiKeys)[i := k']
        && db.audit == old(db.audit) + [AuditEntry("Update API Key", "API key \"" + k'.name + "\" was updated.",
                                                   "apiKey", id, owner, ipAddress, now)]
        && GetApiKeyById(db.apiKeys, id, owner) == Ok(OK, ViewOf(k'))
  {
    var found := OwnedKeyIndex(db.apiKeys, id, owner);
    if found.None? {
      return Err(NOT_FOUND, MSG_KEY_NOT_FOUND);
    }
    var i := found.value;
    var apiKey := ApplyKeyPatch(db.apiKeys[i], patch);
    if !ApiKeySchemaValid(apiKey) {
      return Err(SERVER_ERROR, MSG_UPDATE_FAILED);
    }
    db.apiKeys := db.apiKeys[i := apiKey];
    GetApiKeyByIdFinds(db.apiKeys, i);
    db.LogActivity("Update API Key", "API key \"" + apiKey.name + "\" was updated.", "apiKey", id, owner, ipAddress, now);
    r := Ok(OK, UpdatedOf(apiKey));
  }

  /** After a hard delete the token matches no document: presenting it as a
      bearer token is answered "Invalid API key", not "revoked". */
  lemma {:induction false} RevokedTokenIsUnknown(keys: seq<ApiKey>, i: nat, now: Time)
    requires TokensUnique(keys) && i < |keys|
    ensures Authenticate(RemoveAt(keys, i), None, Some(BEARER_PREFIX + keys[i].key), now) == UnknownKey
  {
    BearerRoundTrip(keys[i].key);
    var rest := RemoveAt(keys, i);
    assert Credential(None, Some(BEARER_PREFIX + keys[i].key)) == Some(keys[i].key);
    forall j | 0 <= j < |rest| ensures rest[j].key != keys[i].key {
      if j < i {
        assert rest[j] == keys[j];
      } else {
        assert rest[j] == keys[j + 1];
      }
    }
  }

  /** `revokeApiKey`. Not found gives 404 and changes nothing; otherwise the
      document is deleted and one audit entry appended. */
  method RevokeApiKey(db: Database, id: Id, owner: UserId, ipAddress: string, now: Time)
    returns (r: Reply<string>)
    requires db.Valid()
    modifies db`apiKeys, db`audit
    ensures db.Valid()
    ensures OwnedKeyIndex(old(db.apiKeys), id, owner).None? ==>
              r == Err(NOT_FOUND, MSG_KEY_NOT_FOUND) && db.apiKeys == old(db.apiKeys) && db.audit == old(db.audit)
    ensures OwnedKeyIndex(old(db.apiKeys), id, owner).Some? ==>
      var i := OwnedKeyIndex(old(db.apiKeys), id, owner).value;
      && r == Ok(OK, MSG_REVOKED_OK)
      && db.apiKeys == RemoveAt(old(db.apiKeys), i)
      && db.audit == old(db.audit) + [AuditEntry("Revoke API Key", "API key \"" + old(db.apiKeys)[i].name + "\" was revoked.",
                                                 "apiKey", id, owner, ipAddress, now)]
    ensures GetApiKeyById(db.apiKeys, id, owner) == Err(NOT_FOUND, MSG_KEY_NOT_FOUND)
  {
    var found := OwnedKeyIndex(db.apiKeys, id, owner);
    if found.None? {
      return Err(NOT_FOUND, MSG_KEY_NOT_FOUND);
    }
    var i := found.value;
    var apiKey := db.apiKeys[i];
    ghost var before := db.apiKeys;
    db.apiKeys := RemoveAt(db.apiKeys, i);
    forall j | 0 <= j < |db.apiKeys| ensures db.apiKeys[j].id != id {
      if j < i { assert db.apiKeys[j] == before[j]; } else { assert db.apiKeys[j] == before[j + 1]; }
    }
    db.LogActivity("Revoke API Key", "API key \"" + apiKey.name + "\" was revoked.", "apiKey", id, owner, ipAddress, now);
    r := Ok(OK, MSG_REVOKED_OK);
  }
}

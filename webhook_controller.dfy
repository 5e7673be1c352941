/** The owner-scoped webhook registrations: `createWebhook`, `getWebhooks`,
    `getWebhookById`, `updateWebhook`, `deleteWebhook`. No operation here
    delivers a webhook: `lastTriggeredAt` and `failureCount` keep their
    defaults. */
module WebhookController {
  import opened Common
  import opened Seqs
  import opened WebhookModel
  import opened Store

  const MSG_NAME_REQUIRED: string := "Name is required"
  const MSG_URL_REQUIRED: string := "URL is required"
  const MSG_WEBHOOK_NOT_FOUND: string := "Webhook not found"
  const MSG_CREATE_FAILED: string := "Error creating webhook"
  const MSG_UPDATE_FAILED: string := "Error updating webhook"
  const MSG_DELETED_OK: string := "Webhook deleted successfully"

  datatype CreateWebhookBody = CreateWebhookBody(
    name: Option<string>,
    url: Option<string>,
    description: Option<string>,
    events: Option<seq<string>>,
    secret: Option<string>)

  /** The body of the create reply; unlike an API key's, it echoes the secret. */
  datatype CreatedWebhook = CreatedWebhook(
    id: Id, name: string, url: string, description: Option<string>, events: seq<string>,
    isActive: bool, secret: Option<string>, createdAt: Time)

  /** The body of the update reply. */
  datatype UpdatedWebhook = UpdatedWebhook(
    id: Id, name: string, url: string, description: Option<string>, events: seq<string>,
    isActive: bool, secret: Option<string>, lastTriggeredAt: Option<Time>, failureCount: int)

  function CreatedOf(w: Webhook): CreatedWebhook {
    CreatedWebhook(w.id, w.name, w.url, w.description, w.events, w.isActive, w.secret, w.createdAt)
  }

  function UpdatedOf(w: Webhook): UpdatedWebhook {
    UpdatedWebhook(w.id, w.name, w.url, w.description, w.events, w.isActive, w.secret, w.lastTriggeredAt, w.failureCount)
  }

  /** `findOne({ _id: webhookId, user: userId })` */
  function OwnedWebhookIndex(hooks: seq<Webhook>, id: Id, owner: UserId): (r: Option<nat>)
    ensures r.Some? ==> r.value < |hooks| && hooks[r.value].id == id && hooks[r.value].user == owner
    ensures r.None? <==> forall i :: 0 <= i < |hooks| ==> !(hooks[i].id == id && hooks[i].user == owner)
  {
    FirstIndex(hooks, (w: Webhook) => w.id == id && w.user == owner)
  }

  /** `getWebhookById`: the document when both the id and the owner match, 404
      otherwise. */
  function GetWebhookById(hooks: seq<Webhook>, id: Id, owner: UserId): (r: Reply<Webhook>)
    ensures r.Ok? <==> exists i :: 0 <= i < |hooks| && hooks[i].id == id && hooks[i].user == owner
    ensures r.Ok? ==> r.code == OK && r.value in hooks && r.value.id == id && r.value.user == owner
    ensures r.Err? ==> r == Err(NOT_FOUND, MSG_WEBHOOK_NOT_FOUND)
  {
    match OwnedWebhookIndex(hooks, id, owner)
    case None => Err(NOT_FOUND, MSG_WEBHOOK_NOT_FOUND)
    case Some(i) => Ok(OK, hooks[i])
  }

  /** With distinct ids, the document found is the one stored under that id. */
  lemma GetWebhookByIdFinds(hooks: seq<Webhook>, i: nat)
    requires WebhookIdsDistinct(hooks) && i < |hooks|
    ensures GetWebhookById(hooks, hooks[i].id, hooks[i].user) == Ok(OK, hooks[i])
  {
    var found := OwnedWebhookIndex(hooks, hooks[i].id, hooks[i].user);
    assert found.Some?;
  }

  /** `createWebhook`. A missing name, then a missing url, gives 400 and stores
      nothing. Otherwise a document is built with `events` defaulting to
      `["order.completed"]`; a save the validators reject (an event outside the
      enum) gives 500 and stores nothing; a save that succeeds appends the
      document and one audit entry, replies 201, and the new webhook can be
      fetched by its owner. */
  method CreateWebhook(db: Database, owner: UserId, ipAddress: string, now: Time, body: CreateWebhookBody)
    returns (r: Reply<CreatedWebhook>)
    requires db.Valid()
    modifies db`webhooks, db`audit, db`nextId
    ensures db.Valid()
    ensures !TruthyString(body.name) ==>
              r == Err(BAD_REQUEST, MSG_NAME_REQUIRED) && db.webhooks == old(db.webhooks) && db.audit == old(db.audit)
    ensures TruthyString(body.name) && !TruthyString(body.url) ==>
              r == Err(BAD_REQUEST, MSG_URL_REQUIRED) && db.webhooks == old(db.webhooks) && db.audit == old(db.audit)
    ensures TruthyString(body.name) && TruthyString(body.url) ==>
      var w := NewWebhook(old(db.nextId), body.name.value, body.url.value, owner, body.description,
                          body.events, body.secret, now);
      if !WebhookSchemaValid(w) then
        r == Err(SERVER_ERROR, MSG_CREATE_FAILED) && db.webhooks == old(db.webhooks) && db.audit == old(db.audit)
      else
        && r == Ok(CREATED, CreatedOf(w))
        && db.webhooks == old(db.webhooks) + [w]
        && db.audit == old(db.audit) + [AuditEntry("Create Webhook", "Webhook \"" + w.name + "\" was created.",
                                                   "webhook", w.id, owner, ipAddress, now)]
        && GetWebhookById(db.webhooks, w.id, owner) == Ok(OK, w)
  {
    if !TruthyString(body.name) {
      return Err(BAD_REQUEST, MSG_NAME_REQUIRED);
    }
    if !TruthyString(body.url) {
      return Err(BAD_REQUEST, MSG_URL_REQUIRED);
    }
    var name := body.name.value;
    var id := db.FreshId();
    var newWebhook := NewWebhook(id, name, body.url.value, owner, body.description, body.events, body.secret, now);
    if !WebhookSchemaValid(newWebhook) {
      return Err(SERVER_ERROR, MSG_CREATE_FAILED);
    }
    db.webhooks := db.webhooks + [newWebhook];
    GetWebhookByIdFinds(db.webhooks, |db.webhooks| - 1);
    db.LogActivity("Create Webhook", "Webhook \"" + name + "\" was created.", "webhook", id, owner, ipAddress, now);
    r := Ok(CREATED, CreatedOf(newWebhook));
  }

  /** `getWebhooks`: the caller's webhooks and no one else's, each once as
      stored, newest first. */
  function GetWebhooks(hooks: seq<Webhook>, owner: UserId): (r: seq<Webhook>)
    ensures forall j :: 0 <= j < |r| ==> r[j].user == owner && r[j] in hooks
    ensures forall i :: 0 <= i < |hooks| && hooks[i].user == owner ==> hooks[i] in r
    ensures forall w :: multiset(r)[w] == if w.user == owner then multiset(hooks)[w] else 0
    ensures forall j, l :: 0 <= j < l < |r| ==> r[j].createdAt >= r[l].createdAt
  {
    SelectNewestFirst(hooks, (w: Webhook) => w.user == owner, (w: Webhook) => w.createdAt)
  }

  /** The fields of an update body; `None` is `undefined` and `Some(None)` an
      explicit `null`. A null `name` or `url` is written as `""`, which the
      required validators refuse exactly as they refuse null; a null `isActive`
      is written as `false`, the falsy value it reads as. */
  datatype WebhookPatch = WebhookPatch(
    name: Option<Option<string>>,
    url: Option<Option<string>>,
    description: Option<Option<string>>,
    events: Option<seq<string>>,
    isActive: Option<Option<bool>>,
    secret: Option<Option<string>>)

  /** The assignments of `updateWebhook`: each supplied field among name, url,
      description, events, isActive and secret is written; the delivery
      bookkeeping (`lastTriggeredAt`, `failureCount`), the owner and the id are
      never touched. */
  function ApplyWebhookPatch(w: Webhook, p: WebhookPatch): (w': Webhook)
    ensures w'.id == w.id && w'.user == w.user && w'.createdAt == w.createdAt
    ensures w'.lastTriggeredAt == w.lastTriggeredAt && w'.failureCount == w.failureCount
    ensures w'.name == (if p.name.Some? then p.name.value.GetOr("") else w.name)
    ensures w'.url == (if p.url.Some? then p.url.value.GetOr("") else w.url)
    ensures w'.description == (if p.description.Some? then p.description.value else w.description)
    ensures w'.events == (if p.events.Some? then p.events.value else w.events)
    ensures w'.isActive == (if p.isActive.Some? then p.isActive.value.GetOr(false) else w.isActive)
    ensures w'.secret == (if p.secret.Some? then p.secret.value else w.secret)
  {
    w.(name := if p.name.Some? then p.name.value.GetOr("") else w.name,
       url := if p.url.Some? then p.url.value.GetOr("") else w.url,
       description := p.description.GetOr(w.description),
       events := p.events.GetOr(w.events),
       isActive := if p.isActive.Some? then p.isActive.value.GetOr(false) else w.isActive,
       secret := p.secret.GetOr(w.secret))
  }

  /** An update that sets `name` or `url` to null or `""` fails validation on
      save. */
  lemma NullNameOrUrlIsRefused(w: Webhook, p: WebhookPatch)
    requires p.name == Some(None) || p.name == Some(Some("")) || p.url == Some(None) || p.url == Some(Some(""))
    ensures !WebhookSchemaValid(ApplyWebhookPatch(w, p))
  {
  }

  /** Applying the same update twice is applying it once, and an empty update
      changes nothing. */
  lemma ApplyWebhookPatchIdempotent(w: Webhook, p: WebhookPatch)
    ensures ApplyWebhookPatch(ApplyWebhookPatch(w, p), p) == ApplyWebhookPatch(w, p)
    ensures ApplyWebhookPatch(w, WebhookPatch(None, None, None, None, None, None)) == w
  {
  }

  /** `updateWebhook`. Not found gives 404 and changes nothing. Otherwise the
      supplied fields are assigned; a save the validators reject gives 500 and
      changes nothing; a save that succeeds replaces the document in place,
      appends one audit entry, and a later fetch returns the updated document. */
  method UpdateWebhook(db: Database, id: Id, owner: UserId, ipAddress: string, now: Time, patch: WebhookPatch)
    returns (r: Reply<UpdatedWebhook>)
    requires db.Valid()
    modifies db`webhooks, db`audit
    ensures db.Valid()
    ensures OwnedWebhookIndex(old(db.webhooks), id, owner).None? ==>
              r == Err(NOT_FOUND, MSG_WEBHOOK_NOT_FOUND) && db.webhooks == old(db.webhooks) && db.audit == old(db.audit)
    ensures OwnedWebhookIndex(old(db.webhooks), id, owner).Some? ==>
      var i := OwnedWebhookIndex(old(db.webhooks), id, owner).value;
      var w' := ApplyWebhookPatch(old(db.webhooks)[i], patch);
      if !WebhookSchemaValid(w') then
        r == Err(SERVER_ERROR, MSG_UPDATE_FAILED) && db.webhooks == old(db.webhooks) && db.audit == old(db.audit)
      else
        && r == Ok(OK, UpdatedOf(w'))
        && db.webhooks == old(db.webhooks)[i := w']
        && db.audit == old(db.audit) + [AuditEntry("Update Webhook", "Webhook \"" + w'.name + "\" was updated.",
                                                   "webhook", id, owner, ipAddress, now)]
        && GetWebhookById(db.webhooks, id, owner) == Ok(OK, w')
  {
    var found := OwnedWebhookIndex(db.webhooks, id, owner);
    if found.None? {
      return Err(NOT_FOUND, MSG_WEBHOOK_NOT_FOUND);
    }
    var i := found.value;
    var webhook := ApplyWebhookPatch(db.webhooks[i], patch);
    if !WebhookSchemaValid(webhook) {
      return Err(SERVER_ERROR, MSG_UPDATE_FAILED);
    }
    db.webhooks := db.webhooks[i := webhook];
    GetWebhookByIdFinds(db.webhooks, i);
    db.LogActivity("Update Webhook", "Webhook \"" + webhook.name + "\" was updated.", "webhook", id, owner, ipAddress, now);
    r := Ok(OK, UpdatedOf(webhook));
  }

  /** `deleteWebhook`. Not found gives 404 and changes nothing; otherwise the
      document is deleted, one audit entry appended, and a later fetch is 404. */
  method DeleteWebhook(db: Database, id: Id, owner: UserId, ipAddress: string, now: Time)
    returns (r: Reply<string>)
    requires db.Valid()
    modifies db`webhooks, db`audit
    ensures db.Valid()
    ensures OwnedWebhookIndex(old(db.webhooks), id, owner).None? ==>
              r == Err(NOT_FOUND, MSG_WEBHOOK_NOT_FOUND) && db.webhooks == old(db.webhooks) && db.audit == old(db.audit)
    ensures OwnedWebhookIndex(old(db.webhooks), id, owner).Some? ==>
      var i := OwnedWebhookIndex(old(db.webhooks), id, owner).value;
      && r == Ok(OK, MSG_DELETED_OK)
      && db.webhooks == RemoveAt(old(db.webhooks), i)
      && db.audit == old(db.audit) + [AuditEntry("Delete Webhook", "Webhook \"" + old(db.webhooks)[i].name + "\" was deleted.",
                                                 "webhook", id, owner, ipAddress, now)]
    ensures GetWebhookById(db.webhooks, id, owner) == Err(NOT_FOUND, MSG_WEBHOOK_NOT_FOUND)
  {
    var found := OwnedWebhookIndex(db.webhooks, id, owner);
    if found.None? {
      return Err(NOT_FOUND, MSG_WEBHOOK_NOT_FOUND);
    }
    var i := found.value;
    var webhook := db.webhooks[i];
    ghost var before := db.webhooks;
    db.webhooks := RemoveAt(db.webhooks, i);
    forall j | 0 <= j < |db.webhooks| ensures db.webhooks[j].id != id {
      if j < i { assert db.webhooks[j] == before[j]; } else { assert db.webhooks[j] == before[j + 1]; }
    }
    db.LogActivity("Delete Webhook", "Webhook \"" + webhook.name + "\" was deleted.", "webhook", id, owner, ipAddress, now);
    r := Ok(OK, MSG_DELETED_OK);
  }
}

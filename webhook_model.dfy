/** The Webhook document: required fields, the event enum and the defaults. */
module WebhookModel {
  import opened Common

  const EVENT_COMPLETED: string := "order.completed"
  const EVENT_PROCESSING: string := "order.processing"
  const EVENT_RECEIVED: string := "order.received"

  /** The `enum` of the `events` field. */
  const EventVocabulary: set<string> := {EVENT_COMPLETED, EVENT_PROCESSING, EVENT_RECEIVED}
  /** The `default` of the `events` field. */
  const DefaultEvents: seq<string> := [EVENT_COMPLETED]

  datatype Webhook = Webhook(
    id: Id,
    name: string,
    url: string,
    user: UserId,
    description: Option<string>,
    events: seq<string>,
    isActive: bool,
    secret: Option<string>,
    lastTriggeredAt: Option<Time>,
    failureCount: int,
    createdAt: Time)

  /** What the schema's validators demand on every save: non-empty `name` and
      `url` and every event from the enum (`user` is always set by construction). */
  predicate WebhookSchemaValid(w: Webhook) {
    && w.name != ""
    && w.url != ""
    && forall i :: 0 <= i < |w.events| ==> w.events[i] in EventVocabulary
  }

  /** A document built with the schema's defaults. */
  function NewWebhook(id: Id, name: string, url: string, user: UserId, description: Option<string>,
                      events: Option<seq<string>>, secret: Option<string>, now: Time): (w: Webhook)
    ensures w.id == id && w.name == name && w.url == url && w.user == user && w.createdAt == now
    ensures w.description == description && w.secret == secret
    ensures w.isActive && w.failureCount == 0 && w.lastTriggeredAt.None?
    ensures events.Some? ==> w.events == events.value
    ensures events.None? ==> w.events == DefaultEvents
    ensures events.None? && name != "" && url != "" ==> WebhookSchemaValid(w)
  {
    Webhook(id, name, url, user, description, events.GetOr(DefaultEvents), true, secret, None, 0, now)
  }
}

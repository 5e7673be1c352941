/** `sendOrderUpdate` and `sendOrderCreation`: where each post goes, the payload
    it carries, and how the outcome is returned. */
module ExternalApiClient {
  import opened Common
  import opened OrderModel
  import opened Http

  /** The `orderData` object a caller hands over; every field may be absent. */
  datatype OrderData = OrderData(
    objectId: Option<string>,       // `_id`
    id: Option<string>,
    user: Option<UserId>,
    description: Option<string>,    // `Description`
    product: ProductLine,           // `Product`
    totalAmount: Option<int>,
    status: Option<string>,
    packages: Option<seq<Package>>,
    createdAt: Option<Time>,
    updatedAt: Option<Time>)

  /** `orderData._id || orderData.id` */
  function PayloadOrderId(d: OrderData): (r: Option<string>)
    ensures TruthyString(d.objectId) ==> r == d.objectId
    ensures !TruthyString(d.objectId) ==> r == d.id
  {
    if TruthyString(d.objectId) then d.objectId else d.id
  }

  /** The order fields both payloads copy; missing packages become `[]`. */
  function FieldsOf(d: OrderData): (f: OrderFields)
    ensures f.orderId == PayloadOrderId(d)
    ensures f.user == d.user && f.description == d.description && f.product == d.product
    ensures f.totalAmount == d.totalAmount && f.status == d.status
    ensures d.packages.Some? ==> f.packages == d.packages.value
    ensures d.packages.None? ==> f.packages == []
  {
    OrderFields(PayloadOrderId(d), d.user, d.description, d.product, d.totalAmount, d.status,
                d.packages.GetOr([]))
  }

  /** `EXTERNAL_API_URL`, when set and non-empty. */
  function UpdateDestination(config: ExternalConfig): (u: Option<string>)
    ensures u.Some? <==> TruthyString(config.apiUrl)
    ensures u.Some? ==> u == config.apiUrl
  {
    if TruthyString(config.apiUrl) then config.apiUrl else None
  }

  /** `EXTERNAL_API_CREATE_URL || EXTERNAL_API_URL`, when that is non-empty. */
  function CreationDestination(config: ExternalConfig): (u: Option<string>)
    ensures u.Some? <==> TruthyString(config.createUrl) || TruthyString(config.apiUrl)
    ensures TruthyString(config.createUrl) ==> u == config.createUrl
    ensures !TruthyString(config.createUrl) ==> u == UpdateDestination(config)
  {
    if TruthyString(config.createUrl) then config.createUrl else UpdateDestination(config)
  }

  /** The request `sendOrderUpdate` makes, if any. */
  function PlanOrderUpdate(config: ExternalConfig, d: OrderData): (req: Option<OutboundRequest>)
    ensures req.None? <==> !TruthyString(config.apiUrl)
    ensures req.Some? ==>
              && Some(req.value.url) == config.apiUrl
              && req.value.payload == OrderUpdatePayload(FieldsOf(d), d.updatedAt)
              && req.value.headers == JsonHeaders(config.apiKey)
              && req.value.timeoutMs == TIMEOUT_MS
  {
    match UpdateDestination(config)
    case None => None
    case Some(url) => Some(OutboundRequest(url, OrderUpdatePayload(FieldsOf(d), d.updatedAt), JsonHeaders(config.apiKey), TIMEOUT_MS))
  }

  /** The request `sendOrderCreation` makes, if any. */
  function PlanOrderCreation(config: ExternalConfig, d: OrderData): (req: Option<OutboundRequest>)
    ensures req.None? <==> !TruthyString(config.createUrl) && !TruthyString(config.apiUrl)
    ensures req.Some? ==>
              && Some(req.value.url) == CreationDestination(config)
              && req.value.payload == OrderCreationPayload(FieldsOf(d), d.createdAt)
              && req.value.headers == JsonHeaders(config.apiKey)
              && req.value.timeoutMs == TIMEOUT_MS
  {
    match CreationDestination(config)
    case None => None
    case Some(url) => Some(OutboundRequest(url, OrderCreationPayload(FieldsOf(d), d.createdAt), JsonHeaders(config.apiKey), TIMEOUT_MS))
  }

  /** Without a create URL, a creation goes where an update goes, with the same
      order fields and headers; only the timestamp differs. */
  lemma CreationFallsBackToUpdateUrl(config: ExternalConfig, d: OrderData)
    requires !TruthyString(config.createUrl)
    ensures PlanOrderCreation(config, d).Some? <==> PlanOrderUpdate(config, d).Some?
    ensures PlanOrderCreation(config, d).Some? ==>
              var c := PlanOrderCreation(config, d).value;
              var u := PlanOrderUpdate(config, d).value;
              && c.url == u.url && c.headers == u.headers && c.payload.fields == u.payload.fields
              && c.payload.createdAt == d.createdAt && u.payload.updatedAt == d.updatedAt
  {
  }

  /** A creation is posted whenever an update would be, and sometimes when it
      would not (a create URL alone is enough). */
  lemma CreationPostsWheneverUpdatePosts(config: ExternalConfig, d: OrderData)
    ensures PlanOrderUpdate(config, d).Some? ==> PlanOrderCreation(config, d).Some?
  {
  }

  /** `sendOrderUpdate(orderData)`: null without `EXTERNAL_API_URL`; otherwise one
      post, whose outcome comes back as a value. */
  method SendOrderUpdate(outbox: Outbox, config: ExternalConfig, d: OrderData, outcome: PostOutcome)
    returns (n: Dispatch)
    modifies outbox`sent
    ensures PlanOrderUpdate(config, d).None? ==> n == Skipped && outbox.sent == old(outbox.sent)
    ensures PlanOrderUpdate(config, d).Some? ==>
              outbox.sent == old(outbox.sent) + [PlanOrderUpdate(config, d).value] && n == Posted(ResultOf(outcome))
  {
    var externalApiUrl := UpdateDestination(config);
    if externalApiUrl.None? {
      return Skipped;
    }
    var payload := OrderUpdatePayload(FieldsOf(d), d.updatedAt);
    var headers := map[CONTENT_TYPE := APPLICATION_JSON];
    if TruthyString(config.apiKey) {
      headers := headers[X_API_KEY := config.apiKey.value];
    }
    var result := outbox.Post(OutboundRequest(externalApiUrl.value, payload, headers, TIMEOUT_MS), outcome);
    n := Posted(result);
  }

  /** `sendOrderCreation(orderData)`: null without either URL; otherwise one post
      to the create URL, falling back to the update URL. */
  method SendOrderCreation(outbox: Outbox, config: ExternalConfig, d: OrderData, outcome: PostOutcome)
    returns (n: Dispatch)
    modifies outbox`sent
    ensures PlanOrderCreation(config, d).None? ==> n == Skipped && outbox.sent == old(outbox.sent)
    ensures PlanOrderCreation(config, d).Some? ==>
              outbox.sent == old(outbox.sent) + [PlanOrderCreation(config, d).value] && n == Posted(ResultOf(outcome))
  {
    var externalApiCreateUrl := CreationDestination(config);
    if externalApiCreateUrl.None? {
      return Skipped;
    }
    var payload := OrderCreationPayload(FieldsOf(d), d.createdAt);
    var headers := map[CONTENT_TYPE := APPLICATION_JSON];
    if TruthyString(config.apiKey) {
      headers := headers[X_API_KEY := config.apiKey.value];
    }
    var result := outbox.Post(OutboundRequest(externalApiCreateUrl.value, payload, headers, TIMEOUT_MS), outcome);
    n := Posted(result);
  }
}

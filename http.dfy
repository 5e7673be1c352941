/** Outbound HTTP as the two external clients use it: the configuration read from
    the environment, the JSON headers, the request, and how an axios outcome
    becomes a result value. The POST itself is not modelled: a request is
    recorded in an `Outbox`, and its outcome is a parameter. */
module Http {
  import opened Common
  import opened OrderModel

  const CONTENT_TYPE: string := "Content-Type"
  const APPLICATION_JSON: string := "application/json"
  const X_API_KEY: string := "X-API-Key"
  /** `timeout: 10000` on every post. */
  const TIMEOUT_MS: nat := 10000

  /** The environment variables the clients read, passed as one value. */
  datatype ExternalConfig = ExternalConfig(
    statusApiUrl: Option<string>,   // EXTERNAL_STATUS_API_URL
    apiUrl: Option<string>,         // EXTERNAL_API_URL
    createUrl: Option<string>,      // EXTERNAL_API_CREATE_URL
    apiKey: Option<string>)         // EXTERNAL_API_KEY

  /** `headers` as both clients build it: JSON content type, plus `X-API-Key`
      exactly when a key is configured. */
  function JsonHeaders(apiKey: Option<string>): (h: map<string, string>)
    ensures CONTENT_TYPE in h && h[CONTENT_TYPE] == APPLICATION_JSON
    ensures X_API_KEY in h <==> TruthyString(apiKey)
    ensures X_API_KEY in h ==> h[X_API_KEY] == apiKey.value
    ensures h.Keys <= {CONTENT_TYPE, X_API_KEY}
  {
    var headers := map[CONTENT_TYPE := APPLICATION_JSON];
    if TruthyString(apiKey) then headers[X_API_KEY := apiKey.value] else headers
  }

  /** The order fields both `sendOrderUpdate` and `sendOrderCreation` copy. */
  datatype OrderFields = OrderFields(
    orderId: Option<string>,
    user: Option<UserId>,
    description: Option<string>,
    product: ProductLine,
    totalAmount: Option<int>,
    status: Option<string>,
    packages: seq<Package>)

  datatype Payload =
    | StatusPayload(orderId: string, status: string)
    | OrderUpdatePayload(fields: OrderFields, updatedAt: Option<Time>)
    | OrderCreationPayload(fields: OrderFields, createdAt: Option<Time>)

  datatype OutboundRequest = OutboundRequest(url: string, payload: Payload,
                                             headers: map<string, string>, timeoutMs: nat)

  /** What `axios.post` does: resolve with a 2xx response, or throw (non-2xx
      response, no response, timeout, or a request that could not be set up). */
  datatype PostOutcome = Resolved(status: int, data: string) | Rejected(message: string)

  /** The value a client returns instead of throwing. */
  datatype PostResult = Delivered(status: int, data: string) | Failed(error: string)

  /** The `try`/`catch` of both clients: a resolved post gives
      `{success: true, status, data}`, a thrown error `{success: false, error}`. */
  function ResultOf(outcome: PostOutcome): (r: PostResult)
    ensures r.Delivered? <==> outcome.Resolved?
    ensures outcome.Resolved? ==> r.status == outcome.status && r.data == outcome.data
    ensures outcome.Rejected? ==> r.error == outcome.message
  {
    match outcome
    case Resolved(status, data) => Delivered(status, data)
    case Rejected(message) => Failed(message)
  }

  /** What a client returns: `null` when it made no request, or the result of
      its one post. */
  datatype Dispatch = Skipped | Posted(result: PostResult)

  /** The requests handed to `axios.post`, in the order they were made. */
  class Outbox {
    var sent: seq<OutboundRequest>

    constructor ()
      ensures sent == []
    {
      sent := [];
    }

    /** One post: the request is recorded and its outcome turned into a value;
        no outcome escapes as an error. */
    method Post(request: OutboundRequest, outcome: PostOutcome) returns (r: PostResult)
      modifies this`sent
      ensures sent == old(sent) + [request]
      ensures r == ResultOf(outcome)
    {
      sent := sent + [request];
      r := ResultOf(outcome);
    }
  }
}

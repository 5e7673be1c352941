/** `notifyExternalOrderStatus`: where the completion notice goes, what it
    carries, and how its outcome is returned. */
module ExternalOrderStatusClient {
  import opened Common
  import opened Http

  /** `webhookUrl || process.env.EXTERNAL_STATUS_API_URL`, with a falsy result
      as `None`. */
  function StatusDestination(config: ExternalConfig, webhookUrl: Option<string>): (d: Option<string>)
    ensures d.Some? <==> TruthyString(webhookUrl) || TruthyString(config.statusApiUrl)
    ensures TruthyString(webhookUrl) ==> d == webhookUrl
    ensures !TruthyString(webhookUrl) && TruthyString(config.statusApiUrl) ==> d == config.statusApiUrl
  {
    if TruthyString(webhookUrl) then webhookUrl
    else if TruthyString(config.statusApiUrl) then config.statusApiUrl
    else None
  }

  /** The request a notification makes, or none when there is no destination. */
  function PlanStatusNotification(config: ExternalConfig, orderId: string, status: string,
                                  webhookUrl: Option<string>): (req: Option<OutboundRequest>)
    ensures req.None? <==> StatusDestination(config, webhookUrl).None?
    ensures req.Some? ==>
              && req.value.url == StatusDestination(config, webhookUrl).value && req.value.url != ""
              && req.value.payload == StatusPayload(orderId, status)
              && req.value.headers == JsonHeaders(config.apiKey)
              && req.value.timeoutMs == TIMEOUT_MS
  {
    match StatusDestination(config, webhookUrl)
    case None => None
    case Some(url) => Some(OutboundRequest(url, StatusPayload(orderId, status), JsonHeaders(config.apiKey), TIMEOUT_MS))
  }

  /** `notifyExternalOrderStatus(orderId, status, webhookUrl)`. Without a
      destination it returns null and posts nothing; otherwise it posts
      `{orderId, status}` once and returns the outcome as a value, success or
      failure, never as an error. */
  method NotifyExternalOrderStatus(outbox: Outbox, config: ExternalConfig, orderId: string, status: string,
                                   webhookUrl: Option<string>, outcome: PostOutcome) returns (n: Dispatch)
    modifies outbox`sent
    ensures PlanStatusNotification(config, orderId, status, webhookUrl).None? ==>
              n == Skipped && outbox.sent == old(outbox.sent)
    ensures PlanStatusNotification(config, orderId, status, webhookUrl).Some? ==>
              && outbox.sent == old(outbox.sent) + [PlanStatusNotification(config, orderId, status, webhookUrl).value]
              && n == Posted(ResultOf(outcome))
  {
    var externalStatusApiUrl := StatusDestination(config, webhookUrl);
    if externalStatusApiUrl.None? {
      return Skipped;
    }
    var payload := StatusPayload(orderId, status);
    var headers := map[CONTENT_TYPE := APPLICATION_JSON];
    if TruthyString(config.apiKey) {
      headers := headers[X_API_KEY := config.apiKey.value];
    }
    var result := outbox.Post(OutboundRequest(externalStatusApiUrl.value, payload, headers, TIMEOUT_MS), outcome);
    n := Posted(result);
  }
}

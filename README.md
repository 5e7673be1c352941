# Warehouse order backend: API keys, webhooks, orders and outbound notices

This project models the core of an Express/Mongoose warehouse backend in Dafny and proves
properties of that model. Four parts are modelled:

- **The public API gate.** `apiKeyAuth` picks a credential from `X-API-Key` or
  `Authorization`, strips an optional `Bearer ` prefix, and looks the token up. It rejects
  missing, unknown, revoked and expired keys. On success it binds the principal to the
  request. `requirePermission` checks the key's permission list. The public router pairs
  each route with a permission.
- **Owner-scoped stores of API keys and webhooks.** Their controllers create records with
  the schema defaults. Another user's record reads as 404. An update changes only the
  fields the body supplies. A delete is a hard delete. Every mutation appends one record
  to the activity log.
- **Orders.** This covers the Order schema (enums and required fields) and both create
  ladders. It also covers the stock check-and-decrement of the public create, the
  recomputation of `totalAmount` on a public update, and list pagination. The remaining
  pieces are the internal remove, list, status update and per-status statistics.
- **Outbound notices.** The completion notice sent after a status update, and the
  order update/creation client. For each, the model covers the destination, payload,
  headers and timeout, and how an outcome becomes a result value that is never raised.

The layout follows the source:

| Module | File | Contents |
|---|---|---|
| `Common`, `Seqs` | `common.dfy` | JavaScript truthiness, replies, activity records, and the collection operations (`findOne`, `find`, `sort({createdAt: -1})`, delete). |
| `ApiKeyModel` | `api_key_model.dfy` | `models/ApiKey.js` |
| `WebhookModel` | `webhook_model.dfy` | `models/Webhook.js` |
| `OrderModel` | `order_model.dfy` | `models/Order.js` |
| `Store` | `store.dfy` | The document store: a `Database` class whose collections are sequences in insertion order. It also holds the append-only activity log and an `_id` counter. |
| `Http` | `http.dfy` | The configuration read from the environment, the JSON headers, the outbound request, and an `Outbox` class that records every post. |
| `ApiKeyMiddleware` | `api_key_middleware.dfy` | `middleware/apiKeyMiddleware.js` |
| `PublicApiRouter` | `public_api_router.dfy` | `Routers/publicApiRouter.js` |
| `ApiKeyController` | `api_key_controller.dfy` | `controller/apiKeyController.js` |
| `WebhookController` | `webhook_controller.dfy` | `controller/webhookController.js` |
| `PublicOrderController` | `public_order_controller.dfy` | `controller/publicOrderController.js` |
| `OrderController` | `order_controller.dfy` | `controller/orderController.js` |
| `ExternalOrderStatusClient` | `external_order_status_client.dfy` | `libs/externalOrderStatusClient.js` |
| `ExternalApiClient` | `external_api_client.dfy` | `libs/externalApiClient.js` |

Handlers that change the store are module-level methods that take the `Database` (and,
where they post, the `Outbox`) and modify its collections. Each states the new
collections, the reply, and that `Database.Valid()` is kept. `Valid()` requires `_id`s to
be unique and below the counter, tokens to be unique, and stored keys and webhooks to
satisfy their schemas. Lookups, ladders, listings and request construction are functions,
with lemmas relating them.

The following are parameters of the model rather than values it computes:

- the clock (`now`);
- the 32 random bytes of a new key;
- whether the un-awaited `lastUsedAt` save lands;
- the outcome of each HTTP post.

### Behaviour worth knowing

- **Revoked keys.** `revokeApiKey` (controller/apiKeyController.js:173-208) replies
  "API key revoked successfully" but deletes the document, so the token then reads as
  "Invalid API key" (`ApiKeyController.RevokedTokenIsUnknown`). The middleware's 401
  "API key has been revoked" (middleware/apiKeyMiddleware.js:40) is reached only by a key
  whose `isActive` was set to false by an update
  (`ApiKeyController.DeactivatedKeyIsRejectedAsRevoked`).
- **Completion notices.** Only `updatestatusOrder` (controller/orderController.js:126-137)
  sends a completion notice; `updateOrderPublic` never calls the status client.
- **Internal `createOrder`.** It cannot store an order; see Findings.

## Model

| member | source | states |
|---|---|---|
| ApiKeyModel.IsValid | models/ApiKey.js:48-52 | A key is valid iff it is active and either has no expiry or `now` is not after its expiry. An inactive key is never valid, whatever its expiry. An expiry equal to `now` is still valid. |
| ApiKeyModel.ValidityIsAntitone | models/ApiKey.js:48-52 | A key valid at some time was valid at every earlier time; once invalid, it stays invalid. |
| ApiKeyModel.ApiKeySchemaValid | models/ApiKey.js:4-40 | What a save demands: a non-empty `name` and `key`, and every permission from the four-value enum. |
| ApiKeyModel.NewApiKey | models/ApiKey.js:23-31 | A new key is active and has no `lastUsedAt`. Without permissions it gets exactly `[order:create, order:update, order:read]`, so no `order:delete`. Without an expiry it is valid at every time; with one, exactly up to it. |
| ApiKeyModel.WithLastUsed | models/ApiKey.js:55-58 | `updateLastUsed` sets `lastUsedAt` to `now` and changes no other field. Neither validity nor schema validity changes. |
| ApiKeyModel.HexEncode | models/ApiKey.js:44 | The hex encoding has two lower-case hex characters per byte. |
| ApiKeyModel.HexRoundTrip | models/ApiKey.js:44 | Decoding the hex encoding of any bytes gives back those bytes. |
| ApiKeyModel.GenerateKey | models/ApiKey.js:43-45 | A generated key is `wms_` followed by 64 lower-case hex characters. |
| ApiKeyModel.GeneratedKeyRoundTrip | models/ApiKey.js:43-45 | A generated key determines its 32 random bytes, so distinct bytes give distinct keys. |
| ApiKeyModel.HexValue | models/ApiKey.js:44 | Reading a hex character gives the digit whose character it is. |
| WebhookModel.WebhookSchemaValid | models/Webhook.js:3-42 | What a save demands: a non-empty `name` and `url`, and every event from the three-value enum. |
| WebhookModel.NewWebhook | models/Webhook.js:5-39 | A new webhook has `events` defaulting to `["order.completed"]`, is active, has `failureCount` 0 and has no `lastTriggeredAt`. With the default events and a non-empty name and url, it passes the schema. |
| OrderModel.ParseStatus | models/Order.js:138-141 | A stored status string reads as an enum value exactly when it is one of `received`, `processing` or `completed`. |
| OrderModel.StatusNameRoundTrip | models/Order.js:138-141 | Every status value reads back as itself. |
| OrderModel.OrderSchemaValid | models/Order.js:113-158 | What a save demands: a non-empty `Description`, `Product.quantity`, `Product.price` and `totalAmount` present, `status` from its enum, and every unit of every package and item from its enum. |
| OrderModel.PatchSchemaValid | controller/publicOrderController.js:124-127 | The update validators check only the paths the body sets: a set Description is non-empty and not null, a set totalAmount is not null, a set status is null or from its enum, and every unit in set packages comes from its enum. |
| OrderModel.StatusOf | models/Order.js:113-158 | A schema-valid order with a status has one of the three enum values. |
| OrderModel.ApplyOrderPatch | controller/orderController.js:109-111 | `findByIdAndUpdate(id, body, {new: true})` sets each field the body supplies, an explicit `null` included (which clears it), and keeps each one it leaves out, field by field: user, Description, Product (a single object replaces it), totalAmount, status, invoiceUrl, externalOrderId, orderId, custRefNo and packages. It keeps `_id` and `createdAt`, and sets `updatedAt` to `now`. |
| OrderModel.ValidPatchKeepsOrderValid | models/Order.js:113-158 | An update that passes the update validators keeps a schema-valid order schema-valid, provided a single-object `Product` carries both price and quantity. |
| Store.OrderIndex | controller/publicOrderController.js:165-175 | `findById` finds an order whose `_id` matches, and finds none exactly when no order has that id. |
| Store.ProductIndex | controller/publicOrderController.js:51-57 | `findById` on products finds a matching product, and finds none exactly when no product has that id. |
| Store.OrderIndexFinds | controller/publicOrderController.js:165-175 | With distinct ids, `findById` returns the order stored under that id. |
| Store.Database.UpdateLastUsed | models/ApiKey.js:55-58 | The saved `lastUsedAt` replaces the key in place, and the store stays valid. |
| Store.Database.LogActivity | controller/apiKeyController.js:29-36 | `logActivity` appends exactly one record, stamped with `now`. |
| Store.Database.InsertApiKey | controller/apiKeyController.js:27 | The `save()` of a new key that passed the validators, with an id and token no stored key has, appends it and keeps the store valid (ids and tokens still unique). |
| Store.Database.SaveOrder | controller/orderController.js:36 | A new order is stored iff it passes the schema's validators. A rejected order leaves the collection unchanged. |
| Http.JsonHeaders | libs/externalOrderStatusClient.js:19-26 | `Content-Type: application/json` is always present. `X-API-Key` is present iff a non-empty key is configured, and then it carries that key. There are no other headers. |
| Http.ResultOf | libs/externalOrderStatusClient.js:37-60 | A resolved post gives a success carrying its status and data. A thrown error gives a failure carrying its message. Nothing is raised. |
| Http.Outbox.Post | libs/externalOrderStatusClient.js:30-33 | Each post records exactly one request and returns its outcome as a value. |
| ApiKeyMiddleware.SelectHeader | middleware/apiKeyMiddleware.js:7 | A non-empty `X-API-Key` wins. Otherwise a non-empty `Authorization` is used. Otherwise there is no credential. |
| ApiKeyMiddleware.StripBearer | middleware/apiKeyMiddleware.js:17-19 | A value starting with `Bearer ` loses exactly those 7 characters. Any other value is used verbatim. |
| ApiKeyMiddleware.BearerRoundTrip | middleware/apiKeyMiddleware.js:17-19 | `Bearer ` followed by a token presents exactly that token. |
| ApiKeyMiddleware.Credential | middleware/apiKeyMiddleware.js:7-19 | The token presented is the stripped value of the chosen header. There is none iff both headers are empty or absent. |
| ApiKeyMiddleware.Authenticate | middleware/apiKeyMiddleware.js:9-42 | No credential gives "missing". No stored key with that token gives "unknown". Success binds a stored key that carries the token and is valid now. "Revoked" means the matched key is inactive; "expired" means it is active but past its expiry. |
| ApiKeyMiddleware.AuthenticateStoredKey | middleware/apiKeyMiddleware.js:22-42 | With unique tokens, the outcome for a stored key depends on that key alone. An inactive key is "revoked" even when it has also expired. |
| ApiKeyMiddleware.AuthRejection | middleware/apiKeyMiddleware.js:9-42 | Every authentication failure is a 401 with the message for its case, and each message belongs to exactly one case: "API key is required…" for a missing key, "Invalid API key", "API key has been revoked", "API key has expired". |
| ApiKeyMiddleware.ApiKeyAuth | middleware/apiKeyMiddleware.js:4-54 | The middleware calls `next()` iff authentication succeeds. On failure it replies 401 and changes nothing. On success it binds `req.apiKey` (with `lastUsedAt = now`), `req.user` = the key's owner and `req.apiUser = true`. Whether the `lastUsedAt` save lands changes the store, never the outcome. |
| ApiKeyMiddleware.RequirePermission | middleware/apiKeyMiddleware.js:66-85 | The guard passes iff a key is bound and lists the permission. Without a bound key it replies 403. Otherwise it replies 403 naming the permission and listing the granted ones. |
| PublicApiRouter.PublicRoutes | Routers/publicApiRouter.js:15-41 | There are four routes. Each chain runs authentication, then a permission guard, then the handler. No route asks for `order:delete`. |
| PublicApiRouter.ResolveFrom | Routers/publicApiRouter.js:15-41 | The first registered route whose verb and path match handles the request. |
| PublicApiRouter.Resolve | Routers/publicApiRouter.js:15-41 | A resolved route is one of the public routes, and its chain is guarded. |
| PublicApiRouter.RequiredPermission | Routers/publicApiRouter.js:15-41 | No request to the public API needs `order:delete`. |
| PublicApiRouter.RoutePermissions | Routers/publicApiRouter.js:15-41 | POST `/orders` needs `order:create`. PUT `/orders/:orderId` needs `order:update`. Both GET routes need `order:read` and reach their own handlers. |
| PublicApiRouter.Admission | Routers/publicApiRouter.js:15-41 | A request stopped by the two middlewares gets a 401 or a 403. |
| PublicApiRouter.AdmissionIff | Routers/publicApiRouter.js:15-41 | With unique tokens, a request passes both middlewares iff its token belongs to a stored key that is valid now and grants the route's permission. |
| PublicApiRouter.HandlePublicRequest | Routers/publicApiRouter.js:15-41 | An unrouted request changes nothing. A routed one reaches its handler exactly when admitted; otherwise the reply is the middlewares' rejection. A 401 changes neither the store nor the request. Once the key authenticates, the request carries the key with `lastUsedAt` set, its owner as `req.user` and the `apiUser` flag, and the stored key gets the new `lastUsedAt` when the save lands. |
| ApiKeyController.OwnedKeyIndex | controller/apiKeyController.js:94 | The lookup matches on id and owner together. It finds nothing iff no key has both. |
| ApiKeyController.StoredExpiry | controller/apiKeyController.js:24 | `expiresAt || null`: the stored expiry is the body's exactly when it is truthy; an absent, null or 0 expiry is stored as none. |
| ApiKeyController.FalsyExpiryNeverExpires | controller/apiKeyController.js:18-25 | A key created with a falsy `expiresAt` is valid at every time. |
| ApiKeyController.CreateApiKey | controller/apiKeyController.js:5-61 | A missing name gives 400 and stores nothing. Otherwise the key gets a fresh id, `wms_` plus the hex of the random bytes, and the schema defaults (default permissions; a falsy `expiresAt` is stored as no expiry). A schema failure or a token collision gives 500 and no change. On success the key is stored and one "Create API Key" record is logged. The reply is 201 with the raw key, and the key is then found by id with no raw key. |
| ApiKeyController.OwnedNewestFirst | controller/apiKeyController.js:68-71 | The result is exactly the caller's keys, each as often as it is stored, newest first. |
| ApiKeyController.Views | controller/apiKeyController.js:69 | Each view shows its key without the raw token. |
| ApiKeyController.GetApiKeys | controller/apiKeyController.js:64-86 | The list shows the caller's keys and no one else's: every one of them, newest first, without the raw token, one view per stored key. |
| ApiKeyController.GetApiKeyById | controller/apiKeyController.js:89-114 | A key is found iff its id and owner both match, and it is shown without the raw token. Otherwise, including another user's key, the reply is 404 "API key not found". |
| ApiKeyController.GetApiKeyByIdFinds | controller/apiKeyController.js:94-100 | With distinct ids, every stored key is found by its own id and owner. |
| ApiKeyController.ApplyKeyPatch | controller/apiKeyController.js:131-135 | Exactly the supplied fields among name, description, permissions, isActive and expiresAt change, an explicit `null` included. `key`, `user`, `lastUsedAt` and `createdAt` never change. |
| ApiKeyController.NullNameIsRefused | controller/apiKeyController.js:131-137 | An update that sets `name` to null or `""` fails the required validator on save. |
| ApiKeyController.ApplyKeyPatchIdempotent | controller/apiKeyController.js:131-135 | Applying an update twice equals applying it once, and an empty update changes nothing. |
| ApiKeyController.DeactivatedKeyIsRejectedAsRevoked | controller/apiKeyController.js:131-135 | After an update sets `isActive` to false or null, presenting that key's token (as `Bearer <token>`) is rejected as "revoked", whatever expiry the same update sets. |
| ApiKeyController.UpdateApiKey | controller/apiKeyController.js:117-170 | An unknown or foreign key gives 404 and no change. An update the schema rejects gives 500 and no change. Otherwise the key is replaced in place, one "Update API Key" record is logged, and the reply is 200 with the updated fields. The updated key is then found by id. |
| ApiKeyController.RevokedTokenIsUnknown | controller/apiKeyController.js:185 | Once a key is hard-deleted, presenting its token (as `Bearer <token>`) is answered "Invalid API key", not "revoked". |
| ApiKeyController.RevokeApiKey | controller/apiKeyController.js:173-208 | An unknown or foreign key gives 404 and no change. Otherwise the key is deleted, one "Revoke API Key" record is logged, and the reply is 200. The id is then not found. |
| WebhookController.OwnedWebhookIndex | controller/webhookController.js:93 | The lookup matches on id and owner together. It finds nothing iff no webhook has both. |
| WebhookController.GetWebhookById | controller/webhookController.js:88-112 | A webhook is found iff its id and owner both match. Otherwise the reply is 404 "Webhook not found". |
| WebhookController.GetWebhookByIdFinds | controller/webhookController.js:93-98 | With distinct ids, every stored webhook is found by its own id and owner. |
| WebhookController.CreateWebhook | controller/webhookController.js:5-61 | A missing name gives 400. With a name, a missing url gives 400. Neither stores anything. A schema failure gives 500 and no change. On success the webhook is stored with the defaults and one "Create Webhook" record is logged. The reply is 201 with the secret, and the webhook is then found by id. |
| WebhookController.GetWebhooks | controller/webhookController.js:64-85 | The list shows the caller's webhooks and no one else's: every one of them, each as often as it is stored, newest first. |
| WebhookController.ApplyWebhookPatch | controller/webhookController.js:129-134 | Exactly the supplied fields among name, url, description, events, isActive and secret change, an explicit `null` included. `lastTriggeredAt`, `failureCount`, `user` and `createdAt` never change. |
| WebhookController.NullNameOrUrlIsRefused | controller/webhookController.js:129-136 | An update that sets `name` or `url` to null or `""` fails the required validators on save. |
| WebhookController.ApplyWebhookPatchIdempotent | controller/webhookController.js:129-134 | Applying an update twice equals applying it once, and an empty update changes nothing. |
| WebhookController.UpdateWebhook | controller/webhookController.js:115-171 | An unknown or foreign webhook gives 404 and no change. A schema failure gives 500. Otherwise the webhook is replaced in place, one "Update Webhook" record is logged, and the reply is 200 with the secret, `lastTriggeredAt` and `failureCount`. |
| WebhookController.DeleteWebhook | controller/webhookController.js:174-209 | An unknown or foreign webhook gives 404 and no change. Otherwise the webhook is deleted, one "Delete Webhook" record is logged, and the id is then not found. |
| PublicOrderController.CreateOrderCheck | controller/publicOrderController.js:13-46 | The checks run in this order: Description, status, `Product.product`, price, quantity. Each message is given exactly when its check is the first to fail, so a price or quantity of 0 is refused. |
| PublicOrderController.NewPublicOrder | controller/publicOrderController.js:48-78 | The owner is the body's `user`, else the key's user. The total is price × quantity. Packages default to `[]`. The order passes the schema iff its status and units are in their enums. |
| PublicOrderController.CreateOrderPublic | controller/publicOrderController.js:5-104 | A failed check gives 400. An unknown product gives 404. A stock below the quantity gives 400 with both figures. None of these changes anything. Otherwise the stock drops by exactly the quantity, and the order is stored and returned with 201. If the order's validators then refuse it, the reply is 500 and the decrement stays. A non-negative stock stays non-negative. |
| PublicOrderController.LineTotal | controller/publicOrderController.js:118-121 | The reduce over an array `Product` gives 0 for no lines, and a non-negative total when no quantity or price is negative. |
| PublicOrderController.LineTotalAppend | controller/publicOrderController.js:118-121 | The total of two concatenated line lists is the sum of their totals. |
| PublicOrderController.LineTotalCons | controller/publicOrderController.js:118-121 | Every line is counted exactly once in the total. |
| PublicOrderController.WithRecomputedTotal | controller/publicOrderController.js:112-122 | A single `Product` with a non-zero price and quantity sets the total to their product. An array sets it to the sum of quantity × price. Otherwise `totalAmount` is left as the body gave it, and no other field changes. |
| PublicOrderController.OneLineAgreesWithSingle | controller/publicOrderController.js:112-122 | A one-line array and the equivalent single object give the same total. |
| PublicOrderController.UpdateOrderPublic | controller/publicOrderController.js:107-158 | A body the update validators refuse gives 500. An unknown id gives 404. Otherwise the order is replaced in place by the updated order, which is returned and then found by id. |
| PublicOrderController.GetOrderPublic | controller/publicOrderController.js:161-189 | Any order is found by id, whoever owns it. Otherwise the reply is 404 "Order not found". |
| PublicOrderController.CeilDiv | controller/publicOrderController.js:214 | `Math.ceil(count / limit)` is computed exactly, for either sign of the limit. |
| PublicOrderController.MatchingNewestFirst | controller/publicOrderController.js:195-207 | The result is exactly the orders the status filter matches (all orders when no status is given), each as often as it is stored, newest first. |
| PublicOrderController.Window | controller/publicOrderController.js:204-205 | The window holds the matches from rank `skip` onwards, at most `limit` of them. A limit of 0 means no limit; a negative limit counts as its absolute value. |
| PublicOrderController.Paginate | controller/publicOrderController.js:201-216 | A negative skip `(page-1)*limit` gives 500. Otherwise the page lists ranks from the skip onwards, with `totalOrders = count`, `totalPages = ceil(count/limit)` (none for a zero limit) and the requested page. |
| PublicOrderController.ListOrdersPublic | controller/publicOrderController.js:192-226 | With page 1 and limit 10 as defaults, every listed order is stored, matches the status filter, and comes newest first. |
| PublicOrderController.ListCountsMatches | controller/publicOrderController.js:209-219 | `totalOrders` is the number of matching orders, and `currentPage` the requested page (1 by default). |
| PublicOrderController.UnfilteredTotalIsStoreSize | controller/publicOrderController.js:195-214 | Without a status filter, `totalOrders` is the number of stored orders. |
| PublicOrderController.PageContents | controller/publicOrderController.js:204-214 | With a positive limit, offset `t` of page `p` is the match of rank `(p-1)*limit + t`, and that page is within `totalPages`. |
| PublicOrderController.PagesCoverAll | controller/publicOrderController.js:204-214 | Every match of rank `k` appears on page `k/limit + 1` at offset `k % limit`, within `totalPages`. |
| PublicOrderController.PageOfRank | controller/publicOrderController.js:214 | A rank below the count lies on a page no greater than `ceil(count/limit)`. |
| ExternalOrderStatusClient.StatusDestination | libs/externalOrderStatusClient.js:6 | The destination is a non-empty `webhookUrl`, else the configured status URL. With neither, there is none. |
| ExternalOrderStatusClient.PlanStatusNotification | libs/externalOrderStatusClient.js:6-33 | Without a destination, no request is made. Otherwise one request goes to it, with exactly `{orderId, status}`, the JSON headers and a 10000 ms timeout. |
| ExternalOrderStatusClient.NotifyExternalOrderStatus | libs/externalOrderStatusClient.js:4-61 | Without a destination it returns null and posts nothing. Otherwise it posts the planned request once and returns success or failure as a value. |
| ExternalApiClient.PayloadOrderId | libs/externalApiClient.js:15 | The payload's `orderId` is a non-empty `_id`, else `id`. |
| ExternalApiClient.FieldsOf | libs/externalApiClient.js:14-23 | The payload copies user, Description, Product, totalAmount and status. `packages` defaults to `[]`. |
| ExternalApiClient.UpdateDestination | libs/externalApiClient.js:6-12 | An update goes to the configured update URL, or nowhere when none is set. |
| ExternalApiClient.CreationDestination | libs/externalApiClient.js:78-84 | A creation goes to the create URL, falling back to the update URL, or nowhere when neither is set. |
| ExternalApiClient.PlanOrderUpdate | libs/externalApiClient.js:4-41 | No update URL means no request. Otherwise the request carries the order fields with `updatedAt`, the JSON headers and a 10000 ms timeout. |
| ExternalApiClient.PlanOrderCreation | libs/externalApiClient.js:76-110 | With neither URL there is no request. Otherwise the request carries the order fields with `createdAt`, the JSON headers and a 10000 ms timeout. |
| ExternalApiClient.CreationFallsBackToUpdateUrl | libs/externalApiClient.js:78 | Without a create URL, a creation goes where an update goes, with the same fields and headers. |
| ExternalApiClient.CreationPostsWheneverUpdatePosts | libs/externalApiClient.js:78-84 | Whenever an update would be posted, a creation would be too. |
| ExternalApiClient.SendOrderUpdate | libs/externalApiClient.js:4-73 | With no URL it returns null and posts nothing. Otherwise it posts the planned request once and returns its outcome as a value. |
| ExternalApiClient.SendOrderCreation | libs/externalApiClient.js:76-134 | With no URL it returns null and posts nothing. Otherwise it posts the planned request once and returns its outcome as a value. |
| OrderController.CreateCheck | controller/orderController.js:19-24 | The checks run in this order: user, Description, status, totalAmount. The first missing or falsy one names the 400 message, so a total of 0 is refused. |
| OrderController.AsWrittenOrder | controller/orderController.js:26-34 | The handler copies user, Description, totalAmount, status, orderId and custRefNo, with packages defaulting to `[]`. `Product` stays empty. |
| OrderController.AsWrittenOrderNeverValid | controller/orderController.js:26-36 | The document the handler builds never passes the schema. |
| OrderController.CreateOrderCounterexample | controller/orderController.js:26-36 | A body that passes every check and carries a complete `Product` is refused as written but valid once `Product` is copied. |
| OrderController.CreateOrder | controller/orderController.js:7-52 | A failed check gives 400. Every other body gives 500 "Error in creating order". No order is ever stored. |
| OrderController.CorrectedOrder | controller/orderController.js:26-34 | The corrected document is the handler's document with the body's `Product`. It passes the schema iff `Product` has quantity and price and the status and units are in their enums. |
| OrderController.CreateOrderCorrected | controller/orderController.js:7-52 | A failed check gives 400 and stores nothing. A valid order is stored under a fresh id, returned with 201, and found afterwards by id and by `getOrder`. An invalid one gives 500. |
| OrderController.RemoveOrder | controller/orderController.js:54-81 | Any order can be deleted by id. An unknown id gives 404 "Order is not found!" and logs nothing. Otherwise the order is deleted and one "Delete order" record is logged. The id is then not found. |
| OrderController.GetOrder | controller/orderController.js:83-100 | An empty collection gives 404 "No orders found". Otherwise the reply is 200 with every order. |
| OrderController.ShouldNotify | controller/orderController.js:127 | The notice is due exactly when the updated order's status is `completed` and its `orderId` is non-empty; a due order has the enum status `completed`. |
| OrderController.CompletionNotice | controller/orderController.js:126-137 | At most one notice goes out. It is sent iff the updated order is `completed` with a non-empty `orderId` and a status URL is configured. It goes to that URL with `{orderId, "completed"}`. |
| OrderController.RecompletionNotifiesAgain | controller/orderController.js:127 | An update that leaves status and orderId alone notifies again for an already completed order. |
| OrderController.NotifyAfterPatchIff | controller/orderController.js:109-127 | An update notifies iff the status it sets or keeps is `completed` and the `orderId` it sets or keeps is non-empty. |
| OrderController.NullOrderIdSilencesNotice | controller/orderController.js:109-137 | An update that sets `orderId` to null clears it, and no completion notice goes out, whatever the status. |
| OrderController.UpdateStatusOrder | controller/orderController.js:102-148 | An unknown id gives 404, with no record and no notice. Otherwise the updated order replaces the stored one and one "Update Order" record is logged. The completion notice is posted when due, and the reply is 200 with the updated order whatever the notice's outcome. |
| OrderController.Bump | controller/orderController.js:181-184 | Counting one more order with status `s` raises that group by one or adds a group of one. Groups stay distinct and non-empty, and the sum rises by one. |
| OrderController.GetOrderStatistics | controller/orderController.js:177-190 | There is one group per distinct status, none empty. Each group's count is the number of orders with that status, every order's status has a group, and the counts sum to the number of orders. |
| OrderController.StatisticsGroupCounts | controller/orderController.js:179-188 | Each group counts exactly the orders with its status, and at least one. |

## Findings

| source | as written | input that shows it | evidently intended | confidence | as-written member | corrected member |
|---|---|---|---|---|---|---|
| controller/orderController.js:9-36 | `Product` is neither read from the body nor passed to `new Order`, while `Product.quantity` and `Product.price` are required by the schema (models/Order.js:125-132), so every body that passes the four checks fails validation and gets 500 | user 1, Description "Desk", Product `{product: 2, quantity: 3, price: 50}`, totalAmount 150, status "received" | the body's `Product` is stored and the order saved with 201 | not executed | OrderController.CreateOrder (with OrderController.AsWrittenOrderNeverValid, OrderController.CreateOrderCounterexample) | OrderController.CreateOrderCorrected |

## Left out

- Database and network exceptions are not modelled. The source's catch blocks turn them into 500 replies. Schema validation failures and the token collision are the exceptions that are modelled.
- Ids are natural numbers. A malformed id, which is a cast error and a 500 in the source, is not modelled; an unknown id gives 404.
- Amounts, quantities, weights and `Math.ceil` operate on JavaScript floating-point numbers in the source. Here they are integers, for example cents.
- Query-string coercion is not modelled. `page` and `limit` arrive as strings; they are integers here, and `currentPage` is echoed as the integer.
- `totalPages` is `Infinity` or `NaN` for a zero limit (both sent as `null`). It is `None` here.
- `searchOrder` is left out, because it relies on MongoDB regular-expression semantics.
- `populate`, `lean` and `select` projections are left out. Replies carry the stored documents; a key's view omits only the raw token.
- Express matching details are left out: case-insensitive paths, trailing slashes and URL decoding. A parameter segment matches any non-empty segment.
- OrderModel.ApplyOrderPatch: an array-valued `Product` in an update body keeps the stored `Product`. How Mongoose casts an array into the nested path is not modelled; the recomputed total is modelled. A `null` `Product` or `packages` in an update body is not modelled either; every other field may be set to `null`.
- ApiKeyController.ApplyKeyPatch: a null `permissions` is not modelled. The source stores it, and `requirePermission` then throws on `permissions.includes`, so every public request with that key gets 500 rather than 403. A null `name` is represented by `""`, which the required validator refuses exactly as it refuses null. A null `isActive` is represented by `false`, which `isValid` and the middleware read exactly as null; a listing would show `null` where the model has `false`.
- WebhookController.ApplyWebhookPatch: a null `events` is not modelled; the source stores it. A null `name` or `url` is represented by `""`, which the required validators refuse exactly as they refuse null. A null `isActive` is represented by `false`; a listing would show `null` where the model has `false`.
- OrderModel.PatchSchemaValid: the update validators are modelled on the paths the body sets (Description, status, unit enums). Required checks on sibling nested paths are not.
- The `updatedAt` timestamps of API keys and webhooks are not modelled. Their `createdAt` is, because listings sort on it.
- libs/logger.js is not part of this model. `logActivity` is taken to append exactly one record and never to fail.
- The randomness of `generateKey` is a parameter: the 32 bytes. A colliding token is refused by the unique index, which is modelled as a 500.
- The fire-and-forget `updateLastUsed` save and completion notice are modelled differently from the source's asynchrony:
  - whether the save lands is a parameter;
  - the notice is recorded in the outbox before the reply;
  - neither can change the reply.
- Concurrency is not modelled. Handlers run one at a time, so the public create's stock check and decrement, which is not atomic in the source, is atomic here.
- MongoDB does not fix the order of `$group` results. The model lists the groups of `getOrderStatistics` in order of first appearance.
- The empty catch of `getOrderStatistics`, which leaves the request unanswered, is not modelled.
- `sendOrderUpdate` and `sendOrderCreation` have no caller among the modelled handlers. They are modelled as clients on their own.
- Console logging is not modelled, and neither are the transport details of a post beyond the URL, payload, headers and timeout.
- models/Product.js is not part of this model. A product is its `_id` and its stock quantity.
- The 500 "Error authenticating API key" reply of `apiKeyAuth` comes only from database errors, so it is not modelled.
- Not modelled because they hold no logic to state:
  - authentication controllers;
  - token generation;
  - the other routers;
  - server, database and cloud configuration.

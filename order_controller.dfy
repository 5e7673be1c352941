/** The internal order handlers: `createOrder`, `Removeorder`, `getOrder`,
    `updatestatusOrder` and `getOrderStatistics`. They run behind the user
    session; `userId` and `ipAddress` come from the request. */
module OrderController {
  import opened Common
  import opened Seqs
  import opened OrderModel
  import opened Store
  import opened Http
  import opened ExternalOrderStatusClient

  const MSG_USER_REQUIRED: string := "User ID is required"
  const MSG_DESCRIPTION_REQUIRED: string := "Description is required"
  const MSG_STATUS_REQUIRED: string := "Status is required"
  const MSG_TOTAL_REQUIRED: string := "Total amount is required"
  const MSG_CREATE_FAILED: string := "Error in creating order"
  const MSG_REMOVE_NOT_FOUND: string := "Order is not found!"
  const MSG_DELETED_OK: string := "Order deleted successfully"
  const MSG_NO_ORDERS: string := "No orders found"
  const MSG_ORDER_NOT_FOUND: string := "Order not found"
  const COMPLETED: string := "completed"

  /** The body of `POST` to `createOrder`. */
  datatype OrderBody = OrderBody(
    user: Option<UserId>,
    description: Option<string>,    // `Description`
    product: Option<ProductLine>,   // `Product`
    totalAmount: Option<int>,
    status: Option<string>,
    packages: Option<seq<Package>>,
    orderId: Option<string>,
    custRefNo: Option<string>)

  // ---------------------------------------------------------------------------
  // createOrder

  /** The first check of the create ladder that fails: user, Description,
      status, then totalAmount (an amount of 0 counts as missing). */
  function CreateCheck(b: OrderBody): (r: Option<string>)
    ensures r.None? <==>
              b.user.Some? && TruthyString(b.description) && TruthyString(b.status) && TruthyNumber(b.totalAmount)
    ensures r == Some(MSG_USER_REQUIRED) <==> b.user.None?
    ensures r == Some(MSG_DESCRIPTION_REQUIRED) <==> b.user.Some? && !TruthyString(b.description)
    ensures r == Some(MSG_STATUS_REQUIRED) <==>
              b.user.Some? && TruthyString(b.description) && !TruthyString(b.status)
    ensures r == Some(MSG_TOTAL_REQUIRED) <==>
              b.user.Some? && TruthyString(b.description) && TruthyString(b.status) && !TruthyNumber(b.totalAmount)
  {
    if b.user.None? then Some(MSG_USER_REQUIRED)
    else if !TruthyString(b.description) then Some(MSG_DESCRIPTION_REQUIRED)
    else if !TruthyString(b.status) then Some(MSG_STATUS_REQUIRED)
    else if !TruthyNumber(b.totalAmount) then Some(MSG_TOTAL_REQUIRED)
    else None
  }

  const NO_PRODUCT: ProductLine := ProductLine(None, None, None)

  /** The document `createOrder` builds as written: `Product` is neither read
      from the body nor set, so the sub-object stays empty. */
  function AsWrittenOrder(id: Id, b: OrderBody, now: Time): (o: Order)
    ensures o.id == id && o.product == NO_PRODUCT
    ensures o.user == b.user && o.description == b.description && o.totalAmount == b.totalAmount
    ensures o.status == b.status && o.orderId == b.orderId && o.custRefNo == b.custRefNo
    ensures o.packages == if b.packages.Some? then b.packages.value else []
  {
    Order(id, b.user, b.description, NO_PRODUCT, b.totalAmount, b.status, None, None,
          b.orderId, b.custRefNo, b.packages.GetOr([]), now, now)
  }

  /** The document the handler evidently means to build: the same, with the
      body's `Product` copied. It passes the validators exactly when the body
      carries a `Product` with quantity and price and its status and units
      come from their enums. */
  function CorrectedOrder(id: Id, b: OrderBody, now: Time): (o: Order)
    requires CreateCheck(b).None?
    ensures o == AsWrittenOrder(id, b, now).(product := b.product.GetOr(NO_PRODUCT))
    ensures OrderSchemaValid(o) <==>
              && b.product.Some? && b.product.value.quantity.Some? && b.product.value.price.Some?
              && StatusSchemaValid(b.status) && PackagesSchemaValid(o.packages)
  {
    AsWrittenOrder(id, b, now).(product := b.product.GetOr(NO_PRODUCT))
  }

  /** As written, no body that passes the checks can be saved: the required
      `Product.quantity` and `Product.price` are always missing. */
  lemma AsWrittenOrderNeverValid(id: Id, b: OrderBody, now: Time)
    ensures !OrderSchemaValid(AsWrittenOrder(id, b, now))
  {
  }

  /** A body on which the two differ: it passes every check and carries a
      complete `Product`; the corrected document is valid, the as-written one
      is not. */
  lemma CreateOrderCounterexample()
    ensures var b := OrderBody(Some(1), Some("Desk"), Some(ProductLine(Some(2), Some(3), Some(50))), Some(150),
                               Some("received"), None, None, None);
            && CreateCheck(b).None?
            && OrderSchemaValid(CorrectedOrder(0, b, 0))
            && !OrderSchemaValid(AsWrittenOrder(0, b, 0))
  {
    assert ParseStatus("received") == Some(Received);
  }

  /** `createOrder` as written. A failed check gives 400 and writes nothing.
      Otherwise an `_id` is drawn and the document saved, but its validators
      always reject it, so the reply is 500 and no order is stored. */
  method CreateOrder(db: Database, b: OrderBody, now: Time) returns (r: Reply<Order>)
    requires db.Valid()
    modifies db`orders, db`nextId
    ensures db.Valid()
    ensures db.orders == old(db.orders)
    ensures CreateCheck(b).Some? ==> r == Err(BAD_REQUEST, CreateCheck(b).value)
    ensures CreateCheck(b).None? ==> r == Err(SERVER_ERROR, MSG_CREATE_FAILED)
  {
    var check := CreateCheck(b);
    if check.Some? {
      return Err(BAD_REQUEST, check.value);
    }
    var id := db.FreshId();
    var newOrder := AsWrittenOrder(id, b, now);
    AsWrittenOrderNeverValid(id, b, now);
    var saved := db.SaveOrder(newOrder);
    r := if saved then Ok(CREATED, newOrder) else Err(SERVER_ERROR, MSG_CREATE_FAILED);
  }

  /** `createOrder` with the body's `Product` copied: a valid document is stored
      under a fresh `_id`, returned with 201, and found afterwards by its id
      and by `getOrder`; a document the validators reject gives 500. */
  method CreateOrderCorrected(db: Database, b: OrderBody, now: Time) returns (r: Reply<Order>)
    requires db.Valid()
    modifies db`orders, db`nextId
    ensures db.Valid()
    ensures CreateCheck(b).Some? ==> r == Err(BAD_REQUEST, CreateCheck(b).value) && db.orders == old(db.orders)
    ensures CreateCheck(b).None? ==>
      var o := CorrectedOrder(old(db.nextId), b, now);
      && (OrderSchemaValid(o) ==>
            && r == Ok(CREATED, o)
            && db.orders == old(db.orders) + [o]
            && OrderIndex(db.orders, o.id) == Some(|old(db.orders)|)
            && GetOrder(db.orders) == Ok(OK, db.orders))
      && (!OrderSchemaValid(o) ==> r == Err(SERVER_ERROR, MSG_CREATE_FAILED) && db.orders == old(db.orders))
  {
    var check := CreateCheck(b);
    if check.Some? {
      return Err(BAD_REQUEST, check.value);
    }
    var id := db.FreshId();
    var newOrder := CorrectedOrder(id, b, now);
    var saved := db.SaveOrder(newOrder);
    if saved {
      OrderIndexFinds(db.orders, |db.orders| - 1);
    }
    r := if saved then Ok(CREATED, newOrder) else Err(SERVER_ERROR, MSG_CREATE_FAILED);
  }

  // ---------------------------------------------------------------------------
  // Removeorder and getOrder

  /** `Removeorder`: any order by id, whoever owns it. An unknown id gives 404
      and no audit record; otherwise the order is deleted, one record is
      logged, and the id is found no more. */
  method RemoveOrder(db: Database, id: Id, userId: UserId, ipAddress: string, now: Time)
    returns (r: Reply<string>)
    requires db.Valid()
    modifies db`orders, db`audit
    ensures db.Valid()
    ensures OrderIndex(old(db.orders), id).None? ==>
              r == Err(NOT_FOUND, MSG_REMOVE_NOT_FOUND) && db.orders == old(db.orders) && db.audit == old(db.audit)
    ensures OrderIndex(old(db.orders), id).Some? ==>
              && r == Ok(OK, MSG_DELETED_OK)
              && db.orders == RemoveAt(old(db.orders), OrderIndex(old(db.orders), id).value)
              && db.audit == old(db.audit) + [AuditEntry("Delete order", "Order was deleted.", "order", id, userId, ipAddress, now)]
    ensures OrderIndex(db.orders, id).None?
  {
    var found := OrderIndex(db.orders, id);
    if found.None? {
      return Err(NOT_FOUND, MSG_REMOVE_NOT_FOUND);
    }
    var i := found.value;
    ghost var before := db.orders;
    db.orders := RemoveAt(db.orders, i);
    forall j | 0 <= j < |db.orders| ensures db.orders[j].id != id {
      if j < i { assert db.orders[j] == before[j]; } else { assert db.orders[j] == before[j + 1]; }
    }
    db.LogActivity("Delete order", "Order was deleted.", "order", id, userId, ipAddress, now);
    r := Ok(OK, MSG_DELETED_OK);
  }

  /** `getOrder`: every order, or 404 when there are none. */
  function GetOrder(orders: seq<Order>): (r: Reply<seq<Order>>)
    ensures r.Err? <==> |orders| == 0
    ensures r.Err? ==> r == Err(NOT_FOUND, MSG_NO_ORDERS)
    ensures r.Ok? ==> r.code == OK && r.value == orders
  {
    if |orders| == 0 then Err(NOT_FOUND, MSG_NO_ORDERS) else Ok(OK, orders)
  }

  // ---------------------------------------------------------------------------
  // updatestatusOrder

  /** The trigger of the completion notice: the order as updated is completed
      and carries a non-empty `orderId`. The previous status plays no part. */
  predicate ShouldNotify(o: Order): (due: bool)
    ensures due ==> StatusOf(o) == Some(Completed) && o.orderId.Some?
  {
    o.status == Some(COMPLETED) && TruthyString(o.orderId)
  }

  /** The request the completion notice of `o` makes, if any (the handler
      passes no webhook URL). */
  function CompletionNotice(config: ExternalConfig, o: Order): (sent: seq<OutboundRequest>)
    ensures |sent| <= 1
    ensures |sent| == 1 <==> ShouldNotify(o) && TruthyString(config.statusApiUrl)
    ensures |sent| == 1 ==>
              && Some(sent[0].url) == config.statusApiUrl
              && sent[0].payload == StatusPayload(o.orderId.value, COMPLETED)
  {
    if ShouldNotify(o) then
      match PlanStatusNotification(config, o.orderId.value, o.status.value, None)
      case None => []
      case Some(req) => [req]
    else []
  }

  /** An update that leaves `status` and `orderId` alone notifies again for an
      order that is already completed. */
  lemma RecompletionNotifiesAgain(o: Order, p: OrderPatch, now: Time)
    requires ShouldNotify(o) && p.status.None? && p.orderId.None?
    ensures ShouldNotify(ApplyOrderPatch(o, p, now))
  {
  }

  /** An update notifies exactly when it sets, or keeps, a completed status and
      a non-empty `orderId`. */
  lemma NotifyAfterPatchIff(o: Order, p: OrderPatch, now: Time)
    ensures ShouldNotify(ApplyOrderPatch(o, p, now)) <==>
              (if p.status.Some? then p.status.value else o.status) == Some(COMPLETED)
              && TruthyString(if p.orderId.Some? then p.orderId.value else o.orderId)
  {
  }

  /** An update that sets `orderId` to null clears it, so no notice goes out,
      even when it also sets the status to completed. */
  lemma NullOrderIdSilencesNotice(o: Order, p: OrderPatch, now: Time, config: ExternalConfig)
    requires p.orderId == Some(None)
    ensures ApplyOrderPatch(o, p, now).orderId.None?
    ensures CompletionNotice(config, ApplyOrderPatch(o, p, now)) == []
  {
  }

  /** `updatestatusOrder`: any order by id, with every field the body sets and
      no validators. An unknown id gives 404, no audit record and no notice.
      Otherwise the order is updated, one record is logged, the completion
      notice is posted when due, and the reply is 200 with the updated order
      whatever became of the notice. */
  method UpdateStatusOrder(db: Database, outbox: Outbox, config: ExternalConfig, id: Id, patch: OrderPatch,
                           userId: UserId, ipAddress: string, now: Time, outcome: PostOutcome)
    returns (r: Reply<Order>)
    requires db.Valid()
    modifies db`orders, db`audit, outbox`sent
    ensures db.Valid()
    ensures OrderIndex(old(db.orders), id).None? ==>
              && r == Err(NOT_FOUND, MSG_ORDER_NOT_FOUND)
              && db.orders == old(db.orders) && db.audit == old(db.audit) && outbox.sent == old(outbox.sent)
    ensures OrderIndex(old(db.orders), id).Some? ==>
      var i := OrderIndex(old(db.orders), id).value;
      var o' := ApplyOrderPatch(old(db.orders)[i], patch, now);
      && r == Ok(OK, o')
      && db.orders == old(db.orders)[i := o']
      && db.audit == old(db.audit) + [AuditEntry("Update Order", "Order updated successfully.", "order", id, userId, ipAddress, now)]
      && outbox.sent == old(outbox.sent) + CompletionNotice(config, o')
  {
    var found := OrderIndex(db.orders, id);
    if found.None? {
      return Err(NOT_FOUND, MSG_ORDER_NOT_FOUND);
    }
    var i := found.value;
    var updatedOrder := ApplyOrderPatch(db.orders[i], patch, now);
    db.orders := db.orders[i := updatedOrder];
    db.LogActivity("Update Order", "Order updated successfully.", "order", id, userId, ipAddress, now);
    if ShouldNotify(updatedOrder) {
      var _ := NotifyExternalOrderStatus(outbox, config, updatedOrder.orderId.value, updatedOrder.status.value,
                                         None, outcome);
    }
    r := Ok(OK, updatedOrder);
  }

  // ---------------------------------------------------------------------------
  // getOrderStatistics

  /** One `$group` result: `{ _id: status, count }`; an order without a status
      is grouped under `None` (`null`). */
  datatype StatusCount = StatusCount(status: Option<string>, count: nat)

  /** The number of orders with status `s`. */
  function CountStatus(orders: seq<Order>, s: Option<string>): nat {
    if |orders| == 0 then 0
    else CountStatus(orders[..|orders| - 1], s) + (if orders[|orders| - 1].status == s then 1 else 0)
  }

  predicate DistinctStatuses(groups: seq<StatusCount>) {
    forall i, j :: 0 <= i < j < |groups| ==> groups[i].status != groups[j].status
  }

  predicate NoEmptyGroup(groups: seq<StatusCount>) {
    forall i :: 0 <= i < |groups| ==> groups[i].count >= 1
  }

  /** The statuses that have a group. */
  function Statuses(groups: seq<StatusCount>): (st: set<Option<string>>)
    ensures forall i :: 0 <= i < |groups| ==> groups[i].status in st
  {
    if |groups| == 0 then {} else {groups[0].status} + Statuses(groups[1..])
  }

  /** A status no group carries has no group. */
  lemma {:induction false} StatusAbsent(groups: seq<StatusCount>, t: Option<string>)
    requires forall i :: 0 <= i < |groups| ==> groups[i].status != t
    ensures t !in Statuses(groups)
    decreases |groups|
  {
    if |groups| > 0 {
      StatusAbsent(groups[1..], t);
    }
  }

  /** The count of the group for `s`, or 0 when there is none. */
  function CountOf(groups: seq<StatusCount>, s: Option<string>): nat {
    if |groups| == 0 then 0
    else if groups[0].status == s then groups[0].count
    else CountOf(groups[1..], s)
  }

  function SumCounts(groups: seq<StatusCount>): nat {
    if |groups| == 0 then 0 else groups[0].count + SumCounts(groups[1..])
  }

  /** `$sum: 1` for one more document with status `s`: its group's count goes up
      by one, or a group of one is added at the end. */
  function Bump(groups: seq<StatusCount>, s: Option<string>): (r: seq<StatusCount>)
    ensures Statuses(r) == Statuses(groups) + {s}
    ensures DistinctStatuses(groups) ==> DistinctStatuses(r)
    ensures NoEmptyGroup(groups) ==> NoEmptyGroup(r)
    ensures forall t :: CountOf(r, t) == CountOf(groups, t) + (if t == s then 1 else 0)
    ensures SumCounts(r) == SumCounts(groups) + 1
  {
    if |groups| == 0 then [StatusCount(s, 1)]
    else if groups[0].status == s then
      var r := [groups[0].(count := groups[0].count + 1)] + groups[1..];
      assert r[1..] == groups[1..];
      r
    else
      var rest := Bump(groups[1..], s);
      var r := [groups[0]] + rest;
      assert r[1..] == rest;
      assert DistinctStatuses(groups) ==> groups[0].status !in Statuses(groups[1..]) by {
        if DistinctStatuses(groups) {
          StatusAbsent(groups[1..], groups[0].status);
        }
      }
      r
  }

  /** `getOrderStatistics`: the orders grouped by status, with distinct groups in
      order of first appearance. Every group holds at least one order and its
      count is the number of orders with that status; every order's status has
      a group; the counts add up to the number of orders. */
  function GetOrderStatistics(orders: seq<Order>): (r: seq<StatusCount>)
    ensures DistinctStatuses(r) && NoEmptyGroup(r)
    ensures forall t :: CountOf(r, t) == CountStatus(orders, t)
    ensures forall i :: 0 <= i < |orders| ==> orders[i].status in Statuses(r)
    ensures SumCounts(r) == |orders|
  {
    if |orders| == 0 then []
    else
      var prefix := orders[..|orders| - 1];
      var r := Bump(GetOrderStatistics(prefix), orders[|orders| - 1].status);
      assert forall i :: 0 <= i < |orders| - 1 ==> orders[i] == prefix[i];
      r
  }

  /** Within distinct groups, a group's own count is what `CountOf` reads. */
  lemma {:induction false} CountOfGroup(groups: seq<StatusCount>, j: nat)
    requires DistinctStatuses(groups) && j < |groups|
    ensures CountOf(groups, groups[j].status) == groups[j].count
    decreases j
  {
    if j > 0 {
      CountOfGroup(groups[1..], j - 1);
    }
  }

  /** Each statistics group counts exactly the orders with its status, and at
      least one. */
  lemma StatisticsGroupCounts(orders: seq<Order>, j: nat)
    requires j < |GetOrderStatistics(orders)|
    ensures var g := GetOrderStatistics(orders)[j];
            g.count == CountStatus(orders, g.status) && g.count >= 1
  {
    CountOfGroup(GetOrderStatistics(orders), j);
  }
}

/** The handlers behind the public API: `createOrderPublic`,
    `updateOrderPublic`, `getOrderPublic`, `listOrdersPublic`. They run after
    `apiKeyAuth` and `requirePermission`; `apiUser` is the owner of the key. */
module PublicOrderController {
  import opened Common
  import opened Seqs
  import opened OrderModel
  import opened Store

  const MSG_DESCRIPTION_REQUIRED: string := "Description is required"
  const MSG_STATUS_REQUIRED: string := "Status is required"
  const MSG_PRODUCT_ID_REQUIRED: string := "Product ID is required"
  const MSG_PRICE_REQUIRED: string := "Price is required"
  const MSG_QUANTITY_REQUIRED: string := "Quantity is required"
  const MSG_PRODUCT_NOT_FOUND: string := "Product not found"
  const MSG_INSUFFICIENT: string := "Insufficient product quantity"
  const MSG_CREATE_FAILED: string := "Error creating order"
  const MSG_ORDER_NOT_FOUND: string := "Order not found"
  const MSG_UPDATE_FAILED: string := "Error updating order"
  const MSG_LIST_FAILED: string := "Error listing orders"

  /** The body of `POST /orders`. */
  datatype PublicOrderBody = PublicOrderBody(
    user: Option<UserId>,
    description: Option<string>,    // `Description`
    product: Option<ProductLine>,   // `Product`
    status: Option<string>,
    packages: Option<seq<Package>>)

  /** The first check of the create ladder that fails, in the order the handler
      makes them: Description, status, then the product id, price and quantity
      of `Product` (a price or quantity of 0 counts as missing). */
  function CreateOrderCheck(b: PublicOrderBody): (r: Option<string>)
    ensures r.None? <==>
              && TruthyString(b.description) && TruthyString(b.status) && b.product.Some?
              && b.product.value.product.Some? && TruthyNumber(b.product.value.price)
              && TruthyNumber(b.product.value.quantity)
    ensures r == Some(MSG_DESCRIPTION_REQUIRED) <==> !TruthyString(b.description)
    ensures r == Some(MSG_STATUS_REQUIRED) <==> TruthyString(b.description) && !TruthyString(b.status)
    ensures r == Some(MSG_PRODUCT_ID_REQUIRED) <==>
              TruthyString(b.description) && TruthyString(b.status) &&
              (b.product.None? || b.product.value.product.None?)
    ensures r == Some(MSG_PRICE_REQUIRED) <==>
              && TruthyString(b.description) && TruthyString(b.status) && b.product.Some?
              && b.product.value.product.Some? && !TruthyNumber(b.product.value.price)
    ensures r == Some(MSG_QUANTITY_REQUIRED) <==>
              && TruthyString(b.description) && TruthyString(b.status) && b.product.Some?
              && b.product.value.product.Some? && TruthyNumber(b.product.value.price)
              && !TruthyNumber(b.product.value.quantity)
  {
    if !TruthyString(b.description) then Some(MSG_DESCRIPTION_REQUIRED)
    else if !TruthyString(b.status) then Some(MSG_STATUS_REQUIRED)
    else if b.product.None? || b.product.value.product.None? then Some(MSG_PRODUCT_ID_REQUIRED)
    else if !TruthyNumber(b.product.value.price) then Some(MSG_PRICE_REQUIRED)
    else if !TruthyNumber(b.product.value.quantity) then Some(MSG_QUANTITY_REQUIRED)
    else None
  }

  /** The order document `createOrderPublic` builds: the owner defaults to the
      key's user, the total is price times quantity, and packages default to
      none. */
  function NewPublicOrder(id: Id, b: PublicOrderBody, apiUser: UserId, now: Time): (o: Order)
    requires CreateOrderCheck(b).None?
    ensures o.id == id && o.createdAt == now && o.updatedAt == now
    ensures o.user == Some(if b.user.Some? then b.user.value else apiUser)
    ensures o.totalAmount == Some(b.product.value.price.value * b.product.value.quantity.value)
    ensures o.product == b.product.value && o.status == b.status && o.description == b.description
    ensures o.packages == if b.packages.Some? then b.packages.value else []
    ensures o.orderId.None? && o.externalOrderId.None? && o.invoiceUrl.None? && o.custRefNo.None?
    ensures OrderSchemaValid(o) <==> StatusSchemaValid(b.status) && PackagesSchemaValid(o.packages)
  {
    var line := b.product.value;
    Order(id, Some(b.user.GetOr(apiUser)), b.description, line, Some(line.price.value * line.quantity.value),
          b.status, None, None, None, None, b.packages.GetOr([]), now, now)
  }

  /** Every product keeps a non-negative stock. */
  predicate StockNonNegative(products: seq<Product>) {
    forall j :: 0 <= j < |products| ==> products[j].quantity >= 0
  }

  /** The reply of `createOrderPublic`; a shortage reports what is available and
      what was requested. */
  datatype CreateReply =
    | Created(order: Order)
    | Refused(code: nat, message: string)
    | Insufficient(available: int, requested: int)

  /** `createOrderPublic`. A failed check gives 400; an unknown product 404; a
      stock below the requested quantity 400 with both figures. Otherwise the
      stock is decremented and saved first, then the order is saved: if the
      order's validators reject it (a status or unit outside its enum) the
      reply is 500 and the decrement stays. A non-negative stock stays
      non-negative, whatever the quantity's sign. */
  method CreateOrderPublic(db: Database, apiUser: UserId, now: Time, b: PublicOrderBody) returns (r: CreateReply)
    requires db.Valid()
    modifies db`products, db`orders, db`nextId
    ensures db.Valid()
    ensures StockNonNegative(old(db.products)) ==> StockNonNegative(db.products)
    ensures CreateOrderCheck(b).Some? ==>
              r == Refused(BAD_REQUEST, CreateOrderCheck(b).value)
              && db.products == old(db.products) && db.orders == old(db.orders)
    ensures CreateOrderCheck(b).None? ==>
      var line := b.product.value;
      var q := line.quantity.value;
      match ProductIndex(old(db.products), line.product.value)
      case None =>
        r == Refused(NOT_FOUND, MSG_PRODUCT_NOT_FOUND) && db.products == old(db.products) && db.orders == old(db.orders)
      case Some(pi) =>
        if old(db.products)[pi].quantity < q then
          && r == Insufficient(old(db.products)[pi].quantity, q)
          && db.products == old(db.products) && db.orders == old(db.orders)
        else
          var o := NewPublicOrder(old(db.nextId), b, apiUser, now);
          && db.products == old(db.products)[pi := old(db.products)[pi].(quantity := old(db.products)[pi].quantity - q)]
          && (OrderSchemaValid(o) ==> r == Created(o) && db.orders == old(db.orders) + [o])
          && (!OrderSchemaValid(o) ==> r == Refused(SERVER_ERROR, MSG_CREATE_FAILED) && db.orders == old(db.orders))
  {
    var check := CreateOrderCheck(b);
    if check.Some? {
      return Refused(BAD_REQUEST, check.value);
    }
    var line := b.product.value;
    var quantity := line.quantity.value;
    var found := ProductIndex(db.products, line.product.value);
    if found.None? {
      return Refused(NOT_FOUND, MSG_PRODUCT_NOT_FOUND);
    }
    var pi := found.value;
    var productRecord := db.products[pi];
    if productRecord.quantity < quantity {
      return Insufficient(productRecord.quantity, quantity);
    }
    db.products := db.products[pi := productRecord.(quantity := productRecord.quantity - quantity)];
    var id := db.FreshId();
    var newOrder := NewPublicOrder(id, b, apiUser, now);
    var saved := db.SaveOrder(newOrder);
    r := if saved then Created(newOrder) else Refused(SERVER_ERROR, MSG_CREATE_FAILED);
  }

  /** `reduce((sum, item) => sum + item.quantity * item.price, 0)`, folding from
      the left: lines with no negative quantity or price never give a negative
      total, and the empty array gives 0. */
  function LineTotal(items: seq<LineItem>): (total: int)
    ensures |items| == 0 ==> total == 0
    ensures (forall i :: 0 <= i < |items| ==> items[i].quantity >= 0 && items[i].price >= 0) ==> total >= 0
  {
    if |items| == 0 then 0
    else LineTotal(items[..|items| - 1]) + items[|items| - 1].quantity * items[|items| - 1].price
  }

  /** The total of a concatenation is the sum of the totals: the fold's order
      does not matter. */
  lemma {:induction false} LineTotalAppend(a: seq<LineItem>, b: seq<LineItem>)
    ensures LineTotal(a + b) == LineTotal(a) + LineTotal(b)
    decreases |b|
  {
    if |b| == 0 {
      assert a + b == a;
    } else {
      var b' := b[..|b| - 1];
      assert (a + b)[..|a + b| - 1] == a + b';
      LineTotalAppend(a, b');
    }
  }

  /** A line array's total counts every line exactly once. */
  lemma {:induction false} LineTotalCons(x: LineItem, rest: seq<LineItem>)
    ensures LineTotal([x] + rest) == x.quantity * x.price + LineTotal(rest)
  {
    LineTotalAppend([x], rest);
    assert [x][..0] == [];
  }

  /** The body after the handler's rewrite of `totalAmount`: a single-object
      `Product` with a non-zero price and quantity sets it to their product; an
      array `Product` sets it to the lines' total; otherwise the body's own
      `totalAmount`, if any, is kept. */
  function WithRecomputedTotal(p: OrderPatch): (p': OrderPatch)
    ensures p' == p.(totalAmount := p'.totalAmount)
    ensures p.product.Some? && p.product.value.LineItems? ==>
              p'.totalAmount == Some(Some(LineTotal(p.product.value.items)))
    ensures p.product.Some? && p.product.value.SingleLine? &&
            TruthyNumber(p.product.value.price) && TruthyNumber(p.product.value.quantity) ==>
              p'.totalAmount == Some(Some(p.product.value.price.value * p.product.value.quantity.value))
    ensures p.product.None? || (p.product.value.SingleLine? &&
            !(TruthyNumber(p.product.value.price) && TruthyNumber(p.product.value.quantity))) ==>
              p'.totalAmount == p.totalAmount
  {
    match p.product
    case None => p
    case Some(SingleLine(_, price, quantity)) =>
      if TruthyNumber(price) && TruthyNumber(quantity) then p.(totalAmount := Some(Some(price.value * quantity.value)))
      else p
    case Some(LineItems(items)) => p.(totalAmount := Some(Some(LineTotal(items))))
  }

  /** A one-line array and the equivalent single object give the same total. */
  lemma OneLineAgreesWithSingle(p: OrderPatch, id: Option<Id>, price: int, quantity: int)
    requires price != 0 && quantity != 0
    ensures WithRecomputedTotal(p.(product := Some(LineItems([LineItem(quantity, price)])))).totalAmount ==
            WithRecomputedTotal(p.(product := Some(SingleLine(id, Some(price), Some(quantity))))).totalAmount
  {
    LineTotalCons(LineItem(quantity, price), []);
  }

  /** `updateOrderPublic`. The total is recomputed, then the update validators
      run on the fields the body sets (before the order is looked up, so an
      invalid body gives 500 even for an unknown id); an unknown id gives 404;
      otherwise the fields are applied and the updated order returned. The
      public API never notifies the external status service. */
  method UpdateOrderPublic(db: Database, id: Id, patch: OrderPatch, now: Time) returns (r: Reply<Order>)
    requires db.Valid()
    modifies db`orders
    ensures db.Valid()
    ensures var p := WithRecomputedTotal(patch);
      if !PatchSchemaValid(p) then
        r == Err(SERVER_ERROR, MSG_UPDATE_FAILED) && db.orders == old(db.orders)
      else match OrderIndex(old(db.orders), id)
        case None => r == Err(NOT_FOUND, MSG_ORDER_NOT_FOUND) && db.orders == old(db.orders)
        case Some(i) =>
          var o' := ApplyOrderPatch(old(db.orders)[i], p, now);
          && r == Ok(OK, o')
          && db.orders == old(db.orders)[i := o']
          && GetOrderPublic(db.orders, id) == Ok(OK, o')
  {
    var updates := WithRecomputedTotal(patch);
    if !PatchSchemaValid(updates) {
      return Err(SERVER_ERROR, MSG_UPDATE_FAILED);
    }
    var found := OrderIndex(db.orders, id);
    if found.None? {
      return Err(NOT_FOUND, MSG_ORDER_NOT_FOUND);
    }
    var i := found.value;
    var updatedOrder := ApplyOrderPatch(db.orders[i], updates, now);
    db.orders := db.orders[i := updatedOrder];
    OrderIndexFinds(db.orders, i);
    r := Ok(OK, updatedOrder);
  }

  /** `getOrderPublic`: any order by id, whoever owns it; 404 when there is none. */
  function GetOrderPublic(orders: seq<Order>, id: Id): (r: Reply<Order>)
    ensures r.Ok? <==> exists i :: 0 <= i < |orders| && orders[i].id == id
    ensures r.Ok? ==> r.code == OK && r.value in orders && r.value.id == id
    ensures r.Err? ==> r == Err(NOT_FOUND, MSG_ORDER_NOT_FOUND)
  {
    match OrderIndex(orders, id)
    case None => Err(NOT_FOUND, MSG_ORDER_NOT_FOUND)
    case Some(i) => Ok(OK, orders[i])
  }

  /** `Math.ceil(count / limit)` for a non-zero limit, exactly. */
  function CeilDiv(count: nat, limit: int): (c: int)
    requires limit != 0
    ensures limit > 0 ==> (c - 1) * limit < count <= c * limit
    ensures limit < 0 ==> c * limit <= count < (c - 1) * limit
  {
    if limit > 0 then
      var c := (count + limit - 1) / limit;
      assert (c - 1) * limit < count <= c * limit by {
        DivBounds(count + limit - 1, limit);
      }
      c
    else
      var c := -(count / -limit);
      assert c * limit <= count < (c - 1) * limit by {
        DivBounds(count, -limit);
      }
      c
  }

  lemma DivBounds(a: nat, b: int)
    requires b > 0
    ensures (a / b) * b <= a < (a / b) * b + b
  {
  }

  /** The reply of `listOrdersPublic`. `totalPages` is `None` where the source
      divides by a zero limit (`Infinity` or `NaN`, both sent as `null`). */
  datatype OrderPage = OrderPage(orders: seq<Order>, totalPages: Option<int>, currentPage: int, totalOrders: nat)

  /** The orders the query matches (all of them, or those with the given status
      when `status` is non-empty), each once as stored, newest first. */
  function MatchingNewestFirst(orders: seq<Order>, status: Option<string>): (s: seq<Order>)
    ensures forall j :: 0 <= j < |s| ==> s[j] in orders && (TruthyString(status) ==> s[j].status == status)
    ensures forall i :: 0 <= i < |orders| && (TruthyString(status) ==> orders[i].status == status) ==> orders[i] in s
    ensures forall o :: multiset(s)[o] == if !TruthyString(status) || o.status == status then multiset(orders)[o] else 0
    ensures !TruthyString(status) ==> |s| == |orders|
    ensures forall j, l :: 0 <= j < l < |s| ==> s[j].createdAt >= s[l].createdAt
  {
    var s := SelectNewestFirst(orders, (o: Order) => !TruthyString(status) || o.status == status, (o: Order) => o.createdAt);
    assert !TruthyString(status) ==> multiset(s) == multiset(orders);
    s
  }

  /** `.skip(skip).limit(limit)`: a limit of 0 means no limit, a negative limit
      its absolute value. */
  function Window(s: seq<Order>, skip: nat, limit: int): (w: seq<Order>)
    ensures |w| == if skip >= |s| then 0 else if limit == 0 then |s| - skip else Min(Abs(limit), |s| - skip)
    ensures forall t :: 0 <= t < |w| ==> skip + t < |s| && w[t] == s[skip + t]
  {
    if skip >= |s| then []
    else if limit == 0 then s[skip..]
    else s[skip..skip + Min(Abs(limit), |s| - skip)]
  }

  function Abs(x: int): nat { if x < 0 then -x else x }
  function Min(a: nat, b: nat): nat { if a < b then a else b }

  /** One page of the sorted matches, with the totals: a negative skip
      `(page - 1) * limit` is refused by the database (500). */
  function Paginate(all: seq<Order>, page: int, limit: int): (r: Reply<OrderPage>)
    ensures var skip := (page - 1) * limit;
      && (r.Err? <==> skip < 0)
      && (r.Err? ==> r == Err(SERVER_ERROR, MSG_LIST_FAILED))
      && (r.Ok? ==>
            && r.code == OK && r.value.totalOrders == |all| && r.value.currentPage == page
            && |r.value.orders| == (if skip >= |all| then 0 else if limit == 0 then |all| - skip
                                    else Min(Abs(limit), |all| - skip))
            && (forall t :: 0 <= t < |r.value.orders| ==> skip + t < |all| && r.value.orders[t] == all[skip + t])
            && (limit != 0 ==> r.value.totalPages == Some(CeilDiv(|all|, limit)))
            && (limit == 0 ==> r.value.totalPages.None?))
  {
    var skip := (page - 1) * limit;
    if skip < 0 then Err(SERVER_ERROR, MSG_LIST_FAILED)
    else Ok(OK, OrderPage(Window(all, skip, limit), if limit == 0 then None else Some(CeilDiv(|all|, limit)),
                          page, |all|))
  }

  /** `listOrdersPublic` with `page` and `limit` defaulting to 1 and 10: one page
      of the matching orders, newest first, with their count. It is `Paginate`
      applied to `MatchingNewestFirst`; `PageContents` and `PagesCoverAll` say
      which orders each page holds. */
  function ListOrdersPublic(orders: seq<Order>, page: Option<int>, limit: Option<int>, status: Option<string>)
    : (r: Reply<OrderPage>)
    ensures r.Ok? ==> forall t :: 0 <= t < |r.value.orders| ==>
              r.value.orders[t] in orders && (TruthyString(status) ==> r.value.orders[t].status == status)
    ensures r.Ok? ==> forall t, u :: 0 <= t < u < |r.value.orders| ==>
              r.value.orders[t].createdAt >= r.value.orders[u].createdAt
  {
    var all := MatchingNewestFirst(orders, status);
    var r := Paginate(all, page.GetOr(1), limit.GetOr(10));
    var skip := (page.GetOr(1) - 1) * limit.GetOr(10);
    assert r.Ok? ==> forall t :: 0 <= t < |r.value.orders| ==> skip + t < |all| && r.value.orders[t] == all[skip + t];
    r
  }

  /** `totalOrders` is the number of matching orders, and `currentPage` the
      requested page. */
  lemma ListCountsMatches(orders: seq<Order>, page: Option<int>, limit: Option<int>, status: Option<string>)
    ensures var r := ListOrdersPublic(orders, page, limit, status);
      r.Ok? ==> r.value.totalOrders == |MatchingNewestFirst(orders, status)| && r.value.currentPage == page.GetOr(1)
  {
  }

  /** Without a status filter, `totalOrders` is the number of stored orders. */
  lemma UnfilteredTotalIsStoreSize(orders: seq<Order>, page: Option<int>, limit: Option<int>, status: Option<string>)
    requires !TruthyString(status)
    ensures var r := ListOrdersPublic(orders, page, limit, status);
      r.Ok? ==> r.value.totalOrders == |orders|
  {
  }

  /** With a positive limit, page `page` lists the matches of ranks
      `(page - 1) * limit` onwards, and is within `totalPages` when it lists
      anything. */
  lemma PageContents(all: seq<Order>, limit: int, page: int, t: nat)
    requires limit > 0 && page >= 1 && t < limit
    requires (page - 1) * limit + t < |all|
    ensures var r := Paginate(all, page, limit);
      && r.Ok?
      && t < |r.value.orders|
      && r.value.orders[t] == all[(page - 1) * limit + t]
      && page <= r.value.totalPages.value
  {
    var skip := (page - 1) * limit;
    assert skip >= 0 by { MulMonotone(0, page - 1, limit); }
    var c := CeilDiv(|all|, limit);
    if page > c {
      MulMonotone(c, page - 1, limit);
      assert false;
    }
  }

  /** Every match is listed on exactly the page its rank `k` puts it on, at
      offset `k % limit`. */
  lemma PagesCoverAll(all: seq<Order>, limit: int, k: nat)
    requires limit > 0 && k < |all|
    ensures var r := Paginate(all, k / limit + 1, limit);
      && r.Ok?
      && k % limit < |r.value.orders|
      && r.value.orders[k % limit] == all[k]
      && 1 <= k / limit + 1 <= r.value.totalPages.value
  {
    PageOfRank(k, |all|, limit);
    assert (k / limit + 1 - 1) * limit + k % limit == k;
    PageContents(all, limit, k / limit + 1, k % limit);
  }

  /** Rank `k` sits at offset `k % limit` of page `k / limit + 1`, which is
      within `Math.ceil(count / limit)` pages. */
  lemma PageOfRank(k: nat, count: nat, limit: int)
    requires limit > 0 && k < count
    ensures (k / limit) * limit + k % limit == k && k % limit < limit
    ensures k / limit + 1 <= CeilDiv(count, limit)
  {
    var c := CeilDiv(count, limit);
    var q := k / limit;
    DivBounds(k, limit);
    if q + 1 > c {
      MulMonotone(c, q, limit);
      assert false;
    }
  }

  lemma MulMonotone(a: int, b: int, m: int)
    requires a <= b && m > 0
    ensures a * m <= b * m
  {
  }
}

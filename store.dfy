/** The document store: each collection as a sequence in its natural order, the
    activity log as an append-only sequence, and a counter for fresh `_id`s. */
module Store {
  import opened Common
  import opened Seqs
  import opened ApiKeyModel
  import opened WebhookModel
  import opened OrderModel

  /** models/Product.js is not part of this model: of a product only its `_id`
      and its stock `quantity` are used. */
  datatype Product = Product(id: Id, quantity: int)

  /** The unique index on `key`. */
  predicate TokensUnique(keys: seq<ApiKey>) {
    forall i, j :: 0 <= i < j < |keys| ==> keys[i].key != keys[j].key
  }

  predicate KeyIdsDistinct(keys: seq<ApiKey>) {
    forall i, j :: 0 <= i < j < |keys| ==> keys[i].id != keys[j].id
  }

  predicate WebhookIdsDistinct(hooks: seq<Webhook>) {
    forall i, j :: 0 <= i < j < |hooks| ==> hooks[i].id != hooks[j].id
  }

  predicate OrderIdsDistinct(orders: seq<Order>) {
    forall i, j :: 0 <= i < j < |orders| ==> orders[i].id != orders[j].id
  }

  predicate ProductIdsDistinct(products: seq<Product>) {
    forall i, j :: 0 <= i < j < |products| ==> products[i].id != products[j].id
  }

  /** `Order.findById(id)` */
  function OrderIndex(orders: seq<Order>, id: Id): (r: Option<nat>)
    ensures r.Some? ==> r.value < |orders| && orders[r.value].id == id
    ensures r.None? <==> forall i :: 0 <= i < |orders| ==> orders[i].id != id
  {
    FirstIndex(orders, (o: Order) => o.id == id)
  }

  /** `ProductModel.findById(id)` */
  function ProductIndex(products: seq<Product>, id: Id): (r: Option<nat>)
    ensures r.Some? ==> r.value < |products| && products[r.value].id == id
    ensures r.None? <==> forall i :: 0 <= i < |products| ==> products[i].id != id
  {
    FirstIndex(products, (p: Product) => p.id == id)
  }

  /** With distinct ids, `findById` finds the document stored under that id. */
  lemma OrderIndexFinds(orders: seq<Order>, i: nat)
    requires OrderIdsDistinct(orders) && i < |orders|
    ensures OrderIndex(orders, orders[i].id) == Some(i)
  {
    assert OrderIndex(orders, orders[i].id).Some?;
  }

  class Database {
    var apiKeys: seq<ApiKey>
    var webhooks: seq<Webhook>
    var orders: seq<Order>
    var products: seq<Product>
    var audit: seq<AuditEntry>
    var nextId: nat

    /** `_id`s are unique and below the counter; the `key` index is unique; every
        stored key and webhook passed its schema's validators. Orders need not
        satisfy their schema: `updatestatusOrder` writes without validators. */
    ghost predicate Valid()
      reads this
    {
      && (forall i :: 0 <= i < |apiKeys| ==> apiKeys[i].id < nextId && ApiKeySchemaValid(apiKeys[i]))
      && KeyIdsDistinct(apiKeys)
      && TokensUnique(apiKeys)
      && (forall i :: 0 <= i < |webhooks| ==> webhooks[i].id < nextId && WebhookSchemaValid(webhooks[i]))
      && WebhookIdsDistinct(webhooks)
      && (forall i :: 0 <= i < |orders| ==> orders[i].id < nextId)
      && OrderIdsDistinct(orders)
      && ProductIdsDistinct(products)
    }

    constructor (products: seq<Product>)
      requires ProductIdsDistinct(products)
      ensures Valid()
      ensures apiKeys == [] && webhooks == [] && orders == [] && audit == []
      ensures this.products == products
    {
      apiKeys, webhooks, orders, audit := [], [], [], [];
      this.products := products;
      nextId := 0;
    }

    /** `updateLastUsed` on the `i`-th key: `lastUsedAt := now`, then save. */
    method UpdateLastUsed(i: nat, now: Time)
      requires Valid() && i < |apiKeys|
      modifies this`apiKeys
      ensures Valid()
      ensures apiKeys == old(apiKeys)[i := WithLastUsed(old(apiKeys)[i], now)]
    {
      apiKeys := apiKeys[i := WithLastUsed(apiKeys[i], now)];
    }

    /** `logActivity`: one record appended, stamped with `now`. */
    method LogActivity(action: string, description: string, entity: string, entityId: Id,
                       userId: UserId, ipAddress: string, now: Time)
      modifies this`audit
      ensures audit == old(audit) + [AuditEntry(action, description, entity, entityId, userId, ipAddress, now)]
    {
      audit := audit + [AuditEntry(action, description, entity, entityId, userId, ipAddress, now)];
    }

    /** `save()` of a new key that passed the validators and whose id and
        token no stored key has: it is appended and the store stays valid. */
    method InsertApiKey(k: ApiKey)
      requires Valid() && k.id < nextId && ApiKeySchemaValid(k)
      requires forall i :: 0 <= i < |apiKeys| ==> apiKeys[i].id != k.id && apiKeys[i].key != k.key
      modifies this`apiKeys
      ensures Valid()
      ensures apiKeys == old(apiKeys) + [k]
    {
      apiKeys := apiKeys + [k];
    }

    /** `save()` of a new order: the schema's validators run first, and a
        document they reject is not written. */
    method SaveOrder(o: Order) returns (saved: bool)
      requires Valid() && o.id < nextId && OrderIndex(orders, o.id).None?
      modifies this`orders
      ensures Valid()
      ensures saved <==> OrderSchemaValid(o)
      ensures orders == if saved then old(orders) + [o] else old(orders)
    {
      saved := OrderSchemaValid(o);
      if saved {
        orders := orders + [o];
      }
    }

    /** The `_id` MongoDB assigns to a new document. */
    method FreshId() returns (id: Id)
      requires Valid()
      modifies this`nextId
      ensures Valid()
      ensures id == old(nextId) && nextId == id + 1
    {
      id := nextId;
      nextId := nextId + 1;
    }
  }
}

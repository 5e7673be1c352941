/** The Order document with its embedded packages and package items: the enums,
    the required fields, and how `findByIdAndUpdate` applies an update to it.
    Numbers (amounts, quantities, weights) are integers here: the source uses
    floating-point JavaScript numbers. */
module OrderModel {
  import opened Common

  datatype OrderStatus = Received | Processing | Completed

  function StatusName(s: OrderStatus): string {
    match s
    case Received => "received"
    case Processing => "processing"
    case Completed => "completed"
  }

  /** The `enum` of `status`, read back from the stored string. */
  function ParseStatus(s: string): (r: Option<OrderStatus>)
    ensures r.Some? ==> StatusName(r.value) == s
    ensures r.None? ==> forall st: OrderStatus :: StatusName(st) != s
  {
    if s == "received" then Some(Received)
    else if s == "processing" then Some(Processing)
    else if s == "completed" then Some(Completed)
    else None
  }

  lemma StatusNameRoundTrip(st: OrderStatus)
    ensures ParseStatus(StatusName(st)) == Some(st)
  {
  }

  const PackageQuantityUnits: set<string> := {"pieces", "cartons", "pallets"}
  const ItemQuantityUnits: set<string> := {"pieces"}
  const WeightUnits: set<string> := {"kg", "lbs"}
  const DimensionUnits: set<string> := {"cm", "inch"}

  datatype CustomField = CustomField(uniqueKey: Option<string>, value: Option<string>, fieldLabel: Option<string>)  // `label` in the schema

  datatype PackageItem = PackageItem(
    reference: Option<string>,
    sku: Option<string>,
    quantity: Option<int>,
    quantityUnit: Option<string>,
    grossWeightPerUnit: Option<int>,
    weightUnit: Option<string>,
    customFieldData: seq<CustomField>)

  datatype Package = Package(
    displayOrder: Option<int>,
    reference: Option<string>,
    code: Option<string>,
    quantity: Option<int>,
    quantityUnit: Option<string>,
    grossWeightPerUnit: Option<int>,
    grossWeightSubtotal: Option<int>,
    weightUnit: Option<string>,
    length: Option<int>,
    height: Option<int>,
    width: Option<int>,
    dimensionUnit: Option<string>,
    cbm: Option<int>,
    customFieldData: seq<CustomField>,
    fromWaypointUuid: Option<string>,
    toWaypointUuid: Option<string>,
    itemTotalQuantity: Option<int>,
    items: seq<PackageItem>)

  /** The `Product` sub-object: the referenced product, a quantity and a price. */
  datatype ProductLine = ProductLine(product: Option<Id>, quantity: Option<int>, price: Option<int>)

  datatype Order = Order(
    id: Id,
    user: Option<UserId>,
    description: Option<string>,
    product: ProductLine,
    totalAmount: Option<int>,
    status: Option<string>,
    invoiceUrl: Option<string>,
    externalOrderId: Option<string>,
    orderId: Option<string>,
    custRefNo: Option<string>,
    packages: seq<Package>,
    createdAt: Time,
    updatedAt: Time)

  /** An enum-constrained optional field: unset, or one of the allowed values. */
  predicate InEnum(v: Option<string>, allowed: set<string>) {
    v.None? || v.value in allowed
  }

  predicate ItemSchemaValid(it: PackageItem) {
    InEnum(it.quantityUnit, ItemQuantityUnits) && InEnum(it.weightUnit, WeightUnits)
  }

  predicate PackageSchemaValid(p: Package) {
    && InEnum(p.quantityUnit, PackageQuantityUnits)
    && InEnum(p.weightUnit, WeightUnits)
    && InEnum(p.dimensionUnit, DimensionUnits)
    && forall i :: 0 <= i < |p.items| ==> ItemSchemaValid(p.items[i])
  }

  predicate PackagesSchemaValid(ps: seq<Package>) {
    forall i :: 0 <= i < |ps| ==> PackageSchemaValid(ps[i])
  }

  predicate StatusSchemaValid(s: Option<string>) {
    s.None? || ParseStatus(s.value).Some?
  }

  /** What the validators demand when an order is saved: `Description` (non-empty),
      `Product.quantity`, `Product.price` and `totalAmount` are required, `status`
      and every unit field are drawn from their enums. */
  predicate OrderSchemaValid(o: Order) {
    && TruthyString(o.description)
    && o.product.quantity.Some?
    && o.product.price.Some?
    && o.totalAmount.Some?
    && StatusSchemaValid(o.status)
    && PackagesSchemaValid(o.packages)
  }

  /** The stored status, when it is one of the enum's values. */
  function StatusOf(o: Order): (r: Option<OrderStatus>)
    ensures r.Some? ==> o.status == Some(StatusName(r.value))
    ensures OrderSchemaValid(o) && o.status.Some? ==> r.Some?
  {
    if o.status.Some? then ParseStatus(o.status.value) else None
  }

  // ---------------------------------------------------------------------------
  // Updates: the request body handed to `findByIdAndUpdate`.

  /** One line of an array-valued `Product` in an update body. */
  datatype LineItem = LineItem(quantity: int, price: int)

  /** A `Product` in an update body: a single object, or an array of lines. */
  datatype ProductUpdate =
    | SingleLine(product: Option<Id>, price: Option<int>, quantity: Option<int>)
    | LineItems(items: seq<LineItem>)

  /** The fields of an update body. `None` means the field is absent; for a
      field the document may leave unset, `Some(None)` is an explicit `null`,
      which `findByIdAndUpdate` writes and so clears the stored value. */
  datatype OrderPatch = OrderPatch(
    user: Option<Option<UserId>>,
    description: Option<Option<string>>,
    product: Option<ProductUpdate>,
    totalAmount: Option<Option<int>>,
    status: Option<Option<string>>,
    invoiceUrl: Option<Option<string>>,
    externalOrderId: Option<Option<string>>,
    orderId: Option<Option<string>>,
    custRefNo: Option<Option<string>>,
    packages: Option<seq<Package>>)

  function Replace<T>(current: T, given: Option<T>): T {
    if given.Some? then given.value else current
  }

  /** A single-object `Product` replaces the whole sub-object; an array `Product`
      is not written to the single-line path (see README). */
  function PatchedProduct(current: ProductLine, given: Option<ProductUpdate>): ProductLine {
    match given
    case Some(SingleLine(prod, price, quantity)) => ProductLine(prod, quantity, price)
    case _ => current
  }

  /** `findByIdAndUpdate(id, body, { new: true })`: every field present in the body
      replaces the stored one, the others keep their value, and `updatedAt`
      becomes `now`. */
  function ApplyOrderPatch(o: Order, p: OrderPatch, now: Time): (o': Order)
    ensures o'.id == o.id && o'.createdAt == o.createdAt && o'.updatedAt == now
    ensures o'.user == (if p.user.Some? then p.user.value else o.user)
    ensures o'.description == (if p.description.Some? then p.description.value else o.description)
    ensures o'.totalAmount == (if p.totalAmount.Some? then p.totalAmount.value else o.totalAmount)
    ensures o'.status == (if p.status.Some? then p.status.value else o.status)
    ensures o'.invoiceUrl == (if p.invoiceUrl.Some? then p.invoiceUrl.value else o.invoiceUrl)
    ensures o'.externalOrderId == (if p.externalOrderId.Some? then p.externalOrderId.value else o.externalOrderId)
    ensures o'.orderId == (if p.orderId.Some? then p.orderId.value else o.orderId)
    ensures o'.custRefNo == (if p.custRefNo.Some? then p.custRefNo.value else o.custRefNo)
    ensures o'.packages == (if p.packages.Some? then p.packages.value else o.packages)
    ensures p.product.Some? && p.product.value.SingleLine? ==>
              o'.product == ProductLine(p.product.value.product, p.product.value.quantity, p.product.value.price)
    ensures p.product.None? || p.product.value.LineItems? ==> o'.product == o.product
  {
    o.(user := Replace(o.user, p.user),
       description := Replace(o.description, p.description),
       product := PatchedProduct(o.product, p.product),
       totalAmount := Replace(o.totalAmount, p.totalAmount),
       status := Replace(o.status, p.status),
       invoiceUrl := Replace(o.invoiceUrl, p.invoiceUrl),
       externalOrderId := Replace(o.externalOrderId, p.externalOrderId),
       orderId := Replace(o.orderId, p.orderId),
       custRefNo := Replace(o.custRefNo, p.custRefNo),
       packages := Replace(o.packages, p.packages),
       updatedAt := now)
  }

  /** The update validators (`runValidators: true`) check only the paths the body
      sets: a set `Description` must be non-empty and not null, a set
      `totalAmount` not null, a set `status` (unless null) and every unit in set
      packages must come from their enums. */
  predicate PatchSchemaValid(p: OrderPatch) {
    && (p.description.None? || TruthyString(p.description.value))
    && (p.totalAmount.None? || p.totalAmount.value.Some?)
    && (p.status.None? || StatusSchemaValid(p.status.value))
    && (p.packages.None? || PackagesSchemaValid(p.packages.value))
  }

  /** A validated update keeps a valid order valid, provided a single-object
      `Product` carries both price and quantity (the validators do not check the
      sibling paths the body leaves out). */
  lemma ValidPatchKeepsOrderValid(o: Order, p: OrderPatch, now: Time)
    requires OrderSchemaValid(o) && PatchSchemaValid(p)
    requires p.product.Some? && p.product.value.SingleLine? ==>
               p.product.value.price.Some? && p.product.value.quantity.Some?
    ensures OrderSchemaValid(ApplyOrderPatch(o, p, now))
  {
  }
}

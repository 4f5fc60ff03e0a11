/** The buyer side of merch: placing an order (price from the variant or the product, stock
    taken from the variant before the order row is inserted) and reading one's own order. */
module MerchOrders {
  import opened Common
  import opened Lifecycle
  import opened Store
  import opened Inventory
  import opened MerchOrderSchema
  import opened DashboardProducts

  /** The product can be ordered: it exists, is active, and its star still exists (the
      query's inner join). */
  predicate Orderable(products: map<Id, Product>, celebrities: map<Id, Celebrity>, product: Id)
  {
    product in products && products[product].isActive && products[product].celebrityId in celebrities
  }

  /** The variant exists and belongs to the product. */
  predicate VariantOf(variants: map<Id, Variant>, product: Id, variant: Id)
  {
    variant in variants && variants[variant].productId == product
  }

  /** The guards before any write pass: the product can be ordered and, when a variant is
      named, it is the product's and has the quantity in stock. */
  predicate Reservable(
    products: map<Id, Product>, variants: map<Id, Variant>, celebrities: map<Id, Celebrity>, input: CreateMerchOrderInput)
  {
    Orderable(products, celebrities, input.productId) &&
    (input.productVariantId.Some? ==>
      VariantOf(variants, input.productId, input.productVariantId.value) &&
      input.quantity <= variants[input.productVariantId.value].stock)
  }

  /** The price of one piece: the variant's override when it has one, else the product's. */
  function UnitPrice(product: Product, variant: Option<Variant>): (p: int)
    ensures variant.Some? && variant.value.priceOverride.Some? ==> p == variant.value.priceOverride.value
    ensures variant.None? || variant.value.priceOverride.None? ==> p == product.price
  {
    if variant.Some? && variant.value.priceOverride.Some? then variant.value.priceOverride.value
    else product.price
  }

  /** The row inserted for an order: pending, nothing shipped yet, the total is the unit
      price times the quantity. */
  function NewMerchOrder(buyer: Id, product: Product, productId: Id, input: CreateMerchOrderInput, unitPrice: int, now: int)
    : (o: MerchOrder)
    ensures o.status == Pending && o.buyerId == buyer && o.celebrityId == product.celebrityId
    ensures o.productId == productId && o.variantId == input.productVariantId && o.quantity == input.quantity
    ensures o.unitPrice == unitPrice && o.totalPrice == unitPrice * input.quantity
    ensures o.confirmedAt.None? && o.shippedAt.None? && o.deliveredAt.None? && o.trackingNumber.None?
    ensures o.createdAt == now && o.updatedAt == now
  {
    MerchOrder(
      buyer, product.celebrityId, productId, input.productVariantId, input.quantity,
      unitPrice, unitPrice * input.quantity,
      Contact(input.buyerName, input.buyerEmail, input.buyerPhone),
      Shipping(input.shippingName, input.shippingAddress, input.shippingCity, input.shippingPostal, input.shippingNote),
      Pending, None, None, None, None, now, now)
  }

  /** The stock step of `createMerchOrder`: without a variant nothing is taken; otherwise
      INVALID_VARIANT for a variant that is not the product's, OUT_OF_STOCK when it holds
      fewer pieces than ordered, DB_ERROR when the stock write fails, else the variant as it
      was read and the table with its stock lowered by the quantity. */
  function StockTaking(variants: map<Id, Variant>, input: CreateMerchOrderInput, stockWriteOk: bool)
    : (t: Result<(Option<Variant>, map<Id, Variant>)>)
    ensures input.productVariantId.None? ==> t == Ok((None, variants))
    ensures input.productVariantId.Some? ==>
      var v := input.productVariantId.value;
      (t == Err(InvalidVariant) <==> !VariantOf(variants, input.productId, v)) &&
      (t.Err? && t.error.OutOfStock? <==>
        VariantOf(variants, input.productId, v) && variants[v].stock < input.quantity) &&
      (t.Err? && t.error.OutOfStock? ==> t.error == Reserve(variants[v].stock, input.quantity).error) &&
      (t == Err(DbError) <==>
        VariantOf(variants, input.productId, v) && input.quantity <= variants[v].stock && !stockWriteOk) &&
      (t.Ok? ==>
         t.value.0 == Some(variants[v]) &&
         t.value.1 == variants[v := variants[v].(stock := variants[v].stock - input.quantity)] &&
         t.value.1[v].stock >= 0)
  {
    match input.productVariantId
    case None => Ok((None, variants))
    case Some(v) =>
      if !VariantOf(variants, input.productId, v) then Err(InvalidVariant)
      else match Reserve(variants[v].stock, input.quantity)
        case Err(e) => Err(e)
        case Ok(left) =>
          if !stockWriteOk then Err(DbError)
          else Ok((Some(variants[v]), variants[v := variants[v].(stock := left)]))
  }

  /** Takes the ordered pieces from the variant's stock, as `StockTaking` says; on an error
      the table is left alone. */
  method TakeStock(db: Db, input: CreateMerchOrderInput, stockWriteOk: bool) returns (r: Result<Option<Variant>>)
    modifies db`variants
    ensures var t := StockTaking(old(db.variants), input, stockWriteOk);
      (t.Err? ==> r == Err(t.error) && db.variants == old(db.variants)) &&
      (t.Ok? ==> r == Ok(t.value.0) && db.variants == t.value.1)
  {
    if input.productVariantId.None? {
      return Ok(None);
    }
    var v := input.productVariantId.value;
    if !VariantOf(db.variants, input.productId, v) {
      return Err(InvalidVariant);
    }
    var variant := db.variants[v];
    if variant.stock < input.quantity {
      return Err(OutOfStock(if variant.stock == 0 then SoldOut else OnlyLeft(variant.stock)));
    }
    if !stockWriteOk {
      return Err(DbError);
    }
    db.variants := db.variants[v := variant.(stock := variant.stock - input.quantity)];
    r := Ok(Some(variant));
  }

  /** The response of a created order. */
  datatype Created = Created(id: Id, totalPrice: int, status: Status, createdAt: int)

  /** `createMerchOrder`: the response, the new `product_variants` and the new
      `merch_orders`. `newId` is the id the database assigns (an insert under an id that is
      taken fails like any other insert); `stockWriteOk` and `insertOk` are whether the
      two writes succeed. */
  function MerchOrderCreation(
    products: map<Id, Product>, variants: map<Id, Variant>, orders: map<Id, MerchOrder>,
    celebrities: map<Id, Celebrity>, buyer: Id, input: CreateMerchOrderInput,
    newId: Id, now: int, stockWriteOk: bool, insertOk: bool)
    : (res: (Result<Created>, map<Id, Variant>, map<Id, MerchOrder>))
    ensures res.0 == Err(NotFound) <==> !Orderable(products, celebrities, input.productId)
    ensures res.0 == Err(InvalidVariant) <==>
      Orderable(products, celebrities, input.productId) && input.productVariantId.Some? &&
      !VariantOf(variants, input.productId, input.productVariantId.value)
    ensures res.0.Err? && res.0.error.OutOfStock? <==>
      Orderable(products, celebrities, input.productId) && input.productVariantId.Some? &&
      VariantOf(variants, input.productId, input.productVariantId.value) &&
      variants[input.productVariantId.value].stock < input.quantity
    ensures res.0.Err? && res.0.error.OutOfStock? ==>
      res.0.error == Reserve(variants[input.productVariantId.value].stock, input.quantity).error
    ensures res.0 == Err(DbError) <==>
      Reservable(products, variants, celebrities, input) &&
      ((input.productVariantId.Some? && !stockWriteOk) || !insertOk || newId in orders)
    ensures res.0.Ok? <==>
      Reservable(products, variants, celebrities, input) &&
      (input.productVariantId.Some? ==> stockWriteOk) && insertOk && newId !in orders
    // the stock is taken before the insert, so a failed insert leaves it taken
    ensures res.1 != variants <==>
      Orderable(products, celebrities, input.productId) && input.productVariantId.Some? &&
      VariantOf(variants, input.productId, input.productVariantId.value) &&
      input.quantity <= variants[input.productVariantId.value].stock && stockWriteOk && input.quantity != 0
    ensures res.1 != variants ==>
      var v := input.productVariantId.value;
      res.1 == variants[v := variants[v].(stock := variants[v].stock - input.quantity)] && res.1[v].stock >= 0
    ensures input.productVariantId.None? ==> res.1 == variants
    ensures res.0.Err? ==> res.2 == orders
    ensures res.0.Ok? ==>
      var product := products[input.productId];
      var variant := if input.productVariantId.Some? then Some(variants[input.productVariantId.value]) else None;
      var row := NewMerchOrder(buyer, product, input.productId, input, UnitPrice(product, variant), now);
      newId !in orders && insertOk &&
      res.2 == orders[newId := row] && res.0.value == Created(newId, row.totalPrice, Pending, now)
  {
    if !Orderable(products, celebrities, input.productId) then (Err(NotFound), variants, orders)
    else
      var product := products[input.productId];
      match StockTaking(variants, input, stockWriteOk)
      case Err(e) => (Err(e), variants, orders)
      case Ok((variant, variants')) =>
        var row := NewMerchOrder(buyer, product, input.productId, input, UnitPrice(product, variant), now);
        if !insertOk || newId in orders then (Err(DbError), variants', orders)
        else (Ok(Created(newId, row.totalPrice, Pending, now)), variants', orders[newId := row])
  }

  method CreateMerchOrder(
    db: Db, buyer: Id, input: CreateMerchOrderInput, newId: Id, now: int, stockWriteOk: bool, insertOk: bool)
    returns (r: Result<Created>)
    modifies db`variants, db`merchOrders
    ensures (r, db.variants, db.merchOrders) ==
      MerchOrderCreation(db.products, old(db.variants), old(db.merchOrders), db.celebrities, buyer, input,
                         newId, now, stockWriteOk, insertOk)
  {
    if !Orderable(db.products, db.celebrities, input.productId) {
      return Err(NotFound);
    }
    var product := db.products[input.productId];
    var taken := TakeStock(db, input, stockWriteOk);
    if taken.Err? {
      return Err(taken.error);
    }
    var unitPrice := UnitPrice(product, taken.value);
    var totalPrice := unitPrice * input.quantity;
    if !insertOk || newId in db.merchOrders {
      return Err(DbError);
    }
    var row := NewMerchOrder(buyer, product, input.productId, input, unitPrice, now);
    db.merchOrders := db.merchOrders[newId := row];
    r := Ok(Created(newId, totalPrice, Pending, now));
  }

  /** No order placed one at a time drives a stock below zero. */
  lemma StockStaysNonNegative(
    products: map<Id, Product>, variants: map<Id, Variant>, orders: map<Id, MerchOrder>,
    celebrities: map<Id, Celebrity>, buyer: Id, input: CreateMerchOrderInput,
    newId: Id, now: int, stockWriteOk: bool, insertOk: bool)
    requires forall v :: v in variants ==> variants[v].stock >= 0
    ensures var after := MerchOrderCreation(products, variants, orders, celebrities, buyer, input,
                                            newId, now, stockWriteOk, insertOk).1;
      after.Keys == variants.Keys && forall v :: v in after ==> after[v].stock >= 0
  {
  }

  /** Placing an order with a variant and then having the star cancel it gives the variant
      its stock back exactly: the two requests together leave `product_variants` as it was. */
  lemma CancelAfterOrderRestoresStock(
    products: map<Id, Product>, variants: map<Id, Variant>, orders: map<Id, MerchOrder>,
    celebrities: map<Id, Celebrity>, buyer: Id, input: CreateMerchOrderInput, newId: Id, now: int,
    star: Id, tracking: Option<string>, later: int)
    requires input.productVariantId.Some?
    requires MerchOrderCreation(products, variants, orders, celebrities, buyer, input, newId, now, true, true).0.Ok?
    requires StarOf(celebrities, star) == Some(products[input.productId].celebrityId)
    ensures var created := MerchOrderCreation(products, variants, orders, celebrities, buyer, input, newId, now, true, true);
      var cancelled := MerchStatusUpdate(created.2, created.1, celebrities, star, newId, Cancelled, tracking, later, true);
      cancelled.0.Ok? && cancelled.2 == variants
  {
    var created := MerchOrderCreation(products, variants, orders, celebrities, buyer, input, newId, now, true, true);
    var v := input.productVariantId.value;
    var row := created.2[newId];
    assert row.status == Pending && row.variantId == Some(v) && row.quantity == input.quantity;
    assert OwnsMerchOrder(created.2, celebrities, star, newId);
    assert Transition(Merch, Pending, Cancelled);
    var back := Restock(created.1, row);
    assert back.Keys == variants.Keys;
    forall k | k in variants ensures back[k] == variants[k] {
      if k == v {
        assert created.1[v] == variants[v].(stock := variants[v].stock - input.quantity);
      }
    }
  }

  /** The joined rows `getMerchOrderById` can see: the order with its product and its star. */
  function VisibleMerchOrders(orders: map<Id, MerchOrder>, products: map<Id, Product>, celebrities: map<Id, Celebrity>)
    : (m: map<Id, MerchOrder>)
    ensures forall k :: k in m <==> k in orders && orders[k].productId in products && orders[k].celebrityId in celebrities
    ensures forall k :: k in m ==> m[k] == orders[k]
  {
    map k | k in orders && orders[k].productId in products && orders[k].celebrityId in celebrities :: orders[k]
  }

  /** `getMerchOrderById`: NOT_FOUND for an order that is not there, FORBIDDEN for the
      order of another buyer, the order itself for its buyer. */
  method GetMerchOrderById(db: Db, caller: Id, id: Id) returns (r: Result<MerchOrder>)
    ensures r == BuyerRead(VisibleMerchOrders(db.merchOrders, db.products, db.celebrities), (o: MerchOrder) => o.buyerId, caller, id)
    ensures r == Err(Forbidden) <==>
      id in db.merchOrders && db.merchOrders[id].productId in db.products &&
      db.merchOrders[id].celebrityId in db.celebrities && db.merchOrders[id].buyerId != caller
    ensures r.Ok? ==> r.value == db.merchOrders[id] && r.value.buyerId == caller
  {
    var visible := VisibleMerchOrders(db.merchOrders, db.products, db.celebrities);
    if id !in visible {
      return Err(NotFound);
    }
    var o := visible[id];
    if o.buyerId != caller {
      return Err(Forbidden);
    }
    r := Ok(o);
  }
}

/** The buyer side of digital products: placing an order, reading one's own order, and the
    token-gated download that counts every successful download on the order and on the
    product. */
module DigitalOrders {
  import opened Common
  import opened Lifecycle
  import opened Store
  import opened DigitalOrderSchema
  import opened DashboardDigital

  /** The product can be bought: it exists, is active, has a file, and its star still
      exists (the query's inner join). */
  predicate Purchasable(products: map<Id, DigitalProduct>, celebrities: map<Id, Celebrity>, product: Id)
  {
    product in products && products[product].isActive && products[product].filePath != "" &&
    products[product].celebrityId in celebrities
  }

  /** The response of a created order. */
  datatype Receipt = Receipt(id: Id, price: int, status: Status, createdAt: int)

  /** The row inserted for an order: pending, at the product's current price, with no
      token and no downloads. */
  function NewDigitalOrder(buyer: Id, product: DigitalProduct, productId: Id, input: CreateDigitalOrderInput, now: int)
    : (o: DigitalOrder)
    ensures o.status == Pending && o.buyerId == buyer && o.celebrityId == product.celebrityId
    ensures o.productId == productId && o.price == product.price
    ensures o.downloadToken.None? && o.tokenExpiresAt.None? && o.downloadCount == 0
    ensures o.confirmedAt.None? && o.completedAt.None? && o.createdAt == now && o.updatedAt == now
  {
    DigitalOrder(buyer, product.celebrityId, productId, product.price,
                 Contact(input.buyerName, input.buyerEmail, input.buyerPhone),
                 Pending, None, None, None, None, 0, now, now)
  }

  /** `createDigitalOrder`; `newId` is the id the database assigns (an insert under a taken
      id fails like any other insert). */
  function DigitalOrderCreation(
    products: map<Id, DigitalProduct>, orders: map<Id, DigitalOrder>, celebrities: map<Id, Celebrity>,
    buyer: Id, input: CreateDigitalOrderInput, newId: Id, now: int, insertOk: bool)
    : (res: (Result<Receipt>, map<Id, DigitalOrder>))
    ensures res.0 == Err(NotFound) <==> !Purchasable(products, celebrities, input.digitalProductId)
    ensures res.0 == Err(DbError) <==>
      Purchasable(products, celebrities, input.digitalProductId) && (!insertOk || newId in orders)
    ensures res.0.Ok? <==> Purchasable(products, celebrities, input.digitalProductId) && insertOk && newId !in orders
    ensures res.0.Err? ==> res.1 == orders
    ensures res.0.Ok? ==>
      var product := products[input.digitalProductId];
      res.1 == orders[newId := NewDigitalOrder(buyer, product, input.digitalProductId, input, now)] &&
      res.0.value == Receipt(newId, product.price, Pending, now)
  {
    if !Purchasable(products, celebrities, input.digitalProductId) then (Err(NotFound), orders)
    else if !insertOk || newId in orders then (Err(DbError), orders)
    else
      var product := products[input.digitalProductId];
      (Ok(Receipt(newId, product.price, Pending, now)),
       orders[newId := NewDigitalOrder(buyer, product, input.digitalProductId, input, now)])
  }

  method CreateDigitalOrder(db: Db, buyer: Id, input: CreateDigitalOrderInput, newId: Id, now: int, insertOk: bool)
    returns (r: Result<Receipt>)
    modifies db`digitalOrders
    ensures (r, db.digitalOrders) ==
      DigitalOrderCreation(db.digitalProducts, old(db.digitalOrders), db.celebrities, buyer, input, newId, now, insertOk)
  {
    if !Purchasable(db.digitalProducts, db.celebrities, input.digitalProductId) {
      return Err(NotFound);
    }
    if !insertOk || newId in db.digitalOrders {
      return Err(DbError);
    }
    var product := db.digitalProducts[input.digitalProductId];
    db.digitalOrders := db.digitalOrders[newId := NewDigitalOrder(buyer, product, input.digitalProductId, input, now)];
    r := Ok(Receipt(newId, product.price, Pending, now));
  }

  // ---------------------------------------------------------------- reading

  function VisibleDigitalOrders(orders: map<Id, DigitalOrder>, products: map<Id, DigitalProduct>, celebrities: map<Id, Celebrity>)
    : (m: map<Id, DigitalOrder>)
    ensures forall k :: k in m <==> k in orders && orders[k].productId in products && orders[k].celebrityId in celebrities
    ensures forall k :: k in m ==> m[k] == orders[k]
  {
    map k | k in orders && orders[k].productId in products && orders[k].celebrityId in celebrities :: orders[k]
  }

  /** `getDigitalOrderById`: NOT_FOUND for an order that is not there, FORBIDDEN for the
      order of another buyer (where the star side answers NOT_FOUND), the order for its
      buyer. */
  method GetDigitalOrderById(db: Db, caller: Id, id: Id) returns (r: Result<DigitalOrder>)
    ensures r == BuyerRead(VisibleDigitalOrders(db.digitalOrders, db.digitalProducts, db.celebrities),
                           (o: DigitalOrder) => o.buyerId, caller, id)
    ensures r == Err(Forbidden) <==>
      id in db.digitalOrders && db.digitalOrders[id].productId in db.digitalProducts &&
      db.digitalOrders[id].celebrityId in db.celebrities && db.digitalOrders[id].buyerId != caller
    ensures r.Ok? ==> r.value == db.digitalOrders[id] && r.value.buyerId == caller
  {
    var visible := VisibleDigitalOrders(db.digitalOrders, db.digitalProducts, db.celebrities);
    if id !in visible {
      return Err(NotFound);
    }
    var o := visible[id];
    if o.buyerId != caller {
      return Err(Forbidden);
    }
    r := Ok(o);
  }

  // ---------------------------------------------------------------- download

  /** What a successful download answers: the stored file to sign a link for, and its name. */
  datatype Download = Download(filePath: string, fileName: string)

  /** The order the download query finds: this id, this token, completed, with its product. */
  predicate Downloadable(orders: map<Id, DigitalOrder>, products: map<Id, DigitalProduct>, id: Id, token: string)
  {
    id in orders && orders[id].downloadToken == Some(token) && orders[id].status == Completed &&
    orders[id].productId in products
  }

  /** The expiry compared with the clock; a missing expiry reads as the epoch. */
  function ExpiresAt(o: DigitalOrder): int
  {
    o.tokenExpiresAt.GetOr(0)
  }

  /** `downloadDigitalProduct`: the response, the new `digital_orders` and the new
      `digital_products`. `storageOk` is whether storage signs the link. */
  function DownloadRequest(
    orders: map<Id, DigitalOrder>, products: map<Id, DigitalProduct>, id: Id, token: Option<string>,
    now: int, storageOk: bool)
    : (res: (Result<Download>, map<Id, DigitalOrder>, map<Id, DigitalProduct>))
    ensures res.0 == Err(MissingToken) <==> token.None? || token.value == ""
    ensures res.0 == Err(NotFound) <==>
      token.Some? && token.value != "" && !Downloadable(orders, products, id, token.value)
    ensures res.0 == Err(TokenExpired) <==>
      token.Some? && token.value != "" && Downloadable(orders, products, id, token.value) && ExpiresAt(orders[id]) < now
    ensures res.0 == Err(StorageError) <==>
      token.Some? && token.value != "" && Downloadable(orders, products, id, token.value) &&
      now <= ExpiresAt(orders[id]) && !storageOk
    ensures res.0.Ok? <==>
      token.Some? && token.value != "" && Downloadable(orders, products, id, token.value) &&
      now <= ExpiresAt(orders[id]) && storageOk
    ensures res.0.Err? ==> res.1 == orders && res.2 == products
    ensures res.0.Ok? ==>
      var o := orders[id];
      var p := products[o.productId];
      res.0.value == Download(p.filePath, p.fileName) &&
      res.1 == orders[id := o.(downloadCount := o.downloadCount + 1)] &&
      res.2 == products[o.productId := p.(downloadCount := p.downloadCount + 1)]
  {
    if token.None? || token.value == "" then (Err(MissingToken), orders, products)
    else if !Downloadable(orders, products, id, token.value) then (Err(NotFound), orders, products)
    else if ExpiresAt(orders[id]) < now then (Err(TokenExpired), orders, products)
    else if !storageOk then (Err(StorageError), orders, products)
    else
      var o := orders[id];
      var p := products[o.productId];
      (Ok(Download(p.filePath, p.fileName)),
       orders[id := o.(downloadCount := o.downloadCount + 1)],
       products[o.productId := p.(downloadCount := p.downloadCount + 1)])
  }

  method DownloadDigitalProduct(db: Db, id: Id, token: Option<string>, now: int, storageOk: bool)
    returns (r: Result<Download>)
    modifies db`digitalOrders, db`digitalProducts
    ensures (r, db.digitalOrders, db.digitalProducts) ==
      DownloadRequest(old(db.digitalOrders), old(db.digitalProducts), id, token, now, storageOk)
  {
    if token.None? || token.value == "" {
      return Err(MissingToken);
    }
    if !Downloadable(db.digitalOrders, db.digitalProducts, id, token.value) {
      return Err(NotFound);
    }
    var order := db.digitalOrders[id];
    if ExpiresAt(order) < now {
      return Err(TokenExpired);
    }
    var product := db.digitalProducts[order.productId];
    if !storageOk {
      return Err(StorageError);
    }
    db.digitalOrders := db.digitalOrders[id := order.(downloadCount := order.downloadCount + 1)];
    db.digitalProducts := db.digitalProducts[order.productId := product.(downloadCount := product.downloadCount + 1)];
    r := Ok(Download(product.filePath, product.fileName));
  }

  /** With tokens unique, a token opens one order only: asked for any other id, the
      download answers NOT_FOUND and counts nothing. */
  lemma TokenOpensOneOrder(
    orders: map<Id, DigitalOrder>, products: map<Id, DigitalProduct>, id: Id, other: Id, token: string,
    now: int, storageOk: bool)
    requires UniqueTokens(orders)
    requires token != "" && other != id
    requires DownloadRequest(orders, products, id, Some(token), now, storageOk).0.Ok?
    ensures DownloadRequest(orders, products, other, Some(token), now, storageOk) == (Err(NotFound), orders, products)
  {
    assert Downloadable(orders, products, id, token);
    if other in orders {
      assert orders[id].downloadToken != orders[other].downloadToken;
    }
  }

  /** The token the star issues on completion works for exactly seven days: a download with
      it at any moment up to and including `now + 604800000` ms succeeds (given the product
      is there and storage signs the link), and one after that is TOKEN_EXPIRED. */
  lemma CompletedTokenLastsSevenDays(
    orders: map<Id, DigitalOrder>, products: map<Id, DigitalProduct>, celebrities: map<Id, Celebrity>,
    user: Id, id: Id, now: int, token: Id, later: int)
    requires OwnsDigitalOrder(orders, celebrities, user, id) && orders[id].status == Confirmed
    requires orders[id].productId in products
    requires token != ""
    ensures var after := DigitalStatusUpdate(orders, celebrities, user, id, Completed, now, token, true).1;
      (later <= now + 604800000 ==> DownloadRequest(after, products, id, Some(token), later, true).0.Ok?) &&
      (later > now + 604800000 ==> DownloadRequest(after, products, id, Some(token), later, true).0 == Err(TokenExpired))
  {
    assert Transition(Digital, Confirmed, Completed);
    var after := DigitalStatusUpdate(orders, celebrities, user, id, Completed, now, token, true).1;
    assert after[id] == StampDigital(orders[id], Completed, now, token);
    assert Downloadable(after, products, id, token);
    assert ExpiresAt(after[id]) == now + 604800000;
  }
}

/** The admin panel for digital products: the status override of an order (which issues a
    new download token on every completion), the deletion of a category and the revenue of
    one product. */
module AdminDigital {
  import opened Common
  import opened Lifecycle
  import opened Store
  import opened Earnings
  import opened DashboardDigital
  import DigitalOrders

  /** `updateDigitalOrderStatus` (admin): INVALID_STATUS for a name outside the digital
      statuses, DB_ERROR when the write fails; otherwise the status and its stamps are
      written whatever the current status, and the order is read back through the joins of
      the admin read. `token` is the UUID the handler draws. */
  function AdminDigitalStatus(
    orders: map<Id, DigitalOrder>, products: map<Id, DigitalProduct>, celebrities: map<Id, Celebrity>,
    id: Id, requested: string, now: int, token: Id, writeOk: bool)
    : (res: (Result<DigitalOrder>, map<Id, DigitalOrder>))
    ensures res.0 == Err(InvalidStatus) <==> AdminStatus(Digital, requested).Err?
    ensures res.0 == Err(DbError) <==> AdminStatus(Digital, requested).Ok? && !writeOk
    ensures res.0 == Err(NotFound) <==>
      AdminStatus(Digital, requested).Ok? && writeOk &&
      !(id in orders && orders[id].productId in products && orders[id].celebrityId in celebrities)
    ensures res.0.Ok? <==>
      AdminStatus(Digital, requested).Ok? && writeOk &&
      id in orders && orders[id].productId in products && orders[id].celebrityId in celebrities
    // the write reaches an order whose product or star is gone; only the read misses it
    ensures AdminStatus(Digital, requested).Ok? && writeOk && id in orders ==>
      res.1 == orders[id := StampDigital(orders[id], AdminStatus(Digital, requested).value, now, token)]
    ensures AdminStatus(Digital, requested).Err? || !writeOk || id !in orders ==> res.1 == orders
    ensures res.0.Ok? ==> res.0.value == res.1[id] && res.0.value.status == AdminStatus(Digital, requested).value
  {
    match AdminStatus(Digital, requested)
    case Err(e) => (Err(e), orders)
    case Ok(to) =>
      if !writeOk then (Err(DbError), orders)
      else
        var written := if id in orders then orders[id := StampDigital(orders[id], to, now, token)] else orders;
        var visible := DigitalOrders.VisibleDigitalOrders(written, products, celebrities);
        (if id in visible then Ok(visible[id]) else Err(NotFound), written)
  }

  method UpdateDigitalOrderStatus(db: Db, id: Id, requested: string, now: int, token: Id, writeOk: bool)
    returns (r: Result<DigitalOrder>)
    modifies db`digitalOrders
    ensures (r, db.digitalOrders) ==
      AdminDigitalStatus(old(db.digitalOrders), db.digitalProducts, db.celebrities, id, requested, now, token, writeOk)
  {
    var parsed := AdminStatus(Digital, requested);
    if parsed.Err? {
      return Err(InvalidStatus);
    }
    if !writeOk {
      return Err(DbError);
    }
    if id in db.digitalOrders {
      db.digitalOrders := db.digitalOrders[id := StampDigital(db.digitalOrders[id], parsed.value, now, token)];
    }
    var visible := DigitalOrders.VisibleDigitalOrders(db.digitalOrders, db.digitalProducts, db.celebrities);
    if id !in visible {
      return Err(NotFound);
    }
    r := Ok(visible[id]);
  }

  /** Completing an already completed order again replaces its token: the buyer's old link
      stops working (NOT_FOUND) and the new token opens the download for seven days. */
  lemma RecompletionRotatesToken(
    orders: map<Id, DigitalOrder>, products: map<Id, DigitalProduct>, celebrities: map<Id, Celebrity>,
    id: Id, now: int, token: Id, later: int)
    requires id in orders && orders[id].status == Completed && orders[id].downloadToken.Some?
    requires orders[id].productId in products && orders[id].celebrityId in celebrities
    requires token != "" && orders[id].downloadToken.value != "" && orders[id].downloadToken != Some(token)
    requires now <= later <= now + TokenLifetimeMs
    ensures var after := AdminDigitalStatus(orders, products, celebrities, id, "completed", now, token, true).1;
      DigitalOrders.DownloadRequest(after, products, id, orders[id].downloadToken, later, true).0 == Err(NotFound) &&
      DigitalOrders.DownloadRequest(after, products, id, Some(token), later, true).0.Ok?
  {
    assert AdminStatus(Digital, "completed") == Ok(Completed);
    var after := AdminDigitalStatus(orders, products, celebrities, id, "completed", now, token, true).1;
    assert after[id] == StampDigital(orders[id], Completed, now, token);
    assert !DigitalOrders.Downloadable(after, products, id, orders[id].downloadToken.value);
    assert DigitalOrders.Downloadable(after, products, id, token);
  }

  /** The override keeps download tokens unique as long as the drawn token is fresh. */
  lemma OverrideKeepsTokensUnique(
    orders: map<Id, DigitalOrder>, products: map<Id, DigitalProduct>, celebrities: map<Id, Celebrity>,
    id: Id, requested: string, now: int, token: Id, writeOk: bool)
    requires UniqueTokens(orders) && FreshToken(orders, token)
    ensures UniqueTokens(AdminDigitalStatus(orders, products, celebrities, id, requested, now, token, writeOk).1)
  {
    var after := AdminDigitalStatus(orders, products, celebrities, id, requested, now, token, writeOk).1;
    if after != orders {
      var to := AdminStatus(Digital, requested).value;
      assert after == orders[id := StampDigital(orders[id], to, now, token)];
      forall a, b | a in after && b in after && a != b && after[a].downloadToken.Some?
        ensures after[a].downloadToken != after[b].downloadToken
      {
        if a == id && to == Completed {
          assert orders[b].downloadToken != Some(token);
        } else if b == id && to == Completed {
          assert orders[a].downloadToken != Some(token);
        }
      }
    }
  }

  // ---------------------------------------------------------------- categories

  /** `deleteDigitalProductCategory`: CATEGORY_HAS_PRODUCTS with the number of digital
      products in the category while there are any; otherwise the category is deleted. */
  function DigitalCategoryDeletion(
    categories: map<Id, ProductCategory>, products: map<Id, DigitalProduct>, id: Id, deleteOk: bool)
    : (res: (Result<()>, map<Id, ProductCategory>))
    ensures res.0.Err? && res.0.error.CategoryHasProducts? <==>
      exists p :: p in products && products[p].categoryId == Some(id)
    ensures res.0.Err? && res.0.error.CategoryHasProducts? ==>
      res.0.error.count == CountWhere(products, (p: DigitalProduct) => p.categoryId == Some(id)) > 0
    ensures res.0 == Err(DbError) <==>
      (forall p :: p in products ==> products[p].categoryId != Some(id)) && !deleteOk
    ensures res.0.Ok? <==> (forall p :: p in products ==> products[p].categoryId != Some(id)) && deleteOk
    ensures res.0.Err? ==> res.1 == categories
    ensures res.0.Ok? ==> res.1 == categories - {id}
  {
    var count := CountWhere(products, (p: DigitalProduct) => p.categoryId == Some(id));
    if count > 0 then
      CountWhereWitness(products, (p: DigitalProduct) => p.categoryId == Some(id));
      (Err(CategoryHasProducts(count)), categories)
    else
      CountWhereZero(products, (p: DigitalProduct) => p.categoryId == Some(id));
      if !deleteOk then (Err(DbError), categories)
      else (Ok(()), categories - {id})
  }

  method DeleteDigitalProductCategory(db: Db, id: Id, deleteOk: bool) returns (r: Result<()>)
    modifies db`digitalProductCategories
    ensures (r, db.digitalProductCategories) ==
      DigitalCategoryDeletion(old(db.digitalProductCategories), db.digitalProducts, id, deleteOk)
  {
    var count := CountWhere(db.digitalProducts, (p: DigitalProduct) => p.categoryId == Some(id));
    if count > 0 {
      return Err(CategoryHasProducts(count));
    }
    if !deleteOk {
      return Err(DbError);
    }
    db.digitalProductCategories := db.digitalProductCategories - {id};
    r := Ok(());
  }

  // ---------------------------------------------------------------- revenue

  /** The rows of a digital product's revenue query: `rows` are the ids of the orders whose
      `digital_product_id` is the product; the status filter is applied by `Revenue`. */
  function DigitalSales(orders: map<Id, DigitalOrder>, rows: seq<Id>): (sales: seq<Sale>)
    requires forall i :: 0 <= i < |rows| ==> rows[i] in orders
    ensures |sales| == |rows|
    ensures forall i :: 0 <= i < |rows| ==>
      sales[i] == Sale(orders[rows[i]].status, orders[rows[i]].price, orders[rows[i]].createdAt)
  {
    seq(|rows|, i requires 0 <= i < |rows| =>
      Sale(orders[rows[i]].status, orders[rows[i]].price, orders[rows[i]].createdAt))
  }

  /** The `totalRevenue` of a digital product in the admin list: `price` summed over its
      confirmed and completed orders. */
  function ProductRevenue(orders: map<Id, DigitalOrder>, rows: seq<Id>): int
    requires forall i :: 0 <= i < |rows| ==> rows[i] in orders
  {
    Revenue(DigitalSales(orders, rows), EarningStatuses, None)
  }

  /** A row adds its price exactly when the order is confirmed or completed, and with
      non-negative prices the revenue is never negative. */
  lemma ProductRevenueCountsEarningOrders(orders: map<Id, DigitalOrder>, rows: seq<Id>, id: Id)
    requires forall i :: 0 <= i < |rows| ==> rows[i] in orders
    requires id in orders
    requires forall k :: k in orders ==> orders[k].price >= 0
    ensures ProductRevenue(orders, rows + [id]) ==
      ProductRevenue(orders, rows) + (if orders[id].status in {Confirmed, Completed} then orders[id].price else 0)
    ensures ProductRevenue(orders, rows) >= 0
  {
    var sales := DigitalSales(orders, rows);
    var o := orders[id];
    assert DigitalSales(orders, rows + [id]) == sales + [Sale(o.status, o.price, o.createdAt)];
    RevenueRow(sales, Sale(o.status, o.price, o.createdAt), EarningStatuses, None);
    RevenueMonotone(sales, EarningStatuses, EarningStatuses, None);
  }
}

/** The admin panel for merch: the status override of an order, the deletion of a product
    category and the revenue of one product. */
module AdminMerch {
  import opened Common
  import opened Lifecycle
  import opened Store
  import opened Earnings
  import opened Inventory
  import opened DashboardProducts
  import MerchOrders

  /** `updateMerchOrderStatus` (admin): INVALID_STATUS for a name outside the merch
      statuses, DB_ERROR when the write fails; otherwise the status and its timestamp are
      written whatever the current status (no tracking number, no stock given back) and
      the order is read back through the joins of the admin read. */
  function AdminMerchStatus(
    orders: map<Id, MerchOrder>, products: map<Id, Product>, celebrities: map<Id, Celebrity>,
    id: Id, requested: string, now: int, writeOk: bool)
    : (res: (Result<MerchOrder>, map<Id, MerchOrder>))
    ensures res.0 == Err(InvalidStatus) <==> AdminStatus(Merch, requested).Err?
    ensures res.0 == Err(DbError) <==> AdminStatus(Merch, requested).Ok? && !writeOk
    ensures res.0 == Err(NotFound) <==>
      AdminStatus(Merch, requested).Ok? && writeOk &&
      !(id in orders && orders[id].productId in products && orders[id].celebrityId in celebrities)
    ensures res.0.Ok? <==>
      AdminStatus(Merch, requested).Ok? && writeOk &&
      id in orders && orders[id].productId in products && orders[id].celebrityId in celebrities
    // the write reaches an order whose product or star is gone; only the read misses it
    ensures AdminStatus(Merch, requested).Ok? && writeOk && id in orders ==>
      res.1 == orders[id := StampMerch(orders[id], AdminStatus(Merch, requested).value, None, now)]
    ensures AdminStatus(Merch, requested).Err? || !writeOk || id !in orders ==> res.1 == orders
    ensures res.0.Ok? ==> res.0.value == res.1[id] && res.0.value.status == AdminStatus(Merch, requested).value
  {
    match AdminStatus(Merch, requested)
    case Err(e) => (Err(e), orders)
    case Ok(to) =>
      if !writeOk then (Err(DbError), orders)
      else
        var written := if id in orders then orders[id := StampMerch(orders[id], to, None, now)] else orders;
        var visible := MerchOrders.VisibleMerchOrders(written, products, celebrities);
        (if id in visible then Ok(visible[id]) else Err(NotFound), written)
  }

  method UpdateMerchOrderStatus(db: Db, id: Id, requested: string, now: int, writeOk: bool)
    returns (r: Result<MerchOrder>)
    modifies db`merchOrders
    ensures (r, db.merchOrders) == AdminMerchStatus(old(db.merchOrders), db.products, db.celebrities, id, requested, now, writeOk)
  {
    var parsed := AdminStatus(Merch, requested);
    if parsed.Err? {
      return Err(InvalidStatus);
    }
    if !writeOk {
      return Err(DbError);
    }
    if id in db.merchOrders {
      db.merchOrders := db.merchOrders[id := StampMerch(db.merchOrders[id], parsed.value, None, now)];
    }
    var visible := MerchOrders.VisibleMerchOrders(db.merchOrders, db.products, db.celebrities);
    if id !in visible {
      return Err(NotFound);
    }
    r := Ok(visible[id]);
  }

  /** The override and the star's endpoint part ways on a cancellation: the star's cancel of
      a pending order with a variant puts its quantity back, the admin's cancel of the same
      order succeeds and leaves the stock where it is (it writes `merch_orders` only). */
  lemma AdminCancelKeepsStockTaken(
    orders: map<Id, MerchOrder>, variants: map<Id, Variant>, products: map<Id, Product>,
    celebrities: map<Id, Celebrity>, user: Id, id: Id, now: int)
    requires OwnsMerchOrder(orders, celebrities, user, id) && orders[id].status == Pending
    requires orders[id].productId in products
    requires orders[id].variantId.Some? && orders[id].variantId.value in variants && orders[id].quantity > 0
    ensures AdminMerchStatus(orders, products, celebrities, id, "cancelled", now, true).0.Ok?
    ensures AdminMerchStatus(orders, products, celebrities, id, "cancelled", now, true).1[id].status == Cancelled
    ensures var v := orders[id].variantId.value;
      MerchStatusUpdate(orders, variants, celebrities, user, id, Cancelled, None, now, true).2[v].stock ==
      variants[v].stock + orders[id].quantity
  {
    assert AdminStatus(Merch, "cancelled") == Ok(Cancelled);
    assert Transition(Merch, Pending, Cancelled);
  }

  /** Unlike the star, the admin can reopen a delivered order. */
  lemma AdminReopensDeliveredOrder(
    orders: map<Id, MerchOrder>, variants: map<Id, Variant>, products: map<Id, Product>,
    celebrities: map<Id, Celebrity>, user: Id, id: Id, now: int)
    requires OwnsMerchOrder(orders, celebrities, user, id) && orders[id].status == Delivered
    requires orders[id].productId in products
    ensures AdminMerchStatus(orders, products, celebrities, id, "pending", now, true).0.Ok?
    ensures MerchStatusUpdate(orders, variants, celebrities, user, id, Pending, None, now, true).0 ==
      Err(InvalidTransition("delivered", "pending"))
  {
    assert AdminStatus(Merch, "pending") == Ok(Pending);
    assert !Transition(Merch, Delivered, Pending);
  }

  // ---------------------------------------------------------------- product categories

  /** `deleteProductCategory`: CATEGORY_HAS_PRODUCTS with the number of products in the
      category while there are any; otherwise the category is deleted. */
  function ProductCategoryDeletion(
    categories: map<Id, ProductCategory>, products: map<Id, Product>, id: Id, deleteOk: bool)
    : (res: (Result<()>, map<Id, ProductCategory>))
    ensures res.0.Err? && res.0.error.CategoryHasProducts? <==>
      exists p :: p in products && products[p].categoryId == Some(id)
    ensures res.0.Err? && res.0.error.CategoryHasProducts? ==>
      res.0.error.count == CountWhere(products, (p: Product) => p.categoryId == Some(id)) > 0
    ensures res.0 == Err(DbError) <==>
      (forall p :: p in products ==> products[p].categoryId != Some(id)) && !deleteOk
    ensures res.0.Ok? <==> (forall p :: p in products ==> products[p].categoryId != Some(id)) && deleteOk
    ensures res.0.Err? ==> res.1 == categories
    ensures res.0.Ok? ==> res.1 == categories - {id}
  {
    var count := CountWhere(products, (p: Product) => p.categoryId == Some(id));
    if count > 0 then
      CountWhereWitness(products, (p: Product) => p.categoryId == Some(id));
      (Err(CategoryHasProducts(count)), categories)
    else
      CountWhereZero(products, (p: Product) => p.categoryId == Some(id));
      if !deleteOk then (Err(DbError), categories)
      else (Ok(()), categories - {id})
  }

  method DeleteProductCategory(db: Db, id: Id, deleteOk: bool) returns (r: Result<()>)
    modifies db`productCategories
    ensures (r, db.productCategories) == ProductCategoryDeletion(old(db.productCategories), db.products, id, deleteOk)
  {
    var count := CountWhere(db.products, (p: Product) => p.categoryId == Some(id));
    if count > 0 {
      return Err(CategoryHasProducts(count));
    }
    if !deleteOk {
      return Err(DbError);
    }
    db.productCategories := db.productCategories - {id};
    r := Ok(());
  }

  // ---------------------------------------------------------------- revenue

  /** The rows of a product's revenue query: `rows` are the ids of the orders whose
      `product_id` is the product; the status filter is applied by `Revenue`. */
  function MerchSales(orders: map<Id, MerchOrder>, rows: seq<Id>): (sales: seq<Sale>)
    requires forall i :: 0 <= i < |rows| ==> rows[i] in orders
    ensures |sales| == |rows|
    ensures forall i :: 0 <= i < |rows| ==>
      sales[i] == Sale(orders[rows[i]].status, orders[rows[i]].totalPrice, orders[rows[i]].createdAt)
  {
    seq(|rows|, i requires 0 <= i < |rows| =>
      Sale(orders[rows[i]].status, orders[rows[i]].totalPrice, orders[rows[i]].createdAt))
  }

  /** The `totalRevenue` of a product in the admin list: `total_price` summed over its
      orders in the statuses the star's earnings count. */
  function ProductRevenue(orders: map<Id, MerchOrder>, rows: seq<Id>): int
    requires forall i :: 0 <= i < |rows| ==> rows[i] in orders
  {
    Revenue(MerchSales(orders, rows), EarningStatuses, None)
  }

  /** A row adds its total exactly when the order is confirmed, shipped or delivered, and
      with non-negative totals the revenue is never negative. */
  lemma ProductRevenueCountsEarningOrders(orders: map<Id, MerchOrder>, rows: seq<Id>, id: Id)
    requires forall i :: 0 <= i < |rows| ==> rows[i] in orders
    requires id in orders
    requires forall k :: k in orders ==> orders[k].totalPrice >= 0
    ensures ProductRevenue(orders, rows + [id]) ==
      ProductRevenue(orders, rows) +
      (if orders[id].status in {Confirmed, Shipped, Delivered} then orders[id].totalPrice else 0)
    ensures ProductRevenue(orders, rows) >= 0
  {
    var sales := MerchSales(orders, rows);
    var o := orders[id];
    assert MerchSales(orders, rows + [id]) == sales + [Sale(o.status, o.totalPrice, o.createdAt)];
    RevenueRow(sales, Sale(o.status, o.totalPrice, o.createdAt), EarningStatuses, None);
    RevenueMonotone(sales, EarningStatuses, EarningStatuses, None);
  }
}

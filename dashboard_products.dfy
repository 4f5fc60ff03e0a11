/** The star dashboard for merch: moving an order along the merch table (with the stock
    given back on cancellation), numbering uploaded product images, refusing to delete a
    variant that has orders, and the merch earnings. */
module DashboardProducts {
  import opened Common
  import opened Lifecycle
  import opened Store
  import opened Earnings
  import opened Inventory

  // ---------------------------------------------------------------- order status

  ghost predicate OwnsMerchOrder(orders: map<Id, MerchOrder>, celebrities: map<Id, Celebrity>, user: Id, id: Id)
  {
    StarOf(celebrities, user).Some? && id in orders && orders[id].celebrityId == StarOf(celebrities, user).value
  }

  /** The variants table after an order's quantity is put back: only the order's own
      variant changes, and only in its stock. An order without a variant, or whose variant
      row is gone, changes nothing. */
  function Restock(variants: map<Id, Variant>, o: MerchOrder): (r: map<Id, Variant>)
    ensures r.Keys == variants.Keys
    ensures forall v :: v in variants ==>
      r[v] == variants[v].(stock := variants[v].stock + (if o.variantId == Some(v) then o.quantity else 0))
  {
    match o.variantId
    case None => variants
    case Some(v) =>
      if v in variants then variants[v := variants[v].(stock := Release(variants[v].stock, o.quantity))]
      else variants
  }

  /** `updateMerchOrderStatus` for the star: the response, the new `merch_orders` and the
      new `product_variants`. A cancellation writes the stock before the order, so when
      the order write then fails (`writeOk` false) the stock stays given back. */
  ghost function MerchStatusUpdate(
    orders: map<Id, MerchOrder>, variants: map<Id, Variant>, celebrities: map<Id, Celebrity>,
    user: Id, id: Id, to: Status, tracking: Option<string>, now: int, writeOk: bool)
    : (res: (Result<(Id, Status)>, map<Id, MerchOrder>, map<Id, Variant>))
    ensures res.0 == Err(NotFound) <==> !OwnsMerchOrder(orders, celebrities, user, id)
    ensures res.0.Err? && res.0.error.InvalidTransition? <==>
      OwnsMerchOrder(orders, celebrities, user, id) && !Transition(Merch, orders[id].status, to)
    ensures res.0 == Err(DbError) <==>
      OwnsMerchOrder(orders, celebrities, user, id) && Transition(Merch, orders[id].status, to) && !writeOk
    ensures res.0.Ok? <==>
      OwnsMerchOrder(orders, celebrities, user, id) && Transition(Merch, orders[id].status, to) && writeOk
    ensures res.0.Ok? ==> res.0.value == (id, to) && res.1 == orders[id := StampMerch(orders[id], to, tracking, now)]
    ensures res.0.Err? ==> res.1 == orders
    ensures res.2 == if OwnsMerchOrder(orders, celebrities, user, id) && Transition(Merch, orders[id].status, to) &&
                        to == Cancelled
                     then Restock(variants, orders[id]) else variants
  {
    match StarOf(celebrities, user)
    case None => (Err(NotFound), orders, variants)
    case Some(star) =>
      if id !in orders || orders[id].celebrityId != star then (Err(NotFound), orders, variants)
      else
        match CheckTransition(Merch, orders[id].status, to)
        case Err(e) => (Err(e), orders, variants)
        case Ok(_) =>
          var variants' := if to == Cancelled then Restock(variants, orders[id]) else variants;
          if !writeOk then (Err(DbError), orders, variants')
          else (Ok((id, to)), orders[id := StampMerch(orders[id], to, tracking, now)], variants')
  }

  method UpdateMerchOrderStatus(
    db: Db, user: Id, id: Id, to: Status, tracking: Option<string>, now: int, writeOk: bool)
    returns (r: Result<(Id, Status)>)
    modifies db`merchOrders, db`variants
    ensures (r, db.merchOrders, db.variants) ==
      MerchStatusUpdate(old(db.merchOrders), old(db.variants), db.celebrities, user, id, to, tracking, now, writeOk)
  {
    var star := CelebrityForUser(db, user);
    if star.None? {
      return Err(NotFound);
    }
    if id !in db.merchOrders || db.merchOrders[id].celebrityId != star.value {
      return Err(NotFound);
    }
    var order := db.merchOrders[id];
    var check := CheckTransition(Merch, order.status, to);
    if check.Err? {
      return Err(check.error);
    }
    var update := StampMerch(order, to, tracking, now);
    if to == Cancelled && order.variantId.Some? && order.variantId.value in db.variants {
      var v := order.variantId.value;
      db.variants := db.variants[v := db.variants[v].(stock := Release(db.variants[v].stock, order.quantity))];
    }
    assert db.variants == if to == Cancelled then Restock(old(db.variants), order) else old(db.variants);
    if !writeOk {
      return Err(DbError);
    }
    db.merchOrders := db.merchOrders[id := update];
    r := Ok((id, to));
  }

  /** Each target stamps its own timestamp and nothing else moves: confirmed sets
      `confirmedAt`, shipped `shippedAt` (and the tracking number only when a non-empty one
      is supplied), delivered `deliveredAt`; buyer, item, quantity and prices are kept. */
  lemma MerchStamps(o: MerchOrder, to: Status, tracking: Option<string>, now: int)
    ensures var s := StampMerch(o, to, tracking, now);
      s.status == to && s.updatedAt == now &&
      (s.confirmedAt == if to == Confirmed then Some(now) else o.confirmedAt) &&
      (s.shippedAt == if to == Shipped then Some(now) else o.shippedAt) &&
      (s.deliveredAt == if to == Delivered then Some(now) else o.deliveredAt) &&
      (s.trackingNumber != o.trackingNumber ==> to == Shipped && s.trackingNumber == tracking && tracking != Some("")) &&
      s.(status := o.status, updatedAt := o.updatedAt, confirmedAt := o.confirmedAt, shippedAt := o.shippedAt,
         deliveredAt := o.deliveredAt, trackingNumber := o.trackingNumber) == o
  {
  }

  /** Stock is given back once: after a successful cancellation the order is cancelled,
      and cancelling it again fails with INVALID_TRANSITION and leaves both tables alone. */
  lemma SecondCancelRestoresNothing(
    orders: map<Id, MerchOrder>, variants: map<Id, Variant>, celebrities: map<Id, Celebrity>,
    user: Id, id: Id, tracking: Option<string>, now: int, now2: int, writeOk2: bool)
    requires MerchStatusUpdate(orders, variants, celebrities, user, id, Cancelled, tracking, now, true).0.Ok?
    ensures var first := MerchStatusUpdate(orders, variants, celebrities, user, id, Cancelled, tracking, now, true);
      var second := MerchStatusUpdate(first.1, first.2, celebrities, user, id, Cancelled, tracking, now2, writeOk2);
      second.0 == Err(InvalidTransition("cancelled", "cancelled")) && second.1 == first.1 && second.2 == first.2
  {
    var first := MerchStatusUpdate(orders, variants, celebrities, user, id, Cancelled, tracking, now, true);
    assert first.1[id] == StampMerch(orders[id], Cancelled, tracking, now);
    assert first.1[id].status == Cancelled;
    assert OwnsMerchOrder(first.1, celebrities, user, id);
    assert !Transition(Merch, Cancelled, Cancelled);
  }

  // ---------------------------------------------------------------- image numbering

  /** What happens to one uploaded file: the storage upload fails, the row insert fails,
      or both succeed. */
  datatype FileOutcome = UploadFailed | InsertFailed | Stored

  /** The largest sort order among the images of `product`, if it has any. */
  function MaxSortOrder(images: seq<ProductImage>, product: Id): (m: Option<int>)
    ensures m.None? <==> forall i :: 0 <= i < |images| ==> images[i].productId != product
    ensures m.Some? ==> forall i :: 0 <= i < |images| && images[i].productId == product ==> images[i].sortOrder <= m.value
    ensures m.Some? ==> exists i :: 0 <= i < |images| && images[i].productId == product && images[i].sortOrder == m.value
    decreases |images|
  {
    if images == [] then None
    else
      var rest := MaxSortOrder(images[..|images| - 1], product);
      var last := images[|images| - 1];
      if last.productId != product then rest
      else if rest.Some? && rest.value >= last.sortOrder then rest
      else Some(last.sortOrder)
  }

  /** The first number handed out: one past the largest, or 0 for a product without images. */
  function FirstSortOrder(images: seq<ProductImage>, product: Id): int
  {
    match MaxSortOrder(images, product)
    case None => 0
    case Some(m) => m + 1
  }

  /** The sort orders of the stored images, when numbering starts at `next`: a file whose
      upload failed takes no number, one whose insert failed takes one but stores nothing. */
  function Numbered(next: int, files: seq<FileOutcome>): seq<int>
    decreases |files|
  {
    if files == [] then []
    else
      match files[0]
      case UploadFailed => Numbered(next, files[1..])
      case InsertFailed => Numbered(next + 1, files[1..])
      case Stored => [next] + Numbered(next + 1, files[1..])
  }

  /** The numbers handed out are at least `next` and strictly increasing, and there is one
      per stored file. */
  lemma {:induction false} NumberedIncreasing(next: int, files: seq<FileOutcome>)
    ensures forall i :: 0 <= i < |Numbered(next, files)| ==> Numbered(next, files)[i] >= next
    ensures forall i, j :: 0 <= i < j < |Numbered(next, files)| ==> Numbered(next, files)[i] < Numbered(next, files)[j]
    ensures |Numbered(next, files)| == multiset(files)[Stored]
    decreases |files|
  {
    if files != [] {
      assert files == [files[0]] + files[1..];
      match files[0]
      case UploadFailed => NumberedIncreasing(next, files[1..]);
      case InsertFailed => NumberedIncreasing(next + 1, files[1..]);
      case Stored => NumberedIncreasing(next + 1, files[1..]);
    }
  }

  /** New images sort after every image the product already had, and among themselves in
      upload order. */
  lemma NewImagesSortLast(images: seq<ProductImage>, product: Id, files: seq<FileOutcome>)
    ensures var added := Numbered(FirstSortOrder(images, product), files);
      (forall i, j :: 0 <= i < |images| && images[i].productId == product && 0 <= j < |added| ==>
         images[i].sortOrder < added[j]) &&
      (forall i, j :: 0 <= i < j < |added| ==> added[i] < added[j])
  {
    NumberedIncreasing(FirstSortOrder(images, product), files);
  }

  function ImageRows(product: Id, orders: seq<int>): (rows: seq<ProductImage>)
    ensures |rows| == |orders|
    ensures forall i :: 0 <= i < |orders| ==> rows[i] == ProductImage(product, orders[i])
  {
    seq(|orders|, i requires 0 <= i < |orders| => ProductImage(product, orders[i]))
  }

  /** `uploadProductImages`: NOT_FOUND without a star profile or for a product of another
      star, NO_FILE for an empty upload, otherwise the sort orders of the stored images. */
  ghost function ImageUpload(
    images: seq<ProductImage>, products: map<Id, Product>, celebrities: map<Id, Celebrity>,
    user: Id, product: Id, files: seq<FileOutcome>)
    : (res: (Result<seq<int>>, seq<ProductImage>))
    ensures res.0 == Err(NotFound) <==>
      StarOf(celebrities, user).None? || product !in products ||
      products[product].celebrityId != StarOf(celebrities, user).value
    ensures res.0 == Err(NoFile) <==> res.0 != Err(NotFound) && files == []
    ensures res.0.Ok? <==>
      StarOf(celebrities, user).Some? && product in products &&
      products[product].celebrityId == StarOf(celebrities, user).value && files != []
    ensures res.0.Err? ==> res.1 == images
    ensures res.0.Ok? ==> res.0.value == Numbered(FirstSortOrder(images, product), files) &&
                          res.1 == images + ImageRows(product, res.0.value)
  {
    match StarOf(celebrities, user)
    case None => (Err(NotFound), images)
    case Some(star) =>
      if product !in products || products[product].celebrityId != star then (Err(NotFound), images)
      else if files == [] then (Err(NoFile), images)
      else
        var stored := Numbered(FirstSortOrder(images, product), files);
        (Ok(stored), images + ImageRows(product, stored))
  }

  method UploadProductImages(db: Db, user: Id, product: Id, files: seq<FileOutcome>) returns (r: Result<seq<int>>)
    modifies db`productImages
    ensures (r, db.productImages) == ImageUpload(old(db.productImages), db.products, db.celebrities, user, product, files)
  {
    var star := CelebrityForUser(db, user);
    if star.None? {
      return Err(NotFound);
    }
    if product !in db.products || db.products[product].celebrityId != star.value {
      return Err(NotFound);
    }
    if files == [] {
      return Err(NoFile);
    }
    var start := FirstSortOrder(db.productImages, product);
    var sortOrder := start;
    var uploaded: seq<int> := [];
    var i := 0;
    while i < |files|
      invariant 0 <= i <= |files|
      invariant uploaded + Numbered(sortOrder, files[i..]) == Numbered(start, files)
      invariant db.productImages == old(db.productImages) + ImageRows(product, uploaded)
    {
      assert files[i..] == [files[i]] + files[i + 1..];
      if files[i] == UploadFailed {
        i := i + 1;
        continue;
      }
      if files[i] == Stored {
        db.productImages := db.productImages + [ProductImage(product, sortOrder)];
        assert ImageRows(product, uploaded + [sortOrder]) == ImageRows(product, uploaded) + [ProductImage(product, sortOrder)];
        uploaded := uploaded + [sortOrder];
      }
      sortOrder := sortOrder + 1;
      i := i + 1;
    }
    assert files[|files|..] == [];
    assert uploaded == Numbered(start, files);
    r := Ok(uploaded);
  }

  // ---------------------------------------------------------------- variant deletion

  /** `deleteVariant`: NOT_FOUND without a star profile or for a product of another star;
      VARIANT_HAS_ORDERS with the number of merch orders naming the variant; otherwise the
      variant is removed if it belongs to the product. */
  ghost function VariantDeletion(
    variants: map<Id, Variant>, products: map<Id, Product>, orders: map<Id, MerchOrder>,
    celebrities: map<Id, Celebrity>, user: Id, product: Id, variant: Id)
    : (res: (Result<()>, map<Id, Variant>))
    ensures res.0 == Err(NotFound) <==>
      StarOf(celebrities, user).None? || product !in products ||
      products[product].celebrityId != StarOf(celebrities, user).value
    ensures res.0.Err? && res.0.error.VariantHasOrders? <==>
      res.0 != Err(NotFound) && exists k :: k in orders && orders[k].variantId == Some(variant)
    ensures res.0.Ok? <==>
      StarOf(celebrities, user).Some? && product in products &&
      products[product].celebrityId == StarOf(celebrities, user).value &&
      forall k :: k in orders ==> orders[k].variantId != Some(variant)
    ensures res.0.Err? ==> res.1 == variants
    ensures res.0.Ok? ==> res.1 == if variant in variants && variants[variant].productId == product
                                   then variants - {variant} else variants
  {
    match StarOf(celebrities, user)
    case None => (Err(NotFound), variants)
    case Some(star) =>
      if product !in products || products[product].celebrityId != star then (Err(NotFound), variants)
      else
        var count := CountWhere(orders, (o: MerchOrder) => o.variantId == Some(variant));
        if count > 0 then
          CountWhereWitness(orders, (o: MerchOrder) => o.variantId == Some(variant));
          (Err(VariantHasOrders(count)), variants)
        else
          CountWhereZero(orders, (o: MerchOrder) => o.variantId == Some(variant));
          if variant in variants && variants[variant].productId == product then (Ok(()), variants - {variant})
          else (Ok(()), variants)
  }

  method DeleteVariant(db: Db, user: Id, product: Id, variant: Id) returns (r: Result<()>)
    modifies db`variants
    ensures (r, db.variants) ==
      VariantDeletion(old(db.variants), db.products, db.merchOrders, db.celebrities, user, product, variant)
  {
    var star := CelebrityForUser(db, user);
    if star.None? {
      return Err(NotFound);
    }
    if product !in db.products || db.products[product].celebrityId != star.value {
      return Err(NotFound);
    }
    var count := CountWhere(db.merchOrders, (o: MerchOrder) => o.variantId == Some(variant));
    if count > 0 {
      return Err(VariantHasOrders(count));
    }
    if variant in db.variants && db.variants[variant].productId == product {
      db.variants := db.variants - {variant};
    }
    r := Ok(());
  }

  // ---------------------------------------------------------------- earnings

  /** The statuses merch earnings count: every paid order that is not cancelled. */
  const EarningStatuses: set<Status> := {Confirmed, Shipped, Delivered}

  /** The counted orders of `star` whose product still exists (the query's inner join). */
  function EarningOrders(orders: map<Id, MerchOrder>, products: map<Id, Product>, star: Id): set<Id>
  {
    set k | k in orders && orders[k].celebrityId == star && orders[k].status in EarningStatuses &&
            orders[k].productId in products
  }

  function PendingOrders(orders: map<Id, MerchOrder>, star: Id): set<Id>
  {
    set k | k in orders && orders[k].celebrityId == star && orders[k].status == Pending
  }

  /** The rows the loop walks: amount is the order total, the group is the product name. */
  function MerchLines(
    orders: map<Id, MerchOrder>, products: map<Id, Product>, rows: seq<Id>,
    dayOf: int -> Option<Weekday>, monthOf: int -> Option<Month>): (lines: seq<Line>)
    requires forall i :: 0 <= i < |rows| ==> rows[i] in orders && orders[rows[i]].productId in products
    ensures |lines| == |rows|
    ensures forall i :: 0 <= i < |rows| ==>
      lines[i].amount == orders[rows[i]].totalPrice && lines[i].group == products[orders[rows[i]].productId].name
  {
    seq(|rows|, i requires 0 <= i < |rows| =>
      var o := orders[rows[i]];
      Line(o.totalPrice, products[o.productId].name, dayOf(o.createdAt), monthOf(o.createdAt)))
  }

  /** `getMerchEarnings`; `rows` is the order in which the database returns the counted
      orders. */
  method GetMerchEarnings(db: Db, user: Id, rows: seq<Id>, dayOf: int -> Option<Weekday>, monthOf: int -> Option<Month>)
    returns (r: Result<Summary>)
    requires StarOf(db.celebrities, user).Some? ==>
      Enumerates(rows, EarningOrders(db.merchOrders, db.products, StarOf(db.celebrities, user).value))
    ensures StarOf(db.celebrities, user).None? ==> r == Err(NotFound)
    ensures StarOf(db.celebrities, user).Some? ==>
      var star := StarOf(db.celebrities, user).value;
      r == Ok(SummaryOf(MerchLines(db.merchOrders, db.products, rows, dayOf, monthOf),
                        |PendingOrders(db.merchOrders, star)|))
  {
    var star := CelebrityForUser(db, user);
    if star.None? {
      return Err(NotFound);
    }
    var lines := MerchLines(db.merchOrders, db.products, rows, dayOf, monthOf);
    var s := Summarize(lines, |PendingOrders(db.merchOrders, star.value)|);
    r := Ok(s);
  }
}

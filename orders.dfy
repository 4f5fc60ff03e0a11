/** The buyer side of video requests: placing a request with a star, found by slug, and
    reading one's own request. */
module Orders {
  import opened Common
  import opened Lifecycle
  import opened Store

  /** One hour in milliseconds. */
  const HourMs: int := 60 * 60 * 1000

  /** The validated body of a new request. */
  datatype CreateOrderInput = CreateOrderInput(
    celebritySlug: string, videoTypeId: Id, recipientName: string, buyerName: string,
    buyerEmail: string, instructions: string)

  /** The response of a created request. */
  datatype Placed = Placed(id: Id, price: int, status: Status, deadline: int, createdAt: int)

  /** The star a slug names, when exactly one star carries it. */
  ghost function StarBySlug(celebrities: map<Id, Celebrity>, slug: string): Option<Id>
  {
    Single(set c | c in celebrities && celebrities[c].slug == slug)
  }

  /** The deadline of a request: the star's response time in hours after `now`. */
  function Deadline(now: int, responseTimeHours: int): (d: int)
    ensures d - now == responseTimeHours * 3600000
    ensures responseTimeHours >= 1 ==> d > now
  {
    now + responseTimeHours * HourMs
  }

  /** The row inserted for a request: pending, at the star's current price. */
  function NewVideoOrder(buyer: Id, star: Id, c: Celebrity, input: CreateOrderInput, now: int): (o: VideoOrder)
    ensures o.buyerId == buyer && o.celebrityId == star && o.videoTypeId == input.videoTypeId
    ensures o.price == c.price && o.status == Pending && o.deadline == Deadline(now, c.responseTimeHours)
    ensures o.createdAt == now && o.updatedAt == now
  {
    VideoOrder(buyer, star, input.videoTypeId, input.buyerName, input.buyerEmail, input.recipientName,
               input.instructions, c.price, Pending, Deadline(now, c.responseTimeHours), now, now)
  }

  /** The guards of `createOrder` pass: one star carries the slug, it accepts requests,
      and the video type is one of its own. */
  ghost predicate Bookable(celebrities: map<Id, Celebrity>, videoTypes: map<Id, VideoType>, input: CreateOrderInput)
  {
    var star := StarBySlug(celebrities, input.celebritySlug);
    star.Some? && celebrities[star.value].acceptingRequests &&
    input.videoTypeId in videoTypes && videoTypes[input.videoTypeId].celebrityId == star.value
  }

  /** `createOrder`: NOT_FOUND for a slug no single star carries, NOT_ACCEPTING for a star
      that has paused requests, INVALID_VIDEO_TYPE for a video type that is not the star's,
      DB_ERROR when the insert fails, otherwise the new pending request. */
  ghost function OrderCreation(
    celebrities: map<Id, Celebrity>, videoTypes: map<Id, VideoType>, orders: map<Id, VideoOrder>,
    buyer: Id, input: CreateOrderInput, newId: Id, now: int, insertOk: bool)
    : (res: (Result<Placed>, map<Id, VideoOrder>))
    ensures res.0 == Err(NotFound) <==> StarBySlug(celebrities, input.celebritySlug).None?
    ensures res.0 == Err(NotAccepting) <==>
      StarBySlug(celebrities, input.celebritySlug).Some? &&
      !celebrities[StarBySlug(celebrities, input.celebritySlug).value].acceptingRequests
    ensures res.0 == Err(InvalidVideoType) <==>
      StarBySlug(celebrities, input.celebritySlug).Some? &&
      celebrities[StarBySlug(celebrities, input.celebritySlug).value].acceptingRequests &&
      (input.videoTypeId !in videoTypes ||
       videoTypes[input.videoTypeId].celebrityId != StarBySlug(celebrities, input.celebritySlug).value)
    ensures res.0 == Err(DbError) <==> Bookable(celebrities, videoTypes, input) && (!insertOk || newId in orders)
    ensures res.0.Ok? <==> Bookable(celebrities, videoTypes, input) && insertOk && newId !in orders
    ensures res.0.Err? ==> res.1 == orders
    ensures res.0.Ok? ==>
      var star := StarBySlug(celebrities, input.celebritySlug).value;
      var row := NewVideoOrder(buyer, star, celebrities[star], input, now);
      insertOk && newId !in orders && res.1 == orders[newId := row] &&
      res.0.value == Placed(newId, celebrities[star].price, Pending, row.deadline, now)
  {
    match StarBySlug(celebrities, input.celebritySlug)
    case None => (Err(NotFound), orders)
    case Some(star) =>
      var c := celebrities[star];
      if !c.acceptingRequests then (Err(NotAccepting), orders)
      else if input.videoTypeId !in videoTypes || videoTypes[input.videoTypeId].celebrityId != star then
        (Err(InvalidVideoType), orders)
      else if !insertOk || newId in orders then (Err(DbError), orders)
      else
        var row := NewVideoOrder(buyer, star, c, input, now);
        (Ok(Placed(newId, c.price, Pending, row.deadline, now)), orders[newId := row])
  }

  method CreateOrder(db: Db, buyer: Id, input: CreateOrderInput, newId: Id, now: int, insertOk: bool)
    returns (r: Result<Placed>)
    modifies db`videoOrders
    ensures (r, db.videoOrders) ==
      OrderCreation(db.celebrities, db.videoTypes, old(db.videoOrders), buyer, input, newId, now, insertOk)
  {
    var found := PickSingle(set c | c in db.celebrities && db.celebrities[c].slug == input.celebritySlug);
    if found.None? {
      return Err(NotFound);
    }
    var star := found.value;
    var c := db.celebrities[star];
    if !c.acceptingRequests {
      return Err(NotAccepting);
    }
    if input.videoTypeId !in db.videoTypes || db.videoTypes[input.videoTypeId].celebrityId != star {
      return Err(InvalidVideoType);
    }
    var deadline := now;
    deadline := deadline + c.responseTimeHours * HourMs;
    if !insertOk || newId in db.videoOrders {
      return Err(DbError);
    }
    db.videoOrders := db.videoOrders[newId := VideoOrder(
      buyer, star, input.videoTypeId, input.buyerName, input.buyerEmail, input.recipientName,
      input.instructions, c.price, Pending, deadline, now, now)];
    r := Ok(Placed(newId, c.price, Pending, deadline, now));
  }

  /** A placed request can be moved by its star and reviewed by its buyer: it starts
      pending, belongs to the star the slug names and to the caller, and its video type is
      that star's. */
  lemma PlacedRequestIsWellFormed(
    celebrities: map<Id, Celebrity>, videoTypes: map<Id, VideoType>, orders: map<Id, VideoOrder>,
    buyer: Id, input: CreateOrderInput, newId: Id, now: int, insertOk: bool)
    requires OrderCreation(celebrities, videoTypes, orders, buyer, input, newId, now, insertOk).0.Ok?
    ensures var row := OrderCreation(celebrities, videoTypes, orders, buyer, input, newId, now, insertOk).1[newId];
      row.status == Pending && row.buyerId == buyer &&
      row.celebrityId in celebrities && celebrities[row.celebrityId].slug == input.celebritySlug &&
      celebrities[row.celebrityId].acceptingRequests &&
      row.videoTypeId in videoTypes && videoTypes[row.videoTypeId].celebrityId == row.celebrityId &&
      row.price == celebrities[row.celebrityId].price && !Terminal(Video, row.status)
  {
    var star := StarBySlug(celebrities, input.celebritySlug).value;
    assert star in (set c | c in celebrities && celebrities[c].slug == input.celebritySlug);
    assert Transition(Video, Pending, Approved);
  }

  function VisibleOrders(orders: map<Id, VideoOrder>, celebrities: map<Id, Celebrity>, videoTypes: map<Id, VideoType>)
    : (m: map<Id, VideoOrder>)
    ensures forall k :: k in m <==> k in orders && orders[k].celebrityId in celebrities && orders[k].videoTypeId in videoTypes
    ensures forall k :: k in m ==> m[k] == orders[k]
  {
    map k | k in orders && orders[k].celebrityId in celebrities && orders[k].videoTypeId in videoTypes :: orders[k]
  }

  /** `getOrderById`: NOT_FOUND for a request that is not there, FORBIDDEN for another
      buyer's request, the request for its buyer. */
  method GetOrderById(db: Db, caller: Id, id: Id) returns (r: Result<VideoOrder>)
    ensures r == BuyerRead(VisibleOrders(db.videoOrders, db.celebrities, db.videoTypes),
                           (o: VideoOrder) => o.buyerId, caller, id)
    ensures r == Err(Forbidden) <==>
      id in db.videoOrders && db.videoOrders[id].celebrityId in db.celebrities &&
      db.videoOrders[id].videoTypeId in db.videoTypes && db.videoOrders[id].buyerId != caller
    ensures r.Ok? ==> r.value == db.videoOrders[id] && r.value.buyerId == caller
  {
    var visible := VisibleOrders(db.videoOrders, db.celebrities, db.videoTypes);
    if id !in visible {
      return Err(NotFound);
    }
    var o := visible[id];
    if o.buyerId != caller {
      return Err(Forbidden);
    }
    r := Ok(o);
  }
}

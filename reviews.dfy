/** Reviews of video requests: a buyer may review a completed request of theirs once. */
module Reviews {
  import opened Common
  import opened Lifecycle
  import opened Store
  import opened ReviewSchema

  /** The reviews that name `order`. */
  function ReviewsOf(reviews: map<Id, Review>, order: Id): set<Id>
  {
    set k | k in reviews && reviews[k].orderId == order
  }

  /** The table's intended invariant: no request has two reviews. */
  ghost predicate OneReviewPerOrder(reviews: map<Id, Review>)
  {
    forall a, b :: a in reviews && b in reviews && reviews[a].orderId == reviews[b].orderId ==> a == b
  }

  /** The four guards of `submitReview` pass: the request is there, the caller bought it,
      it is completed, and no single earlier review of it is found. */
  ghost predicate Reviewable(orders: map<Id, VideoOrder>, reviews: map<Id, Review>, caller: Id, order: Id)
  {
    order in orders && orders[order].buyerId == caller && orders[order].status == Completed &&
    Single(ReviewsOf(reviews, order)).None?
  }

  /** The response of a stored review. */
  datatype Submitted = Submitted(id: Id, rating: int, text: string)

  /** `submitReview`: the guards in their order (the request exists, the caller bought it,
      it is completed, it has no review yet), then the insert. The lookup of an earlier
      review is a `.single()` query, so it finds one only when exactly one row matches.
      `newId` is the id the database assigns. */
  ghost function ReviewSubmission(
    orders: map<Id, VideoOrder>, reviews: map<Id, Review>, caller: Id, input: ReviewInput, newId: Id, insertOk: bool)
    : (res: (Result<Submitted>, map<Id, Review>))
    ensures res.0 == Err(NotFound) <==> input.orderId !in orders
    ensures res.0 == Err(Forbidden) <==> input.orderId in orders && orders[input.orderId].buyerId != caller
    ensures res.0 == Err(OrderNotCompleted) <==>
      input.orderId in orders && orders[input.orderId].buyerId == caller && orders[input.orderId].status != Completed
    ensures res.0 == Err(ReviewExists) <==>
      input.orderId in orders && orders[input.orderId].buyerId == caller && orders[input.orderId].status == Completed &&
      Single(ReviewsOf(reviews, input.orderId)).Some?
    ensures res.0 == Err(DbError) <==>
      Reviewable(orders, reviews, caller, input.orderId) && (!insertOk || newId in reviews)
    ensures res.0.Ok? <==> Reviewable(orders, reviews, caller, input.orderId) && insertOk && newId !in reviews
    ensures res.0.Err? ==> res.1 == reviews
    ensures res.0.Ok? ==>
      insertOk && newId !in reviews &&
      res.1 == reviews[newId := Review(input.orderId, caller, orders[input.orderId].celebrityId, input.rating, input.text)] &&
      res.0.value == Submitted(newId, input.rating, input.text)
  {
    if input.orderId !in orders then (Err(NotFound), reviews)
    else
      var order := orders[input.orderId];
      if order.buyerId != caller then (Err(Forbidden), reviews)
      else if order.status != Completed then (Err(OrderNotCompleted), reviews)
      else if Single(ReviewsOf(reviews, input.orderId)).Some? then (Err(ReviewExists), reviews)
      else if !insertOk || newId in reviews then (Err(DbError), reviews)
      else
        (Ok(Submitted(newId, input.rating, input.text)),
         reviews[newId := Review(input.orderId, caller, order.celebrityId, input.rating, input.text)])
  }

  method SubmitReview(db: Db, caller: Id, input: ReviewInput, newId: Id, insertOk: bool) returns (r: Result<Submitted>)
    modifies db`reviews
    ensures (r, db.reviews) == ReviewSubmission(db.videoOrders, old(db.reviews), caller, input, newId, insertOk)
  {
    if input.orderId !in db.videoOrders {
      return Err(NotFound);
    }
    var order := db.videoOrders[input.orderId];
    if order.buyerId != caller {
      return Err(Forbidden);
    }
    if order.status != Completed {
      return Err(OrderNotCompleted);
    }
    var existing := PickSingle(ReviewsOf(db.reviews, input.orderId));
    if existing.Some? {
      return Err(ReviewExists);
    }
    if !insertOk || newId in db.reviews {
      return Err(DbError);
    }
    db.reviews := db.reviews[newId := Review(input.orderId, caller, order.celebrityId, input.rating, input.text)];
    r := Ok(Submitted(newId, input.rating, input.text));
  }

  /** While each request has at most one review, the duplicate check finds a review exactly
      when there is one, and a stored review keeps the invariant: each request ends up
      with at most one review however often its buyer submits. */
  lemma SubmissionKeepsOneReviewPerOrder(
    orders: map<Id, VideoOrder>, reviews: map<Id, Review>, caller: Id, input: ReviewInput, newId: Id, insertOk: bool)
    requires OneReviewPerOrder(reviews)
    ensures Single(ReviewsOf(reviews, input.orderId)).Some? <==> ReviewsOf(reviews, input.orderId) != {}
    ensures OneReviewPerOrder(ReviewSubmission(orders, reviews, caller, input, newId, insertOk).1)
  {
    var rs := ReviewsOf(reviews, input.orderId);
    if rs != {} {
      var k :| k in rs;
      assert rs == {k};
    }
    var after := ReviewSubmission(orders, reviews, caller, input, newId, insertOk).1;
    if after != reviews {
      assert rs == {};
      forall k | k in reviews ensures reviews[k].orderId != input.orderId {
        assert k !in rs;
      }
      assert after == reviews[newId := after[newId]] && after[newId].orderId == input.orderId;
    }
  }

  /** A review always belongs to the caller and to the star of the request it reviews. */
  lemma ReviewCarriesAuthorAndStar(
    orders: map<Id, VideoOrder>, reviews: map<Id, Review>, caller: Id, input: ReviewInput, newId: Id, insertOk: bool)
    requires ReviewSubmission(orders, reviews, caller, input, newId, insertOk).0.Ok?
    ensures var stored := ReviewSubmission(orders, reviews, caller, input, newId, insertOk).1[newId];
      stored.authorId == caller == orders[stored.orderId].buyerId &&
      stored.celebrityId == orders[stored.orderId].celebrityId &&
      orders[stored.orderId].status == Completed
  {
  }
}

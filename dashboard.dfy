/** The star dashboard for video requests: moving a request along the video table,
    replacing the weekly availability slots, and the earnings figures. Every handler first
    finds the caller's star profile and answers NOT_FOUND without one. */
module Dashboard {
  import opened Common
  import opened Lifecycle
  import opened Store
  import opened Earnings
  import opened DashboardSchema

  // ---------------------------------------------------------------- request status

  /** The request belongs to the caller's star profile. A request of another star is
      answered as if it did not exist. */
  ghost predicate OwnsRequest(orders: map<Id, VideoOrder>, celebrities: map<Id, Celebrity>, user: Id, id: Id)
  {
    StarOf(celebrities, user).Some? && id in orders && orders[id].celebrityId == StarOf(celebrities, user).value
  }

  /** `updateRequestStatus`: the response and the new `orders` table. `writeOk` is whether
      the database accepts the update. */
  ghost function RequestStatusUpdate(
    orders: map<Id, VideoOrder>, celebrities: map<Id, Celebrity>, user: Id, id: Id, to: Status, writeOk: bool)
    : (res: (Result<(Id, Status)>, map<Id, VideoOrder>))
    ensures res.0 == Err(NotFound) <==> !OwnsRequest(orders, celebrities, user, id)
    ensures res.0.Err? && res.0.error.InvalidTransition? <==>
      OwnsRequest(orders, celebrities, user, id) && !Transition(Video, orders[id].status, to)
    ensures res.0 == Err(DbError) <==>
      OwnsRequest(orders, celebrities, user, id) && Transition(Video, orders[id].status, to) && !writeOk
    ensures res.0.Ok? <==>
      OwnsRequest(orders, celebrities, user, id) && Transition(Video, orders[id].status, to) && writeOk
    ensures res.0.Ok? ==> res.0.value == (id, to) && res.1 == orders[id := orders[id].(status := to)]
    ensures res.0.Err? ==> res.1 == orders
  {
    match StarOf(celebrities, user)
    case None => (Err(NotFound), orders)
    case Some(star) =>
      if id !in orders || orders[id].celebrityId != star then (Err(NotFound), orders)
      else
        match CheckTransition(Video, orders[id].status, to)
        case Err(e) => (Err(e), orders)
        case Ok(_) =>
          if !writeOk then (Err(DbError), orders)
          else (Ok((id, to)), orders[id := orders[id].(status := to)])
  }

  method UpdateRequestStatus(db: Db, user: Id, id: Id, to: Status, writeOk: bool) returns (r: Result<(Id, Status)>)
    modifies db`videoOrders
    ensures (r, db.videoOrders) == RequestStatusUpdate(old(db.videoOrders), db.celebrities, user, id, to, writeOk)
  {
    var star := CelebrityForUser(db, user);
    if star.None? {
      return Err(NotFound);
    }
    if id !in db.videoOrders || db.videoOrders[id].celebrityId != star.value {
      return Err(NotFound);
    }
    var order := db.videoOrders[id];
    var check := CheckTransition(Video, order.status, to);
    if check.Err? {
      return Err(check.error);
    }
    if !writeOk {
      return Err(DbError);
    }
    db.videoOrders := db.videoOrders[id := order.(status := to)];
    r := Ok((id, to));
  }

  /** A completed or rejected request is final: every request to move it fails with
      INVALID_TRANSITION and the table stays as it was. */
  lemma FinishedRequestsStayFinished(
    orders: map<Id, VideoOrder>, celebrities: map<Id, Celebrity>, user: Id, id: Id, to: Status, writeOk: bool)
    requires OwnsRequest(orders, celebrities, user, id)
    requires orders[id].status == Completed || orders[id].status == Rejected
    ensures RequestStatusUpdate(orders, celebrities, user, id, to, writeOk).0 ==
      Err(InvalidTransition(StatusName(orders[id].status), StatusName(to)))
    ensures RequestStatusUpdate(orders, celebrities, user, id, to, writeOk).1 == orders
  {
    assert !Transition(Video, orders[id].status, to);
  }

  /** Two accepted star requests in a row take an order from pending at most to approved
      and then completed: the video table admits no third step. */
  lemma AtMostTwoAcceptedSteps(run: seq<Status>)
    requires IsRun(Video, Pending, run)
    ensures |run| <= 2
    ensures |run| == 2 ==> run == [Approved, Completed]
  {
    if |run| >= 2 {
      assert Transition(Video, Pending, run[0]);
      var rest := run[1..];
      assert IsRun(Video, run[0], rest);
      assert Transition(Video, run[0], rest[0]);
      assert run[0] == Approved && run[1] == Completed;
      if |run| >= 3 {
        assert IsRun(Video, rest[0], rest[1..]);
      }
    }
  }

  // ---------------------------------------------------------------- availability

  function SlotOf(s: SlotInput): Slot
  {
    Slot(s.available, s.maxRequests)
  }

  /** The table after upserting `slots` one after another for `star`, keyed on
      (celebrity, day of week). */
  function Upserted(avail: map<(Id, int), Slot>, star: Id, slots: seq<SlotInput>): map<(Id, int), Slot>
    decreases |slots|
  {
    if slots == [] then avail
    else
      var last := slots[|slots| - 1];
      Upserted(avail, star, slots[..|slots| - 1])[(star, last.dayOfWeek) := SlotOf(last)]
  }

  /** The keys after the upserts: the old keys and the star's key for every day named. */
  lemma {:induction false} UpsertedKeys(avail: map<(Id, int), Slot>, star: Id, slots: seq<SlotInput>, c: Id, d: int)
    ensures (c, d) in Upserted(avail, star, slots) <==>
      (c, d) in avail || (c == star && exists j :: 0 <= j < |slots| && slots[j].dayOfWeek == d)
    decreases |slots|
  {
    if slots != [] {
      var prefix := slots[..|slots| - 1];
      UpsertedKeys(avail, star, prefix, c, d);
      if c == star && exists j :: 0 <= j < |slots| && slots[j].dayOfWeek == d {
        var j :| 0 <= j < |slots| && slots[j].dayOfWeek == d;
        if j < |prefix| { assert prefix[j] == slots[j]; }
      }
      if c == star && exists j :: 0 <= j < |prefix| && prefix[j].dayOfWeek == d {
        var j :| 0 <= j < |prefix| && prefix[j].dayOfWeek == d;
        assert slots[j] == prefix[j];
      }
    }
  }

  /** A day the request names holds the last entry for that day. */
  lemma {:induction false} UpsertedLast(avail: map<(Id, int), Slot>, star: Id, slots: seq<SlotInput>, d: int, j: int)
    requires 0 <= j < |slots| && slots[j].dayOfWeek == d
    requires forall k :: j < k < |slots| ==> slots[k].dayOfWeek != d
    ensures (star, d) in Upserted(avail, star, slots) && Upserted(avail, star, slots)[(star, d)] == SlotOf(slots[j])
    decreases |slots|
  {
    var prefix := slots[..|slots| - 1];
    if j < |prefix| {
      assert slots[|slots| - 1].dayOfWeek != d;
      assert prefix[j] == slots[j];
      forall k | j < k < |prefix| ensures prefix[k].dayOfWeek != d {
        assert prefix[k] == slots[k];
      }
      UpsertedLast(avail, star, prefix, d, j);
    }
  }

  /** A key of another star, or a day the request does not name, keeps its old slot. */
  lemma {:induction false} UpsertedOthers(avail: map<(Id, int), Slot>, star: Id, slots: seq<SlotInput>, c: Id, d: int)
    requires c != star || forall j :: 0 <= j < |slots| ==> slots[j].dayOfWeek != d
    requires (c, d) in avail
    ensures (c, d) in Upserted(avail, star, slots) && Upserted(avail, star, slots)[(c, d)] == avail[(c, d)]
    decreases |slots|
  {
    if slots != [] {
      var prefix := slots[..|slots| - 1];
      if c == star {
        assert slots[|slots| - 1].dayOfWeek != d;
        forall j | 0 <= j < |prefix| ensures prefix[j].dayOfWeek != d {
          assert prefix[j] == slots[j];
        }
      }
      UpsertedOthers(avail, star, prefix, c, d);
    }
  }

  /** After the upserts the table has one slot per (celebrity, day); a day the request
      names holds the last entry for that day, and every other key is untouched. */
  lemma LastWriteWins(avail: map<(Id, int), Slot>, star: Id, slots: seq<SlotInput>, c: Id, d: int)
    ensures (c, d) in Upserted(avail, star, slots) <==>
      (c, d) in avail || (c == star && exists j :: 0 <= j < |slots| && slots[j].dayOfWeek == d)
    ensures forall j :: 0 <= j < |slots| && slots[j].dayOfWeek == d &&
                        (forall k :: j < k < |slots| ==> slots[k].dayOfWeek != d) ==>
      (star, d) in Upserted(avail, star, slots) && Upserted(avail, star, slots)[(star, d)] == SlotOf(slots[j])
    ensures (c != star || forall j :: 0 <= j < |slots| ==> slots[j].dayOfWeek != d) && (c, d) in avail ==>
      Upserted(avail, star, slots)[(c, d)] == avail[(c, d)]
  {
    UpsertedKeys(avail, star, slots, c, d);
    forall j | 0 <= j < |slots| && slots[j].dayOfWeek == d &&
      (forall k :: j < k < |slots| ==> slots[k].dayOfWeek != d)
      ensures (star, d) in Upserted(avail, star, slots) && Upserted(avail, star, slots)[(star, d)] == SlotOf(slots[j])
    {
      UpsertedLast(avail, star, slots, d, j);
    }
    if (c != star || forall j :: 0 <= j < |slots| ==> slots[j].dayOfWeek != d) && (c, d) in avail {
      UpsertedOthers(avail, star, slots, c, d);
    }
  }

  /** `updateAvailability`: NOT_FOUND without a star profile, otherwise every slot upserted. */
  ghost function AvailabilityUpdate(avail: map<(Id, int), Slot>, celebrities: map<Id, Celebrity>, user: Id, slots: seq<SlotInput>)
    : (res: (Result<()>, map<(Id, int), Slot>))
    ensures res.0.Err? <==> StarOf(celebrities, user).None?
    ensures res.0.Err? ==> res.0.error == NotFound && res.1 == avail
    ensures res.0.Ok? ==> res.1 == Upserted(avail, StarOf(celebrities, user).value, slots)
  {
    match StarOf(celebrities, user)
    case None => (Err(NotFound), avail)
    case Some(star) => (Ok(()), Upserted(avail, star, slots))
  }

  method UpdateAvailability(db: Db, user: Id, slots: seq<SlotInput>) returns (r: Result<()>)
    modifies db`availability
    ensures (r, db.availability) == AvailabilityUpdate(old(db.availability), db.celebrities, user, slots)
  {
    var star := CelebrityForUser(db, user);
    if star.None? {
      return Err(NotFound);
    }
    var i := 0;
    while i < |slots|
      invariant 0 <= i <= |slots|
      invariant db.availability == Upserted(old(db.availability), star.value, slots[..i])
    {
      var slot := slots[i];
      assert slots[..i + 1][..i] == slots[..i];
      db.availability := db.availability[(star.value, slot.dayOfWeek) := SlotOf(slot)];
      i := i + 1;
    }
    assert slots[..|slots|] == slots;
    r := Ok(());
  }

  // ---------------------------------------------------------------- earnings

  /** The completed requests of `star` that have a video type (the query's inner join). */
  function CompletedRequests(orders: map<Id, VideoOrder>, videoTypes: map<Id, VideoType>, star: Id): set<Id>
  {
    set k | k in orders && orders[k].celebrityId == star && orders[k].status == Completed &&
            orders[k].videoTypeId in videoTypes
  }

  function PendingRequests(orders: map<Id, VideoOrder>, star: Id): set<Id>
  {
    set k | k in orders && orders[k].celebrityId == star && orders[k].status == Pending
  }

  /** The rows the loop walks: amount is the price, the group is the video type title.
      `dayOf` and `monthOf` are the calendar bucketing of `created_at` against the clock. */
  function VideoLines(
    orders: map<Id, VideoOrder>, videoTypes: map<Id, VideoType>, rows: seq<Id>,
    dayOf: int -> Option<Weekday>, monthOf: int -> Option<Month>): (lines: seq<Line>)
    requires forall i :: 0 <= i < |rows| ==> rows[i] in orders && orders[rows[i]].videoTypeId in videoTypes
    ensures |lines| == |rows|
    ensures forall i :: 0 <= i < |rows| ==> lines[i].amount == orders[rows[i]].price
  {
    seq(|rows|, i requires 0 <= i < |rows| =>
      var o := orders[rows[i]];
      Line(o.price, videoTypes[o.videoTypeId].title, dayOf(o.createdAt), monthOf(o.createdAt)))
  }

  /** `getEarnings`; `rows` is the order in which the database returns the completed
      requests. */
  method GetEarnings(db: Db, user: Id, rows: seq<Id>, dayOf: int -> Option<Weekday>, monthOf: int -> Option<Month>)
    returns (r: Result<Summary>)
    requires StarOf(db.celebrities, user).Some? ==>
      Enumerates(rows, CompletedRequests(db.videoOrders, db.videoTypes, StarOf(db.celebrities, user).value))
    ensures StarOf(db.celebrities, user).None? ==> r == Err(NotFound)
    ensures StarOf(db.celebrities, user).Some? ==>
      var star := StarOf(db.celebrities, user).value;
      r == Ok(SummaryOf(VideoLines(db.videoOrders, db.videoTypes, rows, dayOf, monthOf),
                        |PendingRequests(db.videoOrders, star)|))
  {
    var star := CelebrityForUser(db, user);
    if star.None? {
      return Err(NotFound);
    }
    var lines := VideoLines(db.videoOrders, db.videoTypes, rows, dayOf, monthOf);
    var s := Summarize(lines, |PendingRequests(db.videoOrders, star.value)|);
    r := Ok(s);
  }
}

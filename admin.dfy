/** The admin panel for video requests, users, star applications and star categories. The
    admin status endpoint overwrites a request's status with any status of the video
    lifecycle, without looking at the transition table. */
module Admin {
  import opened Common
  import opened Lifecycle
  import opened Store
  import opened Earnings
  import Slug
  import Dashboard

  // ---------------------------------------------------------------- request status

  /** The admin read of a request that every admin update answers with. */
  function AdminRead<T>(table: map<Id, T>, id: Id): (r: Result<T>)
    ensures r.Ok? <==> id in table
    ensures r.Ok? ==> r.value == table[id]
    ensures r.Err? ==> r.error == NotFound
  {
    if id in table then Ok(table[id]) else Err(NotFound)
  }

  /** `updateOrderStatus` (admin): INVALID_STATUS for a name outside the video statuses,
      DB_ERROR when the write fails, otherwise the status and `updated_at` are overwritten
      (an update of a missing id changes nothing) and the request is read back. */
  function AdminOrderStatus(orders: map<Id, VideoOrder>, id: Id, requested: string, now: int, writeOk: bool)
    : (res: (Result<VideoOrder>, map<Id, VideoOrder>))
    ensures res.0 == Err(InvalidStatus) <==> AdminStatus(Video, requested).Err?
    ensures res.0 == Err(DbError) <==> AdminStatus(Video, requested).Ok? && !writeOk
    ensures res.0 == Err(NotFound) <==> AdminStatus(Video, requested).Ok? && writeOk && id !in orders
    ensures res.0.Ok? <==> AdminStatus(Video, requested).Ok? && writeOk && id in orders
    ensures res.0.Err? ==> res.1 == orders
    ensures res.0.Ok? ==>
      var to := AdminStatus(Video, requested).value;
      res.1 == orders[id := orders[id].(status := to, updatedAt := now)] && res.0.value == res.1[id]
  {
    match AdminStatus(Video, requested)
    case Err(e) => (Err(e), orders)
    case Ok(to) =>
      if !writeOk then (Err(DbError), orders)
      else
        var written := if id in orders then orders[id := orders[id].(status := to, updatedAt := now)] else orders;
        (AdminRead(written, id), written)
  }

  method UpdateOrderStatus(db: Db, id: Id, requested: string, now: int, writeOk: bool) returns (r: Result<VideoOrder>)
    modifies db`videoOrders
    ensures (r, db.videoOrders) == AdminOrderStatus(old(db.videoOrders), id, requested, now, writeOk)
  {
    var parsed := AdminStatus(Video, requested);
    if parsed.Err? {
      return Err(InvalidStatus);
    }
    if !writeOk {
      return Err(DbError);
    }
    if id in db.videoOrders {
      db.videoOrders := db.videoOrders[id := db.videoOrders[id].(status := parsed.value, updatedAt := now)];
    }
    r := AdminRead(db.videoOrders, id);
  }

  /** The admin endpoint is a back door around the star's table: a completed request can be
      put back to pending by the admin, while the star's own endpoint refuses the move. */
  lemma AdminReopensCompletedRequest(
    orders: map<Id, VideoOrder>, celebrities: map<Id, Celebrity>, user: Id, id: Id, now: int)
    requires Dashboard.OwnsRequest(orders, celebrities, user, id) && orders[id].status == Completed
    ensures AdminOrderStatus(orders, id, "pending", now, true).0.Ok?
    ensures AdminOrderStatus(orders, id, "pending", now, true).1[id].status == Pending
    ensures Dashboard.RequestStatusUpdate(orders, celebrities, user, id, Pending, true).0 ==
      Err(InvalidTransition("completed", "pending"))
  {
    assert AdminStatus(Video, "pending") == Ok(Pending);
    assert !Transition(Video, Completed, Pending);
  }

  // ---------------------------------------------------------------- applications

  function ParseApplicationStatus(t: string): (r: Result<ApplicationStatus>)
    ensures r.Ok? <==> t == "approved" || t == "rejected"
    ensures r.Ok? ==> r.value != ApplicationPending
    ensures r.Ok? ==> (r.value == ApplicationApproved <==> t == "approved")
    ensures r.Err? ==> r.error == InvalidStatus
  {
    if t == "approved" then Ok(ApplicationApproved)
    else if t == "rejected" then Ok(ApplicationRejected)
    else Err(InvalidStatus)
  }

  /** `updateApplicationStatus`: only approved or rejected, stamped with `reviewed_at`. */
  function ApplicationReview(apps: map<Id, Application>, id: Id, requested: string, now: int, writeOk: bool)
    : (res: (Result<Application>, map<Id, Application>))
    ensures res.0 == Err(InvalidStatus) <==> requested != "approved" && requested != "rejected"
    ensures res.0 == Err(DbError) <==> (requested == "approved" || requested == "rejected") && !writeOk
    ensures res.0 == Err(NotFound) <==> (requested == "approved" || requested == "rejected") && writeOk && id !in apps
    ensures res.0.Ok? <==> (requested == "approved" || requested == "rejected") && writeOk && id in apps
    ensures res.0.Err? ==> res.1 == apps
    ensures res.0.Ok? ==>
      res.1 == apps[id := Application(ParseApplicationStatus(requested).value, Some(now))] &&
      res.0.value == res.1[id] && res.0.value.status != ApplicationPending && res.0.value.reviewedAt == Some(now)
  {
    match ParseApplicationStatus(requested)
    case Err(e) => (Err(e), apps)
    case Ok(s) =>
      if !writeOk then (Err(DbError), apps)
      else
        var written := if id in apps then apps[id := apps[id].(status := s, reviewedAt := Some(now))] else apps;
        (AdminRead(written, id), written)
  }

  method UpdateApplicationStatus(db: Db, id: Id, requested: string, now: int, writeOk: bool) returns (r: Result<Application>)
    modifies db`applications
    ensures (r, db.applications) == ApplicationReview(old(db.applications), id, requested, now, writeOk)
  {
    var parsed := ParseApplicationStatus(requested);
    if parsed.Err? {
      return Err(InvalidStatus);
    }
    if !writeOk {
      return Err(DbError);
    }
    if id in db.applications {
      db.applications := db.applications[id := db.applications[id].(status := parsed.value, reviewedAt := Some(now))];
    }
    r := AdminRead(db.applications, id);
  }

  // ---------------------------------------------------------------- users

  function RoleName(role: Role): string
  {
    match role
    case Fan => "fan"
    case Star => "star"
    case Admin => "admin"
  }

  function ParseRole(t: string): (r: Option<Role>)
    ensures forall role :: r == Some(role) <==> RoleName(role) == t
  {
    if t == "fan" then Some(Fan)
    else if t == "star" then Some(Star)
    else if t == "admin" then Some(Admin)
    else None
  }

  /** `updateUser`: INVALID_ROLE for a role outside fan/star/admin. Otherwise the update
      is read back with `.single()`, and NOT_FOUND answers every update that returns no
      row: a missing profile, a failed write, and the empty update an absent (or empty)
      role makes, which the database answers without a row. */
  function UserUpdate(profiles: map<Id, Profile>, id: Id, role: Option<string>, writeOk: bool)
    : (res: (Result<Profile>, map<Id, Profile>))
    ensures res.0 == Err(InvalidRole) <==> role.Some? && role.value != "" && ParseRole(role.value).None?
    ensures res.0 == Err(NotFound) <==>
      role.None? || role.value == "" || (ParseRole(role.value).Some? && (id !in profiles || !writeOk))
    ensures res.0.Ok? <==> role.Some? && ParseRole(role.value).Some? && id in profiles && writeOk
    ensures res.0.Err? ==> res.1 == profiles
    ensures res.0.Ok? ==>
      res.0.value == profiles[id].(role := ParseRole(role.value).value) &&
      RoleName(res.0.value.role) == role.value && res.1 == profiles[id := res.0.value]
  {
    if role.Some? && role.value != "" && ParseRole(role.value).None? then (Err(InvalidRole), profiles)
    else if role.None? || role.value == "" || id !in profiles || !writeOk then (Err(NotFound), profiles)
    else
      var p := profiles[id].(role := ParseRole(role.value).value);
      (Ok(p), profiles[id := p])
  }

  method UpdateUser(db: Db, id: Id, role: Option<string>, writeOk: bool) returns (r: Result<Profile>)
    modifies db`profiles
    ensures (r, db.profiles) == UserUpdate(old(db.profiles), id, role, writeOk)
  {
    if role.None? || role.value == "" {
      return Err(NotFound);
    }
    var requested := ParseRole(role.value);
    if requested.None? {
      return Err(InvalidRole);
    }
    if id !in db.profiles || !writeOk {
      return Err(NotFound);
    }
    db.profiles := db.profiles[id := db.profiles[id].(role := requested.value)];
    r := Ok(db.profiles[id]);
  }

  // ---------------------------------------------------------------- categories

  /** `createCategory`: VALIDATION_ERROR without a name or an icon, otherwise a category
      whose slug is the inline chain of lower-casing, transliteration, white space to '-'
      and stripping, with no stars yet. */
  function CategoryCreation(
    categories: map<Id, Category>, name: Option<string>, icon: Option<string>, newId: Id, insertOk: bool)
    : (res: (Result<Category>, map<Id, Category>))
    ensures res.0 == Err(ValidationError) <==> name.None? || name.value == "" || icon.None? || icon.value == ""
    ensures res.0 == Err(DbError) <==>
      name.Some? && name.value != "" && icon.Some? && icon.value != "" && (!insertOk || newId in categories)
    ensures res.0.Ok? <==>
      name.Some? && name.value != "" && icon.Some? && icon.value != "" && insertOk && newId !in categories
    ensures res.0.Err? ==> res.1 == categories
    ensures res.0.Ok? ==>
      res.0.value == Category(name.value, Slug.Normalize(name.value), icon.value, 0) &&
      res.1 == categories[newId := res.0.value] &&
      forall i :: 0 <= i < |res.0.value.slug| ==> Slug.IsSlugChar(res.0.value.slug[i])
  {
    if name.None? || name.value == "" || icon.None? || icon.value == "" then (Err(ValidationError), categories)
    else if !insertOk || newId in categories then (Err(DbError), categories)
    else
      var c := Category(name.value, Slug.Normalize(name.value), icon.value, 0);
      (Ok(c), categories[newId := c])
  }

  method CreateCategory(db: Db, name: Option<string>, icon: Option<string>, newId: Id, insertOk: bool)
    returns (r: Result<Category>)
    modifies db`categories
    ensures (r, db.categories) == CategoryCreation(old(db.categories), name, icon, newId, insertOk)
  {
    if name.None? || name.value == "" || icon.None? || icon.value == "" {
      return Err(ValidationError);
    }
    var slug := Slug.Normalize(name.value);
    if !insertOk || newId in db.categories {
      return Err(DbError);
    }
    var c := Category(name.value, slug, icon.value, 0);
    db.categories := db.categories[newId := c];
    r := Ok(c);
  }

  /** Unlike `generateSlug`, the category slug keeps the hyphens white space leaves at the
      ends and next to existing hyphens: " a - b " becomes "-a---b-" here and "a-b" there. */
  lemma CategorySlugDiffersFromGenerateSlug(categories: map<Id, Category>, newId: Id)
    requires newId !in categories
    ensures CategoryCreation(categories, Some(" a - b "), Some("i"), newId, true).0.value.slug == "-a---b-"
    ensures Slug.GenerateSlug(" a - b ") == "a-b"
  {
    Slug.CategorySlugKeepsHyphens();
  }

  /** `deleteCategoryById`: CATEGORY_HAS_CELEBRITIES with the number of stars in the
      category while there are any; otherwise the category is deleted. */
  function CategoryDeletion(categories: map<Id, Category>, celebrities: map<Id, Celebrity>, id: Id, deleteOk: bool)
    : (res: (Result<()>, map<Id, Category>))
    ensures res.0.Err? && res.0.error.CategoryHasCelebrities? <==>
      exists c :: c in celebrities && celebrities[c].categoryId == Some(id)
    ensures res.0.Err? && res.0.error.CategoryHasCelebrities? ==>
      res.0.error.count == CountWhere(celebrities, (c: Celebrity) => c.categoryId == Some(id)) > 0
    ensures res.0 == Err(DbError) <==>
      (forall c :: c in celebrities ==> celebrities[c].categoryId != Some(id)) && !deleteOk
    ensures res.0.Ok? <==> (forall c :: c in celebrities ==> celebrities[c].categoryId != Some(id)) && deleteOk
    ensures res.0.Err? ==> res.1 == categories
    ensures res.0.Ok? ==> res.1 == categories - {id}
  {
    var count := CountWhere(celebrities, (c: Celebrity) => c.categoryId == Some(id));
    if count > 0 then
      CountWhereWitness(celebrities, (c: Celebrity) => c.categoryId == Some(id));
      (Err(CategoryHasCelebrities(count)), categories)
    else
      CountWhereZero(celebrities, (c: Celebrity) => c.categoryId == Some(id));
      if !deleteOk then (Err(DbError), categories)
      else (Ok(()), categories - {id})
  }

  method DeleteCategoryById(db: Db, id: Id, deleteOk: bool) returns (r: Result<()>)
    modifies db`categories
    ensures (r, db.categories) == CategoryDeletion(old(db.categories), db.celebrities, id, deleteOk)
  {
    var count := CountWhere(db.celebrities, (c: Celebrity) => c.categoryId == Some(id));
    if count > 0 {
      return Err(CategoryHasCelebrities(count));
    }
    if !deleteOk {
      return Err(DbError);
    }
    db.categories := db.categories - {id};
    r := Ok(());
  }

  // ---------------------------------------------------------------- revenue

  /** The rows of the revenue query, in the order the database returns them: `rows` are the
      ids of the requests the query reads; its status and `created_at` filters are applied
      by `Revenue`. */
  function VideoSales(orders: map<Id, VideoOrder>, rows: seq<Id>): (sales: seq<Sale>)
    requires forall i :: 0 <= i < |rows| ==> rows[i] in orders
    ensures |sales| == |rows|
    ensures forall i :: 0 <= i < |rows| ==>
      sales[i] == Sale(orders[rows[i]].status, orders[rows[i]].price, orders[rows[i]].createdAt)
  {
    seq(|rows|, i requires 0 <= i < |rows| =>
      Sale(orders[rows[i]].status, orders[rows[i]].price, orders[rows[i]].createdAt))
  }

  /** `monthlyRevenue` of the admin statistics: the price summed over completed requests
      created since the start of the month. */
  function MonthlyRevenue(orders: map<Id, VideoOrder>, rows: seq<Id>, startOfMonth: int): int
    requires forall i :: 0 <= i < |rows| ==> rows[i] in orders
  {
    Revenue(VideoSales(orders, rows), {Completed}, Some(startOfMonth))
  }

  /** Only completed requests count: a request of this month that is still pending adds
      nothing, a completed one adds its price; and with non-negative prices the revenue is
      never negative. */
  lemma MonthlyRevenueCountsCompleted(orders: map<Id, VideoOrder>, rows: seq<Id>, id: Id, startOfMonth: int)
    requires forall i :: 0 <= i < |rows| ==> rows[i] in orders
    requires id in orders && startOfMonth <= orders[id].createdAt
    requires forall k :: k in orders ==> orders[k].price >= 0
    ensures MonthlyRevenue(orders, rows + [id], startOfMonth) ==
      MonthlyRevenue(orders, rows, startOfMonth) + (if orders[id].status == Completed then orders[id].price else 0)
    ensures MonthlyRevenue(orders, rows, startOfMonth) >= 0
  {
    var sales := VideoSales(orders, rows);
    var o := orders[id];
    assert VideoSales(orders, rows + [id]) == sales + [Sale(o.status, o.price, o.createdAt)];
    RevenueRow(sales, Sale(o.status, o.price, o.createdAt), {Completed}, Some(startOfMonth));
    RevenueMonotone(sales, {Completed}, {Completed}, Some(startOfMonth));
  }
}

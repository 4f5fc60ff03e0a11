/** The star dashboard for digital products: moving an order along the digital table
    (issuing a download token on completion), recording an uploaded file with its type
    taken from the file name, and the digital earnings. */
module DashboardDigital {
  import opened Common
  import opened Lifecycle
  import opened Store
  import opened Earnings

  // ---------------------------------------------------------------- order status

  ghost predicate OwnsDigitalOrder(orders: map<Id, DigitalOrder>, celebrities: map<Id, Celebrity>, user: Id, id: Id)
  {
    StarOf(celebrities, user).Some? && id in orders && orders[id].celebrityId == StarOf(celebrities, user).value
  }

  /** `updateDigitalOrderStatus` for the star; `token` is the UUID the handler draws. */
  ghost function DigitalStatusUpdate(
    orders: map<Id, DigitalOrder>, celebrities: map<Id, Celebrity>,
    user: Id, id: Id, to: Status, now: int, token: Id, writeOk: bool)
    : (res: (Result<(Id, Status)>, map<Id, DigitalOrder>))
    ensures res.0 == Err(NotFound) <==> !OwnsDigitalOrder(orders, celebrities, user, id)
    ensures res.0.Err? && res.0.error.InvalidTransition? <==>
      OwnsDigitalOrder(orders, celebrities, user, id) && !Transition(Digital, orders[id].status, to)
    ensures res.0 == Err(DbError) <==>
      OwnsDigitalOrder(orders, celebrities, user, id) && Transition(Digital, orders[id].status, to) && !writeOk
    ensures res.0.Ok? <==>
      OwnsDigitalOrder(orders, celebrities, user, id) && Transition(Digital, orders[id].status, to) && writeOk
    ensures res.0.Ok? ==> res.0.value == (id, to) && res.1 == orders[id := StampDigital(orders[id], to, now, token)]
    ensures res.0.Err? ==> res.1 == orders
  {
    match StarOf(celebrities, user)
    case None => (Err(NotFound), orders)
    case Some(star) =>
      if id !in orders || orders[id].celebrityId != star then (Err(NotFound), orders)
      else
        match CheckTransition(Digital, orders[id].status, to)
        case Err(e) => (Err(e), orders)
        case Ok(_) =>
          if !writeOk then (Err(DbError), orders)
          else (Ok((id, to)), orders[id := StampDigital(orders[id], to, now, token)])
  }

  method UpdateDigitalOrderStatus(
    db: Db, user: Id, id: Id, to: Status, now: int, token: Id, writeOk: bool)
    returns (r: Result<(Id, Status)>)
    modifies db`digitalOrders
    ensures (r, db.digitalOrders) ==
      DigitalStatusUpdate(old(db.digitalOrders), db.celebrities, user, id, to, now, token, writeOk)
  {
    var star := CelebrityForUser(db, user);
    if star.None? {
      return Err(NotFound);
    }
    if id !in db.digitalOrders || db.digitalOrders[id].celebrityId != star.value {
      return Err(NotFound);
    }
    var order := db.digitalOrders[id];
    var check := CheckTransition(Digital, order.status, to);
    if check.Err? {
      return Err(check.error);
    }
    var update := order.(status := to, updatedAt := now);
    if to == Confirmed {
      update := update.(confirmedAt := Some(now));
    }
    if to == Completed {
      update := update.(completedAt := Some(now), downloadToken := Some(token),
                        tokenExpiresAt := Some(now + TokenLifetimeMs));
    }
    assert update == StampDigital(order, to, now, token);
    if !writeOk {
      return Err(DbError);
    }
    db.digitalOrders := db.digitalOrders[id := update];
    r := Ok((id, to));
  }

  /** Only completion touches the token: it then holds the new token, valid until exactly
      seven days after `now`, with `completedAt` stamped; confirmation stamps
      `confirmedAt` and issues nothing. */
  lemma TokenOnlyOnCompletion(o: DigitalOrder, to: Status, now: int, token: Id)
    ensures var s := StampDigital(o, to, now, token);
      s.status == to && s.updatedAt == now &&
      (to == Completed ==> s.downloadToken == Some(token) && s.tokenExpiresAt == Some(now + 604800000) &&
                           s.completedAt == Some(now)) &&
      (to != Completed ==> s.downloadToken == o.downloadToken && s.tokenExpiresAt == o.tokenExpiresAt &&
                           s.completedAt == o.completedAt) &&
      (s.confirmedAt == if to == Confirmed then Some(now) else o.confirmedAt)
  {
  }

  /** No two digital orders share a download token. */
  ghost predicate UniqueTokens(orders: map<Id, DigitalOrder>)
  {
    forall a, b :: a in orders && b in orders && a != b && orders[a].downloadToken.Some? ==>
      orders[a].downloadToken != orders[b].downloadToken
  }

  /** A token can only open its own order: if tokens are unique before and the drawn token is
      fresh, they are unique after any status update. */
  lemma TokensStayUnique(
    orders: map<Id, DigitalOrder>, celebrities: map<Id, Celebrity>,
    user: Id, id: Id, to: Status, now: int, token: Id, writeOk: bool)
    requires UniqueTokens(orders)
    requires FreshToken(orders, token)
    ensures UniqueTokens(DigitalStatusUpdate(orders, celebrities, user, id, to, now, token, writeOk).1)
  {
    var after := DigitalStatusUpdate(orders, celebrities, user, id, to, now, token, writeOk).1;
    forall a, b | a in after && b in after && a != b && after[a].downloadToken.Some?
      ensures after[a].downloadToken != after[b].downloadToken
    {
      if after != orders {
        assert after == orders[id := StampDigital(orders[id], to, now, token)];
        if a == id && to == Completed {
          assert orders[b].downloadToken != Some(token);
        } else if b == id && to == Completed {
          assert after[a] == orders[a];
          assert orders[a].downloadToken != Some(token);
        }
      }
    }
  }

  // ---------------------------------------------------------------- file type

  /** What `name.split('.').pop()` yields: the text after the last '.', or the whole name
      when it has none. */
  function LastSegment(name: string): (r: string)
    ensures '.' !in r
    ensures |r| <= |name| && r == name[|name| - |r|..]
    ensures '.' !in name ==> r == name
    ensures '.' in name ==> |r| < |name| && name[|name| - |r| - 1] == '.'
    decreases |name|
  {
    if name == [] then []
    else if name[|name| - 1] == '.' then []
    else
      var r := LastSegment(name[..|name| - 1]);
      assert '.' in name ==> '.' in name[..|name| - 1] by {
        if '.' in name {
          var i :| 0 <= i < |name| && name[i] == '.';
          assert i < |name| - 1;
          assert name[..|name| - 1][i] == '.';
        }
      }
      r + [name[|name| - 1]]
  }

  /** The segment of a name built as base + '.' + extension is the extension. */
  lemma {:induction false} SegmentOfExtension(base: string, ext: string)
    requires '.' !in ext
    ensures LastSegment(base + "." + ext) == ext
    decreases |ext|
  {
    if ext == [] {
      assert (base + "." + ext)[|base + "." + ext| - 1] == '.';
    } else {
      var name := base + "." + ext;
      var prefix := ext[..|ext| - 1];
      assert name[..|name| - 1] == base + "." + prefix;
      assert name[|name| - 1] == ext[|ext| - 1];
      SegmentOfExtension(base, prefix);
      assert prefix + [ext[|ext| - 1]] == ext;
    }
  }

  /** The stored extension: the last segment, or `bin` when that is empty. */
  function Extension(name: string): (ext: string)
    ensures ext != ""
    ensures ext == "bin" <==> LastSegment(name) == "" || LastSegment(name) == "bin"
    ensures LastSegment(name) != "" ==> ext == LastSegment(name)
  {
    var seg := LastSegment(name);
    if seg == "" then "bin" else seg
  }

  /** The lower-case letters `toUpperCase` maps here: a-z and the five Serbian letters. */
  predicate IsLowerLetter(c: char)
  {
    ('a' <= c <= 'z') || c == 'č' || c == 'ć' || c == 'š' || c == 'ž' || c == 'đ'
  }

  /** `toUpperCase` of one character: a-z to A-Z, č ć š ž đ to Č Ć Š Ž Đ, everything else
      kept. */
  function UpperChar(c: char): (u: char)
    ensures !IsLowerLetter(u)
    ensures 'a' <= c <= 'z' ==> 'A' <= u <= 'Z' && u as int == c as int - 32
    ensures !IsLowerLetter(c) ==> u == c
  {
    if 'a' <= c <= 'z' then (c as int - 32) as char
    else if c == 'č' then 'Č'
    else if c == 'ć' then 'Ć'
    else if c == 'š' then 'Š'
    else if c == 'ž' then 'Ž'
    else if c == 'đ' then 'Đ'
    else c
  }

  /** `toUpperCase` character by character. */
  function Upper(s: string): (u: string)
    ensures |u| == |s|
    ensures forall i :: 0 <= i < |s| ==> u[i] == UpperChar(s[i])
  {
    if s == [] then [] else [UpperChar(s[0])] + Upper(s[1..])
  }

  /** The `file_type` recorded for an uploaded file. */
  function FileType(name: string): string
  {
    Upper(Extension(name))
  }

  /** The recorded file type is the stored extension with every lower-case letter made
      upper-case, so it is never empty and holds no lower-case letter. */
  lemma FileTypeUpperCases(name: string)
    ensures |FileType(name)| == |Extension(name)| > 0
    ensures forall i :: 0 <= i < |FileType(name)| ==>
      FileType(name)[i] == UpperChar(Extension(name)[i]) && !IsLowerLetter(FileType(name)[i])
  {
  }

  /** What the file type is, read from the name: the upper-cased extension after the last
      dot; `BIN` for a name ending in a dot or an empty name; the whole name upper-cased
      when it has no dot at all. */
  lemma FileTypeExamples(base: string, ext: string)
    requires '.' !in ext && ext != ""
    ensures FileType(base + "." + ext) == Upper(ext)
    ensures FileType(base + ".") == "BIN"
    ensures FileType("") == "BIN"
    ensures '.' !in base && base != "" ==> FileType(base) == Upper(base)
  {
    SegmentOfExtension(base, ext);
    SegmentOfExtension(base, "");
    assert base + "." + "" == base + ".";
  }

  /** The uploaded file as the request carries it. */
  datatype Upload = Upload(originalName: string, size: int)

  /** `uploadDigitalFile`: NOT_FOUND without a star profile or for a product of another
      star; NO_FILE without a file; UPLOAD_ERROR when storage refuses it; DB_ERROR when the
      row update fails; otherwise the product records the new path, name, size and type.
      `path` is the storage path the handler builds. */
  ghost function FileUpload(
    products: map<Id, DigitalProduct>, celebrities: map<Id, Celebrity>, user: Id, product: Id,
    file: Option<Upload>, path: string, uploadOk: bool, writeOk: bool)
    : (res: (Result<(string, int, string)>, map<Id, DigitalProduct>))
    ensures res.0 == Err(NotFound) <==>
      StarOf(celebrities, user).None? || product !in products ||
      products[product].celebrityId != StarOf(celebrities, user).value
    ensures res.0 == Err(NoFile) <==> res.0 != Err(NotFound) && file.None?
    ensures res.0 == Err(UploadError) <==> res.0 != Err(NotFound) && file.Some? && !uploadOk
    ensures res.0 == Err(DbError) <==> res.0 != Err(NotFound) && file.Some? && uploadOk && !writeOk
    ensures res.0.Ok? <==>
      StarOf(celebrities, user).Some? && product in products &&
      products[product].celebrityId == StarOf(celebrities, user).value && file.Some? && uploadOk && writeOk
    ensures res.0.Err? ==> res.1 == products
    ensures res.0.Ok? ==>
      res.0.value == (file.value.originalName, file.value.size, FileType(file.value.originalName)) &&
      res.1 == products[product := products[product].(filePath := path, fileName := file.value.originalName,
                                                      fileSize := file.value.size,
                                                      fileType := FileType(file.value.originalName))]
  {
    match StarOf(celebrities, user)
    case None => (Err(NotFound), products)
    case Some(star) =>
      if product !in products || products[product].celebrityId != star then (Err(NotFound), products)
      else if file.None? then (Err(NoFile), products)
      else if !uploadOk then (Err(UploadError), products)
      else if !writeOk then (Err(DbError), products)
      else
        var f := file.value;
        var t := FileType(f.originalName);
        (Ok((f.originalName, f.size, t)),
         products[product := products[product].(filePath := path, fileName := f.originalName,
                                                fileSize := f.size, fileType := t)])
  }

  method UploadDigitalFile(
    db: Db, user: Id, product: Id, file: Option<Upload>, path: string, uploadOk: bool, writeOk: bool)
    returns (r: Result<(string, int, string)>)
    modifies db`digitalProducts
    ensures (r, db.digitalProducts) ==
      FileUpload(old(db.digitalProducts), db.celebrities, user, product, file, path, uploadOk, writeOk)
  {
    var star := CelebrityForUser(db, user);
    if star.None? {
      return Err(NotFound);
    }
    if product !in db.digitalProducts || db.digitalProducts[product].celebrityId != star.value {
      return Err(NotFound);
    }
    if file.None? {
      return Err(NoFile);
    }
    var f := file.value;
    if !uploadOk {
      return Err(UploadError);
    }
    var fileType := FileType(f.originalName);
    if !writeOk {
      return Err(DbError);
    }
    var p := db.digitalProducts[product];
    db.digitalProducts := db.digitalProducts[product := p.(filePath := path, fileName := f.originalName,
                                                           fileSize := f.size, fileType := fileType)];
    r := Ok((f.originalName, f.size, fileType));
  }

  // ---------------------------------------------------------------- earnings

  /** The statuses digital earnings count. */
  const EarningStatuses: set<Status> := {Confirmed, Completed}

  /** The counted orders of `star` whose product still exists (the query's inner join). */
  function EarningOrders(orders: map<Id, DigitalOrder>, products: map<Id, DigitalProduct>, star: Id): set<Id>
  {
    set k | k in orders && orders[k].celebrityId == star && orders[k].status in EarningStatuses &&
            orders[k].productId in products
  }

  function PendingOrders(orders: map<Id, DigitalOrder>, star: Id): set<Id>
  {
    set k | k in orders && orders[k].celebrityId == star && orders[k].status == Pending
  }

  /** The rows the loop walks: amount is the order price, the group is the product name. */
  function DigitalLines(
    orders: map<Id, DigitalOrder>, products: map<Id, DigitalProduct>, rows: seq<Id>,
    dayOf: int -> Option<Weekday>, monthOf: int -> Option<Month>): (lines: seq<Line>)
    requires forall i :: 0 <= i < |rows| ==> rows[i] in orders && orders[rows[i]].productId in products
    ensures |lines| == |rows|
    ensures forall i :: 0 <= i < |rows| ==>
      lines[i].amount == orders[rows[i]].price && lines[i].group == products[orders[rows[i]].productId].name
  {
    seq(|rows|, i requires 0 <= i < |rows| =>
      var o := orders[rows[i]];
      Line(o.price, products[o.productId].name, dayOf(o.createdAt), monthOf(o.createdAt)))
  }

  /** `getDigitalEarnings`; `rows` is the order in which the database returns the counted
      orders. */
  method GetDigitalEarnings(db: Db, user: Id, rows: seq<Id>, dayOf: int -> Option<Weekday>, monthOf: int -> Option<Month>)
    returns (r: Result<Summary>)
    requires StarOf(db.celebrities, user).Some? ==>
      Enumerates(rows, EarningOrders(db.digitalOrders, db.digitalProducts, StarOf(db.celebrities, user).value))
    ensures StarOf(db.celebrities, user).None? ==> r == Err(NotFound)
    ensures StarOf(db.celebrities, user).Some? ==>
      var star := StarOf(db.celebrities, user).value;
      r == Ok(SummaryOf(DigitalLines(db.digitalOrders, db.digitalProducts, rows, dayOf, monthOf),
                        |PendingOrders(db.digitalOrders, star)|))
  {
    var star := CelebrityForUser(db, user);
    if star.None? {
      return Err(NotFound);
    }
    var lines := DigitalLines(db.digitalOrders, db.digitalProducts, rows, dayOf, monthOf);
    var s := Summarize(lines, |PendingOrders(db.digitalOrders, star.value)|);
    r := Ok(s);
  }
}

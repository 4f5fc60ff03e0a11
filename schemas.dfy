/* The request schemas. Each `zod` object schema becomes a parser from the body as it
   arrives to the typed input the handler reads, failing with VALIDATION_ERROR. JSON numbers
   arrive as `real`, so `.int()` is a real check. An absent optional field is `None`, and
   `.default(v)` puts `v` in its place. */

/** src/schemas/merch-order.schema.ts */
module MerchOrderSchema {
  import opened Common
  import opened Lifecycle

  const MinQuantity: int := 1
  const MaxQuantity: int := 10

  /** `productVariantId` is `None` when the field is absent or null. */
  datatype CreateMerchOrderBody = CreateMerchOrderBody(
    productId: Id, productVariantId: Option<Id>, quantity: real,
    buyerName: string, buyerEmail: string, buyerPhone: Option<string>,
    shippingName: string, shippingAddress: string, shippingCity: string, shippingPostal: string,
    shippingNote: Option<string>)

  datatype CreateMerchOrderInput = CreateMerchOrderInput(
    productId: Id, productVariantId: Option<Id>, quantity: int,
    buyerName: string, buyerEmail: string, buyerPhone: string,
    shippingName: string, shippingAddress: string, shippingCity: string, shippingPostal: string,
    shippingNote: string)

  predicate ValidQuantity(q: real)
  {
    IsInt(q) && MinQuantity as real <= q <= MaxQuantity as real
  }

  predicate ShippingFilled(b: CreateMerchOrderBody)
  {
    b.shippingName != "" && b.shippingAddress != "" && b.shippingCity != "" && b.shippingPostal != ""
  }

  function ParseCreateMerchOrder(b: CreateMerchOrderBody): (r: Result<CreateMerchOrderInput>)
    ensures r.Ok? <==> ValidQuantity(b.quantity) && b.buyerName != "" && ShippingFilled(b)
    ensures r.Err? ==> r.error == ValidationError
    ensures r.Ok? ==> MinQuantity <= r.value.quantity <= MaxQuantity && r.value.quantity as real == b.quantity
    ensures r.Ok? ==> r.value.productId == b.productId && r.value.productVariantId == b.productVariantId
    ensures r.Ok? ==> r.value.buyerName == b.buyerName && r.value.buyerEmail == b.buyerEmail
    ensures r.Ok? ==> r.value.shippingName == b.shippingName && r.value.shippingAddress == b.shippingAddress &&
                      r.value.shippingCity == b.shippingCity && r.value.shippingPostal == b.shippingPostal
    ensures r.Ok? ==> r.value.buyerPhone == b.buyerPhone.GetOr("") && r.value.shippingNote == b.shippingNote.GetOr("")
    ensures r.Ok? ==> r.value.buyerName != "" && r.value.shippingName != "" && r.value.shippingAddress != "" &&
                      r.value.shippingCity != "" && r.value.shippingPostal != ""
  {
    if !IsInt(b.quantity) || b.quantity < MinQuantity as real || b.quantity > MaxQuantity as real then
      Err(ValidationError)
    else if b.buyerName == "" || b.shippingName == "" || b.shippingAddress == "" ||
            b.shippingCity == "" || b.shippingPostal == "" then
      Err(ValidationError)
    else
      Ok(CreateMerchOrderInput(
        b.productId, b.productVariantId, b.quantity.Floor,
        b.buyerName, b.buyerEmail, b.buyerPhone.GetOr(""),
        b.shippingName, b.shippingAddress, b.shippingCity, b.shippingPostal,
        b.shippingNote.GetOr("")))
  }

  datatype MerchStatusBody = MerchStatusBody(status: string, trackingNumber: Option<string>)
  datatype MerchStatusInput = MerchStatusInput(status: Status, trackingNumber: Option<string>)

  const StarMerchTargets: set<Status> := {Confirmed, Shipped, Delivered, Cancelled}

  function ParseMerchStatus(b: MerchStatusBody): (r: Result<MerchStatusInput>)
    ensures r.Ok? <==> exists s :: s in StarMerchTargets && StatusName(s) == b.status
    ensures r.Ok? ==> r.value.status in StarMerchTargets && StatusName(r.value.status) == b.status
    ensures r.Ok? ==> r.value.trackingNumber == b.trackingNumber
    ensures r.Err? ==> r.error == ValidationError
  {
    match ParseStatus(b.status)
    case Some(s) => if s in StarMerchTargets then Ok(MerchStatusInput(s, b.trackingNumber)) else Err(ValidationError)
    case None => Err(ValidationError)
  }

  /** The enum is exactly the set of statuses the star merch table can move to: pending is
      never a target. */
  lemma MerchTargetsAreTableTargets(s: Status)
    ensures s in StarMerchTargets <==> exists from :: Transition(Merch, from, s)
  {
    if s == Confirmed || s == Cancelled { assert Transition(Merch, Pending, s); }
    if s == Shipped { assert Transition(Merch, Confirmed, s); }
    if s == Delivered { assert Transition(Merch, Shipped, s); }
  }
}

/** src/schemas/dashboard.schema.ts */
module DashboardSchema {
  import opened Common
  import opened Lifecycle

  const StarRequestTargets: set<Status> := {Approved, Completed, Rejected}

  function ParseRequestStatus(t: string): (r: Result<Status>)
    ensures r.Ok? <==> exists s :: s in StarRequestTargets && StatusName(s) == t
    ensures r.Ok? ==> r.value in StarRequestTargets && StatusName(r.value) == t
    ensures r.Err? ==> r.error == ValidationError
  {
    match ParseStatus(t)
    case Some(s) => if s in StarRequestTargets then Ok(s) else Err(ValidationError)
    case None => Err(ValidationError)
  }

  /** The enum is exactly the set of statuses the star video table can move to. */
  lemma RequestTargetsAreTableTargets(s: Status)
    ensures s in StarRequestTargets <==> exists from :: Transition(Video, from, s)
  {
    if s == Approved || s == Rejected { assert Transition(Video, Pending, s); }
    if s == Completed { assert Transition(Video, Approved, s); }
  }

  const MinStarPrice: int := 500

  datatype ProfileBody = ProfileBody(
    name: Option<string>, bio: Option<string>, extendedBio: Option<string>,
    price: Option<real>, responseTime: Option<real>, tags: Option<seq<string>>,
    acceptingRequests: Option<bool>)

  datatype ProfileInput = ProfileInput(
    name: Option<string>, bio: Option<string>, extendedBio: Option<string>,
    price: Option<int>, responseTime: Option<int>, tags: Option<seq<string>>,
    acceptingRequests: Option<bool>)

  /** An optional integer field with a lower bound. */
  function OptionalIntAtLeast(x: Option<real>, min: int): (r: Result<Option<int>>)
    ensures r.Ok? <==> x.None? || (IsInt(x.value) && x.value >= min as real)
    ensures r.Ok? ==> (r.value.Some? <==> x.Some?)
    ensures r.Ok? && r.value.Some? ==> r.value.value >= min && r.value.value as real == x.value
    ensures r.Err? ==> r.error == ValidationError
  {
    match x
    case None => Ok(None)
    case Some(v) => if IsInt(v) && v >= min as real then Ok(Some(v.Floor)) else Err(ValidationError)
  }

  function ParseProfile(b: ProfileBody): (r: Result<ProfileInput>)
    ensures r.Ok? <==>
      (b.name.Some? ==> b.name.value != "") &&
      (b.price.Some? ==> IsInt(b.price.value) && b.price.value >= MinStarPrice as real) &&
      (b.responseTime.Some? ==> IsInt(b.responseTime.value) && b.responseTime.value >= 1.0)
    ensures r.Ok? && r.value.price.Some? ==> r.value.price.value >= MinStarPrice
    ensures r.Ok? && r.value.responseTime.Some? ==> r.value.responseTime.value >= 1
    ensures r.Ok? ==> r.value.price.Some? == b.price.Some? && r.value.responseTime.Some? == b.responseTime.Some?
    ensures r.Ok? && r.value.price.Some? ==> r.value.price.value as real == b.price.value
    ensures r.Ok? && r.value.responseTime.Some? ==> r.value.responseTime.value as real == b.responseTime.value
    ensures r.Ok? ==> r.value.name == b.name && r.value.bio == b.bio && r.value.extendedBio == b.extendedBio &&
                      r.value.tags == b.tags && r.value.acceptingRequests == b.acceptingRequests
    ensures r.Err? ==> r.error == ValidationError
  {
    if b.name.Some? && b.name.value == "" then Err(ValidationError)
    else
      match (OptionalIntAtLeast(b.price, MinStarPrice), OptionalIntAtLeast(b.responseTime, 1))
      case (Ok(price), Ok(responseTime)) =>
        Ok(ProfileInput(b.name, b.bio, b.extendedBio, price, responseTime, b.tags, b.acceptingRequests))
      case _ => Err(ValidationError)
  }

  const MaxRequestsPerDay: int := 20

  datatype SlotBody = SlotBody(dayOfWeek: real, available: bool, maxRequests: real)
  datatype SlotInput = SlotInput(dayOfWeek: int, available: bool, maxRequests: int)

  predicate ValidSlot(b: SlotBody)
  {
    IsInt(b.dayOfWeek) && 0.0 <= b.dayOfWeek <= 6.0 &&
    IsInt(b.maxRequests) && 0.0 <= b.maxRequests <= MaxRequestsPerDay as real
  }

  predicate SlotInRange(s: SlotInput)
  {
    0 <= s.dayOfWeek <= 6 && 0 <= s.maxRequests <= MaxRequestsPerDay
  }

  /** The availability body: an array of slots, every one of which must be valid. */
  function ParseSlots(bs: seq<SlotBody>): (r: Result<seq<SlotInput>>)
    ensures r.Ok? <==> forall i :: 0 <= i < |bs| ==> ValidSlot(bs[i])
    ensures r.Ok? ==> |r.value| == |bs|
    ensures r.Ok? ==> forall i :: 0 <= i < |bs| ==>
      SlotInRange(r.value[i]) && r.value[i].available == bs[i].available &&
      r.value[i].dayOfWeek as real == bs[i].dayOfWeek && r.value[i].maxRequests as real == bs[i].maxRequests
    ensures r.Err? ==> r.error == ValidationError
    decreases |bs|
  {
    if bs == [] then Ok([])
    else
      var b := bs[0];
      if !ValidSlot(b) then Err(ValidationError)
      else
        match ParseSlots(bs[1..])
        case Ok(rest) =>
          assert forall i :: 0 <= i < |bs| - 1 ==> bs[1..][i] == bs[i + 1];
          Ok([SlotInput(b.dayOfWeek.Floor, b.available, b.maxRequests.Floor)] + rest)
        case Err(e) =>
          assert !ValidSlot(bs[1..][0]) || exists i :: 0 <= i < |bs| - 1 && !ValidSlot(bs[1..][i]);
          Err(e)
  }
}

/** src/schemas/digital-order.schema.ts */
module DigitalOrderSchema {
  import opened Common
  import opened Lifecycle

  datatype CreateDigitalOrderBody = CreateDigitalOrderBody(
    digitalProductId: Id, buyerName: string, buyerEmail: string, buyerPhone: Option<string>)

  datatype CreateDigitalOrderInput = CreateDigitalOrderInput(
    digitalProductId: Id, buyerName: string, buyerEmail: string, buyerPhone: string)

  function ParseCreateDigitalOrder(b: CreateDigitalOrderBody): (r: Result<CreateDigitalOrderInput>)
    ensures r.Ok? <==> b.buyerName != ""
    ensures r.Ok? ==> r.value.buyerPhone == b.buyerPhone.GetOr("") && r.value.buyerName == b.buyerName
    ensures r.Ok? ==> r.value.digitalProductId == b.digitalProductId
    ensures r.Err? ==> r.error == ValidationError
  {
    if b.buyerName == "" then Err(ValidationError)
    else Ok(CreateDigitalOrderInput(b.digitalProductId, b.buyerName, b.buyerEmail, b.buyerPhone.GetOr("")))
  }

  const StarDigitalTargets: set<Status> := {Confirmed, Completed, Cancelled}

  function ParseDigitalStatus(t: string): (r: Result<Status>)
    ensures r.Ok? <==> exists s :: s in StarDigitalTargets && StatusName(s) == t
    ensures r.Ok? ==> r.value in StarDigitalTargets && StatusName(r.value) == t
    ensures r.Err? ==> r.error == ValidationError
  {
    match ParseStatus(t)
    case Some(s) => if s in StarDigitalTargets then Ok(s) else Err(ValidationError)
    case None => Err(ValidationError)
  }

  /** The enum is exactly the set of statuses the star digital table can move to. */
  lemma DigitalTargetsAreTableTargets(s: Status)
    ensures s in StarDigitalTargets <==> exists from :: Transition(Digital, from, s)
  {
    if s == Confirmed { assert Transition(Digital, Pending, s); }
    if s == Completed || s == Cancelled { assert Transition(Digital, Confirmed, s); }
  }
}

/** src/schemas/product.schema.ts */
module ProductSchema {
  import opened Common

  const MinPrice: int := 100
  const MaxNameLength: int := 200

  predicate ValidName(n: string)
  {
    1 <= |n| <= MaxNameLength
  }

  predicate ValidPrice(p: real)
  {
    IsInt(p) && p >= MinPrice as real
  }

  predicate ValidStock(s: real)
  {
    IsInt(s) && s >= 0.0
  }

  /** A price that has passed the schema, as an integer of at least the minimum. */
  function PriceOf(p: real): (r: int)
    requires ValidPrice(p)
    ensures r >= MinPrice && r as real == p
  {
    p.Floor
  }

  datatype VariantBody = VariantBody(name: string, priceOverride: Option<real>, stock: real, sortOrder: Option<real>)
  datatype VariantInput = VariantInput(name: string, priceOverride: Option<int>, stock: int, sortOrder: int)

  predicate ValidVariant(b: VariantBody)
  {
    b.name != "" && (b.priceOverride.Some? ==> ValidPrice(b.priceOverride.value)) &&
    ValidStock(b.stock) && (b.sortOrder.Some? ==> IsInt(b.sortOrder.value))
  }

  /** `createVariantSchema`, also the item schema of `variants` in `createProductSchema`. */
  function ParseVariant(b: VariantBody): (r: Result<VariantInput>)
    ensures r.Ok? <==> ValidVariant(b)
    ensures r.Ok? ==> r.value.stock >= 0 && r.value.stock as real == b.stock
    ensures r.Ok? ==> (r.value.priceOverride.Some? <==> b.priceOverride.Some?)
    ensures r.Ok? && r.value.priceOverride.Some? ==>
      r.value.priceOverride.value >= MinPrice && r.value.priceOverride.value as real == b.priceOverride.value
    ensures r.Ok? ==> r.value.name == b.name
    ensures r.Ok? ==> r.value.sortOrder == if b.sortOrder.None? then 0 else b.sortOrder.value.Floor
    ensures r.Err? ==> r.error == ValidationError
  {
    if b.name == "" || !ValidStock(b.stock) then Err(ValidationError)
    else if b.priceOverride.Some? && !ValidPrice(b.priceOverride.value) then Err(ValidationError)
    else if b.sortOrder.Some? && !IsInt(b.sortOrder.value) then Err(ValidationError)
    else
      var priceOverride := if b.priceOverride.Some? then Some(PriceOf(b.priceOverride.value)) else None;
      var sortOrder := if b.sortOrder.Some? then b.sortOrder.value.Floor else 0;
      Ok(VariantInput(b.name, priceOverride, b.stock.Floor, sortOrder))
  }

  function ParseVariants(bs: seq<VariantBody>): (r: Result<seq<VariantInput>>)
    ensures r.Ok? <==> forall i :: 0 <= i < |bs| ==> ValidVariant(bs[i])
    ensures r.Ok? ==> |r.value| == |bs| && forall i :: 0 <= i < |bs| ==> ParseVariant(bs[i]) == Ok(r.value[i])
    ensures r.Err? ==> r.error == ValidationError
    decreases |bs|
  {
    if bs == [] then Ok([])
    else
      match (ParseVariant(bs[0]), ParseVariants(bs[1..]))
      case (Ok(v), Ok(rest)) =>
        assert forall i :: 0 <= i < |bs| - 1 ==> bs[1..][i] == bs[i + 1];
        Ok([v] + rest)
      case (Err(_), _) => Err(ValidationError)
      case (_, Err(_)) =>
        assert exists i :: 0 <= i < |bs| - 1 && !ValidVariant(bs[1..][i]);
        Err(ValidationError)
  }

  datatype ProductBody = ProductBody(
    name: string, description: Option<string>, price: real,
    productCategoryId: Option<Id>, variants: Option<seq<VariantBody>>)

  datatype ProductInput = ProductInput(
    name: string, description: string, price: int,
    productCategoryId: Option<Id>, variants: Option<seq<VariantInput>>)

  function ParseProduct(b: ProductBody): (r: Result<ProductInput>)
    ensures r.Ok? <==>
      ValidName(b.name) && ValidPrice(b.price) &&
      (b.variants.Some? ==> forall i :: 0 <= i < |b.variants.value| ==> ValidVariant(b.variants.value[i]))
    ensures r.Ok? ==> r.value.price >= MinPrice && r.value.description == b.description.GetOr("")
    ensures r.Ok? ==> 1 <= |r.value.name| <= MaxNameLength
    ensures r.Ok? ==> r.value.name == b.name && r.value.price as real == b.price &&
                      r.value.productCategoryId == b.productCategoryId
    ensures r.Ok? ==> (r.value.variants.Some? <==> b.variants.Some?)
    ensures r.Ok? && b.variants.Some? ==> ParseVariants(b.variants.value) == Ok(r.value.variants.value)
    ensures r.Err? ==> r.error == ValidationError
  {
    if !ValidName(b.name) || !ValidPrice(b.price) then Err(ValidationError)
    else
      var variants := if b.variants.Some? then ParseVariants(b.variants.value) else Ok([]);
      if variants.Err? then Err(ValidationError)
      else
        Ok(ProductInput(b.name, b.description.GetOr(""), PriceOf(b.price), b.productCategoryId,
                        if b.variants.Some? then Some(variants.value) else None))
  }

  datatype ProductUpdateBody = ProductUpdateBody(
    name: Option<string>, description: Option<string>, price: Option<real>,
    productCategoryId: Option<Option<Id>>, isActive: Option<bool>, featured: Option<bool>)

  /** `updateProductSchema`: every field optional, the given ones bounded like on create. */
  function ParseProductUpdate(b: ProductUpdateBody): (r: Result<ProductUpdateBody>)
    ensures r.Ok? <==> (b.name.Some? ==> ValidName(b.name.value)) && (b.price.Some? ==> ValidPrice(b.price.value))
    ensures r.Ok? ==> r.value == b
    ensures r.Err? ==> r.error == ValidationError
  {
    if b.name.Some? && !ValidName(b.name.value) then Err(ValidationError)
    else if b.price.Some? && !ValidPrice(b.price.value) then Err(ValidationError)
    else Ok(b)
  }

  /** `priceOverride` is `None` when absent and `Some(None)` when sent as null, which
      clears the override. */
  datatype VariantUpdateBody = VariantUpdateBody(
    name: Option<string>, priceOverride: Option<Option<real>>, stock: Option<real>, sortOrder: Option<real>)

  function ParseVariantUpdate(b: VariantUpdateBody): (r: Result<VariantUpdateBody>)
    ensures r.Ok? <==>
      (b.name.Some? ==> b.name.value != "") &&
      (b.priceOverride.Some? && b.priceOverride.value.Some? ==> ValidPrice(b.priceOverride.value.value)) &&
      (b.stock.Some? ==> ValidStock(b.stock.value)) &&
      (b.sortOrder.Some? ==> IsInt(b.sortOrder.value))
    ensures r.Ok? ==> r.value == b
    ensures r.Err? ==> r.error == ValidationError
  {
    if b.name.Some? && b.name.value == "" then Err(ValidationError)
    else if b.priceOverride.Some? && b.priceOverride.value.Some? && !ValidPrice(b.priceOverride.value.value) then
      Err(ValidationError)
    else if b.stock.Some? && !ValidStock(b.stock.value) then Err(ValidationError)
    else if b.sortOrder.Some? && !IsInt(b.sortOrder.value) then Err(ValidationError)
    else Ok(b)
  }

  /** Every field of both update schemas may be left out. */
  lemma EmptyUpdatesAccepted()
    ensures ParseProductUpdate(ProductUpdateBody(None, None, None, None, None, None)).Ok?
    ensures ParseVariantUpdate(VariantUpdateBody(None, None, None, None)).Ok?
  {
  }

  /** No variant that passed either variant schema carries negative stock, so every stock
      counter starts non-negative. */
  lemma VariantStockNonNegative(b: VariantBody, u: VariantUpdateBody)
    ensures ParseVariant(b).Ok? ==> ParseVariant(b).value.stock >= 0
    ensures ParseVariantUpdate(u).Ok? && u.stock.Some? ==> u.stock.value.Floor >= 0
  {
  }
}

/** src/schemas/digital-product.schema.ts */
module DigitalProductSchema {
  import opened Common
  import opened ProductSchema

  datatype DigitalProductBody = DigitalProductBody(
    name: string, description: Option<string>, price: real, digitalProductCategoryId: Option<Id>)

  datatype DigitalProductInput = DigitalProductInput(
    name: string, description: string, price: int, digitalProductCategoryId: Option<Id>)

  function ParseDigitalProduct(b: DigitalProductBody): (r: Result<DigitalProductInput>)
    ensures r.Ok? <==> ValidName(b.name) && ValidPrice(b.price)
    ensures r.Ok? ==> 1 <= |r.value.name| <= MaxNameLength && r.value.price >= MinPrice
    ensures r.Ok? ==> r.value.description == b.description.GetOr("") && r.value.price as real == b.price
    ensures r.Ok? ==> r.value.name == b.name && r.value.digitalProductCategoryId == b.digitalProductCategoryId
    ensures r.Err? ==> r.error == ValidationError
  {
    if !ValidName(b.name) || !ValidPrice(b.price) then Err(ValidationError)
    else Ok(DigitalProductInput(b.name, b.description.GetOr(""), PriceOf(b.price), b.digitalProductCategoryId))
  }

  datatype DigitalProductUpdateBody = DigitalProductUpdateBody(
    name: Option<string>, description: Option<string>, price: Option<real>,
    digitalProductCategoryId: Option<Option<Id>>, isActive: Option<bool>, featured: Option<bool>)

  function ParseDigitalProductUpdate(b: DigitalProductUpdateBody): (r: Result<DigitalProductUpdateBody>)
    ensures r.Ok? <==> (b.name.Some? ==> ValidName(b.name.value)) && (b.price.Some? ==> ValidPrice(b.price.value))
    ensures r.Ok? ==> r.value == b
    ensures r.Err? ==> r.error == ValidationError
  {
    if b.name.Some? && !ValidName(b.name.value) then Err(ValidationError)
    else if b.price.Some? && !ValidPrice(b.price.value) then Err(ValidationError)
    else Ok(b)
  }

  /** The digital and the merch product schemas bound name and price alike. */
  lemma SameBoundsAsProducts(name: string, price: real)
    ensures ParseDigitalProduct(DigitalProductBody(name, None, price, None)).Ok? <==>
            ParseProduct(ProductBody(name, None, price, None, None)).Ok?
  {
  }
}

/** src/schemas/review.schema.ts */
module ReviewSchema {
  import opened Common

  datatype ReviewType = VideoReview | MerchReview | DigitalReview

  datatype ReviewBody = ReviewBody(orderId: Id, rating: real, text: string, reviewType: Option<string>)
  datatype ReviewInput = ReviewInput(orderId: Id, rating: int, text: string, reviewType: ReviewType)

  function ReviewTypeName(t: ReviewType): string
  {
    match t
    case VideoReview => "video"
    case MerchReview => "merch"
    case DigitalReview => "digital"
  }

  function ParseReviewType(t: Option<string>): (r: Option<ReviewType>)
    ensures t.None? ==> r == Some(VideoReview)
    ensures t.Some? ==> (r.Some? <==> t.value in {"video", "merch", "digital"})
    ensures t.Some? ==> forall rt :: r == Some(rt) <==> ReviewTypeName(rt) == t.value
  {
    match t
    case None => Some(VideoReview)
    case Some(s) =>
      if s == "video" then Some(VideoReview)
      else if s == "merch" then Some(MerchReview)
      else if s == "digital" then Some(DigitalReview)
      else None
  }

  function ParseReview(b: ReviewBody): (r: Result<ReviewInput>)
    ensures r.Ok? <==> IsInt(b.rating) && 1.0 <= b.rating <= 5.0 && b.text != "" && ParseReviewType(b.reviewType).Some?
    ensures r.Ok? ==> 1 <= r.value.rating <= 5 && r.value.rating as real == b.rating && r.value.text != ""
    ensures r.Ok? ==> r.value.orderId == b.orderId && r.value.text == b.text
    ensures r.Ok? && b.reviewType.None? ==> r.value.reviewType == VideoReview
    ensures r.Ok? && b.reviewType.Some? ==> ReviewTypeName(r.value.reviewType) == b.reviewType.value
    ensures r.Err? ==> r.error == ValidationError
  {
    if !IsInt(b.rating) || b.rating < 1.0 || b.rating > 5.0 || b.text == "" then Err(ValidationError)
    else
      match ParseReviewType(b.reviewType)
      case Some(t) => Ok(ReviewInput(b.orderId, b.rating.Floor, b.text, t))
      case None => Err(ValidationError)
  }
}

/** src/schemas/auth.schema.ts */
module AuthSchema {
  import opened Common
  import opened Store

  const MinPasswordLength: int := 8

  /** Some character of `s` lies in `[lo, hi]` (a one-class regular expression test). */
  function Contains(s: string, lo: char, hi: char): (r: bool)
    ensures r <==> exists i :: 0 <= i < |s| && lo <= s[i] <= hi
    decreases |s|
  {
    if s == [] then false
    else if lo <= s[0] <= hi then true
    else
      assert forall i :: 0 < i < |s| ==> s[i] == s[1..][i - 1];
      Contains(s[1..], lo, hi)
  }

  predicate ValidPassword(p: string)
  {
    |p| >= MinPasswordLength && Contains(p, 'A', 'Z') && Contains(p, 'a', 'z') && Contains(p, '0', '9')
  }

  datatype RegisterBody = RegisterBody(fullName: string, email: string, password: string, accountType: string)
  datatype RegisterInput = RegisterInput(fullName: string, email: string, password: string, accountType: Role)

  function ParseRegister(b: RegisterBody): (r: Result<RegisterInput>)
    ensures r.Ok? <==>
      3 <= |b.fullName| <= 100 && |b.email| <= 255 && ValidPassword(b.password) &&
      (b.accountType == "fan" || b.accountType == "star")
    ensures r.Ok? ==> |r.value.password| >= MinPasswordLength
    ensures r.Ok? ==> exists i :: 0 <= i < |r.value.password| && 'A' <= r.value.password[i] <= 'Z'
    ensures r.Ok? ==> exists i :: 0 <= i < |r.value.password| && 'a' <= r.value.password[i] <= 'z'
    ensures r.Ok? ==> exists i :: 0 <= i < |r.value.password| && '0' <= r.value.password[i] <= '9'
    ensures r.Ok? ==> r.value.accountType != Admin
    ensures r.Ok? ==> (r.value.accountType == Fan <==> b.accountType == "fan")
    ensures r.Ok? ==> (r.value.accountType == Star <==> b.accountType == "star")
    ensures r.Ok? ==> r.value.fullName == b.fullName && r.value.email == b.email && r.value.password == b.password
    ensures r.Err? ==> r.error == ValidationError
  {
    if !(3 <= |b.fullName| <= 100) || |b.email| > 255 || !ValidPassword(b.password) then Err(ValidationError)
    else if b.accountType == "fan" then Ok(RegisterInput(b.fullName, b.email, b.password, Fan))
    else if b.accountType == "star" then Ok(RegisterInput(b.fullName, b.email, b.password, Star))
    else Err(ValidationError)
  }

  lemma PasswordExamples()
    ensures ValidPassword("Lozinka1")
    ensures !ValidPassword("lozinka1")
    ensures !ValidPassword("Lozinka")
  {
    assert "Lozinka1"[0] == 'L' && "Lozinka1"[1] == 'o' && "Lozinka1"[7] == '1';
  }
}

/** src/schemas/query.schema.ts */
module QuerySchema {
  import opened Common
  import Pagination

  datatype Sort = Popularity | PriceAsc | PriceDesc | Rating

  function SortName(s: Sort): string
  {
    match s
    case Popularity => "popularity"
    case PriceAsc => "price-asc"
    case PriceDesc => "price-desc"
    case Rating => "rating"
  }

  function ParseSort(t: Option<string>): (r: Option<Sort>)
    ensures t.None? ==> r == Some(Popularity)
    ensures t.Some? ==> (r.Some? <==> t.value in {"popularity", "price-asc", "price-desc", "rating"})
    ensures t.Some? ==> forall s :: r == Some(s) <==> SortName(s) == t.value
  {
    match t
    case None => Some(Popularity)
    case Some(s) =>
      if s == "popularity" then Some(Popularity)
      else if s == "price-asc" then Some(PriceAsc)
      else if s == "price-desc" then Some(PriceDesc)
      else if s == "rating" then Some(Rating)
      else None
  }

  /** A positive integer field with a default and an optional maximum. */
  function PositiveInt(x: Option<real>, default: int, max: Option<int>): (r: Option<int>)
    requires default >= 1 && (max.Some? ==> default <= max.value)
    ensures x.None? ==> r == Some(default)
    ensures x.Some? ==> (r.Some? <==> IsInt(x.value) && x.value > 0.0 && (max.Some? ==> x.value <= max.value as real))
    ensures x.Some? && r.Some? ==> r.value as real == x.value
    ensures r.Some? ==> r.value >= 1 && (max.Some? ==> r.value <= max.value)
  {
    match x
    case None => Some(default)
    case Some(v) =>
      if IsInt(v) && v > 0.0 && (max.None? || v <= max.value as real) then Some(v.Floor) else None
  }

  datatype CelebrityQueryRaw = CelebrityQueryRaw(
    search: Option<string>, category: Option<string>, sort: Option<string>,
    page: Option<real>, pageSize: Option<real>)

  datatype CelebrityQuery = CelebrityQuery(
    search: Option<string>, category: Option<string>, sort: Sort, page: int, pageSize: int)

  function ParseCelebrityQuery(q: CelebrityQueryRaw): (r: Result<CelebrityQuery>)
    ensures r.Ok? <==>
      ParseSort(q.sort).Some? && PositiveInt(q.page, 1, None).Some? && PositiveInt(q.pageSize, 12, Some(50)).Some?
    ensures r.Ok? ==> r.value.page >= 1 && 1 <= r.value.pageSize <= 50
    ensures r.Ok? && q.sort.None? ==> r.value.sort == Popularity
    ensures r.Ok? && q.sort.Some? ==> SortName(r.value.sort) == q.sort.value
    ensures r.Ok? && q.page.None? ==> r.value.page == 1
    ensures r.Ok? && q.page.Some? ==> r.value.page as real == q.page.value
    ensures r.Ok? && q.pageSize.None? ==> r.value.pageSize == 12
    ensures r.Ok? && q.pageSize.Some? ==> r.value.pageSize as real == q.pageSize.value
    ensures r.Ok? ==> r.value.search == q.search && r.value.category == q.category
    ensures r.Err? ==> r.error == ValidationError
  {
    match (ParseSort(q.sort), PositiveInt(q.page, 1, None), PositiveInt(q.pageSize, 12, Some(50)))
    case (Some(sort), Some(page), Some(pageSize)) => Ok(CelebrityQuery(q.search, q.category, sort, page, pageSize))
    case _ => Err(ValidationError)
  }

  datatype ReviewsQueryRaw = ReviewsQueryRaw(page: Option<real>, pageSize: Option<real>)
  datatype ReviewsQuery = ReviewsQuery(page: int, pageSize: int)

  function ParseReviewsQuery(q: ReviewsQueryRaw): (r: Result<ReviewsQuery>)
    ensures r.Ok? <==> PositiveInt(q.page, 1, None).Some? && PositiveInt(q.pageSize, 10, Some(50)).Some?
    ensures r.Ok? ==> r.value.page >= 1 && 1 <= r.value.pageSize <= 50
    ensures r.Ok? && q.page.None? ==> r.value.page == 1
    ensures r.Ok? && q.page.Some? ==> r.value.page as real == q.page.value
    ensures r.Ok? && q.pageSize.None? ==> r.value.pageSize == 10
    ensures r.Ok? && q.pageSize.Some? ==> r.value.pageSize as real == q.pageSize.value
    ensures r.Err? ==> r.error == ValidationError
  {
    match (PositiveInt(q.page, 1, None), PositiveInt(q.pageSize, 10, Some(50)))
    case (Some(page), Some(pageSize)) => Ok(ReviewsQuery(page, pageSize))
    case _ => Err(ValidationError)
  }

  /** A query that passed either schema is already within the clamps of `parsePagination`,
      which then passes page and page size through unchanged. */
  lemma ValidatedQueriesNeedNoClamping(c: CelebrityQueryRaw, v: ReviewsQueryRaw)
    ensures ParseCelebrityQuery(c).Ok? ==>
      var w := Pagination.ParsePagination(Some(ParseCelebrityQuery(c).value.page), Some(ParseCelebrityQuery(c).value.pageSize));
      w.page == ParseCelebrityQuery(c).value.page && w.pageSize == ParseCelebrityQuery(c).value.pageSize
    ensures ParseReviewsQuery(v).Ok? ==>
      var w := Pagination.ParsePagination(Some(ParseReviewsQuery(v).value.page), Some(ParseReviewsQuery(v).value.pageSize));
      w.page == ParseReviewsQuery(v).value.page && w.pageSize == ParseReviewsQuery(v).value.pageSize
  {
  }
}

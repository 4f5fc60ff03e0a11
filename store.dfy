/** The rows of the tables the controllers read and write, and the database itself as one
    object whose fields are those tables (a map from row id to row, or a sequence of rows
    where the handlers rely on row order). */
module Store {
  import opened Common
  import opened Lifecycle

  datatype Role = Fan | Star | Admin

  /** The `item_type` column of `favorites`. */
  datatype ItemType = CelebrityItem | ProductItem | DigitalProductItem

  datatype ApplicationStatus = ApplicationPending | ApplicationApproved | ApplicationRejected

  datatype Profile = Profile(role: Role)

  datatype Celebrity = Celebrity(
    profileId: Id, slug: string, price: int, responseTimeHours: int,
    acceptingRequests: bool, categoryId: Option<Id>)

  datatype VideoType = VideoType(celebrityId: Id, title: string)

  /** A row of `orders`: a personalised-video request. */
  datatype VideoOrder = VideoOrder(
    buyerId: Id, celebrityId: Id, videoTypeId: Id,
    buyerName: string, buyerEmail: string, recipientName: string, instructions: string,
    price: int, status: Status, deadline: int, createdAt: int, updatedAt: int)

  datatype Contact = Contact(name: string, email: string, phone: string)

  datatype Shipping = Shipping(name: string, address: string, city: string, postal: string, note: string)

  datatype MerchOrder = MerchOrder(
    buyerId: Id, celebrityId: Id, productId: Id, variantId: Option<Id>,
    quantity: int, unitPrice: int, totalPrice: int,
    contact: Contact, shipping: Shipping,
    status: Status, trackingNumber: Option<string>,
    confirmedAt: Option<int>, shippedAt: Option<int>, deliveredAt: Option<int>,
    createdAt: int, updatedAt: int)

  datatype DigitalOrder = DigitalOrder(
    buyerId: Id, celebrityId: Id, productId: Id, price: int, contact: Contact,
    status: Status, confirmedAt: Option<int>, completedAt: Option<int>,
    downloadToken: Option<Id>, tokenExpiresAt: Option<int>, downloadCount: int,
    createdAt: int, updatedAt: int)

  datatype Product = Product(celebrityId: Id, categoryId: Option<Id>, name: string, price: int, isActive: bool)

  /** A purchasable configuration of a product; `stock` is the inventory counter. */
  datatype Variant = Variant(productId: Id, name: string, priceOverride: Option<int>, stock: int, sortOrder: int)

  datatype ProductImage = ProductImage(productId: Id, sortOrder: int)

  /** `filePath == ""` stands for a product whose file has not been uploaded (NULL). */
  datatype DigitalProduct = DigitalProduct(
    celebrityId: Id, categoryId: Option<Id>, name: string, price: int, isActive: bool,
    filePath: string, fileName: string, fileSize: int, fileType: string, downloadCount: int)

  datatype Review = Review(orderId: Id, authorId: Id, celebrityId: Id, rating: int, text: string)

  datatype Favorite = Favorite(userId: Id, itemType: ItemType, itemId: Id)

  datatype Slot = Slot(available: bool, maxRequests: int)

  datatype Application = Application(status: ApplicationStatus, reviewedAt: Option<int>)

  datatype Category = Category(name: string, slug: string, icon: string, celebrityCount: int)

  /** A row of `product_categories` or of `digital_product_categories`. */
  datatype ProductCategory = ProductCategory(name: string, slug: string, icon: string)

  /** Seven days in milliseconds: the lifetime of a download token. */
  const TokenLifetimeMs: int := 7 * 24 * 60 * 60 * 1000

  /** The database. Each field is one table; handlers name in `modifies` the tables they
      write, so every other table is unchanged by construction. */
  class Db {
    var profiles: map<Id, Profile>
    var celebrities: map<Id, Celebrity>
    var videoTypes: map<Id, VideoType>
    var videoOrders: map<Id, VideoOrder>
    var products: map<Id, Product>
    var variants: map<Id, Variant>
    var productImages: seq<ProductImage>
    var merchOrders: map<Id, MerchOrder>
    var digitalProducts: map<Id, DigitalProduct>
    var digitalOrders: map<Id, DigitalOrder>
    var reviews: map<Id, Review>
    /** Newest first, the order `listFavorites` reads them in. */
    var favorites: seq<Favorite>
    /** Keyed by (celebrity id, day of week): the table's unique constraint. */
    var availability: map<(Id, int), Slot>
    var applications: map<Id, Application>
    var categories: map<Id, Category>
    var productCategories: map<Id, ProductCategory>
    var digitalProductCategories: map<Id, ProductCategory>

    constructor ()
      ensures profiles == map[] && celebrities == map[] && videoTypes == map[]
      ensures videoOrders == map[] && products == map[] && variants == map[]
      ensures productImages == [] && merchOrders == map[] && digitalProducts == map[]
      ensures digitalOrders == map[] && reviews == map[] && favorites == []
      ensures availability == map[] && applications == map[] && categories == map[]
      ensures productCategories == map[] && digitalProductCategories == map[]
    {
      profiles, celebrities, videoTypes := map[], map[], map[];
      videoOrders, products, variants := map[], map[], map[];
      productImages, merchOrders, digitalProducts := [], map[], map[];
      digitalOrders, reviews, favorites := map[], map[], [];
      availability, applications, categories := map[], map[], map[];
      productCategories, digitalProductCategories := map[], map[];
    }
  }

  /** `getCelebrityForUser`: the star profile whose `profile_id` is the user, when exactly
      one row matches. */
  ghost function StarOf(celebrities: map<Id, Celebrity>, user: Id): Option<Id>
  {
    Single(set c | c in celebrities && celebrities[c].profileId == user)
  }

  method CelebrityForUser(db: Db, user: Id) returns (star: Option<Id>)
    ensures star == StarOf(db.celebrities, user)
    ensures star.Some? ==> star.value in db.celebrities && db.celebrities[star.value].profileId == user
  {
    star := PickSingle(set c | c in db.celebrities && db.celebrities[c].profileId == user);
  }

  /** The fields the merch status endpoints write besides `status`: `updated_at`, the
      timestamp of the new status, and the tracking number when one is supplied with
      `shipped` (an empty one counts as none). */
  function StampMerch(o: MerchOrder, to: Status, tracking: Option<string>, now: int): MerchOrder
  {
    o.(status := to, updatedAt := now,
       confirmedAt := if to == Confirmed then Some(now) else o.confirmedAt,
       shippedAt := if to == Shipped then Some(now) else o.shippedAt,
       deliveredAt := if to == Delivered then Some(now) else o.deliveredAt,
       trackingNumber := if to == Shipped && tracking.Some? && tracking.value != "" then tracking
                         else o.trackingNumber)
  }

  /** The fields the digital status endpoints write besides `status`: `updated_at`, the
      timestamp of the new status and, on completion, a new token valid for seven days. */
  function StampDigital(o: DigitalOrder, to: Status, now: int, token: Id): DigitalOrder
  {
    o.(status := to, updatedAt := now,
       confirmedAt := if to == Confirmed then Some(now) else o.confirmedAt,
       completedAt := if to == Completed then Some(now) else o.completedAt,
       downloadToken := if to == Completed then Some(token) else o.downloadToken,
       tokenExpiresAt := if to == Completed then Some(now + TokenLifetimeMs) else o.tokenExpiresAt)
  }

  /** A token that no digital order holds yet (what `crypto.randomUUID()` is relied on for). */
  ghost predicate FreshToken(orders: map<Id, DigitalOrder>, token: Id)
  {
    token != "" && forall k :: k in orders ==> orders[k].downloadToken != Some(token)
  }
}

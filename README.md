# viveo-backend order core in Dafny

viveo-backend is a marketplace backend. Fans order personalised videos from stars, buy merch
(products with variants and a stock counter) and buy digital products (files behind a
download token). This project models the part of it that decides things: the three order
lifecycles and their side effects, and the ledgers and gates around them.

Order lifecycles:
- the status transition table of each order kind;
- the timestamps each transition stamps;
- the stock a merch cancellation gives back;
- the download token a digital completion issues;
- the admin overrides, which skip the table.

Ledgers and gates:
- the merch stock ledger;
- the token-gated download and its two counters;
- the one-review-per-order gate;
- the favorites set;
- the per-day availability upsert;
- the earnings and revenue aggregation;
- the slug normaliser, the pagination helpers and the validation schemas that bound every input.

The database is a class `Store.Db` whose fields are the tables, kept as `map`s from ids to
records. The product images and favorites tables are kept as `seq`s. Each request handler is
a method on a `Db`. Its `modifies` clause names exactly the tables the handler writes. Its
`ensures` ties the response and the new tables to a specification function of the old
tables. The properties are then proved about those functions.

The clock (`now`, in milliseconds) is a parameter. So are the ids and tokens the database or
`crypto.randomUUID` would produce, and whether each write succeeds (`writeOk`, `insertOk`,
`stockWriteOk`, `uploadOk`, `storageOk`). An insert under an id that is already taken
behaves like a failed insert.

Modules, one per source file of the core:

| module | models |
|---|---|
| `Common` | ids, results and error codes; `.single()`; the buyer-side read; exact counts |
| `Lifecycle` | order kinds, statuses, the three transition tables, the admin status sets |
| `Store` | the records and the `Db` class; the status stamps; the caller's star profile |
| `Inventory` | reserving and releasing stock |
| `Earnings` | the group-by loop of the earnings endpoints; the revenue sum |
| `Slug` | `generateSlug` and the inline category slug |
| `Pagination` | `parsePagination`, `buildPaginationMeta` |
| `MerchOrderSchema`, `DashboardSchema`, `DigitalOrderSchema`, `ProductSchema`, `DigitalProductSchema`, `ReviewSchema`, `AuthSchema`, `QuerySchema` | the zod schemas, as parsers with the bounds in their contracts |
| `Auth` | `requireAuth` and `requireRole` |
| `Dashboard`, `DashboardProducts`, `DashboardDigital` | the star's dashboard |
| `Orders`, `MerchOrders`, `DigitalOrders`, `Reviews`, `Favorites` | the buyer's endpoints |
| `Admin`, `AdminMerch`, `AdminDigital` | the admin panel |

Where the code and the project's written description differ, the model follows the code:

- A review can only be written for a completed video request. `submitReview` looks the order
  up in the video `orders` table whatever `reviewType` says, so merch and digital orders
  cannot be reviewed through it.
- The admin category slug is not `generateSlug`. Its inline chain keeps runs of hyphens and
  hyphens at the ends (`Admin.CategorySlugDiffersFromGenerateSlug`).

## Model

| member | source | states |
|---|---|---|
| Common.StatusCode | src/controllers/digital-orders.controller.ts:193-195 | every error maps to one HTTP status; 404 exactly for NOT_FOUND, 410 exactly for TOKEN_EXPIRED |
| Common.Single | src/controllers/dashboard.controller.ts:7-14 | `.single()` yields a row exactly when one row matches, and then that row |
| Common.PickSingle | src/controllers/dashboard.controller.ts:7-14 | the executable `.single()` agrees with `Single` |
| Common.BuyerRead | src/controllers/orders.controller.ts:124-132 | NOT_FOUND iff the row is absent, FORBIDDEN iff it belongs to another buyer, otherwise the row itself |
| Store.CelebrityForUser | src/controllers/dashboard.controller.ts:7-14 | the caller's star profile, when exactly one exists; it belongs to the caller |
| Lifecycle.CheckTransition | src/controllers/dashboard.controller.ts:83-91 | Ok iff the pair is in the kind's table; otherwise INVALID_TRANSITION naming both statuses |
| Lifecycle.AdminStatus | src/controllers/admin.controller.ts:583-591 | Ok iff the name is one of the kind's statuses, whatever the current status; otherwise INVALID_STATUS |
| Lifecycle.VideoTable | src/controllers/dashboard.controller.ts:83-86 | the video moves are exactly pending→approved, pending→rejected, approved→completed |
| Lifecycle.MerchTable | src/controllers/dashboard-products.controller.ts:529-533 | the merch moves are exactly pending→{confirmed, cancelled}, confirmed→{shipped, cancelled}, shipped→delivered |
| Lifecycle.DigitalTable | src/controllers/dashboard-digital.controller.ts:410-413 | the digital moves are exactly pending→{confirmed, cancelled}, confirmed→{completed, cancelled} |
| Lifecycle.TerminalStatuses | src/controllers/dashboard.controller.ts:83-91 | the statuses with no way out are completed/rejected (video), delivered/cancelled (merch), completed/cancelled (digital) |
| Lifecycle.TransitionsWithinKind | src/controllers/dashboard-products.controller.ts:529-537 | a move stays within the kind's statuses, never targets pending and never leaves a terminal status |
| Lifecycle.AdminOverridesTable | src/controllers/admin.controller.ts:583-591 | the admin reaches every status of the kind, including pending, which no table move reaches |
| Lifecycle.TransitionRaisesRank | src/controllers/dashboard-products.controller.ts:529-533 | every table move strictly raises the status rank |
| Lifecycle.RunRises | src/controllers/dashboard-products.controller.ts:529-537 | along any chain of moves ranks strictly rise, so a chain has at most three moves |
| Lifecycle.CancelledAtMostOnce | src/controllers/dashboard-products.controller.ts:535-537 | no chain of moves passes through cancelled twice, and none leaves it |
| Inventory.Reserve | src/controllers/merch-orders.controller.ts:40-58 | Ok iff quantity ≤ stock, leaving stock − quantity ≥ 0; otherwise OUT_OF_STOCK, "sold out" for stock 0 and "only n left" otherwise |
| Inventory.ReleaseUndoesReserve | src/controllers/dashboard-products.controller.ts:552-573 | giving back what was reserved restores the stock |
| Inventory.ApplyNeverNegative | src/controllers/merch-orders.controller.ts:54-58 | any sequence of sequential reserves and releases keeps the stock non-negative |
| Inventory.WorkedExample | src/controllers/merch-orders.controller.ts:40-47 | concrete ledger runs, including a refused reserve |
| Earnings.AddTo | src/controllers/dashboard.controller.ts:162-164 | the map update of the loop: the bucket of the tag gains the amount and one count, or a new bucket is appended; tags stay distinct |
| Earnings.NoCountNoSum | src/controllers/dashboard.controller.ts:162-164 | a tag with no line has no amount |
| Earnings.GroupByCharacterized | src/controllers/dashboard.controller.ts:149-165 | each bucket of the group-by holds the sum and the count of exactly the lines with its tag; a tag has a bucket iff it has a line |
| Earnings.AddToSums | src/controllers/dashboard.controller.ts:162-164 | one update adds the amount to the bucket total and one to the bucket count |
| Earnings.GroupTotals | src/controllers/dashboard.controller.ts:133-174 | the buckets' amounts sum to `totalEarnings` and their counts to `completedRequests` |
| Earnings.Weekly | src/controllers/dashboard.controller.ts:136-138 | always seven entries, in the fixed Ned..Sub order |
| Earnings.WeeklyZeroWhereNoOrders | src/controllers/dashboard.controller.ts:172 | a day with no counted order shows 0 |
| Earnings.SummaryConsistent | src/controllers/dashboard.controller.ts:133-175 | the response's total and count equal the sums over its buckets; tags and months are distinct; seven weekdays |
| Earnings.Summarize | src/controllers/dashboard.controller.ts:149-165 | the loop over the orders computes the summary function |
| Earnings.RevenueAppend | src/controllers/admin.controller.ts:73-76 | the revenue `reduce` is additive over any split of the rows |
| Earnings.RevenueRow | src/controllers/admin.controller.ts:73-76 | one more row adds its amount exactly when its status is counted and it is recent enough |
| Earnings.RevenueMonotone | src/controllers/admin.controller.ts:73-76 | with non-negative amounts revenue is non-negative, and counting more statuses never lowers it |
| Slug.LowerChar | src/utils/slug.ts:7 | capitals become lower case; slug characters and white space are kept |
| Slug.Strip | src/utils/slug.ts:13 | only characters from a–z, 0–9 and '-' survive |
| Slug.RunsShape | src/utils/slug.ts:12-14 | a run replacement leaves no two replacement characters in a row |
| Slug.Normalize | src/controllers/admin.controller.ts:726-733 | the inline category slug holds only slug characters |
| Slug.GenerateSlug | src/utils/slug.ts:5-16 | the output holds only a–z, 0–9 and '-', never two hyphens in a row, and no hyphen at either end |
| Slug.TrimKeeps | src/utils/slug.ts:15 | trimming the end hyphens of a collapsed string gives a slug |
| Slug.NormalizeFixed | src/controllers/admin.controller.ts:726-733 | a string of slug characters is its own category slug |
| Slug.SlugFixed | src/utils/slug.ts:5-16 | a slug is its own slug |
| Slug.GenerateSlugIdempotent | src/utils/slug.ts:5-16 | generating a slug twice is generating it once |
| Slug.Diacritics | src/utils/slug.ts:7-11 | č/ć→c, š→s, ž→z, đ→dj after lower-casing, capitals included |
| Slug.SpacesGone | src/utils/slug.ts:12 | no white space survives the run replacement |
| Slug.SpacesExample | src/utils/slug.ts:12 | example: " a - b " becomes "-a---b-" |
| Slug.RunsAppend | src/utils/slug.ts:12-14 | the run replacement of a concatenation is the replacement of each piece, the second starting inside a run exactly when the first ended in one |
| Slug.RunCollapses | src/utils/slug.ts:12-14 | a non-empty run of the class becomes one replacement character |
| Slug.OutsideRunsKept | src/utils/slug.ts:12-14 | text with no character of the class passes unchanged |
| Slug.RunBecomesOne | src/utils/slug.ts:12-14 | in any text, a maximal run of the class becomes exactly one replacement character and the text on either side is replaced on its own |
| Slug.SpaceRunsBecomeOneHyphen | src/utils/slug.ts:12 | in any text every maximal white-space run becomes one hyphen, and text without white space is kept |
| Slug.HyphenRunsCollapse | src/utils/slug.ts:14 | in any text every maximal run of hyphens becomes one hyphen, and text without hyphens is kept |
| Slug.CollapseExample | src/utils/slug.ts:14 | hyphen runs collapse to one hyphen |
| Slug.CategorySlugKeepsHyphens | src/controllers/admin.controller.ts:726-733 | on the same name the inline chain keeps hyphens that `generateSlug` collapses and trims |
| Pagination.ParsePagination | src/utils/pagination.ts:3-9 | page ≥ 1, page size in [1, 50], limit = page size, offset = (page − 1) × page size ≥ 0; in-range inputs pass unchanged; defaults 1 and 12 |
| Pagination.TotalPages | src/utils/pagination.ts:16 | the ceiling of total / page size, 0 exactly when total is 0 |
| Pagination.BuildPaginationMeta | src/utils/pagination.ts:11-18 | echoes page, size and total; the pages cover the total with no spare page |
| Pagination.LastPageWindow | src/utils/pagination.ts:3-18 | the last page's window contains the last row, and the page after it starts past the total |
| MerchOrderSchema.ParseCreateMerchOrder | src/schemas/merch-order.schema.ts:3-15 | accepted iff quantity is an integer in [1, 10], the buyer name and the four shipping fields are non-empty; product, variant, buyer and shipping fields pass through unchanged; phone and note default to "" |
| MerchOrderSchema.ParseMerchStatus | src/schemas/merch-order.schema.ts:17-20 | accepted iff the target is confirmed, shipped, delivered or cancelled |
| MerchOrderSchema.MerchTargetsAreTableTargets | src/schemas/merch-order.schema.ts:18 | the accepted targets are exactly the statuses some table move reaches, so pending never is one |
| DashboardSchema.ParseRequestStatus | src/schemas/dashboard.schema.ts:3-5 | accepted iff the target is approved, completed or rejected |
| DashboardSchema.RequestTargetsAreTableTargets | src/schemas/dashboard.schema.ts:4 | the accepted targets are exactly the statuses some video move reaches |
| DashboardSchema.OptionalIntAtLeast | src/schemas/dashboard.schema.ts:11-12 | an optional field is accepted iff absent or an integer at least the bound |
| DashboardSchema.ParseProfile | src/schemas/dashboard.schema.ts:7-15 | price, when given, is an integer ≥ 500; response time, when given, an integer ≥ 1; a given name is non-empty; every field passes through with its value |
| DashboardSchema.ParseSlots | src/schemas/dashboard.schema.ts:17-23 | accepted iff every slot has an integer day in [0, 6] and an integer maximum in [0, 20] |
| DigitalOrderSchema.ParseCreateDigitalOrder | src/schemas/digital-order.schema.ts:3-8 | accepted iff the buyer name is non-empty; phone defaults to "" |
| DigitalOrderSchema.ParseDigitalStatus | src/schemas/digital-order.schema.ts:10-12 | accepted iff the target is confirmed, completed or cancelled |
| DigitalOrderSchema.DigitalTargetsAreTableTargets | src/schemas/digital-order.schema.ts:11 | the accepted targets are exactly the statuses some digital move reaches |
| ProductSchema.PriceOf | src/schemas/product.schema.ts:6 | a valid price is an integer ≥ 100 |
| ProductSchema.ParseVariant | src/schemas/product.schema.ts:8-13 | stock is an integer ≥ 0; a price override is absent, null or an integer ≥ 100, kept as given; the name is kept; sort order defaults to 0 |
| ProductSchema.ParseVariants | src/schemas/product.schema.ts:8-13 | a variant list is accepted iff each variant is, element by element |
| ProductSchema.ParseProduct | src/schemas/product.schema.ts:3-14 | name length in [1, 200], price an integer ≥ 100, each kept as given; description defaults to ""; the variants are exactly the parsed variant list |
| ProductSchema.ParseProductUpdate | src/schemas/product.schema.ts:16-23 | every field optional; a given name or price keeps the create bounds |
| ProductSchema.ParseVariantUpdate | src/schemas/product.schema.ts:32-37 | every field optional; a given stock is an integer ≥ 0, a given override an integer ≥ 100 |
| ProductSchema.EmptyUpdatesAccepted | src/schemas/product.schema.ts:16-37 | the empty update is accepted by both update schemas |
| ProductSchema.VariantStockNonNegative | src/schemas/product.schema.ts:28-35 | stock is never negative on create or update |
| DigitalProductSchema.ParseDigitalProduct | src/schemas/digital-product.schema.ts:3-8 | name length in [1, 200] and price an integer ≥ 100, each kept as given; description defaults to "" |
| DigitalProductSchema.ParseDigitalProductUpdate | src/schemas/digital-product.schema.ts:10-17 | every field optional; a given name or price keeps the create bounds |
| DigitalProductSchema.SameBoundsAsProducts | src/schemas/digital-product.schema.ts:4-6 | digital products accept exactly the names and prices products accept |
| ReviewSchema.ParseReviewType | src/schemas/review.schema.ts:8 | the type defaults to video; otherwise exactly "video", "merch" and "digital" are accepted, each mapped to the type of that name |
| ReviewSchema.ParseReview | src/schemas/review.schema.ts:3-9 | accepted iff the rating is an integer in [1, 5], the text non-empty and the type valid; order id, rating, text and type pass through |
| AuthSchema.Contains | src/schemas/auth.schema.ts:12-14 | a character class occurs in the string |
| AuthSchema.ParseRegister | src/schemas/auth.schema.ts:9-24 | password ≥ 8 characters with an upper-case letter, a lower-case letter and a digit; full name length in [3, 100]; account type "fan" gives Fan and "star" gives Star, never admin; name, email and password pass through |
| AuthSchema.PasswordExamples | src/schemas/auth.schema.ts:9-14 | passwords missing a character class or length are refused |
| QuerySchema.ParseSort | src/schemas/query.schema.ts:6 | one of four sort orders, each string mapped to the order of that name; default popularity |
| QuerySchema.PositiveInt | src/schemas/query.schema.ts:7-8 | a positive integer under the bound, or the default when absent |
| QuerySchema.ParseCelebrityQuery | src/schemas/query.schema.ts:3-9 | page ≥ 1 default 1; page size in [1, 50] default 12; sort default popularity; given values, search and category pass through |
| QuerySchema.ParseReviewsQuery | src/schemas/query.schema.ts:11-14 | page ≥ 1 default 1; page size in [1, 50] default 10; given values pass through |
| QuerySchema.ValidatedQueriesNeedNoClamping | src/schemas/query.schema.ts:7-13 | a validated query passes `parsePagination` unchanged |
| Auth.ParseBearer | src/middleware/auth.ts:10-15 | UNAUTHORIZED iff the header is missing or lacks the "Bearer " prefix; the token is the rest |
| Auth.BearerRoundTrip | src/middleware/auth.ts:15 | prefixing a token and parsing it gives the token back |
| Auth.Authenticate | src/middleware/auth.ts:7-37 | a user iff the provider knows the token; its role is the profile's role, `fan` when there is no profile |
| Auth.RequireAuth | src/middleware/auth.ts:30-36 | sets the request's user exactly when authentication succeeds |
| Auth.RequireRole | src/middleware/auth.ts:39-55 | 401 iff no user, 403 iff the role is not listed, the user otherwise |
| Auth.GatesFollowProfiles | src/routes/index.ts:30-33 | the dashboard admits exactly stars and the admin panel exactly admins; an authenticated caller of the wrong role gets 403 |
| Dashboard.RequestStatusUpdate | src/controllers/dashboard.controller.ts:61-104 | NOT_FOUND iff the request is not the caller's star's; INVALID_TRANSITION iff the move is not in the table; DB_ERROR iff the write fails; Ok iff none of these, writing only `status` and returning `{id, status}`; errors write nothing |
| Dashboard.UpdateRequestStatus | src/controllers/dashboard.controller.ts:61-104 | the handler computes `RequestStatusUpdate` and writes only the requests table |
| Dashboard.FinishedRequestsStayFinished | src/controllers/dashboard.controller.ts:83-91 | every move out of completed or rejected fails with INVALID_TRANSITION and writes nothing |
| Dashboard.AtMostTwoAcceptedSteps | src/controllers/dashboard.controller.ts:83-86 | a request moves at most twice, and two moves are approved then completed |
| Dashboard.LastWriteWins | src/controllers/dashboard.controller.ts:219-231 | after the upsert loop the star has a slot for exactly the days listed, the last entry for a day wins, and other keys are untouched |
| Dashboard.AvailabilityUpdate | src/controllers/dashboard.controller.ts:208-234 | NOT_FOUND without a star profile; otherwise the slots are upserted in order |
| Dashboard.UpdateAvailability | src/controllers/dashboard.controller.ts:219-231 | the loop computes `AvailabilityUpdate` |
| Dashboard.VideoLines | src/controllers/dashboard.controller.ts:115-119 | one line per completed request, carrying its price |
| Dashboard.GetEarnings | src/controllers/dashboard.controller.ts:106-176 | NOT_FOUND without a star profile; otherwise the summary of the completed requests with the pending count |
| DashboardProducts.Restock | src/controllers/dashboard-products.controller.ts:552-573 | only the order's own variant gains exactly the order's quantity; an order without a variant changes nothing |
| DashboardProducts.MerchStatusUpdate | src/controllers/dashboard-products.controller.ts:511-612 | NOT_FOUND iff not the caller's order; INVALID_TRANSITION iff the move is not in the table; DB_ERROR iff the write fails; Ok iff none of these, stamping the order; a cancel restocks, even when the order write then fails |
| DashboardProducts.UpdateMerchOrderStatus | src/controllers/dashboard-products.controller.ts:511-612 | the handler computes `MerchStatusUpdate` on the orders and variants tables |
| DashboardProducts.MerchStamps | src/controllers/dashboard-products.controller.ts:539-549 | confirmed, shipped and delivered stamp their own timestamp; tracking changes only on shipped with a non-empty number; nothing else changes |
| DashboardProducts.SecondCancelRestoresNothing | src/controllers/dashboard-products.controller.ts:535-537 | cancelling a cancelled order fails and restores no stock a second time |
| DashboardProducts.MaxSortOrder | src/controllers/dashboard-products.controller.ts:254 | the largest sort order among the product's images, None when it has none |
| DashboardProducts.NumberedIncreasing | src/controllers/dashboard-products.controller.ts:258-298 | numbers handed out are at least the start and strictly increase, one per stored file; failed uploads take none |
| DashboardProducts.NewImagesSortLast | src/controllers/dashboard-products.controller.ts:254-297 | new images sort after every existing image of the product |
| DashboardProducts.ImageUpload | src/controllers/dashboard-products.controller.ts:224-301 | NOT_FOUND for another star's product; NO_FILE without files; Ok iff neither, appending the numbered rows of the stored files |
| DashboardProducts.UploadProductImages | src/controllers/dashboard-products.controller.ts:258-298 | the loop with its counter computes `ImageUpload` |
| DashboardProducts.VariantDeletion | src/controllers/dashboard-products.controller.ts:425-455 | NOT_FOUND for another star's product; VARIANT_HAS_ORDERS iff some order references the variant; Ok iff neither, deleting the product's variant |
| DashboardProducts.DeleteVariant | src/controllers/dashboard-products.controller.ts:425-455 | the handler computes `VariantDeletion` |
| DashboardProducts.MerchLines | src/controllers/dashboard-products.controller.ts:616-675 | one line per counted order, carrying its total and its product's name |
| DashboardProducts.GetMerchEarnings | src/controllers/dashboard-products.controller.ts:616-675 | the summary of the confirmed, shipped and delivered orders with the pending count |
| DashboardDigital.DigitalStatusUpdate | src/controllers/dashboard-digital.controller.ts:392-474 | NOT_FOUND iff not the caller's order; INVALID_TRANSITION iff the move is not in the table; DB_ERROR iff the write fails; Ok iff none of these, stamping the order; errors write nothing |
| DashboardDigital.UpdateDigitalOrderStatus | src/controllers/dashboard-digital.controller.ts:392-474 | the handler computes `DigitalStatusUpdate` |
| DashboardDigital.TokenOnlyOnCompletion | src/controllers/dashboard-digital.controller.ts:424-434 | only completion sets completed_at, the token and an expiry of exactly now + 604800000 ms; confirmation stamps confirmed_at and issues no token |
| DashboardDigital.TokensStayUnique | src/controllers/dashboard-digital.controller.ts:428-434 | with a fresh token, no two orders ever share a token |
| DashboardDigital.LastSegment | src/controllers/dashboard-digital.controller.ts:239 | the text after the last '.', the whole name when there is none |
| DashboardDigital.SegmentOfExtension | src/controllers/dashboard-digital.controller.ts:239 | the segment of "base.ext" is ext |
| DashboardDigital.Extension | src/controllers/dashboard-digital.controller.ts:239 | "bin" only when the segment is empty (or is "bin") |
| DashboardDigital.UpperChar | src/controllers/dashboard-digital.controller.ts:256 | a–z become A–Z and č ć š ž đ become Č Ć Š Ž Đ; no such lower-case letter survives; other characters are kept |
| DashboardDigital.Upper | src/controllers/dashboard-digital.controller.ts:256 | upper-cases character by character |
| DashboardDigital.FileTypeUpperCases | src/controllers/dashboard-digital.controller.ts:256 | the recorded type is the stored extension upper-cased character by character: never empty, with no lower-case letter left |
| DashboardDigital.FileTypeExamples | src/controllers/dashboard-digital.controller.ts:239-256 | "x.ext" gives EXT, a trailing dot gives BIN, a dot-free name gives itself upper-cased |
| DashboardDigital.FileUpload | src/controllers/dashboard-digital.controller.ts:212-277 | NOT_FOUND, NO_FILE, UPLOAD_ERROR, DB_ERROR in that order, each an iff; Ok iff none applies, recording path, name, size and type |
| DashboardDigital.UploadDigitalFile | src/controllers/dashboard-digital.controller.ts:212-277 | the handler computes `FileUpload` |
| DashboardDigital.DigitalLines | src/controllers/dashboard-digital.controller.ts:478-537 | one line per counted order, carrying its price and its product's name |
| DashboardDigital.GetDigitalEarnings | src/controllers/dashboard-digital.controller.ts:478-537 | the summary of the confirmed and completed orders with the pending count |
| MerchOrders.UnitPrice | src/controllers/merch-orders.controller.ts:25-51 | the variant's override when it has one, else the product's price |
| MerchOrders.NewMerchOrder | src/controllers/merch-orders.controller.ts:65-91 | a pending row with total = unit price × quantity and nothing stamped |
| MerchOrders.StockTaking | src/controllers/merch-orders.controller.ts:28-62 | with no variant nothing is taken; INVALID_VARIANT iff the variant is not the product's; OUT_OF_STOCK iff it holds fewer pieces than ordered; DB_ERROR iff the stock write fails; otherwise the variant as read and its stock lowered by the quantity, never below zero |
| MerchOrders.TakeStock | src/controllers/merch-orders.controller.ts:28-62 | the stock step writes `StockTaking`'s table on success and nothing on an error |
| MerchOrders.MerchOrderCreation | src/controllers/merch-orders.controller.ts:9-122 | NOT_FOUND iff the product is missing or inactive; INVALID_VARIANT iff the variant is not the product's; OUT_OF_STOCK iff stock < quantity; DB_ERROR iff the stock write or the insert fails; Ok iff none of these; stock drops by the quantity before the insert and stays dropped if the insert fails |
| MerchOrders.CreateMerchOrder | src/controllers/merch-orders.controller.ts:9-122 | the handler computes `MerchOrderCreation` |
| MerchOrders.StockStaysNonNegative | src/controllers/merch-orders.controller.ts:54-58 | an order placed on its own never drives a stock below zero |
| MerchOrders.CancelAfterOrderRestoresStock | src/controllers/dashboard-products.controller.ts:552-573 | placing an order and having the star cancel it leaves the variants exactly as they were |
| MerchOrders.GetMerchOrderById | src/controllers/merch-orders.controller.ts:170-224 | NOT_FOUND for a missing order, FORBIDDEN for another buyer's, the order for its buyer |
| DigitalOrders.NewDigitalOrder | src/controllers/digital-orders.controller.ts:29-41 | a pending row at the product's price with no token and no downloads |
| DigitalOrders.DigitalOrderCreation | src/controllers/digital-orders.controller.ts:14-73 | NOT_FOUND unless the product exists, is active and has a file; DB_ERROR iff the insert fails; Ok iff neither, inserting the new pending order |
| DigitalOrders.CreateDigitalOrder | src/controllers/digital-orders.controller.ts:14-73 | the handler computes `DigitalOrderCreation` |
| DigitalOrders.GetDigitalOrderById | src/controllers/digital-orders.controller.ts:121-170 | NOT_FOUND for a missing order, FORBIDDEN for another buyer's, the order for its buyer |
| DigitalOrders.DownloadRequest | src/controllers/digital-orders.controller.ts:173-226 | MISSING_TOKEN iff no token; NOT_FOUND unless id, token and completed status match; TOKEN_EXPIRED iff expiry < now (equal is accepted); Ok iff none of these and storage signs the link, adding exactly 1 to both download counts |
| DigitalOrders.DownloadDigitalProduct | src/controllers/digital-orders.controller.ts:173-226 | the handler computes `DownloadRequest` on the two tables |
| DigitalOrders.TokenOpensOneOrder | src/controllers/digital-orders.controller.ts:181-191 | with unique tokens a token opens only its own order |
| DigitalOrders.CompletedTokenLastsSevenDays | src/controllers/dashboard-digital.controller.ts:428-434 | the token issued on completion downloads up to exactly seven days later and is TOKEN_EXPIRED after |
| Reviews.ReviewSubmission | src/controllers/reviews.controller.ts:7-66 | guards in order: NOT_FOUND, FORBIDDEN for a non-buyer, ORDER_NOT_COMPLETED, REVIEW_EXISTS, then DB_ERROR iff the insert fails, each an iff; Ok iff all pass; a failure inserts nothing; success inserts one review |
| Reviews.SubmitReview | src/controllers/reviews.controller.ts:7-66 | the handler computes `ReviewSubmission` |
| Reviews.SubmissionKeepsOneReviewPerOrder | src/controllers/reviews.controller.ts:32-41 | while each order has at most one review, submissions keep it so |
| Reviews.ReviewCarriesAuthorAndStar | src/controllers/reviews.controller.ts:43-51 | a stored review's author is the buyer and its star is the order's; the order is completed |
| Orders.Deadline | src/controllers/orders.controller.ts:40-41 | deadline − now is the response time in hours, in milliseconds |
| Orders.NewVideoOrder | src/controllers/orders.controller.ts:43-57 | a pending row at the star's current price with that deadline |
| Orders.OrderCreation | src/controllers/orders.controller.ts:7-71 | NOT_FOUND for an unknown slug, NOT_ACCEPTING for a paused star, INVALID_VIDEO_TYPE for another star's type, DB_ERROR iff the insert fails, each an iff; Ok iff all pass, inserting the new request |
| Orders.CreateOrder | src/controllers/orders.controller.ts:7-71 | the handler computes `OrderCreation` |
| Orders.PlacedRequestIsWellFormed | src/controllers/orders.controller.ts:12-57 | a placed request is pending, the caller's, the slug's star's, of that star's video type, at its price |
| Orders.GetOrderById | src/controllers/orders.controller.ts:110-149 | NOT_FOUND for a missing request, FORBIDDEN for another buyer's, the request for its buyer |
| Admin.AdminRead | src/controllers/admin.controller.ts:539-555 | NOT_FOUND iff the row is absent, otherwise the row |
| Admin.AdminOrderStatus | src/controllers/admin.controller.ts:579-598 | INVALID_STATUS iff the name is not a video status; DB_ERROR iff the write fails; NOT_FOUND iff the id is missing; Ok iff none of these, with status and updated_at overwritten whatever the current status |
| Admin.UpdateOrderStatus | src/controllers/admin.controller.ts:579-598 | the handler computes `AdminOrderStatus` |
| Admin.AdminReopensCompletedRequest | src/controllers/admin.controller.ts:583-591 | the admin moves a completed request back to pending, a move the star's endpoint refuses |
| Admin.ParseApplicationStatus | src/controllers/admin.controller.ts:676-679 | only approved and rejected are accepted |
| Admin.ApplicationReview | src/controllers/admin.controller.ts:672-693 | INVALID_STATUS for anything but approved or rejected; DB_ERROR iff the write fails; NOT_FOUND iff the id is missing; Ok iff none of these, stamping reviewed_at |
| Admin.UpdateApplicationStatus | src/controllers/admin.controller.ts:672-693 | the handler computes `ApplicationReview` |
| Admin.ParseRole | src/controllers/admin.controller.ts:226-231 | the role names are exactly fan, star and admin |
| Admin.UserUpdate | src/controllers/admin.controller.ts:222-257 | INVALID_ROLE iff a role outside fan/star/admin is given; NOT_FOUND iff the update returns no row (no role, a missing profile, a failed write); Ok iff a valid role, an existing profile and a successful write, changing only the role |
| Admin.UpdateUser | src/controllers/admin.controller.ts:222-257 | the handler computes `UserUpdate` |
| Admin.CategoryCreation | src/controllers/admin.controller.ts:719-758 | VALIDATION_ERROR iff name or icon is missing; DB_ERROR iff the insert fails; Ok iff neither, inserting a category with the inline slug and no stars |
| Admin.CreateCategory | src/controllers/admin.controller.ts:719-758 | the handler computes `CategoryCreation` |
| Admin.CategorySlugDiffersFromGenerateSlug | src/controllers/admin.controller.ts:726-733 | " a - b " becomes "-a---b-" as a category slug but "a-b" under `generateSlug` |
| Admin.CategoryDeletion | src/controllers/admin.controller.ts:799-827 | CATEGORY_HAS_CELEBRITIES, with the count, iff some star is in the category; DB_ERROR iff the delete fails; Ok iff neither, deleting the category |
| Admin.DeleteCategoryById | src/controllers/admin.controller.ts:799-827 | the handler computes `CategoryDeletion` |
| Admin.VideoSales | src/controllers/admin.controller.ts:28-31 | one revenue row per request id the query selects, carrying its status, price and creation time |
| Admin.MonthlyRevenue | src/controllers/admin.controller.ts:73-76 | the price sum over requests completed since the start of the month |
| Admin.MonthlyRevenueCountsCompleted | src/controllers/admin.controller.ts:73-76 | a request adds its price to the monthly revenue exactly when completed; the revenue is never negative |
| AdminMerch.AdminMerchStatus | src/controllers/admin-merch.controller.ts:325-351 | INVALID_STATUS iff the name is not a merch status; DB_ERROR iff the write fails; Ok iff neither and the order is visible, with the status and its timestamp written whatever the current status; no stock is given back |
| AdminMerch.UpdateMerchOrderStatus | src/controllers/admin-merch.controller.ts:325-351 | the handler computes `AdminMerchStatus` and writes only the orders table |
| AdminMerch.AdminCancelKeepsStockTaken | src/controllers/admin-merch.controller.ts:334-346 | the admin's cancel succeeds and gives no stock back, where the star's cancel of the same order does |
| AdminMerch.AdminReopensDeliveredOrder | src/controllers/admin-merch.controller.ts:329-346 | the admin reopens a delivered order, a move the star's endpoint refuses |
| AdminMerch.ProductCategoryDeletion | src/controllers/admin-merch.controller.ts:429-454 | CATEGORY_HAS_PRODUCTS, with the count, iff some product is in the category; DB_ERROR iff the delete fails; Ok iff neither, deleting the category |
| AdminMerch.DeleteProductCategory | src/controllers/admin-merch.controller.ts:429-454 | the handler computes `ProductCategoryDeletion` |
| AdminMerch.MerchSales | src/controllers/admin-merch.controller.ts:55-59 | one revenue row per order id the query selects for the product, carrying its status, total and creation time |
| AdminMerch.ProductRevenueCountsEarningOrders | src/controllers/admin-merch.controller.ts:55-63 | an order adds its total exactly when confirmed, shipped or delivered; revenue is never negative |
| AdminDigital.AdminDigitalStatus | src/controllers/admin-digital.controller.ts:311-342 | INVALID_STATUS iff the name is not a digital status; DB_ERROR iff the write fails; Ok iff neither and the order is visible, with the stamps written whatever the current status and a new token on every completion |
| AdminDigital.UpdateDigitalOrderStatus | src/controllers/admin-digital.controller.ts:311-342 | the handler computes `AdminDigitalStatus` |
| AdminDigital.RecompletionRotatesToken | src/controllers/admin-digital.controller.ts:326-332 | completing a completed order again replaces the token: the old one stops working, the new one works for seven days |
| AdminDigital.OverrideKeepsTokensUnique | src/controllers/admin-digital.controller.ts:326-332 | with a fresh token, the override keeps tokens unique |
| AdminDigital.DigitalCategoryDeletion | src/controllers/admin-digital.controller.ts:420-445 | CATEGORY_HAS_PRODUCTS, with the count, iff some digital product is in the category; DB_ERROR iff the delete fails; Ok iff neither, deleting the category |
| AdminDigital.DeleteDigitalProductCategory | src/controllers/admin-digital.controller.ts:420-445 | the handler computes `DigitalCategoryDeletion` |
| AdminDigital.DigitalSales | src/controllers/admin-digital.controller.ts:52-56 | one revenue row per order id the query selects for the product, carrying its status, price and creation time |
| AdminDigital.ProductRevenueCountsEarningOrders | src/controllers/admin-digital.controller.ts:52-60 | an order adds its price exactly when confirmed or completed; revenue is never negative |
| Favorites.ParseItemType | src/schemas/favorite.schema.ts:4 | the item types are exactly celebrity, product and digital_product |
| Favorites.Where | src/controllers/favorites.controller.ts:88-90 | a filter keeps exactly the rows satisfying it, in order, without adding duplicates |
| Favorites.Added | src/controllers/favorites.controller.ts:15-24 | the upsert adds the key once; an existing key leaves the table unchanged |
| Favorites.Removed | src/controllers/favorites.controller.ts:42-47 | the delete removes exactly the rows with the key and keeps every other row |
| Favorites.FavoriteAddition | src/controllers/favorites.controller.ts:11-32 | DB_ERROR leaves the table; otherwise the upsert |
| Favorites.AddFavorite | src/controllers/favorites.controller.ts:11-32 | the handler computes `FavoriteAddition` |
| Favorites.FavoriteRemoval | src/controllers/favorites.controller.ts:38-55 | DB_ERROR leaves the table; otherwise the delete |
| Favorites.RemoveFavorite | src/controllers/favorites.controller.ts:38-55 | the handler computes `FavoriteRemoval` |
| Favorites.AddKeepsOneRowPerKey | src/controllers/favorites.controller.ts:15-24 | adding keeps one row per key, and adding twice is adding once |
| Favorites.RemoveUndoesAdd | src/controllers/favorites.controller.ts:15-47 | removing a key just added restores the table |
| Favorites.CheckFavorite | src/controllers/favorites.controller.ts:165-189 | VALIDATION_ERROR iff the item type or id is missing; Ok iff both are given, then true iff the caller has the key |
| Favorites.CheckFollowsAddAndRemove | src/controllers/favorites.controller.ts:165-189 | a key checks true after an add and false after a remove |
| Favorites.IdsOf | src/controllers/favorites.controller.ts:88-90 | the ids of exactly the rows of one type |
| Favorites.Mine | src/controllers/favorites.controller.ts:65-73 | the caller's rows, of the requested type when one is given |
| Favorites.ListFavorites | src/controllers/favorites.controller.ts:82-90 | three empty lists without rows; otherwise each list holds exactly the ids of its type |
| Favorites.SplitCounts | src/controllers/favorites.controller.ts:88-90 | every row lands in exactly one of the three lists |
| Favorites.ListIsPartition | src/controllers/favorites.controller.ts:82-90 | the three lists together are as long as the caller's rows |

## Left out

- Calendar bucketing is left out. The weekday and month of an order, and whether it falls in
  the last week or the last six months, come from `getDay`, `getMonth` and local-time dates.
  The earnings handlers take them as the function parameters `dayOf` and `monthOf`.
- Earnings.Summarize: the monthly buckets also carry a count that the endpoints do not output.
- `averageRating` (a floating-point `Number(...)` of the star's rating) is not modelled.
- `getStats`, the admin list endpoints and every public read controller are left out; they
  only build queries. Of the statistics, only `monthlyRevenue` is modelled.
- DTO re-shaping, `.select` strings and joins are not modelled. The inner joins a handler
  relies on are kept as membership conditions.
- Reads are assumed to succeed. A failed read of a row is treated as a missing row.
- Object storage (upload, remove, signed URLs) is a foreign call. Its success is a boolean
  parameter and its paths are parameters.
- Email notifications after orders and status changes are not modelled; they are
  fire-and-forget third-party sends.
- Updates whose failure the source ignores are modelled as succeeding: the download counters,
  the stock write of a star's cancellation, each availability upsert of `updateAvailability`
  and the variant delete of `deleteVariant`; those handlers answer success whatever the write
  did.
- Concurrency is not modelled. Stock is read and then written back, so two concurrent orders
  can oversell. The model is single-threaded and claims nothing about concurrent calls.
- Orders.Deadline: `setHours` in local time is modelled as adding hours × 3600000 ms, so
  daylight-saving jumps are not modelled.
- UUID and email format checks in the schemas are library regexes and are not modelled. Ids
  are plain strings.
- JSON numbers are `real`s in the schema models; integer checks are `IsInt`.
- The `parseInt(...) || default` page parsing of the admin controllers depends on NaN and is
  not modelled.
- String lengths are counted in characters, not UTF-16 code units.
- Slug.LowerChar and DashboardDigital.UpperChar map ASCII letters and the Serbian letters
  č, ć, š, ž and đ (with their capitals) only; other Unicode case mappings are not modelled.
- Admin.UserUpdate: an absent role sends an empty update, which the database answers with
  no row, so the handler answers NOT_FOUND; this follows PostgREST's handling of an empty
  update body, which is not part of this model.
- Favorites.CheckFavorite: an item type outside the enum is modelled as matching no row
  (false). Whether the database instead rejects the value depends on the column type, which
  is not part of this model.
- Favorites.ListFavorites stops at the three id lists. The detail queries behind them (their
  row order and their inner joins) are not modelled.
- `crypto.randomUUID` is a parameter. Token uniqueness is proved under the assumption that
  the drawn token is fresh (`Store.FreshToken`).
- `updateCategoryById`, `createProductCategory` and `updateProductCategory` are not
  modelled; they write a name, slug and icon without any guard.
- Authentication with the provider (`supabase.auth.getUser`) is a map from tokens to
  identities passed in.

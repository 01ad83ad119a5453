# Subscription mirror: webhook applier, status queries and plan catalogue

This project models the server-side logic of `convex/subscriptions.ts`, the
part of the application that keeps a local mirror of billing-provider
(Polar) subscriptions:

- **The webhook event applier** (`handleWebhookEvent`). Every event writes
  one row to the append-only `webhookEvents` ledger, then depending on its
  type inserts one row into `subscriptions` (`subscription.created`) or
  patches the first row whose `polarId` equals `data.id`
  (`subscription.updated`, `.active`, `.canceled`, `.uncanceled`,
  `.revoked`). `order.created` and unknown types stop after the ledger write.
  The store is the class `Database.Db`, whose method `HandleWebhookEvent`
  updates its tables in place. It is proved against the pure transition
  `Webhook.Step`, and the properties of `Step` and of `Webhook.Replay` (a
  run of events) are proved as lemmas.
- **The status queries** (`checkUserSubscriptionStatus`,
  `checkUserSubscriptionStatusByClerkId`, `fetchUserSubscription`). These
  are pure functions over a snapshot of the store. They resolve a token
  identifier to its user with `.unique()` and take that user's earliest
  subscription with `.first()`. The two status queries compare its status
  with `"active"`; `fetchUserSubscription` returns the row itself.
- **The catalogue logic**. `Catalog.FindProductForPrice` is the nested-loop
  search in `createCheckout` for the product offering a price.
  `Catalog.GetAvailablePlans` is the loop in `getAvailablePlansAction` that
  flattens the product pages into cleaned plan items. The pages the SDK
  returns are an input.

Modules: `Values` (optional values, JavaScript truthiness, first-match
lookup), `Schema` (table rows and the event payload), `Webhook`,
`Database`, `Status`, `Scenarios` (the two end-to-end runs: create, then
cancel) and `Catalog`.

Four behaviours of the code are easy to miss, and the model keeps them:

- `polarId` is looked up as if it were unique (`.first()` on its index), but
  nothing enforces it: `subscription.created` always inserts, so a
  redelivered event leaves two rows with the same `polarId`
  (`Webhook.RedeliveredCreateDuplicates`). Later patches reach only the
  earlier row (`Webhook.PatchTouchesOnlyFirstMatch`).
- The ledger row is written before anything else, but it is not kept
  unconditionally. `subscription.created` reads `data.metadata.userId`,
  which throws when the payload has no metadata. A Convex mutation that
  throws keeps none of its writes, so the ledger row is rolled back too. The
  model returns `RolledBack(MissingMetadata)` and leaves the store unchanged.
- A missing identity, user or subscription gives `false` (or `null`), but a
  token identifier carried by two users is an error: `.unique()` throws. The
  queries return `Err(MultipleUsersWithToken)` in that case.
- The price search ends its outer loop on `if (productId) break`, a
  truthiness test. A matching product whose id is the empty string does not
  stop the search. Unless a later page finds another product, the search
  then ends in "Product not found". `Catalog.ScanState` models this as
  written. `Catalog.ScanFindsFirstListed` states the intended "first
  matching product" reading for listings whose product ids are non-empty.

## Model

| member | source | states |
|---|---|---|
| Values.FirstIndex | convex/subscriptions.ts:399-402 | `.first()` on an index: the result is a position holding a match with no match before it, and there is no result exactly when nothing matches |
| Values.FirstIndexAppend | convex/subscriptions.ts:68-89 | searching a concatenation finds a hit of the front part first, otherwise the back part's first hit shifted past the front |
| Values.NonEmpty | convex/subscriptions.ts:387-390 | `x \|\| undefined`: present exactly when the payload value is a non-empty string, and then equal to it |
| Values.OrElse | convex/subscriptions.ts:358 | `x \|\| fallback`: the value when it is a non-empty string, the fallback otherwise |
| Webhook.LedgerEntryFor | convex/subscriptions.ts:354-360 | the ledger row carries the event type, `polarEventId = data.id`, `createdAt`, the payload, and `modifiedAt = modified_at` when truthy else `created_at` |
| Webhook.OptionalInstant | convex/subscriptions.ts:381-386 | an optional timestamp is present exactly when the payload's string is truthy, and then is its epoch conversion |
| Webhook.MetadataOrEmpty | convex/subscriptions.ts:391-392 | `m \|\| {}`: the payload's map when present, the empty map otherwise |
| Webhook.NewSubscription | convex/subscriptions.ts:365-394 | creation fails exactly when metadata is missing; otherwise the row has `polarId = data.id`, the verbatim status, price id, currency, interval, amount, customer id and cancel-at-period-end, `userId = metadata.userId`, the metadata and custom fields (empty map by default), the converted period and start instants, end/cancel instants converted when truthy and absent otherwise, and empty reason/comment made absent |
| Webhook.PatchUpdated | convex/subscriptions.ts:404-417 | the row differs from the old one only in amount, status, period bounds, cancel-at-period-end, metadata and custom fields, each taken from the payload |
| Webhook.PatchActive | convex/subscriptions.ts:428-433 | only status and start instant change, both from the payload |
| Webhook.PatchCanceled | convex/subscriptions.ts:443-454 | only status, cancel instant, reason and comment change; reason and comment are present exactly when the payload's are non-empty |
| Webhook.PatchUncanceled | convex/subscriptions.ts:464-472 | status from the payload, cancel-at-period-end false, cancel instant, reason and comment absent whatever they were; nothing else changes |
| Webhook.PatchRevoked | convex/subscriptions.ts:482-489 | status becomes the literal "revoked" whatever the payload says; the end instant is set from `ended_at` or cleared; nothing else changes |
| Webhook.FirstWithPolarId | convex/subscriptions.ts:399-402 | the looked-up row is the earliest with `polarId == data.id`, and there is none exactly when no row has that id |
| Webhook.ApplyToTable | convex/subscriptions.ts:362-499 | a committing event adds one row exactly when it is a creation and otherwise keeps the length; no row changes its `polarId` or owner; a row changes only when the event patches and the row is the first with the event's `polarId` |
| Webhook.Step | convex/subscriptions.ts:345-501 | an event aborts exactly when it is a creation without metadata; otherwise it appends exactly its ledger row and leaves the users table alone |
| Webhook.CreatedAppendsOneRow | convex/subscriptions.ts:363-395 | creation appends exactly one row after the unchanged old rows, with the event's id, status and owner |
| Webhook.RedeliveredCreateDuplicates | convex/subscriptions.ts:365-402 | applying the same creation twice leaves two new rows with the same `polarId`, and a lookup by that id finds a row no later than the first copy, never the duplicate |
| Webhook.UnmatchedEventLeavesTable | convex/subscriptions.ts:397-498 | a patching event that matches no row, `order.created` and unknown types leave the table unchanged |
| Webhook.PatchTouchesOnlyFirstMatch | convex/subscriptions.ts:399-490 | a patching event changes only the first row with the event's `polarId` and keeps that row's id, owner, price, currency, interval and customer |
| Webhook.UncanceledIdempotent | convex/subscriptions.ts:457-473 | applying `subscription.uncanceled` twice gives the same table as applying it once |
| Webhook.LedgerEntries | convex/subscriptions.ts:353-360 | one ledger row per event, in the events' order, each the row that event writes |
| Webhook.LedgerRecordsEveryEvent | convex/subscriptions.ts:353-360 | over any run of committing events, the ledger is the old ledger followed by one row per event, in order; users never change |
| Webhook.RowsOnlyGrowByCreation | convex/subscriptions.ts:362-499 | over any run of events, the table grows by exactly the number of committed creations, and no existing row changes its `polarId` or owner |
| Database.Db.HandleWebhookEvent | convex/subscriptions.ts:345-501 | the in-place mutation: rolls back exactly on a creation without metadata, otherwise appends the ledger row and reaches the state `Step` describes; creation appends the new row, other non-patch types keep the table, and a patch changes only the first row with the event's `polarId` |
| Status.FirstWithToken | convex/subscriptions.ts:264-267 | the first user with the token identifier, none exactly when no user has it |
| Status.UniqueUserByToken | convex/subscriptions.ts:264-267 | `.unique()` finds no user exactly when none has the token, and any user it returns has the token |
| Status.UniqueFindsSingleUser | convex/subscriptions.ts:264-271 | `.unique()` returns a user exactly when one user carries the token |
| Status.UniqueRejectsSharedToken | convex/subscriptions.ts:264-267 | `.unique()` throws exactly when two users carry the token |
| Status.FirstWithUserId | convex/subscriptions.ts:273-276 | the user's subscription is the earliest owned by that token, none exactly when the user owns none |
| Status.ActiveForFirst | convex/subscriptions.ts:273-279 | once a user is found, the answer is true exactly when that user's earliest subscription has status "active" |
| Status.StatusForToken | convex/subscriptions.ts:264-279 | status is true exactly when one user has the token and that user's earliest subscription is active; an error exactly when two users share the token |
| Status.CheckUserSubscriptionStatus | convex/subscriptions.ts:245-281 | a truthy `userId` argument decides the token, otherwise the identity does; true exactly when that token is active, an error exactly when it is shared, and an anonymous caller without argument is never active |
| Status.CheckUserSubscriptionStatusByClerkId | convex/subscriptions.ts:283-317 | true exactly when `"user_" + id` is active, or no user carries it and the raw id is; an error exactly when the token that decides is shared |
| Status.FetchUserSubscription | convex/subscriptions.ts:319-343 | an error exactly when the caller's token is shared; `null` exactly when there is no identity, no user, or a single user without subscriptions; otherwise the caller's earliest subscription |
| Status.AbsentReadsFalse | convex/subscriptions.ts:264-279 | a token no user carries, or carried by one user without subscriptions, has status `false`, not an error |
| Status.AbsenceIsNotAnError | convex/subscriptions.ts:245-343 | in all three queries, a missing identity, a missing user and a user without subscriptions give `false` (or `null`), never an error, whether the token comes from the argument, the identity or the Clerk id |
| Status.ClerkPrefersPrefixedToken | convex/subscriptions.ts:290-303 | the Clerk variant answers for `"user_" + id` whenever a user carries it, and for the raw id otherwise |
| Status.FetchAgreesWithStatus | convex/subscriptions.ts:319-341 | the status is true exactly when the fetched subscription exists and is active, and the two fail together |
| Status.RevokedFirstSubscriptionIsInactive | convex/subscriptions.ts:475-490 | revoking the subscription a user's status is read from makes that status not active, whatever status the payload carries |
| Scenarios.CreatedSubscriptionIsActive | convex/subscriptions.ts:363-395 | creating `sub_1` for `user_42` on an empty table gives one row and one ledger row, period start from the payload's instant, and an active status for `user_42` |
| Scenarios.CanceledSubscriptionIsInactive | convex/subscriptions.ts:436-455 | cancelling `sub_1` afterwards records status, cancel instant and reason, and `user_42` is no longer active |
| Catalog.FirstWithPrice | convex/subscriptions.ts:76-84 | the inner loop's hit is the first product of the page offering the price, none exactly when no product of the page does |
| Catalog.ScanState | convex/subscriptions.ts:68-89 | any `productId` the loops hold is the id of a product on some page that offers the price |
| Catalog.ProductIdForPrice | convex/subscriptions.ts:68-93 | a returned id is non-empty and belongs to a product offering the price; the error is "Product not found for price ID: …", and it is returned whenever no product offers the price |
| Catalog.ScanStopsWhenFound | convex/subscriptions.ts:88 | once `productId` is truthy after a page, later pages are not visited |
| Catalog.FindProductForPrice | convex/subscriptions.ts:68-93 | the nested loops with both `break`s compute exactly the search outcome `ProductIdForPrice` |
| Catalog.FoundProductOffersPrice | convex/subscriptions.ts:76-84 | any product id the search holds belongs to a listed product offering the price |
| Catalog.ScanFindsFirstListed | convex/subscriptions.ts:68-89 | with non-empty product ids, the search holds the id of the first product in page-then-item order offering the price, and nothing when none does |
| Catalog.ProductIdForPriceIsFirstListed | convex/subscriptions.ts:68-93 | with non-empty product ids, the outcome is that first product's id, or "Product not found for price ID: …" when no product offers the price |
| Catalog.CleanPrice | convex/subscriptions.ts:156-161 | id, amount and currency copied; interval is `recurringInterval` when truthy, "one_time" otherwise |
| Catalog.CleanItem | convex/subscriptions.ts:151-162 | id, name and recurrence copied; description defaults to ""; a missing price list becomes `[]`, otherwise each price is cleaned in order |
| Catalog.CleanAll | convex/subscriptions.ts:150-163 | one cleaned item per product, in the same order |
| Catalog.GetAvailablePlans | convex/subscriptions.ts:142-174 | the pushes build exactly the cleaned listing in page-then-item order, and pagination is `totalItems = pageSize = items.length`, `page = 1` |
| Catalog.CleaningKeepsPriceIds | convex/subscriptions.ts:77-79 | a product offers a price exactly when its cleaned plan item lists that price id |
| Catalog.FirstOfferSurvivesCleaning | convex/subscriptions.ts:150-163 | the first cleaned plan listing the price id is at the position of the first product offering the price |
| Catalog.CheckoutSelectsFirstListedPlan | convex/subscriptions.ts:68-93 | with non-empty product ids, checking out a price selects the first plan in the listing that offers it, and fails exactly when no listed plan does |

## Left out

- Calls to the Polar SDK are not modelled: `polar.products.list`, `polar.checkouts.create` and `polar.customerSessions.create`. They are network calls into a library outside this repository. The product pages are an input to the catalogue methods. The checkout request built from the found product, and `createCustomerPortalUrl`, are not modelled.
- `createCheckoutAction` is left out. Its steps are identity lookup, user lookup or creation (`api.users` is not part of this model), the email check and the `FRONTEND_URL` check. All of them are calls into the runtime or other modules.
- The environment checks are left out: `POLAR_ACCESS_TOKEN`, `POLAR_ORGANIZATION_ID`, `POLAR_SERVER` and `POLAR_WEBHOOK_SECRET`. These are configuration reads, not logic.
- `validateEvent` and `paymentWebhook` are left out. Signature checking is HMAC verification per the Standard Webhooks scheme inside a foreign library. The handler's HTTP plumbing and its 200/403/400 responses are not modelled. Events reaching the model are taken to be verified and parsed.
- Converting an ISO-8601 timestamp to epoch milliseconds (`new Date(x).getTime()`) is a parameter of type `string -> int`. Calendar arithmetic and the `NaN` of an unparsable date are not modelled.
- Payload fields that the handler copies without a test are modelled as present, with the type the table expects (`price_id`, `currency`, `amount`, timestamps, and so on). A missing copied field, which JavaScript would store as `undefined`, is not modelled. Metadata values are modelled as strings.
- Validation of inserted rows against the table schema is not modelled. A `subscription.created` payload whose metadata has no `userId` key makes the code insert `userId: undefined`; whether Convex accepts that depends on the schema, which is not part of this model. The model commits a row without an owner (`userId = None`) in that case.
- Convex system fields (`_id`, `_creationTime`) are not modelled. Rows are kept in insertion order, which is the order an index uses among equal keys. So "first" means "earliest inserted".
- Concurrency and isolation between deliveries are left out. The store provides them, and this code implements none. One mutation is atomic: it commits or rolls back as a whole.
- `console.log` calls are left out. So is `convex/auth.config.ts`: its only logic is a regular-expression capture over the Clerk publishable key at load time.

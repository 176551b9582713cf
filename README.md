# Grandstate Customs workshop: a verified model

Grandstate Customs is a car workshop's web application. Customers book service
appointments in 30-minute slots and buy parts from a shop with a cart and a
checkout. An admin panel marks arrivals and manages the catalog. The backend is
an Express and MongoDB server; the front end is a set of plain browser scripts.

This project models the core of both halves in Dafny:

- **Access gate.** Bearer-token extraction, the 401 paths and the admin role check.
- **Accounts.** Registration, which normalises the e-mail, rejects duplicates and
  forces the role "user", and login.
- **Product store.** Listing newest first, lookup, create, partial update and delete.
- **Cart protocol.** Add, which merges an entry or appends one and never exceeds the
  stock. Remove. The ±1 step. Pruning of entries whose product was deleted.
- **Checkout.** Validates every line before any change, totals price × quantity,
  decrements each stock and empties the cart.
- **Appointment lifecycle.** The schema with its status enumeration, and the
  pre-validate hook: the half-hour rule, DD/MM/YYYY normalisation and `scheduledAt`
  derivation. Also create, the admin/owner scoping of list, history and arrive, and
  the expiry sweep.
- **Front-end helpers.** The booking form check and input sanitisers, the admin
  search and badge, the shop filter and sort, the image fallback and edit-form
  checks, the token payload and expiry rule, the cart badge, and the cart page total.

**How the model is shaped**

- Each source file is one module: `AuthMiddleware`, `AuthRoutes`, `ProductRoutes`,
  `CartRoutes`, `CheckoutRoutes`, `AppointmentModel`, `AppointmentRoutes`,
  `ExpireJob`, `ScripMecanico`, `AdminPage`, `Tienda`, `AuthClient` and `Carrito`.
  The modules `Wrappers`, `Strings`, `Seqs` and `Sorting` model the JavaScript
  built-ins these files rely on. These are `trim`, ASCII `toLowerCase`, `includes`,
  one-character `split`, decimal `Number(...)`, `filter`, and `sort` with a numeric
  comparator.
- Each MongoDB collection is a class whose field the handlers reassign:
  - `ProductRoutes.Catalog` holds a product map and the next id;
  - `CartRoutes.Carts` holds a map from user to entries;
  - `AppointmentModel.AppointmentStore` and `AuthRoutes.UserCollection` hold sequences.
- Handlers that change state are methods with `modifies` clauses. Each method's
  `ensures` gives the whole new state in terms of specification functions, and
  lemmas prove properties of those functions.
- Prices are integer cents. ObjectIds are natural numbers that grow with creation,
  so sorting by id descending lists the newest first. Instants are integers in
  milliseconds.

**Parameters standing in for code outside the model**

- The JWT verifier and signer.
- The password matcher.
- The date parser (`new Date(text)`).
- The payload decoder (`atob`, `decodeURIComponent`, `JSON.parse`).
- The clock.
- The responses of `fetch`.

## Model

| member | source | states |
|---|---|---|
| AuthMiddleware.BearerToken | backend/middleware/auth.js:4-8 | A token is found only in a header that starts with "Bearer", and it is non-empty with no spaces. No header, an empty header or a bare "Bearer" gives no token. |
| AuthMiddleware.BearerRoundTrip | backend/middleware/auth.js:5-6 | The header `Bearer <token>` the front end sends yields exactly that token. |
| AuthMiddleware.Protect | backend/middleware/auth.js:3-17 | No token gives NoToken. The call succeeds exactly when the token verifies, and the request user is then the verified claims. Every failure is 401. |
| AuthMiddleware.Admin | backend/middleware/auth.js:19-25 | Passes exactly a present user whose role is "admin"; otherwise 403. |
| AuthMiddleware.AdminAccess | backend/routes/productRoutes.js:29 | The protect-then-admin chain succeeds iff protect succeeds with role "admin". A protect failure passes through unchanged, and a non-admin gets 403. |
| AuthRoutes.NormalizeEmail | backend/routes/authRoutes.js:16 | The stored form of an e-mail has no surrounding white space and no upper-case ASCII letter. |
| AuthRoutes.NormalizeEmailIdempotent | backend/routes/authRoutes.js:16 | Normalising an already normalised e-mail changes nothing, so the lookup and the stored form agree. |
| AuthRoutes.FindByEmail | backend/routes/authRoutes.js:16 | Finds the first user with that e-mail, or reports that no user has it. |
| AuthRoutes.Register | backend/routes/authRoutes.js:8-39 | A missing name, e-mail or password gives 400 and nothing is stored. An existing normalised e-mail gives 400 and nothing is stored. Otherwise exactly one user is appended, with a trimmed name, the normalised e-mail and role "user" whatever the body says. The answer is a token for {id, "user"}. The collection stays valid: e-mails are unique and normalised. |
| AuthRoutes.Login | backend/routes/authRoutes.js:42-61 | Succeeds iff the normalised e-mail is known and the password matches. The token then carries exactly the stored {id, role}. A known body with an unknown e-mail or a wrong password gives 401; a missing e-mail gives 500. |
| AuthRoutes.LoginAfterRegister | backend/routes/authRoutes.js:21-31 | After a registration, logging in with any spelling of the e-mail that normalises to the same address, and a matching password, returns the token for the new account with role "user". |
| ProductRoutes.IdsDescending | backend/routes/productRoutes.js:10 | Lists only ids of the set that are below the bound, in strictly descending order, so none twice. |
| ProductRoutes.IdsDescendingComplete | backend/routes/productRoutes.js:10 | Every id of the set below the bound is listed. |
| ProductRoutes.ListProducts | backend/routes/productRoutes.js:8-15 | Lists every product exactly as stored, in strictly descending id order. |
| ProductRoutes.NewestListedFirst | backend/routes/productRoutes.js:10 | The product created last is listed first. |
| ProductRoutes.GetProduct | backend/routes/productRoutes.js:18-26 | Succeeds iff the id exists, and then gives that product; otherwise 404. |
| ProductRoutes.CreateProduct | backend/routes/productRoutes.js:29-37 | A gate failure is returned and the catalog is unchanged. Otherwise the product is stored under a fresh id and no other product changes. |
| ProductRoutes.UpdateProduct | backend/routes/productRoutes.js:40-66 | A gate failure or an unknown id changes nothing; an unknown id gives 404. Otherwise exactly the fields present in the patch are overwritten and the rest keep their values. The stock is stored as given, with no sign check. |
| ProductRoutes.DeleteProduct | backend/routes/productRoutes.js:69-81 | A gate failure or an unknown id changes nothing; an unknown id gives 404. Otherwise exactly that product is removed. |
| CartRoutes.FindIndex | backend/routes/cartRoutes.js:59 | The index of the first entry of the product, or -1 when there is none. |
| CartRoutes.QuantityOfPositive | backend/routes/cartRoutes.js:59-62 | In a cart kept well formed, a product's quantity is never negative. It is positive iff the cart has an entry for it. |
| CartRoutes.Pruned | backend/routes/cartRoutes.js:13 | Keeps, in order, exactly the entries whose product exists. |
| CartRoutes.PrunedWellFormed | backend/routes/cartRoutes.js:13 | Pruning keeps product ids unique and quantities positive. |
| CartRoutes.PrunedIdempotent | backend/routes/cartRoutes.js:150 | Pruning a pruned cart drops nothing more. |
| CartRoutes.PrunedSameLength | backend/routes/cartRoutes.js:14 | A pruning that drops nothing gives the cart back unchanged, so skipping the save then loses nothing. |
| CartRoutes.Without | backend/routes/cartRoutes.js:141 | Keeps, in order, exactly the entries of other products. |
| CartRoutes.SpliceIsWithout | backend/routes/cartRoutes.js:96-99 | In a cart with unique products, splicing out the found index equals filtering out the product. |
| CartRoutes.FilterWellFormed | backend/routes/cartRoutes.js:141 | Any filter keeps a cart's products unique and quantities positive. |
| CartRoutes.AddQuantity | backend/routes/cartRoutes.js:45-46 | The add quantity is the requested value when positive, otherwise 1, so it is always at least 1. |
| CartRoutes.AddToItems | backend/routes/cartRoutes.js:59-75 | Succeeds iff the current quantity plus the added one is within stock; otherwise 400 naming the stock. On success the product's quantity is the sum, and other products' quantities and entries are unchanged. The cart grows by at most one entry and stays well formed. |
| CartRoutes.ApplyDelta | backend/routes/cartRoutes.js:138-142 | A positive result sets the quantity. A result of 0 or less removes the product's entry. Every other product keeps its quantity, and the cart stays well formed. |
| CartRoutes.CleanupOrphanItems | backend/routes/cartRoutes.js:8-18 | No cart gives null and no change. Otherwise the stored cart becomes its pruned form, and that form is returned. |
| CartRoutes.GetCart | backend/routes/cartRoutes.js:21-36 | An absent cart is created empty; an existing one is pruned and stored. |
| CartRoutes.AddItem | backend/routes/cartRoutes.js:39-86 | A missing productId gives 400, an unknown product 404 and stock ≤ 0 gives 400. Otherwise the result is the add on the caller's cart. The cart is saved only on success, and all carts stay well formed. |
| CartRoutes.RemoveItem | backend/routes/cartRoutes.js:89-109 | No cart gives 404 and a product not in the cart gives 404, with no change. Otherwise exactly the product's entry is removed and the others keep their order. |
| CartRoutes.QuantityChange | backend/routes/cartRoutes.js:115-152 | No entry for the product gives 404. For +1, an unknown product gives 404 and a quantity above the stock gives 400. Otherwise the answer is the stepped cart, pruned of unknown products, and it stays well formed. |
| CartRoutes.ChangeQuantity | backend/routes/cartRoutes.js:112-160 | A delta other than ±1 gives 400 and no cart gives 404. Otherwise the answer is the one QuantityChange gives for the stored cart. On success the pruned cart is what stays stored; on failure nothing changes. |
| CheckoutRoutes.LinesTotal | backend/routes/checkoutRoutes.js:25-35 | Defined as Σ price × quantity over the lines, from first to last. |
| CheckoutRoutes.FirstShort | backend/routes/checkoutRoutes.js:28-34 | The first line whose stock is below its quantity, or none when every line is covered. |
| CheckoutRoutes.Decremented | backend/routes/checkoutRoutes.js:39-43 | The decrement pass keeps the set of products. |
| CheckoutRoutes.DecrementedExact | backend/routes/checkoutRoutes.js:39-43 | With one line per product, each product's stock drops by exactly its cart quantity and nothing else changes. |
| CheckoutRoutes.CheckoutStockNonNegative | backend/routes/checkoutRoutes.js:29 | After validation passed, no stock that was non-negative goes below zero. |
| CheckoutRoutes.CheckoutOfStoredCart | backend/routes/checkoutRoutes.js:18-43 | For a cart kept by the cart routes, a validated checkout lowers each stock by exactly its quantity and never below zero. |
| CheckoutRoutes.ValidateLines | backend/routes/checkoutRoutes.js:25-36 | The validation loop reports the first line short of stock, with its product's name. When every line is covered it returns Σ price × quantity. |
| CheckoutRoutes.DecrementStock | backend/routes/checkoutRoutes.js:39-43 | The decrement loop leaves the catalog equal to the decremented catalog. |
| CheckoutRoutes.Checkout | backend/routes/checkoutRoutes.js:9-58 | No cart gives 400 and nothing changes. An empty pruned cart is saved empty and gives 400. A short line gives 400 naming its product, and no stock or cart changes. Otherwise the result is the total, every stock is decremented and the cart is emptied. |
| AppointmentModel.ParseStatus | backend/models/Appointment.js:17-21 | Only the four status names are statuses. |
| AppointmentModel.StatusRoundTrip | backend/models/Appointment.js:17-21 | Every status's stored name parses back to it. |
| AppointmentModel.MinuteOf | backend/models/Appointment.js:30 | An hour with no ':' has no minute. Otherwise the minute is the number after the first ':', per MinuteOfHourMinute. |
| AppointmentModel.MinuteOfHourMinute | backend/models/Appointment.js:30 | For "HH:MM" text with no other ':', the minute is exactly `Number` of the part after the colon. |
| AppointmentModel.HalfHourOfHourMinute | backend/models/Appointment.js:30-33 | An "HH:MM" hour with a digit minute passes the half-hour rule iff its minute is 0 or 30, so "10:30" passes and "10:15" does not. |
| AppointmentModel.IsoDate | backend/models/Appointment.js:39-44 | A date without '/' is used as it is. |
| AppointmentModel.IsoDateOfDayMonthYear | backend/models/Appointment.js:41-43 | `dd/mm/yyyy` is rewritten as `yyyy-mm-dd`. |
| AppointmentModel.PreValidate | backend/models/Appointment.js:27-48 | A present hour off the half hour throws. A supplied scheduledAt is never overwritten. When scheduledAt is absent and date and hour are present, it is derived from the parsed form of `isoDate + "T" + hour + ":00"`. Nothing else changes. |
| AppointmentModel.MissingPaths | backend/models/Appointment.js:4-13 | No path is missing iff user, nombre, telefono, service, date, hour and scheduledAt are all present. |
| AppointmentModel.Validate | backend/models/Appointment.js:3-48 | Validation passes iff every required field is present, the hour is on the half hour, and a scheduledAt is supplied or derivable. The supplied one takes precedence, and nothing else changes. |
| AppointmentModel.StoredRevalidates | backend/routes/appointmentRoutes.js:84-85 | A stored record saved again with any status validates unchanged. |
| AppointmentModel.AppointmentStore.constructor | backend/models/Appointment.js:50 | The collection starts empty and valid. |
| AppointmentRoutes.RequestedInstant | backend/routes/appointmentRoutes.js:21 | Defined as the parse of the explicit scheduledAt when one is given, otherwise the parse of `${date}T${hour}:00`. |
| AppointmentRoutes.CreateAsWritten | backend/routes/appointmentRoutes.js:8-37 | Defined as the create handler as written: the same checks as the corrected one, but the record it saves carries no `nombre` or `telefono`. |
| AppointmentRoutes.CreateAsWrittenNeverBooks | backend/routes/appointmentRoutes.js:8-37 | As written, create never succeeds. A complete, well-timed request is answered 500. |
| AppointmentRoutes.Create | backend/routes/appointmentRoutes.js:8-37 | The corrected create. A missing field gives 400, and an hour off the half hour, including one with no ':', gives 400. It succeeds iff every field is given, the slot is on the half hour and the instant parses. The explicit scheduledAt takes precedence. The record is owned by the caller and starts scheduled. |
| AppointmentRoutes.CreateAppointment | backend/routes/appointmentRoutes.js:23-32 | A successful create appends exactly the new record under the next id; anything else stores nothing. |
| AppointmentRoutes.ListAppointments | backend/routes/appointmentRoutes.js:40-53 | An admin gets every appointment. Anyone else gets exactly their own, in store order. |
| AppointmentRoutes.History | backend/routes/appointmentRoutes.js:56-72 | Exactly the expired or arrived appointments: all of them for an admin, the caller's own otherwise. |
| AppointmentRoutes.HistoryIsFinishedListing | backend/routes/appointmentRoutes.js:43-66 | The history is the finished part of what the same caller may list. |
| AppointmentRoutes.Arrive | backend/routes/appointmentRoutes.js:75-91 | An unknown id gives 404 and a non-admin non-owner gets 403, with no change. Otherwise the status becomes arrived from any prior status, and no other field and no other record changes. |
| ExpireJob.Expire | backend/jobs/expireAppointments.js:7-10 | A record becomes expired iff it was overdue (or already expired). A record that is not overdue is unchanged, and only the status can change. |
| ExpireJob.Overdue | backend/jobs/expireAppointments.js:8 | Defined as the `updateMany` filter: the status is "scheduled" and scheduledAt is given and not after now. |
| ExpireJob.Swept | backend/jobs/expireAppointments.js:7-10 | The update applies to every record, position by position. |
| ExpireJob.ModifiedCountIsChanged | backend/jobs/expireAppointments.js:11-13 | The modified count equals the number of records the update changed. |
| ExpireJob.SecondSweepModifiesNothing | backend/jobs/expireAppointments.js:7-10 | A second sweep at the same instant modifies nothing. |
| ExpireJob.LaterSweepSubsumes | backend/jobs/expireAppointments.js:7-10 | A sweep at a later instant subsumes an earlier one. |
| ExpireJob.UpdateOverdue | backend/jobs/expireAppointments.js:7-10 | The record-by-record update leaves exactly the swept store. It counts the records that were overdue. |
| ExpireJob.SweepFacts | backend/jobs/expireAppointments.js:7-13 | A sweep keeps the store valid and leaves no record overdue. The number of overdue records equals the number the sweep changed. |
| ExpireJob.ExpireAppointments | backend/jobs/expireAppointments.js:4-17 | The store becomes the swept store, with no scheduled record overdue left. The count is the number of records changed, and the store stays valid. |
| ScripMecanico.PhoneOk | frontend/ScripMecanico.js:28 | Defined as `/^\d{7,10}$/`: seven to ten ASCII digits and nothing else. |
| ScripMecanico.NameOk | frontend/ScripMecanico.js:31 | Defined as `/^[a-zA-ZáéíóúÁÉÍÓÚñÑ\s]+$/`: one or more letters, accented vowels, ñ or white space. |
| ScripMecanico.ValidarCampos | frontend/ScripMecanico.js:24-43 | The form is accepted iff every field is filled, the phone is 7–10 ASCII digits, the name is made of allowed characters, and the date-time parses strictly after now. The errors come in order, each stated as an iff: an empty field, then the phone, then the name, then a date-time that does not parse, then one not in the future. |
| ScripMecanico.SanitizePhone | frontend/ScripMecanico.js:311-314 | The result is the input's digits in order when there are at most ten, and otherwise the first ten of them. |
| ScripMecanico.SanitizePhoneIdempotent | frontend/ScripMecanico.js:311-314 | Sanitising the phone twice is sanitising it once. |
| ScripMecanico.SanitizePhoneKeepsValid | frontend/ScripMecanico.js:311-314 | A phone the form accepts is left unchanged by the sanitiser. |
| ScripMecanico.SanitizeName | frontend/ScripMecanico.js:318-320 | Keeps, in order, exactly the allowed characters; a non-empty result passes the name check. |
| ScripMecanico.SanitizeNameIdempotent | frontend/ScripMecanico.js:318-320 | Sanitising the name twice is sanitising it once. |
| ScripMecanico.SortCitas | frontend/ScripMecanico.js:117 | Sorts the appointments in place into ascending instant order, as a permutation. |
| ScripMecanico.EditDate | frontend/ScripMecanico.js:189-194 | The date is `yyyy-mm-dd`, with month (counted from 1) and day zero-padded, and it contains no '/'. |
| ScripMecanico.EditTime | frontend/ScripMecanico.js:192-195 | The time is `hh:mm` with both parts zero-padded; five characters for in-range values. |
| ScripMecanico.EditDateIsIso | frontend/ScripMecanico.js:194 | The schema keeps the edit form's date as it is. |
| ScripMecanico.EditTimeHalfHour | frontend/ScripMecanico.js:195 | The edit form's time passes the half-hour rule iff its minutes are 0 or 30. |
| Sorting.SortBy | frontend/tienda.js:81-82 | The in-place numeric sort leaves the array ascending by key and a permutation of what it was. |
| AdminPage.BadgeClass | frontend/admin.js:43-47 | The result is always a status name. It is the lower-cased input when that names a status, otherwise "scheduled". |
| AdminPage.BadgeClassIdempotent | frontend/admin.js:43-47 | A badge class is its own badge class. |
| AdminPage.BadgeOfStoredStatus | frontend/admin.js:131 | Each stored status gets its own badge. |
| AdminPage.Query | frontend/admin.js:51 | Defined as the search text, empty when absent, trimmed and then lower-cased. |
| AdminPage.RowMatches | frontend/admin.js:55-67 | Defined as: one of the lower-cased e-mail, name, phone, service or scheduledAt fields, each empty when absent, contains the query. |
| AdminPage.FilterData | frontend/admin.js:50-69 | A blank or white-space query returns the whole cache. Otherwise the result is the order-preserving subsequence of rows where one lower-cased field contains the trimmed, lower-cased query. |
| AdminPage.Loaded | frontend/admin.js:178-185 | History mode keeps the response. Active mode keeps exactly the scheduled rows, whose arrive button is on. |
| AdminPage.Load | frontend/admin.js:174-192 | A failed request keeps the cache and renders nothing. A successful one replaces the cache and renders the search over it. |
| AdminPage.SwitchMode | frontend/admin.js:209-217 | Sets the mode, then loads as above. |
| Tienda.Matching | frontend/tienda.js:71-79 | Keeps, in order, exactly the products whose lower-cased name contains the lower-cased, trimmed search text. |
| Tienda.BlankSearchKeepsAll | frontend/tienda.js:71-79 | A blank search keeps every product. |
| Tienda.RenderFiltered | frontend/tienda.js:70-85 | The shown products are a permutation of the matching ones. "priceAsc" gives ascending price, "priceDesc" descending, with a missing price counting as 0. Any other choice keeps the loading order. |
| Tienda.SafeImage | frontend/tienda.js:87-93 | A missing or blank url gives the fallback, otherwise the trimmed url; never empty and never padded with white space. |
| Tienda.SafeImageIdempotent | frontend/tienda.js:87-93 | A safe image is its own safe image. |
| Tienda.OutOfStock | frontend/tienda.js:102-103 | Defined as: the stock, 0 when absent, is at most 0, which disables both buy buttons. |
| Tienda.BuyableCanBeAdded | frontend/tienda.js:102-103 | A card with its buy buttons on shows a product that the cart accepts once. |
| Tienda.SubmitEditForm | frontend/tienda.js:332-362 | Rejects, in order, an empty trimmed name, a price that is not a non-negative dollar amount, and a stock that is not a non-negative number. Otherwise it sends the trimmed name, image and description, the price in cents and the parsed stock. |
| Tienda.SubmitEditFormDecimalPrice | frontend/tienda.js:344-353 | A price typed with two decimals, such as "19.99", is accepted and sent as that many cents (1999). |
| AuthClient.ToBase64 | frontend/auth.js:6 | Maps each base64url character to base64, leaving no '-' or '_'. |
| AuthClient.Base64UrlRoundTrip | frontend/auth.js:6 | The base64url-to-base64 mapping is undone by its inverse on base64url text. |
| AuthClient.Base64RoundTrip | frontend/auth.js:6 | The inverse mapping is undone by the forward one on base64 text. |
| AuthClient.ParseJwt | frontend/auth.js:3-17 | A token with no '.' gives null. Otherwise the result is the decoded second segment, after its base64url characters are mapped back to base64. |
| AuthClient.ParseJwtOfToken | frontend/auth.js:3-17 | A token made of a header, a base64url payload and a signature, with no '.' inside any of them, yields exactly the decoded payload. |
| AuthClient.Logout | frontend/auth.js:59-65 | Removes exactly the token and the role from storage. |
| AuthClient.Expired | frontend/auth.js:31 | Defined as: exp is given and non-zero, and now in milliseconds is at least exp × 1000. |
| AuthClient.SaveRoleFromToken | frontend/auth.js:23-38 | No token or an undecodable one gives null and no change. An expired payload (exp given, non-zero and now ≥ exp×1000) logs out and gives null. Otherwise a given role is stored and returned. |
| AuthClient.Quantities | frontend/auth.js:90-93 | The quantities the cart response carries, one per entry. |
| AuthClient.CartCount | frontend/auth.js:93 | Defined as the sum of the entries' quantities, a missing one counting as 0. |
| AuthClient.CartCountOfStoredCart | frontend/auth.js:93 | For a stored cart, the count is at least the number of entries. |
| AuthClient.CartBadge | frontend/auth.js:66-106 | The badge is visible iff there is a token, the request succeeded and the summed quantity is positive; it then shows that number. Otherwise it shows "0", hidden. |
| AuthClient.BadgeShownIffCartNonEmpty | frontend/auth.js:95-101 | For a stored cart the badge is shown iff the cart has an entry. |
| Carrito.LoadCart | frontend/carrito.js:30-99 | An empty list gives 0. The loop's total is Σ price × quantity over the items that have a product, with a missing price or quantity counting as 0. Subtotal and total always agree. |
| Carrito.CartTotal | frontend/carrito.js:45-53 | Defined as Σ subtotal over the items, from first to last. |
| Carrito.Populated | backend/routes/cartRoutes.js:9 | The items a populated cart sends, one per entry with its product's price. |
| Carrito.PageTotalIsCheckoutTotal | frontend/carrito.js:45-53 | For a cleaned-up cart, the total the cart page shows equals the total checkout charges. |

## Left out

- I/O and wiring are not modelled. This covers the Express routing, `res.json` bodies
  and messages, the database connection, the `setInterval` timers, the DOM,
  `alert`/`confirm`, redirects and `fetch`. Handlers take the request's fields and
  return the status kind and the value.
- Concurrency is not modelled. Each handler is one atomic step, so the model has
  neither the check-then-act stock race between concurrent adds and checkouts nor
  the non-transactional per-line decrement.
- Floating point is not modelled. Amounts of money are integer cents and quantities
  are integers. Decimal text such as "1.5" reads as not a number except where a
  price is typed, and `toFixed(2)` formatting is not part of this model.
- Tienda.SubmitEditForm reads a price to the cent: "20" is 2000 cents, "19.99" is
  1999. A price with more than two decimals, an exponent or a hexadecimal form, all
  of which `Number` accepts, is rejected as `BadPrice`. The form has no cents
  representation for those values. Filling the form from the stored product
  (`openEditModal`) and the create form's price are not part of this model.
- ProductRoutes.UpdateProduct and ProductRoutes.CreateProduct take typed fields, so
  the route's coercions are not modelled. `PUT /:id` applies `String(...)` or
  `Number(...)` to every field that is not `undefined`, so `null` passes the check:
  `price: null` stores 0 and `name: null` stores "null". A non-numeric price,
  and the schema's cast of a create body, fail with a cast error answered 500.
  `ProductPatch` carries only absent fields or values already of the right type.
- Several calls are parameters, not code. These are JWT signing and verification,
  password hashing and `matchPassword`, `new Date(...)` parsing, time zones,
  `toLocaleString`, and `atob`/`decodeURIComponent`/`JSON.parse`.
- `Number(text)` is modelled only for the forms the application meets. After
  trimming, an empty string is 0, a run of ASCII digits is its value, and anything
  else is NaN. Signs, exponents, hexadecimal and `Infinity` are not modelled.
- `toLowerCase` is modelled on the ASCII letters only.
- Malformed ObjectIds, which Mongoose rejects with a cast error answered 500, are
  not modelled. Ids are natural numbers.
- The Product, User and Cart schemas are not part of this model. Save failures there
  are not modelled, including a pre-save password hash and unique indexes. Register
  stores the password as given.
- Mongoose `populate` is reduced to what the handlers read. The admin's extra
  `populate('user', 'email')` and the `parts` references are carried but not resolved.
- `AppointmentModel.Validate` merges two errors into one. When the derived instant
  is an Invalid Date, the model reports only the scheduledAt cast error, not that
  error together with the other required-path errors in one ValidationError.
- `AppointmentRoutes.Create` does not model what Mongoose does when the route itself
  hands it an Invalid Date. That case is answered 500 (`ServerError`), as the
  route's `catch` does.
- `Sorting.SortBy` does not prove stability. JavaScript's sort is stable; the
  insertion sort here is too, but stability is not stated.
- The front end calls appointment edit and delete endpoints, but the router has no
  such routes. They are not modelled, and neither is `editingId`.
- No business-hours or closed-day rule exists in the code, and none is modelled.
- History follows the code: a non-admin sees their own expired and arrived records.
- `ScripMecanico.ScheduledKey` treats a missing instant as 0. The source's
  comparator would give NaN there.

## Findings

| source | as written | input that shows it | evidently intended | confidence | as-written member | corrected member |
|---|---|---|---|---|---|---|
| backend/routes/appointmentRoutes.js:23-29 | The create route builds an appointment without `nombre` and `telefono`, which backend/models/Appointment.js:7-8 mark required, so `save()` throws and the route answers 500 | Any complete request, e.g. service "Afinación", date "2030-05-10", hour "10:30", no scheduledAt | Read `nombre` and `telefono` from the body, require them with the other fields (400 when missing), and store them | high, not executed | AppointmentRoutes.CreateAsWrittenNeverBooks | AppointmentRoutes.Create |

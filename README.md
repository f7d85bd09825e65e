# Garage management: request rules and tables

A model of a multi-tenant garage-management web application for two-wheeler
workshops. Garages register with an activation code. Their admins and
mechanics then file job cards for customers' bikes, list the spare parts used
(typed in or scanned by barcode), and issue invoices that close the card and
count the visit against the customer. Everything a garage sees is scoped to
its own `garageId`.

The model covers:

- **Server guards** (`Middleware`): bearer-token authentication, the role
  check, the garage-isolation check, and the chain a route puts in front of
  its handler.
- **Registration and login** (`AuthRoutes`): the activation-code table, the
  duplicate-email check, the garage created for admins, the identical login
  failures, and the password left out of responses.
- **Handlers that write** (`GarageRoutes`): job-card creation with its
  customer find-or-create and the stock-debit loop, the job-card update,
  invoice issuance, the spare-part update and delete, and the garage update.
- **The storage layer** (`Storage`): a `Store` class holding the six tables
  as sequences, the serial counter that issues ids and the clock that stamps
  `createdAt`. It has the scoped and unscoped lookups, the listings ordered
  newest first, the low-stock query, the inserts, the partial updates by id,
  the scoped delete and the sales statistics.
- **The schema** (`Schema`): row records, column defaults, the fields each
  insert schema omits, and the partial updates.
- **Client-side logic**:
  - the job-card page's parts editor and total (`JobCardPage`)
  - the invoice page's totals and payload (`InvoicePage`)
  - the searches and low-stock badge (`SparePartsPage`, `CustomersPage`,
    `PendingServicesPage`)
  - the WhatsApp link (`WhatsApp`)

`Common` and `Text` hold the sequence and string helpers the modules share.
These are JavaScript's `filter`, `reduce`, `toLowerCase`, `includes`,
`split(' ')[1]`, `parseInt` and number-to-string. Each `find` and
`findIndex` is modelled where it is called, with its own predicate.

Modelling choices:

- **Money.** Money is counted in integer paise, not JavaScript floats or
  decimal strings.
- **Ids and time.** Ids are the decimal strings of a serial counter, in
  place of `gen_random_uuid()`. Times are readings of the store's clock,
  advanced between requests by `AdvanceClock`.
- **Row order and listings.** Tables keep rows in insertion order, so their
  `createdAt` never decreases along a table. "ORDER BY created_at DESC" is
  therefore a scan of the reversed table, and `ListingsNewestFirst` proves
  that such listings really come out newest first.
- **The store invariant.** `Store.Valid()` is the invariant that every
  method keeps. Every id was issued and is unique. No row's time is later
  than the clock. Times are sorted along each table. Emails are unique.
- **Foreign keys.** An insert whose foreign keys name no row fails and
  writes nothing, as the database's foreign-key constraints make it.
- **Library calls as parameters.** bcrypt's hash and compare, JWT sign and
  verify, `encodeURIComponent` and the locale date format are function
  parameters.

Choices the model makes where the routes do less than one might expect:

- **Duplicate invoices.** The invoice route has no duplicate-invoice guard.
  A second invoice for the same job card is issued, and the visit is
  counted again (`RepeatInvoiceCountsTwice`). The model follows the route.
- **Invoice tenancy.** The invoice route only needs the job card to exist.
  It then completes the card by id, whatever garage the card is in. The
  model does the same.
- **Invoice atomicity.** The invoice route makes its three writes one after
  another, with no transaction. The model writes them in the same order. Its
  first write already fails when the job card is missing, so no partial
  state arises there.
- **Registration.** A second registration with a known email is answered
  400 "User already exists". The activation code is checked before the
  email. The model keeps both.
- **Job-card totals.** The job-card route stores the total the client
  sends rather than deriving it from the parts. The model stores it as sent.

## Model

| member | source | states |
|---|---|---|
| Middleware.BearerToken | server/routes.ts:22-23 | The token is present exactly for a present header whose second space-separated field (`split(' ')[1]`) exists and is non-empty, and it is that field. It contains no space. A header with no space yields no token. |
| Middleware.BearerTokenOfHeader | server/routes.ts:22-23 | The header `Bearer <t>` yields exactly `t`. |
| Middleware.Authenticate | server/routes.ts:21-40 | No token gives 401 "Access token required". A token `verify` rejects gives 403 "Invalid token". A verified email that no user has gives 401 "User not found". The result is Ok exactly when the token verifies and some user has the claimed email, and that user is returned. |
| Middleware.AuthenticatesAsTheOwner | server/routes.ts:30-35 | A token verified for `u.email` authenticates as `u` itself, because emails are unique. |
| Middleware.RequireRole | server/routes.ts:43-50 | Passes iff a user is present and their role is in the list; otherwise 403 "Insufficient permissions". |
| Middleware.CheckedGarageId | server/routes.ts:59 | The id checked is the route parameter when it is non-empty, else the body's `garageId` when that is non-empty, else none. |
| Middleware.RequireGarageAccess | server/routes.ts:53-64 | A super admin always passes. Anyone else passes iff a checked garage id exists and equals their own `garageId`. Otherwise 403 "Access denied to this garage". |
| Middleware.Gate | server/routes.ts:21-64 | A request passes the chain exactly when it authenticates, holds one of the route's roles (when the route lists any) and passes the garage check, and it passes as the authenticated user. A refused request carries the error of the first guard that fails: the authentication error, then 403 "Insufficient permissions", then 403 "Access denied to this garage". |
| Middleware.GateIsolatesGarages | server/routes.ts:53-64 | Anyone but a super admin who gets through the chain of a route naming garage `g` belongs to `g`. |
| Middleware.UnboundUsersAreRefused | server/routes.ts:59-62 | A non-super-admin with a null `garageId` is refused by every garage check. |
| AuthRoutes.ActivationRole | server/routes.ts:74-83 | The corrected lookup, by own property: `GG-ADMIN-2025` maps to garage admin and `GG-STAFF-2025` to mechanic staff. Every other code maps to no role. No code yields super admin. |
| AuthRoutes.ActivationLookupAsWritten | server/routes.ts:74-83 | `validCodes[activationCode]` as written: the two codes give their roles; a name inherited from `Object.prototype` gives a truthy value outside the three roles; every other code gives undefined. No code yields super admin. |
| AuthRoutes.InheritedNamesPassTheCodeCheck | server/routes.ts:79-81 | Every inherited name passes the code check as written and is refused by the own-property lookup. |
| AuthRoutes.Redact | server/routes.ts:118 | The public user keeps the id, email, role, garage, name and creation time. It has no password field at all. |
| AuthRoutes.RedactForgetsOnlyThePassword | server/routes.ts:118 | Two users redact to the same response exactly when they differ at most in the password. |
| AuthRoutes.Enrol | server/routes.ts:85-118 | After the code check: a known email gives 400 "User already exists" with no write. An admin gets a new garage built from the body, then a user bound to it. Any other role gets a user with a null `garageId`. The response holds the signed token, the redacted user and the garage, or null. |
| AuthRoutes.Register | server/routes.ts:69-125 | The corrected route. An invalid code gives 400 with no write. A known email gives 400 with no write. An admin gets a new garage built from the body, then a user bound to that garage. Staff get a user with a null `garageId`. The response holds the signed token, the redacted user and the garage, or null for staff. |
| AuthRoutes.RegisterAsWritten | server/routes.ts:69-125 | The route as written: the same outcomes, with the code check of `ActivationLookupAsWritten`. An inherited name with a new email stores a user whose role is that inherited value, with a null `garageId`, and answers 200 with a token. |
| AuthRoutes.Login | server/routes.ts:127-157 | Every failure is the same 401 "Invalid credentials". Success needs the user found by email and a matching password, and returns the signed token, the redacted user and the user's garage when they have one. |
| AuthRoutes.LoginSucceedsIff | server/routes.ts:131-139 | Login succeeds iff some user has the email and the password matches that user's stored hash. |
| AuthRoutes.RegisteredUserLogsIn | server/routes.ts:131-152 | A stored user with a matching password logs in as themself. |
| GarageRoutes.MatchingCustomer | server/routes.ts:295-297 | Returns the first customer with equal phone and bike number, or none when no customer has both. |
| GarageRoutes.DebitOne | server/routes.ts:317-321 | One pass keeps the number of parts, changes at most quantities, and leaves every part with another id as it was. |
| GarageRoutes.DebitAll | server/routes.ts:316-324 | After any number of passes, the stock has as many parts as before, and only quantities have changed. |
| GarageRoutes.DebitOneOnDistinct | server/routes.ts:317-321 | When part ids are distinct, one pass debits exactly the garage's part with the listed id by the listed quantity and keeps every other part. |
| GarageRoutes.DebitAllClosedForm | server/routes.ts:314-324 | After the loop, each part of the garage has lost the total quantity the lines list for it. Every part of any other garage is unchanged. The number of parts is unchanged. |
| GarageRoutes.DebitCanGoNegative | server/routes.ts:319-321 | There is no floor: a quantity of 1 debited by 3 becomes -2. |
| GarageRoutes.DebitLine | server/routes.ts:317-322 | One pass of the loop: a part found in the garage drops by the listed quantity, and an unresolved id changes nothing. Nothing else changes. |
| GarageRoutes.DebitStock | server/routes.ts:315-324 | The loop over the card's parts leaves the stock as `DebitAll` of the lines, in order. Nothing but the spare-parts table changes. |
| GarageRoutes.ParseJobCardAsWritten | server/routes.ts:292 | The insert schema as written accepts a body iff it carries a `customerId`. |
| GarageRoutes.ParseJobCard | server/routes.ts:292 | The corrected validation keeps every sent field and takes the garage from the path. It does not demand a `customerId`. |
| GarageRoutes.PostJobCardAsWritten | server/routes.ts:289-331 | A body without `customerId` is answered 500 "Failed to create job card" and nothing is written. A body with one is handled as `PostJobCard` handles it: 500 with no write without the garage, otherwise the card `FiledState` files and the parts debited. |
| GarageRoutes.PostJobCard | server/routes.ts:294-326 | A missing garage gives 500 with nothing written; otherwise the result is Ok. The result is the card `FiledState` files. The new state is the filed state with the listed parts debited. |
| GarageRoutes.FiledState | server/routes.ts:295-312 | Filing appends the card to the job cards and at most one customer to the customers, and touches no other table. The card's id is the last one generated, and one or two ids are used. |
| GarageRoutes.FiledCardHasItsCustomer | server/routes.ts:295-312 | The filed card is of this garage, pending, with no completion time, and its parts default to `[]`. Its customer is a customer of the same garage with the card's phone and bike. A customer is added exactly when the garage had none with that phone and bike. |
| GarageRoutes.FileJobCard | server/routes.ts:295-312 | It fails (None) exactly when the garage does not exist, and then writes nothing. Otherwise the new state and the card are those of `FiledState`. |
| GarageRoutes.FileFor | server/routes.ts:308-312 | The card insert for a stored customer: it fails exactly when the garage does not exist, writing nothing; otherwise the card is `FiledCard` of the serial and clock, under that customer with parts defaulting to `[]`, appended to the cards with the serial advanced. |
| GarageRoutes.JobCardUpdateBody | server/routes.ts:336 | The update body has `status` and `completedAt` stripped, and every other field kept. |
| GarageRoutes.UpdateKeepsCompletion | server/routes.ts:333-343 | A job-card PUT never changes a card's status or completion time. |
| GarageRoutes.PutJobCard | server/routes.ts:333-343 | Patches the card with that id in any garage. Returns the patched card, or none when no card has the id. |
| GarageRoutes.PostInvoice | server/routes.ts:356-383 | A missing garage, job card or customer gives 500 with nothing written. Otherwise: the invoice is appended, the card with that id is completed at the current time, and the card's customer, if found in this garage, gets the visit patch. Nothing else changes. |
| GarageRoutes.CompleteJobCard | server/routes.ts:364-367 | The card is patched to completed, with `completedAt` now. The updated card is returned. |
| GarageRoutes.RecordVisit | server/routes.ts:370-377 | A customer found in the garage gets one more job, the amount added to their spend and the visit time; otherwise nothing changes. |
| GarageRoutes.InvoiceClosesTheCard | server/routes.ts:364-367 | After the invoice, the card is found, completed at the invoice time, and has the same customer. |
| GarageRoutes.InvoiceCountsTheVisit | server/routes.ts:370-376 | After the invoice, the customer's `totalJobs` is one more (null as 0), `totalSpent` is up by the invoice total, and `lastVisit` is the invoice time. Nothing else about the customer changes. |
| GarageRoutes.RepeatInvoiceCountsTwice | server/routes.ts:361-377 | With no duplicate guard, two invoices count two jobs and both totals. |
| GarageRoutes.PutSparePart | server/routes.ts:255-265 | As written, the part with that id is patched in whichever garage it is. |
| GarageRoutes.UnscopedUpdateReachesOtherGarages | server/routes.ts:257-260 | A part of another garage is changed by the update. |
| GarageRoutes.ScopedPatchStaysInGarage | server/routes.ts:255-265 | The corrected, garage-scoped update leaves every part of every other garage unchanged. |
| GarageRoutes.PutSparePartScoped | server/routes.ts:255-265 | Corrected: only a part of the path's garage is patched. The result is the patched part, or none. |
| GarageRoutes.DeleteSparePartRoute | server/routes.ts:267-275 | Always answers success. Exactly the rows matching both the id and the garage are removed. |
| GarageRoutes.PutGarage | server/routes.ts:177-187 | As written, the guard chain is evaluated with no route `garageId`, so it checks the body's `garageId`. If the chain passes, the garage with the path's id is patched. |
| GarageRoutes.GaragePutAdmitsOtherGarages | server/routes.ts:177 | The admin of garage `a` passes the guard for garage `b` by sending `a` in the body. A check of `b` against the path would refuse them. |
| GarageRoutes.PutGarageChecked | server/routes.ts:177-187 | Corrected: the path's id is checked. The only non-super-admin who can update garage `id` is that garage's own admin. |
| Storage.Where | server/storage.ts:89-91 | A WHERE clause keeps exactly the rows whose column equals the value, in table order. |
| Storage.WhereKeepsMultiplicity | server/storage.ts:89-91 | Each matching row is kept as often as the table holds it, and no other row is kept. |
| Storage.FindKey | server/storage.ts:64-67 | A lookup by key with LIMIT 1 finds a row with that key, or none when no row has it. |
| Storage.FindScoped | server/storage.ts:93-98 | A lookup by id and garage finds a row matching both, or none when no row matches both. |
| Storage.PatchWhere | server/storage.ts:105-107 | An update by id patches every row with that id and leaves every other row as it was. |
| Storage.DeleteWhere | server/storage.ts:140-142 | A delete keeps exactly the rows not matching both id and garage, each as often as the table holds it, in order. |
| Storage.DeleteNothing | server/storage.ts:140-142 | A delete that matches no row leaves the table unchanged. |
| Storage.FindKeyAfterPatch | server/storage.ts:105-107 | Reading a row back after updating it by id gives the patched row. |
| Storage.TableGrow | server/storage.ts:100-103 | Appending the next id, stamped now, keeps ids unique and times sorted. |
| Storage.TableShrink | server/storage.ts:140-142 | Deleting rows keeps the table invariant. |
| Storage.DbInsertUser | shared/schema.ts:20 | An insert with a new email keeps the database invariant, including unique emails. |
| Storage.StatsOf | server/storage.ts:198-210 | The count, the parts sum and the service sum, with profit as their difference. No invoices give all zeros. |
| Storage.StatsOfAppend | server/storage.ts:198-210 | One more invoice adds one to the count and its amounts to the sums. |
| Storage.SalesStatsExample | server/storage.ts:205-210 | Parts 100 and 30 with service 50 and 70 give count 2, parts 130, service 120 and profit -10. |
| Storage.WithStatus | server/storage.ts:146-148 | Keeps exactly the cards whose status text equals the query, each as often as the list holds it, in order. |
| Storage.Store.constructor | server/storage.ts:214 | The database starts with empty tables and satisfies the invariant. |
| Storage.Store.AdvanceClock | shared/schema.ts:14 | Only the clock moves, and the invariant still holds. |
| Storage.Store.GetUserByEmail | server/storage.ts:64-67 | Returns a user with that email, or none when no user has it. |
| Storage.Store.GetGarage | server/storage.ts:79-82 | Returns the garage with that id, or none. |
| Storage.Store.GetCustomers | server/storage.ts:89-91 | Exactly the garage's customers, in reverse table order. |
| Storage.Store.GetCustomer | server/storage.ts:93-98 | A customer only if both the id and the garage match, else none. |
| Storage.Store.GetSpareParts | server/storage.ts:110-112 | Exactly the garage's parts, in reverse table order. |
| Storage.Store.GetLowStockParts | server/storage.ts:114-121 | Exactly the garage's parts with a non-null threshold and quantity at or below it. |
| Storage.Store.GetSparePart | server/storage.ts:123-128 | A part only if both the id and the garage match, else none. |
| Storage.LowStock | server/storage.ts:119 | A part with a null threshold is never low on stock. With a threshold it is low iff its quantity is at or below it. |
| Storage.Store.GetJobCards | server/storage.ts:144-153 | Exactly the garage's cards, restricted to the given status when one is given, in reverse table order. |
| Storage.Store.GetJobCard | server/storage.ts:155-160 | A card only if both the id and the garage match, else none. |
| Storage.Store.GetInvoices | server/storage.ts:172-174 | Exactly the garage's invoices, in reverse table order. |
| Storage.Store.GetCustomerInvoices | server/storage.ts:176-180 | Exactly the invoices of that customer in that garage, in reverse table order. |
| Storage.Store.GetSalesStats | server/storage.ts:192-211 | Over the garage's invoices: the count, the parts sum, the service sum, and profit = service - parts. All zeros when the garage has no invoice. |
| Storage.Store.CreateGarage | server/storage.ts:74-77 | Appends the row with the next id, stamped now, with its defaults. Nothing else changes. |
| Storage.Store.CreateUser | server/storage.ts:69-72 | Fails with no write on a taken email or an unknown garage. Otherwise appends the new user. |
| Storage.Store.CreateCustomer | server/storage.ts:100-103 | Fails with no write when the garage does not exist. Otherwise appends the new customer with its defaults. |
| Storage.Store.CreateSparePart | server/storage.ts:130-133 | Fails with no write when the garage does not exist. Otherwise appends the new part with its defaults. |
| Storage.Store.CreateJobCard | server/storage.ts:162-165 | Fails with no write when the garage or the customer does not exist. Otherwise appends the new card. |
| Storage.Store.CreateInvoice | server/storage.ts:182-185 | Fails with no write when the garage, the job card or the customer does not exist. Otherwise appends the invoice, and the garage's statistics count it. |
| Storage.Store.UpdateGarage | server/storage.ts:84-87 | Patches the garage with that id and returns it, or none. Nothing else changes. |
| Storage.Store.UpdateCustomer | server/storage.ts:105-108 | Patches the customer with that id, in any garage, and returns it, or none. Nothing else changes. |
| Storage.Store.UpdateSparePart | server/storage.ts:135-138 | Patches the part with that id, in any garage, and returns it, or none. Nothing else changes. |
| Storage.Store.UpdateJobCard | server/storage.ts:167-170 | Patches the card with that id, in any garage, and returns it, or none. Nothing else changes. |
| Storage.Store.UpdateInvoice | server/storage.ts:187-190 | Patches the invoice with that id and returns it, or none. Nothing else changes. |
| Storage.Store.DeleteSparePart | server/storage.ts:140-142 | Removes only rows matching both id and garage. An absent row leaves the state unchanged. |
| Storage.ListingsNewestFirst | server/storage.ts:144-153 | Every listing ordered by `createdAt` descending is non-increasing in `createdAt`: customers, parts, job cards (with or without a status), invoices and a customer's invoices. |
| Storage.UserByEmailIsTheUser | shared/schema.ts:20 | With unique emails, the lookup by a user's email returns that user. |
| Storage.ScopedLookupsIsolateGarages | server/storage.ts:123-128 | A scoped lookup of a row that belongs to another garage finds nothing. |
| Storage.KeyedRowIsUnique | shared/schema.ts:8 | With unique ids, the lookup by a row's id returns that row. |
| Storage.FreshId | shared/schema.ts:8 | The next id differs from every id issued before. |
| Schema.InsertedGarage | shared/schema.ts:87-90 | The garage row takes the given fields, the generated id and the creation time. |
| Schema.InsertedUser | shared/schema.ts:92-95 | The user row takes the given fields, with `garageId` nullable. |
| Schema.InsertedCustomer | shared/schema.ts:97-103 | A new customer has totalJobs 0, totalSpent 0 and no last visit. |
| Schema.InsertedSparePart | shared/schema.ts:48-49 | Quantity defaults to 0. The threshold defaults to 2 when omitted and stays null when sent as null. |
| Schema.StoredOr | shared/schema.ts:65-66 | A column with a default stores the default when the field is left out, NULL when null is sent, and otherwise the value sent. |
| Schema.InsertedJobCard | shared/schema.ts:110-115 | Every new card is pending, with no completion time. Its parts default to `[]`. Its service charge and total default to 0 when left out and stay null when sent as null. |
| Schema.InsertedInvoice | shared/schema.ts:78-79 | `whatsappSent` defaults to false when left out and stays null when sent as null. `pdfUrl` stays null unless given. |
| Schema.PatchGarage | server/storage.ts:85 | Only supplied fields are overwritten. The id and creation time never change. |
| Schema.PatchCustomer | server/storage.ts:106 | Only supplied fields are overwritten. The id and creation time never change. |
| Schema.PatchSparePart | server/storage.ts:136 | Only supplied fields are overwritten. The id and creation time never change. |
| Schema.PatchJobCard | server/storage.ts:168 | Only supplied fields are overwritten. The id and creation time never change. |
| Schema.PatchInvoice | server/storage.ts:187-190 | Every supplied column is overwritten, any of the nine non-key columns included. The id and creation time never change. |
| Schema.PatchesAreIdempotent | server/storage.ts:105-107 | Applying the same partial update twice equals applying it once, for every table. |
| JobCardPage.AddSparePart | client/src/pages/job-card.tsx:77-79 | One blank row (quantity 1, price 0) is appended, and the earlier rows are unchanged. |
| JobCardPage.KeepOthersDropsOne | client/src/pages/job-card.tsx:102 | The index filter drops exactly the element at the index, or nothing when the index is out of range. |
| JobCardPage.RemoveSparePart | client/src/pages/job-card.tsx:101-103 | Exactly row `i` goes and the others keep their order. An out-of-range index removes nothing. |
| JobCardPage.RowOf | client/src/pages/job-card.tsx:108 | `findIndex` on the rows gives the first row for the part id, or none when no row has it. |
| JobCardPage.PartByBarcode | client/src/pages/job-card.tsx:106 | Returns the first catalogue part with that barcode, or none when no part has it. |
| JobCardPage.SubmitTotal | client/src/pages/job-card.tsx:135 | The total of no rows is 0, and rows with no negative price or quantity never total below 0. |
| JobCardPage.BlankRowCostsNothing | client/src/pages/job-card.tsx:77-79 | Adding a blank row leaves the total unchanged. |
| JobCardPage.RemovedRowLeavesTotal | client/src/pages/job-card.tsx:101-103 | Removing a row lowers the total by exactly its price times quantity. |
| JobCardPage.BumpAddsOnePrice | client/src/pages/job-card.tsx:109-110 | Raising a row's quantity by one adds its price to the total. |
| JobCardPage.ScanAddsOnePrice | client/src/pages/job-card.tsx:112-117 | Appending a scanned new part adds its price to the total. |
| JobCardPage.SubmitBody | client/src/pages/job-card.tsx:132-142 | The body holds the form fields, the rows, and the total `Σ price × quantity`. It has no customer id and no service charge. |
| JobCardPage.PageCardIsRefusedAsWritten | client/src/pages/job-card.tsx:137-141 | As written, the server's validation refuses every card the page submits. |
| JobCardPage.SubmittedCardKeepsTheTotal | client/src/pages/job-card.tsx:135-141 | With the corrected validation, the stored card keeps the rows and their total. It is pending in the garage, has service charge 0, and belongs to the customer it was filed under. |
| JobCardPage.PartsEditor.constructor | client/src/pages/job-card.tsx:38 | The page starts with no selected parts. |
| JobCardPage.PartsEditor.UpdateSparePart | client/src/pages/job-card.tsx:81-99 | Choosing a known part id copies its id, name and price and keeps the row's quantity. An unknown id changes nothing. Any other field overwrites only that field of that row. All other rows stay. |
| JobCardPage.PartsEditor.HandleBarcodeScanned | client/src/pages/job-card.tsx:105-130 | Reports "added" iff some part has the barcode. A part already listed adds one to its first row, with the length unchanged. A new part is appended with quantity 1. An unknown barcode changes nothing. |
| InvoicePage.PartsTotal | client/src/pages/invoice.tsx:91-93 | The card's `Σ price × quantity`, or 0 when it has no parts array. |
| InvoicePage.InvoiceTotal | client/src/pages/invoice.tsx:95 | The total less the service charge is the parts total. |
| InvoicePage.InitialTotalIsPartsTotal | client/src/pages/invoice.tsx:21 | With the initial service charge 0, the total is the parts total. |
| InvoicePage.InvoiceNumber | client/src/pages/invoice.tsx:96 | `INV-` followed by the clock in decimal digits, whose value is the clock. |
| InvoicePage.InvoiceNumbersDiffer | client/src/pages/invoice.tsx:96 | Different instants give different invoice numbers. |
| InvoicePage.InvoicePayload | client/src/pages/invoice.tsx:114-123 | The payload carries the card's id and customer, the number, the PDF URL, the parts total, the service charge, their sum as total, and `whatsappSent` equal to the button flag. |
| InvoicePage.StoredInvoiceBalances | client/src/pages/invoice.tsx:114-123 | The stored invoice's total is its parts total plus its service charge, in the route's garage. |
| InvoicePage.InvoiceAgreesWithTheCard | client/src/pages/invoice.tsx:91-95 | For a card filed from the job-card page, the invoice's parts total is the total that page sent. |
| SparePartsPage.FilteredParts | client/src/pages/spare-parts.tsx:122-131 | Exactly the parts matching the search (and, with the toggle on, at or below threshold), with their multiplicities, as a subsequence of the fetched list. |
| SparePartsPage.EmptySearchShowsAll | client/src/pages/spare-parts.tsx:122-131 | An empty search with the toggle off keeps every part. |
| SparePartsPage.LowOnlyShowsLowStock | client/src/pages/spare-parts.tsx:126-128 | With the toggle on, every part shown is at or below its threshold. Each shown part with a threshold is in the server's low-stock set. |
| SparePartsPage.ShowsLowStockBadge | client/src/pages/spare-parts.tsx:377-381 | For a part with a threshold, the badge shows iff the server's low-stock predicate holds. With a null threshold it shows iff the quantity is at most 0. |
| SparePartsPage.NullThresholdBadgeOnly | client/src/pages/spare-parts.tsx:377-381 | An out-of-stock part with a null threshold shows the badge but is not in the server's low-stock list. |
| SparePartsPage.EmptyForm | client/src/pages/spare-parts.tsx:133-144 | All fields are empty except the threshold, which parses to the column default 2. |
| SparePartsPage.EditForm | client/src/pages/spare-parts.tsx:146-157 | Editing fills the form iff the part has a threshold, because `toString` of null throws. |
| SparePartsPage.SubmitPart | client/src/pages/spare-parts.tsx:159-176 | An empty barcode is sent as null, and any other barcode as typed. Number fields are parsed, and the name and part number are sent as typed. |
| SparePartsPage.FreshFormSendsTheDefaults | client/src/pages/spare-parts.tsx:133-144 | A new part is sent with threshold 2 and no barcode. |
| SparePartsPage.EditThenSubmitSendsThePart | client/src/pages/spare-parts.tsx:146-169 | Editing and submitting unchanged sends the part's own values back. An empty-string barcode turns into null. |
| CustomersPage.FilteredCustomers | client/src/pages/customers.tsx:27-31 | Exactly the customers whose lower-cased name or bike includes the lower-cased term, or whose phone includes the raw term, with their multiplicities. The result is a subsequence of the fetched list. |
| CustomersPage.EmptySearchShowsAllCustomers | client/src/pages/customers.tsx:27-31 | An empty term keeps every customer. |
| CustomersPage.SearchingThePhoneFindsTheCustomer | client/src/pages/customers.tsx:29 | Typing a customer's phone finds that customer. |
| CustomersPage.FormatLastVisit | client/src/pages/customers.tsx:33-37 | A null last visit shows "No visits"; otherwise the formatted date. |
| CustomersPage.NewCustomerHasNoVisits | client/src/pages/customers.tsx:33-34 | A newly created customer shows "No visits". |
| PendingServicesPage.FilteredJobs | client/src/pages/pending-services.tsx:27-31 | Exactly the jobs whose lower-cased name or bike includes the lower-cased term, or whose phone includes the raw term, with their multiplicities. The result is a subsequence of the fetched list. |
| PendingServicesPage.EmptySearchShowsAllJobs | client/src/pages/pending-services.tsx:27-31 | An empty term keeps every job. |
| PendingServicesPage.PageListsThePendingCards | client/src/pages/pending-services.tsx:21 | The page lists only pending cards of its own garage, newest first. With an empty search it lists every one of them. |
| WhatsApp.Message | client/src/utils/whatsapp.ts:2 | The message starts with the greeting and ends with two newlines and the PDF URL. |
| WhatsApp.CleanPhone | client/src/utils/whatsapp.ts:5 | Only digits and `+` remain. Every digit and `+` of the input is kept, as often as it occurs and in order. |
| WhatsApp.CleanPhoneIdempotent | client/src/utils/whatsapp.ts:5 | Cleaning a cleaned number changes nothing. |
| WhatsApp.CleanPhoneKeepsCleanNumbers | client/src/utils/whatsapp.ts:5 | A number of digits and `+` only is kept whole. |
| WhatsApp.WhatsAppUrl | client/src/utils/whatsapp.ts:8 | The link is `https://wa.me/`, then the cleaned phone, then `?text=`, then the encoded message. |
| WhatsApp.UrlAddressesTheCleanedPhone | client/src/utils/whatsapp.ts:8 | The link's path up to `?` is exactly the cleaned phone. |
| Text.ToLower | client/src/pages/spare-parts.tsx:123 | Lower-casing maps each character and keeps the length. |
| Text.IncludesIffOccurs | client/src/pages/customers.tsx:28 | `includes` holds iff the term occurs at some position. |
| Text.SecondField | server/routes.ts:23 | `split(' ')[1]` exists iff the separator occurs. It is the text after the first separator, up to the next separator or the end. |
| Text.DigitsOfNatToString | client/src/pages/invoice.tsx:96 | The decimal text of a number reads back as that number. |
| Text.NatToStringInjective | client/src/pages/invoice.tsx:96 | Different numbers have different decimal texts. |
| Text.ParseInt | client/src/pages/spare-parts.tsx:166-167 | A blank field parses to NaN, and a run of digits parses to the number it denotes. |
| Text.ParseIntOfIntToString | client/src/pages/spare-parts.tsx:151-153 | `parseInt` of a number's text gives the number back. |
| Common.Filter | client/src/pages/customers.tsx:27 | `filter` keeps exactly the elements satisfying the predicate, with their multiplicities and order. |
| Common.FilterIdempotent | client/src/utils/whatsapp.ts:5 | Filtering twice by the same predicate is filtering once. |
| Common.SubsequenceTransitive | server/storage.ts:176-180 | A subsequence of a subsequence is a subsequence, so stacked WHERE clauses keep table order. |
| Common.SumAppend | client/src/pages/job-card.tsx:135 | The `reduce` sum of a concatenation is the sum of the sums. |

## Left out

- HTTP and Express plumbing, Postgres and Drizzle are replaced by the in-memory `Store`. Status codes and messages are an error datatype. A database error inside a handler (its `catch` answering 500) is not modelled, except where a model condition causes it.
- bcrypt and JWT are function parameters (`hash`, `compare`, `sign`, `verify`). `authenticateToken` sends a failing user lookup to its 403 branch too; the lookup cannot fail in the model.
- Concurrency: requests run one after another. The read-then-write customer lookup and the stock debit have no transactions in the source, and their races are not modelled.
- Money is integer paise. JavaScript floats, `Number(...)`, `String(...)`, `parseFloat` and `toFixed` are not modelled. `SparePartsPage.SubmitPart` parses the price like the integers.
- SparePartsPage.SubmitPart: does not model `parseFloat` of a price with a fractional part, because money is integers here.
- Zod validation: only the job-card insert schema's refusal of a body without `customerId` is modelled. The other bodies are taken as records already in insert shape. Decimal columns become strings in the generated schemas, while the pages send numbers. That refusal is not modelled, and the model treats the amounts as numbers.
- Partial updates cannot set a nullable column back to null, because a patch field is either given or left out.
- AuthRoutes.RegisterAsWritten: the role stored for an inherited name is `Unlisted(code)`, a value outside the three roles. The text the database driver makes of a function or an object is not modelled, and neither is a driver error on it, which would be a 500.
- Schema.PatchInvoice: like the other patches, it has no `id` or `createdAt` field, although `Partial<Invoice>` admits both. The update routes parse their bodies with insert schemas, which omit those two columns, and no route calls `updateInvoice`.
- Foreign keys on inserts are checked by the store (a missing garage, customer or job card fails with no write). For users, `garageId` is checked only when it is non-null. Updates by id do not check foreign keys.
- An invoice may name a job card or a customer of another garage. The insert checks only that the rows exist, as the foreign keys do, and not their garage.
- The GET routes for profile, customers, parts, low stock, job cards, invoices, customer invoices and statistics are the guard chain (`Middleware.Gate`) followed by one store query. They are not written out as separate handlers.
- The unique constraint on `users.email` is kept as part of the store invariant. The insert of a duplicate email is refused before it reaches the table.
- Ids are serial-number strings, not random UUIDs. Freshness is proved for the serial ids.
- `updateSparePart` on the job-card page requires an index within the list. The JavaScript behaviour for an index outside the list (a row of `undefined` fields) is not modelled.
- `handleEdit` on a part whose threshold is null throws in the browser. This is modelled as a form that does not open (`EditForm` returns None).
- PDF generation, the Cloudinary upload, the barcode camera, `window.open`, `tel:` links, localStorage and fetch are browser or network effects. The uploaded PDF's URL is a parameter.
- Locale date formatting is a parameter (`format`) of `FormatLastVisit`. The pending page's date labels and the dashboard, login, register, profile and sales pages have no logic modelled here.
- Unicode case mapping: `ToLower` lower-cases ASCII letters only.
- All four invoice amounts come from the client. The server does not recompute the total from the card, and the model does not either.

## Findings

| source | as written | input that shows it | evidently intended | confidence | as-written member | corrected member |
|---|---|---|---|---|---|---|
| server/routes.ts:177-187 | `PUT /api/garages/:id` has no `:garageId` route parameter, so `requireGarageAccess` checks `req.body.garageId`. | The admin of garage A sends `PUT /api/garages/B` with body `{garageId: "A", name: "x"}`. The guard passes and garage B is renamed. | The garage in the path is checked against the user's own garage. | not executed | GarageRoutes.PutGarage, GarageRoutes.GaragePutAdmitsOtherGarages | GarageRoutes.PutGarageChecked |
| server/routes.ts:255-265 | The spare-part PUT calls `updateSparePart(id, ...)`, which has no garage filter. | The admin of garage A sends `PUT /api/garages/A/spare-parts/P`, where P is a part of garage B. P's stock changes. | Only a part of the path's garage is updated, as the delete route does. | not executed | GarageRoutes.PutSparePart, GarageRoutes.UnscopedUpdateReachesOtherGarages | GarageRoutes.PutSparePartScoped, GarageRoutes.ScopedPatchStaysInGarage |
| server/routes.ts:292 | `insertJobCardSchema` requires the not-null `customerId` column, but the handler fills in the customer only after validation. | The job-card page posts any form: the body has no `customerId`, the parse throws, and the answer is 500. | The customer id is not asked of the client, since the handler finds or creates the customer. | not executed | GarageRoutes.ParseJobCardAsWritten, GarageRoutes.PostJobCardAsWritten, JobCardPage.PageCardIsRefusedAsWritten | GarageRoutes.ParseJobCard, GarageRoutes.PostJobCard, JobCardPage.SubmittedCardKeepsTheTotal |
| server/routes.ts:74-83 | The code check is the truthiness of `validCodes[activationCode]` on an object literal, which also finds inherited `Object.prototype` properties. | A register body with `activationCode: "constructor"` and a new email passes the check; a user is stored whose role is the inherited `Object` function, bound to no garage, and the answer is 200 with a token. | Only the two listed codes are accepted (an own-property lookup such as `Object.hasOwn`). | not executed | AuthRoutes.ActivationLookupAsWritten, AuthRoutes.InheritedNamesPassTheCodeCheck, AuthRoutes.RegisterAsWritten | AuthRoutes.ActivationRole, AuthRoutes.Register |

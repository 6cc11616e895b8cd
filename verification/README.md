# Ride-hailing admin console: record-collection logic

This project models the part of the ride-hailing admin console that is logic
rather than presentation. Each management page (users, drivers, bookings,
payments, promotions, support tickets, notifications) keeps an ordered list of
records in memory. Each page derives a filtered view of that list and changes it
through a few handlers. The model is one small generic library plus one module
per page:

- `Text`: ASCII `toLowerCase`, `includes`, `String(n)`, `padStart`, the date and
  minute slices of an ISO timestamp, and joining and splitting on newlines.
- `Ids`: the sequential id policy, which is a prefix plus
  `String(length + 1).padStart(3, '0')`. It also has the inverse that reads the
  counter back.
- `Collection`: `filter` and map-by-id over `seq<T>`, the status selector with its
  `"all"` sentinel, and the store invariant "ids are prefix001..prefixN".
- `Notifications`, `Promotions`, `Support`, `Drivers`, `Bookings`, `Payments`,
  `Users`: the record datatypes, seed data where a handler uses it, the filter
  predicate, and every mutation handler of the page.

Every handler is a pure function from the current store and its arguments to the
new store. Clock readings are parameters: `isoNow` stands for
`new Date().toISOString()` and `nowMillis` for `Date.now()`.

Some behaviour of the code that the model keeps exactly:

- Update, status change and delete act on every record that carries the id, not
  just on the first one.
- Looking up a freshly created id finds exactly the new record whenever the ids
  are prefix001..prefixN before the create. `Collection.CreateThenFindById`
  proves this. After a delete the new id can collide with one still in use:
  `Promotions.DeleteThenCreateDuplicatesId` proves that deleting any promotion
  but the last and then creating one re-issues the last promotion's id.
- The promotion create handler does not stamp a date.
- The delete guard `!deletePromotionId` also treats an empty id as "no target".

## Model

| member | source | states |
|---|---|---|
| Text.Lower | src/pages/Users.tsx:90-91 | lower-casing keeps the length, changes only A-Z, and leaves no upper-case letter |
| Text.LowerIdempotent | src/pages/Users.tsx:90-91 | lower-casing an already lower-cased string changes nothing |
| Text.IncludesIgnoringCase | src/pages/Bookings.tsx:125-127 | the case-insensitive search is true exactly when the lower-cased term occurs at some position of the lower-cased field; an empty term always matches, and a term longer than the field never does |
| Text.ContainsIffOccurs | src/pages/Notifications.tsx:67-68 | the `includes` test is true exactly when the term occurs at some position of the text |
| Text.ContainsExtend | src/pages/Notifications.tsx:126 | a term found in a title is still found after text is appended to it |
| Text.IncludesIgnoresCase | src/pages/Bookings.tsx:125-127 | the search test gives the same answer when either side is lower-cased first |
| Text.NatToString | src/pages/Promotions.tsx:140 | `String(n)` is a digit string with no leading zero, reads back as `n`, and is exactly as long as `n` needs |
| Text.NatToStringInjective | src/pages/Promotions.tsx:140 | different counters render differently |
| Text.NatToStringWidth | src/pages/Promotions.tsx:140 | counters below 1000 take at most three digits, and larger ones take at least four |
| Text.PadStart | src/pages/Promotions.tsx:140 | `padStart` keeps the input whole as the suffix, adds only fill characters in front, and yields max(length, width) characters |
| Text.DatePart | src/pages/Drivers.tsx:139 | `split('T')[0]` is the prefix before the first `T`, or all of the text when there is no `T` |
| Text.ReplaceFirstT | src/pages/Support.tsx:151 | `replace('T', ' ')` changes only the first `T`, into a space |
| Text.MinuteStamp | src/pages/Support.tsx:151 | `slice(0, 16)` clamps at the string's length |
| Text.IsoSlices | src/pages/Support.tsx:151 | on an ISO timestamp, the join date is `YYYY-MM-DD` and the ticket stamp is `YYYY-MM-DD HH:MM` |
| Text.SplitJoin | src/pages/Payments.tsx:150 | splitting on newlines undoes joining with newlines when no line holds a newline |
| Ids.PaddedCounter | src/pages/Drivers.tsx:138 | the padded counter is exactly three digits below 1000 and the plain rendering (never truncated) from 1000 on |
| Ids.SequentialId | src/pages/Promotions.tsx:140 | a generated id starts with the page prefix, has three digits while the store has fewer than 999 records, and keeps every digit beyond that |
| Ids.SequentialIdRoundTrip | src/pages/Promotions.tsx:140 | reading the counter back out of a generated id gives store length + 1 |
| Ids.SequentialIdInjective | src/pages/Support.tsx:150 | two store lengths never generate the same id under one prefix |
| Collection.Filter | src/pages/Bookings.tsx:123-130 | the filtered view is no longer than the store and holds only records the test accepts |
| Collection.FilterIsSubsequence | src/pages/Notifications.tsx:66-71 | the filtered view is an order-preserving subsequence of the store |
| Collection.FilterMultiplicity | src/pages/Payments.tsx:123-130 | an accepted record keeps all its copies in the view, and a rejected record keeps none |
| Collection.FilterMembers | src/pages/Payments.tsx:123-130 | a record is in the view exactly when it is in the store and passes the test |
| Collection.FilterIdempotent | src/pages/Users.tsx:89-94 | applying the same filter twice gives the same view as applying it once |
| Collection.FilterConjunction | src/pages/Users.tsx:89-94 | filtering by search and then by status equals filtering once by `matchesSearch && matchesStatus` |
| Collection.FilterConcat | src/pages/Support.tsx:112-119 | filtering a concatenation filters each part |
| Collection.FilterKeepsAll | src/pages/Drivers.tsx:166-172 | a filter that accepts every record returns the store unchanged |
| Collection.FilterKeepsNone | src/pages/Drivers.tsx:166-172 | a filter that accepts no record returns the empty list |
| Collection.FilterRemovesOne | src/pages/Promotions.tsx:174 | a filter that rejects exactly one position removes just that position |
| Collection.SubsequenceReflexive | src/pages/Promotions.tsx:172 | a store that is left alone is a subsequence of itself |
| Collection.StatusMatches | src/pages/Bookings.tsx:128 | the "all" selector accepts every status, a record always passes the selector set to its own status, and any other selector accepts only its own status |
| Collection.EmptyTermMatches | src/pages/Notifications.tsx:67-68 | an empty search term matches every field |
| Collection.UpdateWhere | src/pages/Drivers.tsx:160-162 | map-by-id keeps length and order, applies the change to every record with the id, and leaves the others as they were |
| Collection.UpdateAbsentKey | src/pages/Bookings.tsx:158-160 | an update for an id no record carries leaves the store as it was |
| Collection.UpdateIdempotent | src/pages/Support.tsx:186-190 | an update whose change keeps the id and is idempotent is itself idempotent |
| Collection.SequentialIdsAreUnique | src/pages/Users.tsx:111 | a store holding prefix001..prefixN has no duplicate ids |
| Collection.NextIdIsFresh | src/pages/Drivers.tsx:138 | on such a store the next generated id is not yet in use |
| Collection.AppendKeepsSequential | src/pages/Drivers.tsx:154 | appending the record with the generated id keeps the store sequential |
| Collection.CreateOnSequentialStore | src/pages/Promotions.tsx:140-145 | a create on a sequential store issues a fresh id and leaves the ids sequential and unique |
| Collection.CreateThenFindById | src/pages/Promotions.tsx:140-145 | after such a create, looking up the new id finds exactly the new record, at the end |
| Notifications.Shown | src/pages/Notifications.tsx:66-70 | a shown record always passes the status selector; with an empty term the selector alone decides; a term longer than every searched field (title or message) shows nothing |
| Notifications.FilterNotifications | src/pages/Notifications.tsx:66-71 | the view is an ordered subsequence holding exactly the notifications whose title or message contains the term (any case) and whose status is selected; with a selector other than "all" every row has that status |
| Notifications.EmptyQueryShowsAll | src/pages/Notifications.tsx:67-69 | an empty term with the "all" selector lists every notification |
| Notifications.DuplicateId | src/pages/Notifications.tsx:125 | the copy's id is "NOT" followed by the decimal digits of the clock reading, which read back as that reading |
| Notifications.Duplicate | src/pages/Notifications.tsx:123-128 | the store grows by one, the old store is exactly its tail, and the front copy has the new id, the " (Copy)" title, draft status and no send time, with message, type, audience and counts copied |
| Notifications.DuplicateKeepsOriginals | src/pages/Notifications.tsx:127 | duplicating neither removes nor changes any notification, the original included |
| Notifications.CopyFoundByTitleSearch | src/pages/Notifications.tsx:126 | any search that finds the original by its title also finds the copy, under "all" and under "draft" |
| Notifications.LoadForm | src/pages/Notifications.tsx:136-141 | opening the editor loads the notification's title, type, audience and message into the form |
| Notifications.Merge | src/pages/Notifications.tsx:149-159 | the edited notification reloads into exactly the submitted form, and putting its old title, type, audience and message back gives the original |
| Notifications.EditSubmit | src/pages/Notifications.tsx:145-163 | with nothing being edited the store is unchanged; otherwise only title, type, audience and message change, and only on records with the edited id; id, status, send time, counts, length and order are kept |
| Notifications.EditUnchangedIsNoop | src/pages/Notifications.tsx:130-160 | opening the editor and saving without changes leaves a store with unique ids as it was |
| Promotions.CreatePromotion | src/pages/Promotions.tsx:139-145 | create appends one promotion at the end, with every field from the form and the generated PROMO id |
| Promotions.ApplyInputs | src/pages/Promotions.tsx:220-261 | nothing entered in the create dialog changes the id or the usage count, and only the status selector changes the status |
| Promotions.CreatedPromotionStartsUnused | src/pages/Promotions.tsx:124-145 | a promotion created through the dialog starts with no uses, and is active unless the status selector was used |
| Promotions.CreatedIdShape | src/pages/Promotions.tsx:140 | the new id is PROMO plus length + 1: three digits below 1000, untruncated from then on, and it reads back as length + 1 |
| Promotions.CreateKeepsIdsUnique | src/pages/Promotions.tsx:140 | on a store of PROMO001..PROMOn, create keeps the ids sequential and unique |
| Promotions.UpdatePromotion | src/pages/Promotions.tsx:162-169 | with nothing being edited the store is unchanged; otherwise every promotion with the edited id is replaced by the edited promotion, and the other promotions, ids, length and order are kept |
| Promotions.UpdateUnchangedIsNoop | src/pages/Promotions.tsx:165-167 | saving an unmodified copy of a promotion leaves a store with unique ids as it was |
| Promotions.NoTarget | src/pages/Promotions.tsx:172 | a null id and an empty id both count as no target; any non-empty id is a target |
| Promotions.DeletePromotion | src/pages/Promotions.tsx:171-176 | a null or empty target changes nothing; otherwise exactly the promotions with that id disappear, and every copy of every other promotion stays, in order |
| Promotions.DeleteRemovesOne | src/pages/Promotions.tsx:174 | on a store with unique ids, delete removes exactly the one targeted position |
| Promotions.DeleteThenCreateDuplicatesId | src/pages/Promotions.tsx:140-174 | on PROMO001..PROMOn, deleting any promotion but the last and then creating gives the new promotion the last promotion's id, which is still present |
| Promotions.Shown | src/pages/Promotions.tsx:178-182 | a shown record always passes the status selector; with an empty term the selector alone decides; a term longer than every searched field (code or title) shows nothing |
| Promotions.FilterPromotions | src/pages/Promotions.tsx:178-183 | the view holds exactly the promotions whose code or title contains the term and whose status is selected, in store order |
| Promotions.EmptyQueryShowsAll | src/pages/Promotions.tsx:178-183 | an empty term with the "all" selector lists every promotion |
| Support.ApplyInputs | src/pages/Support.tsx:213-218 | nothing typed into the new-ticket dialog changes the form's status |
| Support.CreateTicket | src/pages/Support.tsx:149-161 | create appends one ticket with the TK id, the form's fields, no assignee, and created and updated stamps both equal to the current minute |
| Support.CreatedTicketIsOpen | src/pages/Support.tsx:100-108 | a ticket created through the dialog is always open |
| Support.CreateKeepsIdsUnique | src/pages/Support.tsx:150 | on TK001..TKn, create keeps the ids sequential and unique |
| Support.AssignToMe | src/pages/Support.tsx:177-183 | matching tickets get the current agent, "in-progress" whatever their prior status, and the new stamp; other fields and other tickets are kept, and so are the ids |
| Support.MarkResolved | src/pages/Support.tsx:185-191 | matching tickets become resolved with the new stamp; the assignee, all other fields, the other tickets and the ids are kept |
| Support.MarkResolvedIdempotent | src/pages/Support.tsx:188 | resolving twice at the same minute is resolving once |
| Support.AssignThenResolve | src/pages/Support.tsx:177-191 | assigning reopens a resolved ticket, and resolving after assigning keeps the agent |
| Support.Shown | src/pages/Support.tsx:112-118 | a shown record always passes the status selector; with an empty term the selector alone decides; a term longer than every searched field (subject, user or id) shows nothing |
| Support.FilterTickets | src/pages/Support.tsx:112-119 | the view holds exactly the tickets whose subject, user or id contains the term and whose status is selected, in store order |
| Support.EmptyQueryShowsAll | src/pages/Support.tsx:112-119 | an empty term with the "all" selector lists every ticket |
| Drivers.ApplyInputs | src/pages/Drivers.tsx:209-212 | nothing typed into the add-driver dialog changes the form's status |
| Drivers.AddDriver | src/pages/Drivers.tsx:137-157 | add appends one driver with the D id, the form's fields, rating 0, no rides, "$0.00" earnings and today's date |
| Drivers.AddedDriverIsPending | src/pages/Drivers.tsx:129-135 | a driver added through the dialog is always pending |
| Drivers.SixthDriverId | src/pages/Drivers.tsx:138 | with five drivers in the store, the next driver added is D006 |
| Drivers.AddKeepsIdsUnique | src/pages/Drivers.tsx:138 | on D001..Dn, add keeps the ids sequential and unique |
| Drivers.ChangeStatus | src/pages/Drivers.tsx:159-164 | only the status of drivers with the id changes; everything else, and every other driver, is kept |
| Drivers.Approve | src/pages/Drivers.tsx:338 | Approve makes the matching drivers active, keeps every other field of theirs, and touches no other driver |
| Drivers.Reject | src/pages/Drivers.tsx:342 | Reject makes the matching drivers rejected, keeps every other field of theirs, and touches no other driver |
| Drivers.ChangeStatusLastWins | src/pages/Drivers.tsx:160-161 | of two status changes the second wins, so repeating one is idempotent |
| Drivers.Shown | src/pages/Drivers.tsx:166-171 | a shown record always passes the status selector; with an empty term the selector alone decides; a term longer than every searched field (name or email) shows nothing |
| Drivers.FilterDrivers | src/pages/Drivers.tsx:166-172 | the view holds exactly the drivers whose name or email (not id or phone) contains the term and whose status is selected, in store order |
| Drivers.EmptyQueryShowsAll | src/pages/Drivers.tsx:166-172 | an empty term with the "all" selector lists every driver |
| Bookings.Shown | src/pages/Bookings.tsx:123-129 | a shown record always passes the status selector; with an empty term the selector alone decides; a term longer than every searched field (user, driver or id) shows nothing |
| Bookings.FilterBookings | src/pages/Bookings.tsx:123-130 | the view holds exactly the bookings whose user, driver or id contains the term and whose status is selected, in store order |
| Bookings.EmptyQueryShowsAll | src/pages/Bookings.tsx:123-130 | an empty term with the "all" selector lists every booking |
| Bookings.Cancelled | src/pages/Bookings.tsx:159 | a cancelled booking has status "cancelled" and fare "$0.00", and restoring those two fields gives the original booking |
| Bookings.CancelBooking | src/pages/Bookings.tsx:157-162 | matching bookings become cancelled with fare "$0.00" whatever the prior fare; every other field, every other booking, the length and the order are kept; an unknown id changes nothing |
| Bookings.CancelIdempotent | src/pages/Bookings.tsx:159 | cancelling twice is cancelling once |
| Bookings.CancelCommutes | src/pages/Bookings.tsx:157-162 | cancellations of two bookings can be applied in either order |
| Bookings.CancelledShowsUnderCancelled | src/pages/Bookings.tsx:128-159 | a cancelled booking that a search found is listed under the "cancelled" selector |
| Bookings.InitialBookingsSequential | src/pages/Bookings.tsx:47-113 | the seed bookings are numbered BK001..BK005, as the create policy would number them |
| Bookings.Refresh | src/pages/Bookings.tsx:171 | refresh yields five bookings with sequential ids, where exactly the completed ones have a completion time |
| Bookings.RefreshUndoesCancel | src/pages/Bookings.tsx:171 | refresh after any cancellation restores exactly the seed bookings |
| Payments.Shown | src/pages/Payments.tsx:123-129 | a shown record always passes the status selector; with an empty term the selector alone decides; a term longer than every searched field (user, driver or id) shows nothing |
| Payments.FilterPayments | src/pages/Payments.tsx:123-130 | the view holds exactly the payments whose user, driver or id contains the term and whose status is selected, in order |
| Payments.EmptyQueryShowsAll | src/pages/Payments.tsx:123-130 | an empty term with the "all" selector lists every payment |
| Payments.ReceiptText | src/pages/Payments.tsx:150 | the receipt starts with "Receipt for " and the id and ends with "Status: " and the status; when no field holds a newline it splits into the nine labelled lines and reads back as the nine fields |
| Payments.ReceiptLines | src/pages/Payments.tsx:150 | the receipt has nine lines, and line i starts with the i-th label |
| Payments.ReceiptFileName | src/pages/Payments.tsx:156 | the file name is the payment id followed by `_receipt.txt` |
| Payments.ParseReceipt | src/pages/Payments.tsx:150 | reading a receipt back yields nine field values or nothing |
| Payments.ReceiptRoundTrip | src/pages/Payments.tsx:150 | when no field holds a newline, the receipt splits into exactly nine lines, each starting with its label, and reading it back gives id, date, user, driver, amount, commission, driver earning, method and status |
| Payments.ReceiptLinesOnOneLine | src/pages/Payments.tsx:150 | when no field holds a newline, no receipt line does either |
| Payments.ParseReceiptLines | src/pages/Payments.tsx:150 | a receipt that splits into its own lines reads back as its fields |
| Payments.ReceiptHasNoTrailingNewline | src/pages/Payments.tsx:150 | the receipt does not end with a newline |
| Payments.JoinEndsWithLast | src/pages/Payments.tsx:150 | the joined receipt ends with its status line |
| Users.CreatableStatus | src/pages/Users.tsx:67 | only "active" and "inactive" pass the enum rule, so "blocked" never does |
| Users.Validate | src/pages/Users.tsx:63-68 | the form is accepted exactly when name length >= 2, the email check passes, phone length >= 6 and status is active or inactive; on rejection each failing rule, and only a failing rule, is reported |
| Users.CreateUser | src/pages/Users.tsx:109-123 | create appends one user with the U id, the form's fields, no rides, "$0.00" spent and today's date |
| Users.SubmitForm | src/pages/Users.tsx:165 | the store grows by one exactly when the form validates; a user added this way carries the form's name, email, phone and status, has a name of at least 2 and a phone of at least 6 characters, and is never blocked |
| Users.CreateKeepsIdsUnique | src/pages/Users.tsx:111 | on U001..Un, create keeps the ids sequential and unique |
| Users.ChangeStatus | src/pages/Users.tsx:125-129 | only the status of users with the id changes; everything else, and every other user, is kept |
| Users.ChangeStatusIdempotent | src/pages/Users.tsx:126-128 | repeating a status change changes nothing more |
| Users.OfferedActionTakesEffect | src/pages/Users.tsx:250-257 | an enabled Activate or Block always changes the user, and afterwards that action is disabled for that user |
| Users.Shown | src/pages/Users.tsx:89-93 | a shown record always passes the status selector; with an empty term the selector alone decides; a term longer than every searched field (name or email) shows nothing |
| Users.FilterUsers | src/pages/Users.tsx:89-94 | the view holds exactly the users whose name or email contains the term and whose status name is selected, in store order |
| Users.EmptyQueryShowsAll | src/pages/Users.tsx:89-94 | an empty term with the "all" selector lists every user |

## Left out

- Rendering is not modelled: JSX, badges, icons, dropdowns, dialogs and their
  open/close flags are presentation only.
- The view-details selection is not modelled. It sets a transient selected record
  and does not change any store.
- The receipt download is not modelled: the Blob, the object URL and the anchor
  click are DOM I/O. Only the receipt text and the file name are modelled.
- The toast in `retryPayment` is not modelled. It is a notification side effect
  and changes no data.
- Real clocks are not modelled. `new Date()` is the `isoNow` parameter and
  `Date.now()` is the `nowMillis` parameter.
- The compose-notification submit is not modelled. It only cancels the browser
  submit and does not change the store.
- Form resets after a create are not modelled as operations (`form.reset()`, the
  `setNew...` calls). The blank forms appear only as constants, where a property
  depends on them.
- Users.Validate: the e-mail format rule is the `emailOk` parameter. That rule is
  a library call whose grammar is not part of this model.
- Users.Validate: lengths count Dafny characters. JavaScript counts UTF-16 code
  units, so the two differ for characters outside the Basic Multilingual Plane.
- Text.Lower: `toLowerCase` is modelled as ASCII-only lower-casing. Full Unicode
  case mapping is not modelled.
- Text.MinuteStamp: its own contract gives only the length. The exact content is
  stated by Text.IsoSlices, for timestamps that have the ISO shape.
- Promotions.CreatePromotion: `maxUsage` is kept as an integer. The page's
  untyped inputs can write text into it, and no handler reads it.
- Promotions.ApplyInputs: the Max Usage text input is not among the modelled
  dialog inputs, because it writes text into an integer field. Its contract says
  nothing about `maxUsage` for that reason.
- Users.Validate: zod's `.default('active')` on the status is not modelled. On
  this page it never applies: the form starts with status `'active'`
  (src/pages/Users.tsx:85) and the status control is a select, so a status is
  always present.
- The payments seed list is not modelled. The Payments page has no handler that
  changes it, and its filter is modelled over any list of payments.
- Support: the disabled states of Mark Resolved and Assign to Me are not
  modelled. They are menu presentation; the handlers have no guard, and that is
  what is modelled.
- Notifications.Duplicate: the model does not claim that the clock-based id is
  fresh. Two duplicates made in the same millisecond get the same id, and the
  code does not prevent that.
- Settings, Dashboard, routing, layout and the login gate are not modelled. They
  hold toggles, static data and navigation, and none of them has store logic.

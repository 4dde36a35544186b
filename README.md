# Restaurant table ordering: session and order core

A model of the core of a QR-code ordering server for a restaurant. A
customer scans the signed QR code on a table, gives a phone number, types
back a four-digit one-time code (OTP), and then orders from the menu until
the session expires or staff clear the table. The server keeps five
key-value stores: sessions, orders, tables, rateLimit and blacklist. Each
store is a `SimpleDB`, a JSON object held in a file that every operation
reads whole and every change writes back whole.

The project has these modules:

- `Database` (database.dfy): `SimpleDB` as a class whose field is the
  backing file. The file is either unparsable or a parsed JSON object,
  and the parsed object keeps its keys in insertion order (see "## Left
  out" for how JavaScript orders integer-like keys). It has `get`, `set`, `delete`, `getAll`, `find` (a loop)
  and `cleanup` (a loop that may throw on a null value).
- `Token` (token.dfy): `verifyToken`, and `signTable` from generate-qr.js.
  The base64url/JSON codecs and the HMAC are functions carried in a
  `Codec` value.
- `Phone` (phone.dfy): phone normalisation (`'91'` followed by the digits
  only) and the printing of the OTP `String(Math.floor(1000 + r * 9000))`.
- `RateLimit` (rate_limit.dfy): the fixed-window counter of `checkRate`, a
  replay function over a sequence of checks, and the hourly `cleanup` of
  the rateLimit store.
- `Orders` (orders.dfy): the menu-selection loop of `/place-order`, and the
  `filter`/`sort`/`reduce` chains of `/my-orders` and `/request-bill`,
  including a stable newest-first sort.
- `Handlers` (handlers.dfy): every route handler of the customer flow, the
  staff routes and the 5-minute sweep. Each is a function from the five
  stores and the request to the new stores and the page sent back. The
  invariant `Valid` holds across all of them.
- `Server` (server.dfy): the Express app as a class with the five stores
  as fields. It has one method per handler, and each method changes the
  session record field by field as the source does. Each method's
  contract says its new stores and reply are exactly those of the
  matching `Handlers` step.
- `Flows` (flows.dfy): properties that span several requests. They cover
  blocking, the OTP round trip, the attempt limit, what a customer sees
  of their orders, clearing a table and the sweep.

The clock, `Math.random()` and `genCode()` are parameters of each handler.
Each handler reads the clock once, as `now`. The hour seen by `isOpen` is a
separate parameter.

Some behaviour of the code is easy to miss, and the model keeps it as
written:

- The code draws OTPs from 1000 to 9999, so a code such as `0123` is
  never issued (`Phone.NoLeadingZeroCode`).
- A third wrong OTP still leaves the session in place, with no tries left.
  The next submission deletes it, even if it carries the right code
  (`Flows.ThirdWrongCodeKeepsSession`).
- A table record names whichever session activated last on that table.
  The sweep deletes the record of a stale session's table even when
  another live session now holds that table
  (`Flows.SweepFreesOccupiedTable`).
- Fresh codes are not checked against the stores. An order written under
  a code already in use replaces the stored order
  (`Handlers.PlaceOrderStep` states the write as `orders[newCode := o]`).

## Model

| member | source | states |
|---|---|---|
| Util.Get | database.js:29-31 | reading a typed store gives the stored record exactly when the key is present |
| Database.Put | database.js:33-37 | `data[key] = value` gives the key the new value and leaves every other value; an existing key keeps its place, a new key goes last, and every key stays listed once |
| Database.Lookup | database.js:30 | a read gives the stored value when it is truthy, and null exactly when the key is absent or its value falsy |
| Database.Indexed | database.js:53 | a string's characters or an array's elements appear under the decimal strings of their indexes, and nothing else, never under `key` |
| Database.WithKey | database.js:53 | `{ key, ...value }` is an object whose fields are `key` and the spread fields; spread fields win, and `key` is the entry's key otherwise |
| Database.Without | database.js:41 | the key order after `delete` lists every other key and not the deleted one |
| Database.Remove | database.js:39-43 | `delete data[key]` keeps the store well formed |
| Database.Pruned | database.js:58-67 | the store left by `cleanup` is well formed |
| Database.SimpleDB.Snapshot | database.js:17-23 | `_read()` gives a well-formed object, and `{}` when the file does not parse |
| Database.SimpleDB.constructor | database.js:10-15 | opening a store with no file writes `{}`; an existing file is kept |
| Database.SimpleDB.Get | database.js:29-31 | the result is the stored value when that value is truthy, and null exactly when the key is absent or its value falsy |
| Database.SimpleDB.Set | database.js:33-37 | the file becomes the old contents with the key written; the store stays well formed |
| Database.SimpleDB.Delete | database.js:39-43 | the file becomes the old contents without the key; the store stays well formed |
| Database.SimpleDB.GetAll | database.js:45-47 | the whole parsed mapping unchanged, or `{}` for an unparsable file |
| Database.SimpleDB.Find | database.js:49-56 | one `{ key, ...value }` result per matching entry, in key order, with the value's spread fields |
| Database.SimpleDB.Cleanup | database.js:58-67 | completes exactly when no value is null, then writes the pruned store; otherwise the file is unchanged |
| Database.Prune | database.js:59-65 | the loop of `cleanup` stops at the first null value, and otherwise yields exactly the pruned store |
| Database.DropAgedExact | database.js:61-64 | deleting aged entries key by key keeps exactly the entries that are unvisited or not aged, with their values unchanged |
| Database.PrunedFromParts | database.js:61-66 | a full pass without a null deletes exactly the aged entries |
| Database.WithoutDistinct | database.js:41 | deleting a key keeps the other keys distinct |
| Database.WithoutAbsent | database.js:41 | deleting an absent key leaves the key order as it was |
| Database.KeptKeysDistinct | database.js:61-64 | the keys `cleanup` keeps are distinct |
| Database.KeptKeysExact | database.js:61-64 | a key is kept exactly when it is listed and its entry is not aged |
| Database.KeptKeysMembership | database.js:61-64 | the kept keys are exactly the stored keys whose entry is not aged |
| Database.GetAfterSet | database.js:29-37 | after `set(k, v)`, `get(k)` is `v` when `v` is truthy and null otherwise; other keys read as before |
| Database.DeleteOnlyKey | database.js:39-43 | `delete(k)` removes only `k` and leaves other values unchanged; deleting an absent key changes nothing |
| Database.MatchingKeysExact | database.js:52-53 | `find` returns an entry exactly when the predicate holds of its value and key |
| Database.WithKeyCarriesKey | database.js:53 | each result carries its key unless its value has its own `key` field; an object's other fields, a string's characters and an array's elements are copied under their names or indexes; null, booleans and numbers add nothing |
| Database.AgedMeansTruthyField | database.js:62 | only an entry with a truthy field can be deleted; an entry lacking the field is kept |
| Token.VerifyToken | server.js:72-83 | valid exactly when the token decodes, its signature is the 16-character HMAC prefix of its payload and 1 <= t <= TOTAL_TABLES; a valid result names table t |
| Token.SignTable | generate-qr.js:11-18 | the token is the encoding of the signed payload: when the codec reads back what it wrote, it verifies to table t for every table count covering t, and is refused for every other |
| Token.SignedTokenVerifies | generate-qr.js:11-18 | a token printed for a table in range verifies and names that table |
| Token.TamperedTokenRejected | server.js:75-77 | a token whose signature is not the one recomputed from its payload is refused |
| Phone.DigitsOnly | server.js:268 | the result is made only of digits, is no longer than the input, and is the input when the input is all digits |
| Phone.PhoneKey | server.js:268-273 | the stored number is all digits: `91` followed by the digits of the input, 12 characters for a 10-digit input |
| Phone.DigitsOnlyAppend | server.js:268 | stripping non-digits distributes over concatenation |
| Phone.PhoneKeyMatches | server.js:268-273 | two inputs give the same stored number exactly when their digits agree |
| Phone.PhoneKeyStable | server.js:273 | normalising a stored number again changes nothing |
| Phone.DecimalString | server.js:285 | `String(n)` is a non-empty digit string with no leading zero unless n is 0 |
| Phone.ParseDecimalString | server.js:285 | the printed number reads back as the number |
| Phone.DecimalStringsDistinct | server.js:285 | different numbers print as different strings, and never as `key` |
| Phone.DecimalLength | server.js:285 | a number with k digits prints as k characters |
| Phone.OtpNumber | server.js:285 | the drawn number lies in 1000..9999 |
| Phone.OtpCode | server.js:285 | the OTP is four digits with a non-zero first digit, and reads back as the drawn number |
| Phone.OtpNumberReachable | server.js:285 | every number from 1000 to 9999 is drawn by some random value |
| Phone.NoLeadingZeroCode | server.js:285 | no issued code starts with `0` |
| RateLimit.Key | server.js:86 | the key is the kind, an underscore and the identifier, each recoverable from its place |
| RateLimit.KeyInjective | server.js:86 | within one kind, two identifiers share a rateLimit entry only when they are equal |
| RateLimit.ScanAndOtpKeysDisjoint | server.js:185 | a scan check by address and an OTP check by phone never count against the same entry |
| RateLimit.Admit | server.js:89-96 | refuse exactly when the window is current and full; a missing or expired window restarts at count 1; otherwise the count rises by one and the start is kept |
| RateLimit.Charge | server.js:85-97 | the store is written with the new window exactly when the check allows, and left as it was when it refuses |
| RateLimit.Run | server.js:85-97 | replaying checks allows at most one per check and always leaves an entry once there is one |
| RateLimit.InWindowBound | server.js:89-96 | inside one window the count equals the start count plus the checks allowed, and never exceeds max |
| RateLimit.AtMostMaxPerWindow | server.js:85-97 | at most `max` checks are allowed within `windowMs` of the check that opens a window |
| RateLimit.Pruned | server.js:959 | the hourly cleanup keeps exactly the windows whose start is zero or recent, unchanged |
| RateLimit.PrunedIsCleanup | database.js:58-67 | on the JSON form of the rateLimit store, `cleanup('start', maxAge)` keeps exactly the records `Pruned` keeps |
| RateLimit.PruneKeepsDecisions | server.js:959 | the cleanup never changes a later decision, since its age limit is at least the window |
| Orders.Selected | server.js:527-536 | each selected line has a positive quantity and subtotal price times quantity; there are at most as many lines as menu items |
| Orders.SelectItems | server.js:523-536 | the loop builds exactly the selected lines, in menu order, and the menu total |
| Orders.SelectedTotal | server.js:527-536 | the order total is the sum of the line subtotals |
| Orders.NothingSelectedIff | server.js:538-542 | nothing is selected exactly when no menu item has a positive quantity |
| Orders.Mine | server.js:673-675 | a listed pair is kept exactly when its order belongs to the session and has items |
| Orders.MineExact | server.js:672-675 | the page lists a code exactly when that stored order belongs to the session and has items |
| Orders.Insert | server.js:676 | inserting one order adds exactly that order to the list |
| Orders.InsertNewestFirst | server.js:676 | inserting into a newest-first list keeps it newest first |
| Orders.NewestFirstSort | server.js:676 | the sort is a permutation of its input, newest first |
| Orders.GrandTotal | server.js:678 | the page total is never negative when no order total is |
| Orders.AllItems | server.js:728 | the bill lists every line of every order and nothing else |
| Orders.SumSubtotalsAppend | server.js:729 | the subtotal sum of two lists is the sum of their sums |
| Orders.GrandTotalFront | server.js:678 | the grand total of a list with one more order in front adds that order's total |
| Orders.GrandTotalInsert | server.js:676-678 | inserting an order adds its total to the grand total |
| Orders.SortKeepsTotal | server.js:676-678 | sorting the page does not change its grand total |
| Orders.BillMatchesOrders | server.js:728-729 | for orders whose totals match their lines, the bill's subtotal sum equals the sum of order totals |
| Handlers.IsOpen | server.js:58-61 | open exactly from the opening hour up to, not including, the closing hour; never open when closing is not after opening |
| Handlers.IsBlocked | server.js:99-101 | blocked exactly when reading the blacklist finds a record for the number |
| Handlers.Stale | server.js:952-954 | an active or closed session is stale only once its truthy expiry has passed, an unverified one also 10 minutes after its scan; a passed expiry always makes it stale |
| Handlers.StaleStaysStale | server.js:952-954 | a session stale at one time is stale at every later time |
| Handlers.SessionAddedKeepsValid | server.js:211-216 | storing a well-formed session keeps the invariant |
| Handlers.ScanStep | server.js:182-216 | the scan rate limit is always charged; a `pending_phone` session for the token's table is stored exactly when the limit allows, the shop is open and the token is valid; otherwise the reply is "too fast" exactly when the limit refuses, "shop closed" exactly when it allows but the shop is closed, and "invalid QR" exactly when it allows, the shop is open and the token is invalid; nothing else changes |
| Handlers.SendOtpStep | server.js:255-292 | an OTP is issued exactly from a fresh `pending_phone` session with a 10-digit, unblocked number within the OTP limit; the session becomes `pending_otp` with the normalised phone, a 1000..9999 code, expiry in 5 minutes and 0 attempts; a late session is deleted; each refusal is tied to its own condition: "session expired" without a `pending_phone` session, "invalid number" for a digit count other than 10, "number blocked" for a blacklisted number, "too many attempts" when the OTP limit refuses; other failures change nothing |
| Handlers.VerifiedKeepsValid | server.js:383-405 | activating a session, taking its table and writing the placeholder keep the invariant |
| Handlers.VerifyOtpStep | server.js:351-405 | only from `pending_otp`; an expired code or 3 used attempts delete the session; a wrong code adds one attempt and reports `3 - attempts` left; the right code activates the session, clears the OTP fields, occupies the table and stores the placeholder order |
| Handlers.PlacedKeepsValid | server.js:546-553 | storing an order and counting it keep the invariant |
| Handlers.PlaceOrderStep | server.js:506-553 | an order is placed exactly for an active, unexpired session with the matching code, fewer than 10 orders and a non-empty selection; its total is the sum of its lines and the count rises by one to at most 10; each refusal is tied to the first check that fails: "session expired" without an active session, "expired" past its expiry, "invalid" for another order code, "order limit reached" at 10 orders, "select at least one item" exactly when no quantity is positive; any refusal changes nothing |
| Handlers.SetStatusStep | server.js:922-926 | an existing order takes the new status; no other record changes |
| Handlers.BlockStep | server.js:928-931 | the normalised number becomes blocked and no other number's status changes |
| Handlers.Occupant | server.js:935-938 | a table names an occupant only when its record names an existing session |
| Handlers.ClearTableStep | server.js:933-943 | the table record is deleted and no other; only the session it names, if it exists, becomes `closed` |
| Handlers.SweepStep | server.js:948-960 | exactly the stale sessions go, with the tables they name; others stay unchanged; the rate windows are pruned by age |
| Flows.BlockedNumberRefused | server.js:268-279 | a number blocked as typed in any form is refused an OTP |
| Flows.BlockOnlyThatNumber | server.js:928-929 | blocking a number changes nothing for numbers with other digits |
| Flows.OtpRoundTrip | server.js:285-400 | the issued code is accepted within its lifetime; the session becomes active with the normalised phone and its table is taken |
| Flows.ThirdWrongCodeKeepsSession | server.js:365-377 | three wrong codes leave 2, 1, 0 tries and keep the session; the fourth submission deletes it |
| Flows.PlaceholderNotShown | server.js:402-405 | the placeholder order never shows on an order page or bill |
| Flows.PlacedOrderShown | server.js:546-550 | a placed order shows on its customer's page, with the total of its lines |
| Flows.BillMatchesMyOrders | server.js:723-729 | the bill's line sum equals the order page's grand total |
| Flows.ClearedSessionCannotOrder | server.js:933-940 | after a table is cleared its session is closed and cannot order |
| Flows.SweepFreesOccupiedTable | server.js:956 | the sweep deletes a stale session's table even when a live session holds it |
| Flows.SweptSessionCannotOrder | server.js:952-955 | a swept session cannot order afterwards |
| Server.Server.constructor | database.js:70-75 | the five stores start as their files hold them (empty for a missing file), provided they satisfy the invariant |
| Server.Server.CheckRate | server.js:85-97 | the decision and the new rateLimit store are those of the fixed-window check; the other stores are unchanged |
| Server.Server.Scan | server.js:182-216 | makes exactly the scan transition and keeps the invariant |
| Server.Server.SendOtp | server.js:255-292 | makes exactly the send-OTP transition and keeps the invariant |
| Server.Server.VerifyOtp | server.js:351-405 | makes exactly the verify-OTP transition on the four joined digit fields and keeps the invariant |
| Server.Server.PlaceOrder | server.js:506-553 | makes exactly the place-order transition and keeps the invariant |
| Server.Server.MyOrders | server.js:668-678 | not found exactly when there is no session; otherwise the session's orders with items, newest first, and the sum of their totals |
| Server.Server.RequestBill | server.js:719-729 | not found exactly when there is no session; otherwise every line of the session's orders and their subtotal sum, which equals the order page's grand total |
| Server.Server.SetStatus | server.js:922-926 | makes exactly the status update and keeps the invariant |
| Server.Server.Block | server.js:928-931 | makes exactly the blacklist write and keeps the invariant |
| Server.Server.ClearTable | server.js:933-943 | makes exactly the clear-table transition and keeps the invariant |
| Server.Server.Sweep | server.js:948-960 | makes exactly the sweep transition and keeps the invariant |
| Server.Server.DropStale | server.js:950-958 | the loop deletes exactly the stale sessions and the tables they name |
| Server.Server.Visit | server.js:952-957 | one entry: a stale session is deleted, with its table when it names one |
| Server.BillTotal | server.js:723-729 | under the invariant, the bill's line sum equals the sorted page's grand total |

## Left out

- HTML pages, CSS, the dashboard, `/reorder`, `/api/verify` and the WhatsApp links are presentation only. The model gives the page kind and its data instead.
- Express plumbing is not modelled: request parsing, `getIP` header splitting, `res.send`/`redirect` and `console.log`. The client address is a parameter.
- HMAC-SHA256, base64url and `JSON.parse`/`JSON.stringify` are functions inside a `Codec` value, with no axioms. A token whose payload has a non-numeric `t` is not modelled: `t` is an integer. A decoded payload is the pair `Payload(t, r)`, so the JSON shape of the payload is lost: its key order and any extra fields, which `JSON.stringify(p)` feeds into the HMAC, are not modelled. Tokens printed by `signTable` have exactly that shape.
- File I/O is not modelled beyond its results. The backing file is a field that holds either a parsed object or unparsable text. Write failures, concurrent requests, lost updates and the `setInterval` scheduling itself are out of scope.
- Server stores hold typed records, not generic JSON. Their records are always objects, so the falsy-value case of `get` cannot arise there. The generic store, with that case, is `Database.SimpleDB`.
- Tables are keyed by the number n, which stands for the key `table_<n>`.
- Util.Get: states the typed-store read without the falsy-to-null case of `get`, because typed records are never falsy.
- `Object.entries` visits integer-like keys first in JavaScript. The model takes the key order as given: insertion order in `SimpleDB`, and a `listing` parameter for `/my-orders` and `/request-bill`.
- Database.Stamp: only numbers and booleans count as timestamps. JavaScript's `-` would also coerce a numeric string, or an array of one number, and could then delete that entry. It coerces other truthy values, such as `[]` or a string of spaces, to 0, so `now - 0` exceeds `maxAge` and the source deletes those entries too. The model keeps all such entries.
- Database.Lookup, Database.Put: keys that name members of `Object.prototype` (`constructor`, `toString`, `__proto__` and the like) are modelled as plain keys. In the source `get` returns the inherited member for such an absent key, and `set('__proto__', v)` goes through the prototype setter and loses the write, so `Database.GetAfterSet` does not hold there. Through `Server.Server.MyOrders` and `Server.Server.RequestBill`, a session code such as `constructor` is reported as not found, where the source renders a page for it.
- Database.Spread: a string is spread one Unicode character per field. JavaScript spreads it one UTF-16 code unit per field, so a character outside the Basic Multilingual Plane gives two fields there.
- Database.Field: only object values have fields. A field read on a string or array value is not modelled.
- A backing file that holds valid JSON other than an object is not modelled. For example, `null` makes `get` and `set` throw, and `[]` makes `set` lose its write. The file is either an object or unparsable.
- JSON numbers are integers here (`Json.JNum`), not doubles.
- The configuration is not parsed from environment variables. `Config` holds the resulting numbers, and the menu is a sequence given to the server.
- A missing form field is not modelled. The phone and digit fields are strings. `notes` is a string, so `notes || ''` stores it as given.
- A non-numeric `/clear-table` argument, which JavaScript turns into `NaN`, is not modelled. The table number is an integer.
- Collisions of `genCode()` results are not ruled out. A fresh code is a parameter, and a code already in a store overwrites it, as in the source.
- `verified: true` is not a separate field. `verifiedAt` being set stands for it.
- Server.Server.Scan, Server.Server.SendOtp, Server.Server.VerifyOtp and Server.Server.PlaceOrder read the clock once per request; the source calls `Date.now()` several times within a handler.
- Server.Server.Sweep: uses one `now` for the session loop and for the rateLimit cleanup; the source's `cleanup` reads `Date.now()` again.
- start.js and the QR image generation of generate-qr.js are not part of this model.

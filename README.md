# Driver and facility creation, modelled in Dafny

This project models two Express route handlers of a fleet-management back end.
It proves what each handler answers and what it does to the database.

- **Driver creation** (`POST /`, `server/routes/cruds/createDriver.js`):
  - It checks out a client and opens a transaction.
  - It collects every failed rule, in this order: age at least 18, contact number
    digits only, contact number exactly 11 characters, license number not used by an
    enabled driver, name not used by an enabled driver ignoring case.
  - If any rule failed, it rolls back and answers 400 with the messages joined by
    newlines.
  - Otherwise it inserts the driver and one `DriverVehicles` row per drivable vehicle.
    Those rows use a `VALUES ($1, $k, true), …` placeholder list. Then it commits.
  - Any thrown error rolls back. It is answered 400 for a unique violation
    (SQLSTATE 23505) and 500 otherwise.
  - The client is released on every path.
- **Facility creation** (`POST /`, `server/routes/cruds/createFacilities.js`):
  - It checks for a case-insensitive duplicate among all facilities, enabled or not.
  - If there is none, it inserts the row and returns it.
  - It maps a unique violation to 400 and anything else to a bare 500.

Layout:

- `wrappers.dfy`: `Option`.
- `text.dfy`: the digit test behind `^\d+$`, ASCII lower-casing, `join`/`split`, and decimal numerals.
- `schema.dfy`: the three table rows, a `WHERE` filter and fresh ids.
- `placeholders.dfy`: the placeholder builder, and how the database reads the list back against its parameters.
- `store.dfy`: a `Database` class holding the tables and a `Connection` class holding the transaction snapshot and the `released` flag.
- `responses.dfy`: the response and how a `try` block ends.
- `create_driver.dfy` and `create_facilities.dfy`: the two handlers.

Each handler has two parts:

- A pure outcome function (`CreateDriver.DriverResponse` / `Commits` / `Committed`, and
  `CreateFacilities.FacilityResponse` / `FacilitiesAfter`) says what happens.
- An imperative method performs the queries against the `Database` object. Its
  postcondition says it sends exactly that response and leaves exactly that state.

The properties are lemmas about the outcome functions.

Database failures are a parameter `faults`. It maps each query step that fails to the
SQLSTATE code it throws. This is how a race that trips a unique constraint between
the check and the insert is represented.

An absent `contactNumber` makes `contactNumber.length` (createDriver.js line 38) throw a
TypeError. The TypeError has no code, so the request is answered 500, whatever the other
rules say.

## Model

| member | source | states |
|---|---|---|
| Text.LowerIdempotent | server/routes/cruds/createDriver.js:55 | lower-casing twice is lower-casing once, so `LOWER(name) = LOWER($1)` compares canonical forms |
| Text.Lower | server/routes/cruds/createFacilities.js:17 | `LOWER(...)`: ASCII lower-casing, character by character (its properties are `Text.LowerIdempotent` and the case lemmas of both handlers) |
| Text.AllDigits | server/routes/cruds/createDriver.js:33 | `/^\d+$/.test(...)`: non-empty and every character a digit (used through `CreateDriver.ContactExamples` and `CreateDriver.ErrorsMatchRules`) |
| Text.Join | server/routes/cruds/createDriver.js:70 | `errors.join(sep)`: the parts with `sep` between neighbours, empty for no parts (inverted by `Text.SplitJoin`) |
| Text.SplitJoin | server/routes/cruds/createDriver.js:70 | joining one or more newline-free messages with a newline and splitting on newlines gives back exactly those messages |
| Text.SplitPrefix | server/routes/cruds/createDriver.js:70 | splitting a separator-free prefix followed by a string extends that string's first piece and keeps the rest |
| Text.Decimal | server/routes/cruds/createDriver.js:89 | the numeral `${i + 2}` prints: non-empty and all digits (read back by `Text.DecimalRoundTrip`) |
| Text.DecimalRoundTrip | server/routes/cruds/createDriver.js:89 | the decimal numeral written after `$` in a placeholder reads back as the same number |
| Text.DigitRunOf | server/routes/cruds/createDriver.js:89 | a numeral followed by a non-digit is read up to exactly its own length |
| Text.DigitRun | server/routes/cruds/createDriver.js:89 | the length of the longest digit prefix: every char before it is a digit, the one at it is not |
| Text.DigitValue | server/routes/cruds/createDriver.js:89 | a digit's value is below ten and maps back to that digit |
| Schema.WhereFindsMatch | server/routes/cruds/createDriver.js:42-48 | a filtered query returns some row exactly when some row satisfies the condition (`rows.length > 0`) |
| Schema.FreshId | server/routes/cruds/createDriver.js:75-85 | a generated id is positive and larger than every id in the table, so it is new |
| Placeholders.Tuple | server/routes/cruds/createDriver.js:89 | the template `($1, $${k}, true)` for placeholder k (read back by `Placeholders.ParseTupleOf`) |
| Placeholders.ValuesList | server/routes/cruds/createDriver.js:88-90 | the `VALUES` list: the comma-join of `($1, $k, true)` for k = 2 .. N+1 (read back by `Placeholders.ValuesListReadsBack` and `Placeholders.BindsEveryVehicle`) |
| Placeholders.ParseTupleOf | server/routes/cruds/createDriver.js:89 | one tuple `($1, $k, true)` followed by a comma or the end reads back as placeholder k |
| Placeholders.ParseJoinedTuples | server/routes/cruds/createDriver.js:88-90 | a comma-joined list of one or more tuples reads back as exactly the placeholder numbers, in order |
| Placeholders.ValuesListReadsBack | server/routes/cruds/createDriver.js:88-90 | the list built for N vehicles names placeholders 2 .. N+1 in order, so it has N tuples, and it is empty exactly when there are no vehicles |
| Placeholders.BindsEveryVehicle | server/routes/cruds/createDriver.js:88-98 | with parameters `[driverId, v1..vN]`, the list binds to exactly the rows `(driverId, v_i, true)`, in order: placeholder k names vehicle k-1 |
| Placeholders.BoundParamNumbers | server/routes/cruds/createDriver.js:89-98 | binding placeholders 2 .. N+1 against `[driverId, v1..vN]` yields the links of the vehicles in order |
| Store.Database.InsertDriver | server/routes/cruds/createDriver.js:75-85 | appends one enabled driver row with the given fields and a fresh id, returns that id, other tables unchanged |
| Store.Database.InsertDriverVehicles | server/routes/cruds/createDriver.js:92-99 | appends exactly the rows the placeholder list binds to, other tables unchanged |
| Store.Database.InsertFacility | server/routes/cruds/createFacilities.js:28-34 | appends one enabled facility row with the given fields and a fresh id and returns that row (`RETURNING *`), other tables unchanged |
| Store.Database.Restore | server/routes/cruds/createDriver.js:67 | puts the tables back to a given state |
| Store.Database.constructor | server/routes/cruds/createDriver.js:21 | a database holding the given tables |
| Store.Connection.constructor | server/routes/cruds/createDriver.js:21 | a checked-out client on the database, with no transaction open and not released |
| Store.Connection.Begin | server/routes/cruds/createDriver.js:24 | `BEGIN`, with no transaction open, opens one whose snapshot is the current state |
| Store.Connection.Rollback | server/routes/cruds/createDriver.js:107 | `ROLLBACK` restores the snapshot of the open transaction, or changes nothing when none is open, and closes it |
| Store.Connection.Commit | server/routes/cruds/createDriver.js:102 | `COMMIT` keeps the current state and closes the transaction |
| Store.Connection.Release | server/routes/cruds/createDriver.js:124 | `client.release()` marks the client released |
| CreateFacilities.DuplicateQuery | server/routes/cruds/createFacilities.js:15-19 | `SELECT id FROM "Facilities" WHERE LOWER(name) = LOWER($1)` over all rows (characterised by `CreateFacilities.DuplicateQueryFinds`) |
| CreateFacilities.CatchResponse | server/routes/cruds/createFacilities.js:38-49 | the `catch` block: 23505 gives 400 "Facility name already exists.", anything else 500 with only `success: false` |
| CreateFacilities.NewFacility | server/routes/cruds/createFacilities.js:28-34 | the row the insert creates: the request's name, capacity and location, a fresh id, enabled (see `CreateFacilities.NewNameInserted`) |
| CreateFacilities.FacilityResponse | server/routes/cruds/createFacilities.js:12-49 | the answer for a table and a set of failing steps: check error, duplicate 400, insert error, or 200 with the new row (properties in the facility lemmas below) |
| CreateFacilities.FacilitiesAfter | server/routes/cruds/createFacilities.js:28-36 | the table after the request: the returned row appended when there is one (properties in `CreateFacilities.OutcomeShape` and `CreateFacilities.NewNameInserted`) |
| CreateFacilities.DuplicateQueryFinds | server/routes/cruds/createFacilities.js:15-21 | the duplicate query returns a row exactly when some facility's lower-cased name equals the requested one's, whatever its `enabled` flag |
| CreateFacilities.HandleCreateFacility | server/routes/cruds/createFacilities.js:9-51 | the handler answers `FacilityResponse` and leaves exactly `FacilitiesAfter` in the table; drivers and links are untouched |
| CreateFacilities.DuplicateRejected | server/routes/cruds/createFacilities.js:15-26 | a name taken in any case by any facility gets 400 with the case-insensitive message and inserts nothing |
| CreateFacilities.EnabledFlagIgnored | server/routes/cruds/createFacilities.js:15-21 | flipping a facility's `enabled` flag never changes whether a name is taken |
| CreateFacilities.FacilityNameCaseIrrelevant | server/routes/cruds/createFacilities.js:17 | whether a name is taken is the same for the requested name and its lower-cased form |
| CreateFacilities.NewNameInserted | server/routes/cruds/createFacilities.js:28-36 | a new name adds exactly one enabled row with the request's name, capacity and location and a fresh id, and that row is the one returned with 200 |
| CreateFacilities.RaceOnInsertRejected | server/routes/cruds/createFacilities.js:41-46 | an insert that throws 23505 gets 400 with "Facility name already exists." and leaves the table unchanged |
| CreateFacilities.OtherErrorFails | server/routes/cruds/createFacilities.js:48-49 | any other error from either query gets 500 with `success: false` and no message, and leaves the table unchanged |
| CreateFacilities.OutcomeShape | server/routes/cruds/createFacilities.js:12-50 | every answer is 200, 400 or 500; `success` and the returned row go with 200 only; a 500 has no message; any answer other than 200 leaves the table unchanged |
| CreateFacilities.SecondCaseVariantRejected | server/routes/cruds/createFacilities.js:15-36 | after a first request, a second whose name differs only in case gets 400 and changes nothing; the table holds the first one's row when its name was new |
| CreateFacilities.CreateKeepsNamesUnique | server/routes/cruds/createFacilities.js:15-36 | if no two facilities share a lower-cased name before a request, none do after it, whatever fails |
| CreateDriver.Message | server/routes/cruds/createDriver.js:29-61 | the string each rule pushes at lines 29, 34, 39, 49 and 61 (see `CreateDriver.MessageInjective` and `CreateDriver.MessageSingleLine`) |
| CreateDriver.DriverErrors | server/routes/cruds/createDriver.js:26-63 | the `errors` array after line 63: the messages of the failing rules (characterised by `CreateDriver.ErrorsMatchRules`, `CreateDriver.ErrorsInCheckOrder` and `CreateDriver.MessageSplitsBack`) |
| CreateDriver.Vehicles | server/routes/cruds/createDriver.js:87 | the vehicle list read through `drivableVehicles?.length`, with an absent list as no vehicles (see `CreateDriver.CommitAddsDriverAndLinks`) |
| CreateDriver.CheckOutcome | server/routes/cruds/createDriver.js:26-63 | how the checks end: the line-38 throw, a failing query's error, or the collected messages (implemented by `CreateDriver.CheckRequest`) |
| CreateDriver.InsertOutcome | server/routes/cruds/createDriver.js:75-104 | how the inserts and the commit end: the first failing step's error, or 200; the link insert only runs with vehicles (implemented by `CreateDriver.InsertAndCommit`) |
| CreateDriver.NewDriver | server/routes/cruds/createDriver.js:75-83 | the row inserted: the request's fields, the given id, enabled (see `CreateDriver.CommitAddsDriverAndLinks`) |
| CreateDriver.AgeRejected | server/routes/cruds/createDriver.js:28 | `!age \|\| isNaN(age) \|\| Number(age) < 18` on the modelled age (characterised by `CreateDriver.AgeBoundary`) |
| CreateDriver.LicenseQuery | server/routes/cruds/createDriver.js:42-46 | `SELECT id FROM "Drivers" WHERE liscence_id_number = $1 AND enabled = true` (characterised by `CreateDriver.LicenseQueryFinds`) |
| CreateDriver.NameQuery | server/routes/cruds/createDriver.js:53-57 | `SELECT id FROM "Drivers" WHERE LOWER(name) = LOWER($1) AND enabled = true` (characterised by `CreateDriver.NameQueryFinds`) |
| CreateDriver.TryOutcome | server/routes/cruds/createDriver.js:23-104 | how the `try` block ends: `BEGIN` error, check error, 400 after `ROLLBACK`, insert or commit error, or 200 (implemented by `CreateDriver.TryBody`) |
| CreateDriver.CatchResponse | server/routes/cruds/createDriver.js:106-122 | the `catch` block: 23505 gives 400 with the constraint message, anything else 500 "Failed to create driver." (see `CreateDriver.ThrownErrorMapped`) |
| CreateDriver.DriverResponse | server/routes/cruds/createDriver.js:23-122 | the answer sent: the `try` block's own response, or the `catch` block's for a thrown error (see `CreateDriver.StatusReflectsCommit`) |
| CreateDriver.Committed | server/routes/cruds/createDriver.js:75-102 | the tables after a commit: the new driver and its links appended (characterised by `CreateDriver.CommitAddsDriverAndLinks`) |
| CreateDriver.NameCaseIrrelevant | server/routes/cruds/createDriver.js:55 | whether a driver name is taken is the same for the requested name and its lower-cased form |
| CreateDriver.LicenseQueryFinds | server/routes/cruds/createDriver.js:42-48 | the license query returns a row exactly when an enabled driver has exactly that license string |
| CreateDriver.NameQueryFinds | server/routes/cruds/createDriver.js:53-59 | the name query returns a row exactly when an enabled driver's lower-cased name equals the requested one's |
| CreateDriver.Commits | server/routes/cruds/createDriver.js:75-104 | a committing request has a numeric age of at least 18 and a contact number |
| CreateDriver.MessageInjective | server/routes/cruds/createDriver.js:29-61 | the five rule messages are pairwise different |
| CreateDriver.AgeMessageSingleLine | server/routes/cruds/createDriver.js:29 | the age message has no newline |
| CreateDriver.ContactMessagesSingleLine | server/routes/cruds/createDriver.js:34-39 | the two contact messages have no newline |
| CreateDriver.NameMessageSingleLine | server/routes/cruds/createDriver.js:61 | the name message has no newline |
| CreateDriver.MessageSingleLine | server/routes/cruds/createDriver.js:29-61 | no rule message contains a newline |
| CreateDriver.MessagesPush | server/routes/cruds/createDriver.js:26-63 | pushing a failed rule's message extends the messages of the failed rules by that message |
| CreateDriver.FailedRulesMatch | server/routes/cruds/createDriver.js:26-63 | a rule is listed as failed exactly when it fails |
| CreateDriver.ErrorsMatchRules | server/routes/cruds/createDriver.js:26-63 | each rule's message is in `errors` exactly when that rule fails |
| CreateDriver.ErrorsInCheckOrder | server/routes/cruds/createDriver.js:26-63 | `errors` is the messages of the failing rules, each once, in the order age, digits, length, license, name |
| CreateDriver.AgeBoundary | server/routes/cruds/createDriver.js:28-30 | at the boundary: an age of 18 passes, 17 fails, and a missing or non-numeric age fails |
| CreateDriver.ContactExamples | server/routes/cruds/createDriver.js:33-40 | the two contact rules are independent: "" and "0917-123" fail both, "12345678901" passes both |
| CreateDriver.DisabledDriversIgnored | server/routes/cruds/createDriver.js:42-63 | adding a disabled driver never changes whether a license or a name is taken |
| CreateDriver.CaseExamples | server/routes/cruds/createDriver.js:42-63 | "JOHN SMITH" conflicts with an enabled "John Smith"; the license check is case-sensitive |
| CreateDriver.MessageSplitsBack | server/routes/cruds/createDriver.js:66-71 | the 400 message splits on newlines back into exactly the collected messages |
| CreateDriver.InvalidRequestRejected | server/routes/cruds/createDriver.js:65-72 | when the checks run and some rule fails, the answer is 400 with the joined messages and nothing commits |
| CreateDriver.ValidRequestAccepted | server/routes/cruds/createDriver.js:65-104 | with no database error, a request commits exactly when no rule fails, and then gets 200 `{success: true}` |
| CreateDriver.MissingContactFails | server/routes/cruds/createDriver.js:38 | an absent contact number makes the length read throw, so the answer is 500 and nothing commits |
| CreateDriver.StatusReflectsCommit | server/routes/cruds/createDriver.js:23-125 | the answer is 200 exactly when the transaction commits; every answer is 200, 400 or 500; `success` is true exactly for 200; only non-200 answers carry a message |
| CreateDriver.ThrownErrorMapped | server/routes/cruds/createDriver.js:106-122 | an error thrown in the `try` block never commits, and the answer is the `catch` block's `CreateDriver.CatchResponse` of its code |
| CreateDriver.RaceOnInsertRejected | server/routes/cruds/createDriver.js:75-117 | a valid request whose driver insert throws 23505 gets 400 with the constraint message and nothing commits |
| CreateDriver.CommitAddsDriverAndLinks | server/routes/cruds/createDriver.js:75-102 | a commit adds exactly one enabled driver with the request's fields and a fresh id, and one enabled link per drivable vehicle, in order, naming that id; no link when the list is absent or empty; facilities unchanged |
| CreateDriver.CreateKeepsDriversUnique | server/routes/cruds/createDriver.js:42-104 | if no two enabled drivers share a license or a lower-cased name before a request, none do after it |
| CreateDriver.CheckInput | server/routes/cruds/createDriver.js:26-40 | the input rules push the messages of exactly the failing age, digits and length rules, in that order; an absent contact number throws instead |
| CreateDriver.CheckRequest | server/routes/cruds/createDriver.js:26-63 | checking the request either throws as the failing query or the missing contact number does, or yields exactly the messages of the failing rules in check order |
| CreateDriver.InsertAndCommit | server/routes/cruds/createDriver.js:75-104 | the inserts and commit end as the first failing step says; on success the transaction is closed and the tables are the committed ones; the vehicle insert is sent only when there are vehicles |
| CreateDriver.TryBody | server/routes/cruds/createDriver.js:23-104 | the `try` block ends as `TryOutcome` says; a 400 rolls back to the state before; a thrown error leaves the snapshot to restore |
| CreateDriver.HandleCreateDriver | server/routes/cruds/createDriver.js:9-126 | the handler answers `DriverResponse`; the database holds the committed tables when the request commits and is unchanged otherwise; the client is released with no transaction open |

## Left out

- Express routing, the `req`/`res` objects and JSON serialisation. A response is a datatype with a status, `success`, an optional message and an optional row.
- The `pg` pool, `DATABASE_URL` and connection acquisition. A client is a `Connection` object with a transaction snapshot and a `released` flag.
- SQL execution. Each query is a filter over an in-memory sequence. Each failure is a parameter: the SQLSTATE code, if any, that a step throws.
- Generated ids. A new id is one more than the largest id in the table, or 1 when that would be smaller. A real sequence never hands out again an id burned by a rolled-back insert; the model can, and it only promises an id no row has.
- Concurrency and interleaved requests. A race between the check and the insert appears only as a 23505 failure at the insert step.
- JavaScript coercion of `age` (`!age`, `isNaN`, `Number`, floats). Age is an optional integer, with `None` for absent or non-numeric. The driver row stores that integer.
- Absent `name`, `licenseNumber` or `gender` in the driver request, and absent `name`, `capacity` or `location` in the facility request. The model makes them always present. The code sends an absent value as SQL NULL, so `LOWER(name) = LOWER(NULL)` and `liscence_id_number = NULL` never match, and an absent name or license never conflicts.
- `drivableVehicles` given as something other than an array of ids. It is modelled as absent or a list of integers. A string, say, has a length but no `.map`, so the code throws at line 89 and answers 500.
- `contactNumber` given as a non-string (a JSON number or array). It is modelled as a string or absent. Its length counts characters, not UTF-16 code units.
- Postgres `LOWER` on non-ASCII letters. Lower-casing maps only `A`-`Z`.
- `console.error` logging.
- A failing `ROLLBACK` inside the `catch` block (createDriver.js line 107). The model assumes it succeeds. In the code, such a failure would leave the request without a response.
- The database's own unique constraints on `Drivers` and `Facilities` appear only as a possible 23505 failure of the insert. Foreign keys on `DriverVehicles` appear the same way, as a possible failure of the link insert.
- The facility row's columns beyond `id`, `name`, `capacity`, `location` and `enabled`, and how `RETURNING *` serialises them.
- Store.Database.InsertDriverVehicles: requires that the placeholder list binds against its parameters. The handler always meets this (`Placeholders.BindsEveryVehicle`). A list the database could not bind is not modelled.

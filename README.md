# Parking-lot occupancy and fee model

This project models the backend of a smart parking-lot system: eight parking
spaces and a history of stays. A vehicle's entry marks a space occupied and
opens a stay record. Its exit frees the space, charges a tiered fee and closes
the open records of its plate. Read endpoints list the spaces, list the
history (latest entry first) and give quick statistics.

The model has five modules:

- `Wrappers` holds `Option` (SQL `NULL`) and `Result` (handler replies).
- `Fees` holds `calculateFee`. Amounts are integer cents: 200 for the first
  hour, 150 for each further started hour, capped at 1500. Timestamps are
  integer milliseconds.
- `Tables` holds the rows of `parking_spots` and `parking_records`, the schema
  invariants, and the effect of each SQL `UPDATE`/`INSERT` on a table value.
- `Queries` holds the spot list, the record history and `/api/stats`, as
  functions of the tables. It also holds lemmas on how entries and exits
  change the statistics.
- `Store` holds the class `ParkingStore`. Its fields are the two tables and
  the records' AUTOINCREMENT counter. Its methods are the seeding step
  (`SeedSpots`), `POST /api/entry` (`Entry`) and `POST /api/exit` (`Exit`).

The current time is a parameter `now`: that is the handler's `new Date()`. A
calendar day is `ms / 86_400_000`. For timestamps in the years 0000 to 9999,
that is the UTC day that `toISOString().slice(0, 10)` and SQLite's `date(...)`
name.

The model follows what the code does. A written design for this system
describes stricter behaviour that the code does not have:

- `Entry` overwrites an occupied space without checking.
- `Exit` closes every open record of the plate, not only the most recent one.
- An exit before the entry is not rejected. It is billed as a non-positive
  duration at the first-hour rate.
- An entry with an unknown spot id still appends a record.
- The design names fee units of 2000/1500/15000. The code uses 2.00/1.50/15.00,
  which the model keeps as 200/150/1500 cents.

Entry also has a partial-update path. When the request has no plate, the spot
`UPDATE` goes through and leaves the space occupied with a `NULL` plate. The
record `INSERT` then fails on `license_plate NOT NULL`, and no record is
added. `Entry` returns `Err(MissingPlate)` in that case. A later exit of that
space closes no record, because `license_plate = NULL` matches nothing in SQL.

## Model

| member | source | states |
|---|---|---|
| `Fees.DurationMinutes` | backend/server.js:19 | the duration is the least whole number of minutes covering the elapsed time: `(m-1)*60000 < elapsed <= m*60000`, so a started minute counts as a full one |
| `Fees.BilledHours` | backend/server.js:25 | the started hours are the least whole number of hours covering the minutes |
| `Fees.FeeForDuration` | backend/server.js:21-30 | every fee lies in [200, 1500]; up to 60 minutes (including 0 or negative minutes) it is exactly 200 |
| `Fees.CalculateFee` | backend/server.js:16-31 | the returned duration is the ceiling of the elapsed minutes, the fee is the tier of that duration, within [200, 1500] |
| `Fees.BilledHoursUnique` | backend/server.js:25 | any integer that brackets the minutes by hours is the billed hour count |
| `Fees.BilledHoursMonotone` | backend/server.js:25 | billed hours never decrease as the stay grows |
| `Fees.FeeTiers` | backend/server.js:25-30 | past 60 minutes, with h the started hours, fee = min(200 + (h-1)*150, 1500) |
| `Fees.FeeMonotone` | backend/server.js:21-30 | the fee is non-decreasing in the duration |
| `Fees.FeeCapped` | backend/server.js:29-30 | every stay over 540 minutes costs exactly the 1500 cap |
| `Fees.FeeBelowCap` | backend/server.js:25-27 | from 61 to 540 minutes every started hour is billed and the cap is not reached |
| `Fees.FeeNextHour` | backend/server.js:25-30 | one more hour on a positive stay adds 150, up to the cap (the tiers as a recurrence) |
| `Fees.NoEarlyExitRejection` | backend/server.js:19-22 | an exit at or before the entry is not rejected: at most 0 minutes, fee 200 |
| `Fees.OneSecondStay` | backend/server.js:19-22 | a one-second stay is one minute at 200 |
| `Fees.NinetyMinuteStay` | backend/server.js:16-31 | 08:00Z to 09:30Z is 90 minutes and costs 350 |
| `Tables.SpotIdsAscending` | backend/database.js:15 | the spot ids are strictly ascending, so the primary key is unique |
| `Tables.RecordIdsValid` | backend/database.js:39 | record ids are positive, strictly ascending in insertion order and never above the AUTOINCREMENT counter |
| `Tables.RecordLifecycle` | backend/database.js:42-45 | an open record has NULL exit time, duration and fee; a completed one has all three |
| `Tables.Lookup` | backend/server.js:86-88 | finds the row with the id exactly when some row has it, and returns that row |
| `Tables.UpdateSpot` | backend/server.js:64-65 | the row with the id takes the written values whatever it held; every other row is unchanged; the row count is unchanged |
| `Tables.OpenRecord` | backend/server.js:70-71 | the inserted record has the next id, the plate, the entry time, NULL exit/duration/fee and status 'En estacionamiento' |
| `Tables.ClosesRecord` | backend/server.js:101 | the WHERE clause of the exit's record update: same plate and status 'En estacionamiento'; a NULL plate matches nothing |
| `Tables.CloseRecord` | backend/server.js:101 | the SET clause of the exit's record update: exit time, duration, fee and status 'Completado' |
| `Tables.CloseOpenRecords` | backend/server.js:101-102 | every open record of the plate gets exit time, duration, fee and 'Completado'; every other record is unchanged; the count is unchanged; no open record of the plate remains |
| `Tables.LookupAfterUpdate` | backend/server.js:64-65 | after an update, the id reads the new row if it existed, and every other id reads as before |
| `Tables.UpdateAbsentId` | backend/server.js:64-65 | an update of an id that no row has changes nothing |
| `Tables.UpdateTwice` | backend/server.js:95-96 | a second update of the same row overrides the first: after an exit the space is free whatever the entry wrote |
| `Tables.UpdateKeepsIds` | backend/database.js:15 | updates keep every spot id, and so keep the primary key ascending and unique |
| `Tables.UpdateKeepsOccupancy` | backend/database.js:16-18 | writing a row that is occupied exactly when it has an entry time keeps that true for the whole table |
| `Tables.CloseTwice` | backend/server.js:101-102 | a second exit for the same plate closes nothing, whatever exit data it carries |
| `Tables.CloseKeepsIdentity` | backend/database.js:39-45 | closing keeps every record's id, plate and entry time, and keeps open records without exit data and completed ones with all of it |
| `Tables.CloseKeepsRecordIds` | backend/database.js:39 | closing keeps record ids positive, strictly ascending and within the AUTOINCREMENT counter |
| `Tables.AppendOpenRecord` | backend/database.js:39-45 | appending an open record with the next id keeps ids strictly ascending and within the new counter, and keeps every record's lifecycle |
| `Tables.EntryThenExit` | backend/server.js:70-102 | an entry's record, closed by a later exit of its plate, is completed with exactly that exit's time, duration and fee |
| `Queries.Day` | backend/server.js:114 | the day number is the UTC day the timestamp falls in |
| `Queries.ListSpots` | backend/server.js:36-44 | the listing holds exactly the table's rows, in strictly ascending id |
| `Queries.InsertByEntry` | backend/server.js:49 | inserting adds exactly the one record and keeps every other, and puts either it or the former head first |
| `Queries.InsertKeepsSorted` | backend/server.js:49 | inserting into a history sorted by entry time descending keeps it sorted |
| `Queries.ListRecords` | backend/server.js:48-56 | the history is a permutation of the ledger, sorted by entry time descending |
| `Queries.SqlSumFees` | backend/server.js:120 | SUM is NULL exactly when no completed record with a fee exited that day; otherwise it is the sum of those fees |
| `Queries.GetStats` | backend/server.js:113-137 | occupied and available are the numbers of occupied and free rows, and add up to the number of spaces; today's entries is the number of records that entered today; today's revenue is the sum of today's completed fees, 0 when there are none |
| `Queries.SpotsPartition` | backend/server.js:117-118 | every space is counted once, as occupied or as available |
| `Queries.CountSpots` | backend/server.js:117-118 | the `COUNT(*)` of spots whose `is_occupied` equals the flag |
| `Queries.CountSpotsAsSet` | backend/server.js:117-118 | the occupancy count equals the number of rows that have the flag |
| `Queries.CountEntriesOn` | backend/server.js:119 | the `COUNT(*)` of records whose entry day is the given day |
| `Queries.CountEntriesAsSet` | backend/server.js:119 | the entry count equals the number of records that entered that day |
| `Queries.EarnedOn` | backend/server.js:120 | the WHERE clause of the revenue query: completed, exited that day, with a non-NULL fee |
| `Queries.RevenueOn` | backend/server.js:120 | the plain sum of the fees of the records earned that day, 0 when there are none |
| `Queries.CountAfterUpdate` | backend/server.js:64-65 | an entry raises the occupied count by 1 on a free space and by 0 on an occupied or unknown one; an exit lowers it by 1 on an occupied space |
| `Queries.EntriesAfterAppend` | backend/server.js:70-71 | an appended record counts among a day's entries exactly when it entered that day |
| `Queries.RevenueAfterAppendOpen` | backend/server.js:70-71 | an open record adds nothing to any day's revenue |
| `Queries.EntriesAfterClose` | backend/server.js:101-102 | an exit changes no day's entry count |
| `Queries.CloseOneRecord` | backend/server.js:101-102 | closing one record adds its fee to the exit day's revenue if it was open, and nothing otherwise |
| `Queries.RevenueAfterClose` | backend/server.js:101-102 | an exit raises its day's revenue by its fee once per record it closes and changes no other day |
| `Store.FreeSpots` | backend/database.js:26-29 | the seeded table is spaces 1..n in order, each free with NULL plate and entry time |
| `Store.ParkingStore.Valid` | backend/database.js:15 | the store's invariant: unique ascending spot ids and valid AUTOINCREMENT record ids |
| `Store.ParkingStore.Open` | backend/database.js:5-46 | opening a database whose tables meet the schema gives a valid store holding those tables |
| `Store.ParkingStore.SeedSpots` | backend/database.js:24-33 | on an empty spot table it produces exactly spaces 1..8, all free; on a non-empty one it changes nothing; records untouched |
| `Store.ParkingStore.Entry` | backend/server.js:60-78 | the space is overwritten as occupied; one open record is appended with the next id and earlier records are unchanged; with no plate, no record is added and an error is returned; schema and consistency kept |
| `Store.ParkingStore.Exit` | backend/server.js:81-110 | unknown space or NULL entry time: error, nothing changes; otherwise the reply is `calculateFee(entry, now)` with the plate, the space is freed, the plate's open records are closed with that charge; schema and consistency kept |

## Left out

- HTTP transport is not modelled: Express routing, JSON bodies, status codes, CORS, the port and the 404 fallback. The model's inputs are the request fields and its outputs are the reply bodies.
- The SQLite driver is not modelled. Storage errors in the `err` branches and the unchecked `err` of the stats queries are left out, and the SQL text is replaced by its effect on the tables.
- Concurrency is not modelled. Each handler runs to completion, with no interleaving between its two writes.
- The wall clock and ISO-8601 parsing are left out. Timestamps are integer milliseconds passed in as `now`.
- Fees.DurationMinutes: computes the ceiling exactly. The source divides in binary floating point, and the model does not capture rounding for elapsed times too large for a double to represent the quotient exactly.
- Floating-point money is replaced by integer cents. This is exact for these constants.
- Non-string plates and non-integer spot ids are left out. The plate is a string or absent, and the spot id is an integer. A string id such as `"3"` would still match row 3 through SQLite's INTEGER affinity, and an absent id matches no row, which is the unknown-id case.
- Queries.ListRecords: compares entry times as numbers. The source orders ISO strings, which agree for years 0000 to 9999. The order of records with equal entry times is not specified.
- Queries.Day: equals the day of `toISOString().slice(0, 10)` and of SQLite's `date(...)` only for the years 0000 to 9999. From year 10000 on, and for negative years, the ISO string has a sign and six-digit year. Its first ten characters are then not a date, and `date(...)` of it is NULL.
- Queries.GetStats: counts today's entries and revenue for timestamps in every year. The source, for the reason above, reports 0 entries and 0 revenue outside the years 0000 to 9999.
- Queries.ListSpots: the spot table is kept in id order (rowid order), so the listing returns the stored order and does not sort.
- Dashboard_Function.js is not part of this model. It is DOM and chart rendering and a random simulation, with no domain logic.
- Date-range filtering of the history, rejection of a double entry or of an exit before the entry, and closing a record by id are not in the code, so the model does not have them.

/**
 * The two tables of backend/database.js and the row-level effect of the SQL
 * statements that backend/server.js runs on them.
 *
 * `parking_spots` keeps one row per space, keyed by its integer id, in id
 * order (an INTEGER PRIMARY KEY is the rowid, and the table is stored in
 * rowid order). `parking_records` is the stay history in insertion order.
 */
module Tables {
  import opened Wrappers

  /** The `status` column: 'En estacionamiento' or 'Completado'. */
  datatype Status = InProgress | Completed

  /** A row of `parking_spots`. */
  datatype Spot = Spot(id: int, occupied: bool, plate: Option<string>, entryTime: Option<int>)

  /**
   * A row of `parking_records`. `license_plate`, `entry_time` and `status`
   * are NOT NULL; exit time, duration and fee are NULL until the exit.
   */
  datatype Record = Record(
    id: int,
    plate: string,
    entryTime: int,
    exitTime: Option<int>,
    duration: Option<int>,
    fee: Option<int>,
    status: Status)

  /** The primary key: ids strictly ascending, hence unique. */
  predicate SpotIdsAscending(spots: seq<Spot>) {
    forall i, j :: 0 <= i < j < |spots| ==> spots[i].id < spots[j].id
  }

  /**
   * AUTOINCREMENT: record ids are positive, strictly ascending in insertion
   * order and never above `lastId`, the table's entry in sqlite_sequence.
   */
  predicate RecordIdsValid(records: seq<Record>, lastId: int) {
    && 0 <= lastId
    && (forall i, j :: 0 <= i < j < |records| ==> records[i].id < records[j].id)
    && (forall i :: 0 <= i < |records| ==> 0 < records[i].id <= lastId)
  }

  /** A space is occupied exactly when it has an entry time. */
  predicate OccupancyConsistent(spots: seq<Spot>) {
    forall i :: 0 <= i < |spots| ==> (spots[i].occupied <==> spots[i].entryTime.Some?)
  }

  /** An open record has no exit data yet; a completed one has all of it. */
  predicate RecordLifecycle(r: Record) {
    match r.status
    case InProgress => r.exitTime.None? && r.duration.None? && r.fee.None?
    case Completed => r.exitTime.Some? && r.duration.Some? && r.fee.Some?
  }

  predicate LedgerConsistent(records: seq<Record>) {
    forall i :: 0 <= i < |records| ==> RecordLifecycle(records[i])
  }

  /** `SELECT ... FROM parking_spots WHERE id = ?`: the row with that id, if any. */
  function Lookup(spots: seq<Spot>, id: int): (r: Option<Spot>)
    ensures r.None? <==> forall i :: 0 <= i < |spots| ==> spots[i].id != id
    ensures r.Some? ==> r.value.id == id && r.value in spots
  {
    if spots == [] then None
    else if spots[0].id == id then Some(spots[0])
    else Lookup(spots[1..], id)
  }

  /**
   * `UPDATE parking_spots SET is_occupied = ?, license_plate = ?,
   * entry_time = ? WHERE id = ?`: every row with that id takes the new
   * values, whatever it held; the others and the ids stay as they were.
   * With no such row nothing changes.
   */
  function UpdateSpot(spots: seq<Spot>, id: int, occupied: bool, plate: Option<string>,
                      entryTime: Option<int>): (r: seq<Spot>)
    ensures |r| == |spots|
    ensures forall i :: 0 <= i < |spots| && spots[i].id == id ==>
              r[i] == Spot(id, occupied, plate, entryTime)
    ensures forall i :: 0 <= i < |spots| && spots[i].id != id ==> r[i] == spots[i]
  {
    if spots == [] then []
    else
      var head := if spots[0].id == id then Spot(id, occupied, plate, entryTime) else spots[0];
      [head] + UpdateSpot(spots[1..], id, occupied, plate, entryTime)
  }

  /** The row an exit writes, and every row the seeding inserts: free, no plate, no time. */
  function FreeSpot(id: int): Spot {
    Spot(id, false, None, None)
  }

  /**
   * `INSERT INTO parking_records (license_plate, entry_time, status)
   * VALUES (?, ?, 'En estacionamiento')` with the next AUTOINCREMENT id.
   */
  function OpenRecord(id: int, plate: string, entryTime: int): (r: Record)
    ensures r.status == InProgress && RecordLifecycle(r)
    ensures r.id == id && r.plate == plate && r.entryTime == entryTime
  {
    Record(id, plate, entryTime, None, None, None, InProgress)
  }

  /**
   * The WHERE clause of the exit's record update: `license_plate = ? AND
   * status = 'En estacionamiento'`. A NULL plate compares unknown in SQL, so
   * it matches no record.
   */
  predicate ClosesRecord(r: Record, plate: Option<string>) {
    plate == Some(r.plate) && r.status == InProgress
  }

  function CloseRecord(r: Record, exitTime: int, duration: int, fee: int): Record {
    r.(exitTime := Some(exitTime), duration := Some(duration), fee := Some(fee), status := Completed)
  }

  /**
   * `UPDATE parking_records SET exit_time = ?, duration_minutes = ?, fee = ?,
   * status = 'Completado' WHERE license_plate = ? AND status = 'En estacionamiento'`:
   * every open record of the plate is closed with the same exit data; no record
   * is added or removed and every other record keeps its value. Afterwards no
   * record of that plate is open.
   */
  function CloseOpenRecords(records: seq<Record>, plate: Option<string>, exitTime: int,
                            duration: int, fee: int): (r: seq<Record>)
    ensures |r| == |records|
    ensures forall i :: 0 <= i < |records| && ClosesRecord(records[i], plate) ==>
              r[i] == CloseRecord(records[i], exitTime, duration, fee)
    ensures forall i :: 0 <= i < |records| && !ClosesRecord(records[i], plate) ==>
              r[i] == records[i]
    ensures forall i :: 0 <= i < |r| ==> !ClosesRecord(r[i], plate)
  {
    if records == [] then []
    else
      var head := if ClosesRecord(records[0], plate) then CloseRecord(records[0], exitTime, duration, fee)
                  else records[0];
      [head] + CloseOpenRecords(records[1..], plate, exitTime, duration, fee)
  }

  /** How many records an exit for `plate` closes. */
  function CountOpen(records: seq<Record>, plate: Option<string>): nat {
    if records == [] then 0
    else (if ClosesRecord(records[0], plate) then 1 else 0) + CountOpen(records[1..], plate)
  }

  /** The row with `id` reads the new values; every other id reads as before. */
  lemma {:induction false} LookupAfterUpdate(spots: seq<Spot>, id: int, occupied: bool,
                                             plate: Option<string>, entryTime: Option<int>, k: int)
    ensures Lookup(UpdateSpot(spots, id, occupied, plate, entryTime), k)
         == if k == id && Lookup(spots, id).Some? then Some(Spot(id, occupied, plate, entryTime))
            else Lookup(spots, k)
  {
    if spots != [] {
      var rest := UpdateSpot(spots, id, occupied, plate, entryTime)[1..];
      assert rest == UpdateSpot(spots[1..], id, occupied, plate, entryTime);
      LookupAfterUpdate(spots[1..], id, occupied, plate, entryTime, k);
    }
  }

  /** An update of an id that no row has leaves the table unchanged. */
  lemma UpdateAbsentId(spots: seq<Spot>, id: int, occupied: bool, plate: Option<string>,
                       entryTime: Option<int>)
    requires Lookup(spots, id).None?
    ensures UpdateSpot(spots, id, occupied, plate, entryTime) == spots
  {
  }

  /** Two updates of the same row: the second one wins (an exit undoes an entry's row). */
  lemma UpdateTwice(spots: seq<Spot>, id: int, o1: bool, p1: Option<string>, t1: Option<int>,
                    o2: bool, p2: Option<string>, t2: Option<int>)
    ensures UpdateSpot(UpdateSpot(spots, id, o1, p1, t1), id, o2, p2, t2)
         == UpdateSpot(spots, id, o2, p2, t2)
  {
  }

  /** Updates keep the primary key ordering. */
  lemma UpdateKeepsIds(spots: seq<Spot>, id: int, occupied: bool, plate: Option<string>,
                       entryTime: Option<int>)
    requires SpotIdsAscending(spots)
    ensures SpotIdsAscending(UpdateSpot(spots, id, occupied, plate, entryTime))
    ensures forall i :: 0 <= i < |spots| ==> UpdateSpot(spots, id, occupied, plate, entryTime)[i].id == spots[i].id
  {
  }

  /** Writing a row that has an entry time exactly when it is occupied keeps the table consistent. */
  lemma UpdateKeepsOccupancy(spots: seq<Spot>, id: int, occupied: bool, plate: Option<string>,
                             entryTime: Option<int>)
    requires occupied <==> entryTime.Some?
    ensures OccupancyConsistent(spots) ==>
      OccupancyConsistent(UpdateSpot(spots, id, occupied, plate, entryTime))
  {
  }

  /**
   * Closing is idempotent: a second exit for the same plate finds no open
   * record and changes nothing, whatever exit data it carries.
   */
  lemma CloseTwice(records: seq<Record>, plate: Option<string>, t1: int, d1: int, f1: int,
                   t2: int, d2: int, f2: int)
    ensures CloseOpenRecords(CloseOpenRecords(records, plate, t1, d1, f1), plate, t2, d2, f2)
         == CloseOpenRecords(records, plate, t1, d1, f1)
  {
  }

  /** Closing changes no id, plate or entry time, and keeps the lifecycle of every record. */
  lemma CloseKeepsIdentity(records: seq<Record>, plate: Option<string>, exitTime: int,
                           duration: int, fee: int)
    ensures var r := CloseOpenRecords(records, plate, exitTime, duration, fee);
      forall i :: 0 <= i < |records| ==>
        r[i].id == records[i].id && r[i].plate == records[i].plate && r[i].entryTime == records[i].entryTime
    ensures LedgerConsistent(records) ==>
      LedgerConsistent(CloseOpenRecords(records, plate, exitTime, duration, fee))
  {
  }

  /** Closing keeps the AUTOINCREMENT ids valid. */
  lemma CloseKeepsRecordIds(records: seq<Record>, lastId: int, plate: Option<string>,
                            exitTime: int, duration: int, fee: int)
    requires RecordIdsValid(records, lastId)
    ensures RecordIdsValid(CloseOpenRecords(records, plate, exitTime, duration, fee), lastId)
  {
    CloseKeepsIdentity(records, plate, exitTime, duration, fee);
  }

  /** Appending an open record with the next id keeps the AUTOINCREMENT ids and the lifecycle. */
  lemma AppendOpenRecord(records: seq<Record>, lastId: int, plate: string, entryTime: int)
    requires RecordIdsValid(records, lastId)
    ensures RecordIdsValid(records + [OpenRecord(lastId + 1, plate, entryTime)], lastId + 1)
    ensures LedgerConsistent(records) ==>
      LedgerConsistent(records + [OpenRecord(lastId + 1, plate, entryTime)])
  {
  }

  /** An entry followed by an exit of the same plate completes the entry's record. */
  lemma EntryThenExit(records: seq<Record>, id: int, plate: string, entryTime: int,
                      exitTime: int, duration: int, fee: int)
    ensures var r := CloseOpenRecords(records + [OpenRecord(id, plate, entryTime)], Some(plate),
                                      exitTime, duration, fee);
            |r| == |records| + 1 &&
            r[|records|] == Record(id, plate, entryTime, Some(exitTime), Some(duration), Some(fee), Completed)
  {
  }
}

/**
 * The parking database as one object: the spot table, the record table and
 * the AUTOINCREMENT counter of the records, with the seeding step of
 * backend/database.js and the entry and exit handlers of backend/server.js.
 * The clock is a parameter: `now` is the handler's `new Date()` in ms.
 */
module Store {
  import opened Wrappers
  import opened Tables
  import Fees

  /** Number of spaces the seeding step creates. */
  const SPOT_COUNT := 8

  /** The table the seeding step produces: spaces 1..n, all free. */
  function FreeSpots(n: nat): (spots: seq<Spot>)
    ensures |spots| == n
    ensures forall i :: 0 <= i < n ==> spots[i] == Spot(i + 1, false, None, None)
    ensures SpotIdsAscending(spots) && OccupancyConsistent(spots)
  {
    if n == 0 then [] else FreeSpots(n - 1) + [FreeSpot(n)]
  }

  /** Why a handler answered with an error. */
  datatype StoreError =
    | MissingPlate      // the record INSERT violated license_plate NOT NULL
    | VehicleNotFound   // "No se pudo encontrar el vehículo en ese espacio."

  /** Reply of `/api/entry`: the spot id and plate as sent. */
  datatype EntryReply = EntryReply(spotId: int, plate: string)

  /** Reply of `/api/exit`: the plate the space held and the charge. */
  datatype ExitReply = ExitReply(plate: Option<string>, fee: int, duration: int)

  class ParkingStore {
    /** `parking_spots`, in id order. */
    var spots: seq<Spot>
    /** `parking_records`, in insertion order. */
    var records: seq<Record>
    /** The largest record id handed out so far (sqlite_sequence). */
    var lastRecordId: int

    /** What the schema guarantees: unique spot ids, AUTOINCREMENT record ids. */
    predicate Valid()
      reads this
    {
      SpotIdsAscending(spots) && RecordIdsValid(records, lastRecordId)
    }

    /** Opens a database holding these tables (a new file holds `[]`, `[]`, 0). */
    constructor Open(spotRows: seq<Spot>, recordRows: seq<Record>, lastId: int)
      requires SpotIdsAscending(spotRows) && RecordIdsValid(recordRows, lastId)
      ensures Valid()
      ensures spots == spotRows && records == recordRows && lastRecordId == lastId
    {
      spots := spotRows;
      records := recordRows;
      lastRecordId := lastId;
    }

    /**
     * The start-up seeding: when the spot table is empty, insert spaces
     * 1..8 one by one, each free; otherwise change nothing.
     */
    method SeedSpots()
      requires Valid()
      modifies this
      ensures Valid()
      ensures old(spots) == [] ==> spots == FreeSpots(SPOT_COUNT)
      ensures old(spots) != [] ==> spots == old(spots)
      ensures records == old(records) && lastRecordId == old(lastRecordId)
    {
      if |spots| == 0 {
        var i := 1;
        while i <= SPOT_COUNT
          invariant 1 <= i <= SPOT_COUNT + 1
          invariant spots == FreeSpots(i - 1)
          invariant records == old(records) && lastRecordId == old(lastRecordId)
        {
          spots := spots + [FreeSpot(i)];
          i := i + 1;
        }
      }
    }

    /**
     * `POST /api/entry`. The space's row is overwritten as occupied by the
     * plate since `now`, whether it was free or not; an id with no row
     * updates nothing. Then one open record is appended with the next id. A
     * missing plate lets the spot update through but fails the NOT NULL
     * insert, so no record is added.
     */
    method Entry(spotId: int, plate: Option<string>, now: int) returns (r: Result<EntryReply, StoreError>)
      requires Valid()
      modifies this
      ensures Valid()
      ensures spots == UpdateSpot(old(spots), spotId, true, plate, Some(now))
      ensures plate.Some? ==>
        && r == Ok(EntryReply(spotId, plate.value))
        && records == old(records) + [OpenRecord(old(lastRecordId) + 1, plate.value, now)]
        && lastRecordId == old(lastRecordId) + 1
      ensures plate.None? ==>
        r == Err(MissingPlate) && records == old(records) && lastRecordId == old(lastRecordId)
      ensures OccupancyConsistent(old(spots)) ==> OccupancyConsistent(spots)
      ensures LedgerConsistent(old(records)) ==> LedgerConsistent(records)
    {
      UpdateKeepsIds(spots, spotId, true, plate, Some(now));
      UpdateKeepsOccupancy(spots, spotId, true, plate, Some(now));
      spots := UpdateSpot(spots, spotId, true, plate, Some(now));
      match plate
      case None =>
        r := Err(MissingPlate);
      case Some(p) =>
        AppendOpenRecord(records, lastRecordId, p, now);
        lastRecordId := lastRecordId + 1;
        records := records + [OpenRecord(lastRecordId, p, now)];
        r := Ok(EntryReply(spotId, p));
    }

    /**
     * `POST /api/exit`. Fails, changing nothing, when no row has the id or
     * its entry time is NULL. Otherwise charges `calculateFee(entry, now)`,
     * frees the space, and closes every open record with the space's plate.
     */
    method Exit(spotId: int, now: int) returns (r: Result<ExitReply, StoreError>)
      requires Valid()
      modifies this
      ensures Valid()
      ensures lastRecordId == old(lastRecordId)
      ensures match Lookup(old(spots), spotId)
        case None =>
          r == Err(VehicleNotFound) && spots == old(spots) && records == old(records)
        case Some(s) =>
          if s.entryTime.None? then
            r == Err(VehicleNotFound) && spots == old(spots) && records == old(records)
          else
            var c := Fees.CalculateFee(s.entryTime.value, now);
            && r == Ok(ExitReply(s.plate, c.fee, c.duration))
            && spots == UpdateSpot(old(spots), spotId, false, None, None)
            && records == CloseOpenRecords(old(records), s.plate, now, c.duration, c.fee)
      ensures OccupancyConsistent(old(spots)) ==> OccupancyConsistent(spots)
      ensures LedgerConsistent(old(records)) ==> LedgerConsistent(records)
    {
      var found := Lookup(spots, spotId);
      if found.None? || found.value.entryTime.None? {
        r := Err(VehicleNotFound);
        return;
      }
      var s := found.value;
      var c := Fees.CalculateFee(s.entryTime.value, now);
      UpdateKeepsIds(spots, spotId, false, None, None);
      UpdateKeepsOccupancy(spots, spotId, false, None, None);
      CloseKeepsIdentity(records, s.plate, now, c.duration, c.fee);
      CloseKeepsRecordIds(records, lastRecordId, s.plate, now, c.duration, c.fee);
      spots := UpdateSpot(spots, spotId, false, None, None);
      records := CloseOpenRecords(records, s.plate, now, c.duration, c.fee);
      r := Ok(ExitReply(s.plate, c.fee, c.duration));
    }
  }
}

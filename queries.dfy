/**
 * The read endpoints of backend/server.js: the spot list, the record history
 * and the quick statistics. Each is a function of the two tables (and, for
 * the statistics, of the current time); none changes anything.
 */
module Queries {
  import opened Wrappers
  import opened Tables
  import Fees

  const MS_PER_DAY := 86_400_000

  /**
   * The UTC calendar day of a timestamp, as a day number. For timestamps in
   * the years 0000 to 9999, two timestamps have the same
   * `toISOString().slice(0, 10)` (and the same SQLite `date(...)`) exactly
   * when they have the same day number.
   */
  function Day(ms: int): (d: int)
    ensures d * MS_PER_DAY <= ms < (d + 1) * MS_PER_DAY
  {
    ms / MS_PER_DAY
  }

  // ----- Listings -----

  /**
   * `SELECT * FROM parking_spots ORDER BY id`: the table is kept in id order,
   * so the rows come back as stored, in strictly ascending id.
   */
  function ListSpots(spots: seq<Spot>): (rows: seq<Spot>)
    requires SpotIdsAscending(spots)
    ensures multiset(rows) == multiset(spots)
    ensures forall i, j :: 0 <= i < j < |rows| ==> rows[i].id < rows[j].id
  {
    spots
  }

  predicate SortedByEntryDesc(s: seq<Record>) {
    forall i, j :: 0 <= i < j < |s| ==> s[i].entryTime >= s[j].entryTime
  }

  /** Places `x` in front of the first record that entered earlier than it. */
  function InsertByEntry(x: Record, s: seq<Record>): (r: seq<Record>)
    ensures multiset(r) == multiset(s) + multiset{x}
    ensures |r| == |s| + 1
    ensures r[0] == x || (s != [] && r[0] == s[0])
  {
    if s == [] || s[0].entryTime <= x.entryTime then [x] + s
    else
      assert s == [s[0]] + s[1..];
      [s[0]] + InsertByEntry(x, s[1..])
  }

  /** Inserting into a history sorted latest entry first keeps it sorted. */
  lemma {:induction false} InsertKeepsSorted(x: Record, s: seq<Record>)
    requires SortedByEntryDesc(s)
    ensures SortedByEntryDesc(InsertByEntry(x, s))
  {
    if s != [] && s[0].entryTime > x.entryTime {
      var rest := InsertByEntry(x, s[1..]);
      InsertKeepsSorted(x, s[1..]);
      assert s[0].entryTime >= rest[0].entryTime;
      var r := [s[0]] + rest;
      assert r == InsertByEntry(x, s);
      forall i, j | 0 <= i < j < |r| ensures r[i].entryTime >= r[j].entryTime {
        if i > 0 {
          assert r[i] == rest[i - 1] && r[j] == rest[j - 1];
        } else {
          assert r[j] == rest[j - 1];
        }
      }
    }
  }

  /**
   * `SELECT * FROM parking_records ORDER BY entry_time DESC`: every record
   * exactly once, latest entry first. Records with equal entry times may come
   * in any order.
   */
  function ListRecords(records: seq<Record>): (rows: seq<Record>)
    ensures SortedByEntryDesc(rows)
    ensures multiset(rows) == multiset(records)
  {
    if records == [] then []
    else
      assert records == [records[0]] + records[1..];
      var rest := ListRecords(records[1..]);
      InsertKeepsSorted(records[0], rest);
      InsertByEntry(records[0], rest)
  }

  // ----- Statistics -----

  /** `SELECT COUNT(*) FROM parking_spots WHERE is_occupied = ?`. */
  function CountSpots(spots: seq<Spot>, occupied: bool): nat {
    if spots == [] then 0
    else (if spots[0].occupied == occupied then 1 else 0) + CountSpots(spots[1..], occupied)
  }

  /** `SELECT COUNT(*) FROM parking_records WHERE date(entry_time) = ?`. */
  function CountEntriesOn(records: seq<Record>, day: int): nat {
    if records == [] then 0
    else (if Day(records[0].entryTime) == day then 1 else 0) + CountEntriesOn(records[1..], day)
  }

  /** Whether a record's fee enters the day's revenue: completed, exited that day, fee present. */
  predicate EarnedOn(r: Record, day: int) {
    r.status == Completed && r.exitTime.Some? && Day(r.exitTime.value) == day && r.fee.Some?
  }

  /** The revenue contributed by one record. */
  function Earned(r: Record, day: int): int {
    if EarnedOn(r, day) then r.fee.value else 0
  }

  /** The day's revenue as a plain sum, 0 when nothing was earned. */
  function RevenueOn(records: seq<Record>, day: int): int {
    if records == [] then 0
    else Earned(records[0], day) + RevenueOn(records[1..], day)
  }

  /**
   * `SELECT SUM(fee) FROM parking_records WHERE date(exit_time) = ? AND
   * status = 'Completado'`: SQL's SUM skips NULL fees and is NULL itself when
   * no fee is summed.
   */
  function SqlSumFees(records: seq<Record>, day: int): (total: Option<int>)
    ensures total.None? <==> forall i :: 0 <= i < |records| ==> !EarnedOn(records[i], day)
    ensures total.GetOr(0) == RevenueOn(records, day)
  {
    if records == [] then None
    else
      var rest := SqlSumFees(records[1..], day);
      if EarnedOn(records[0], day) then Some(records[0].fee.value + rest.GetOr(0))
      else rest
  }

  /** The body of the `/api/stats` reply. */
  datatype Stats = Stats(occupied: nat, available: nat, todayEntries: nat, todayRevenue: int)

  /**
   * `/api/stats` at time `now`: the occupied and free spaces, the records
   * that entered today, and today's revenue (`revenue.total || 0`).
   */
  function GetStats(spots: seq<Spot>, records: seq<Record>, now: int): (st: Stats)
    ensures st.occupied + st.available == |spots|
    ensures st.occupied == |set i | 0 <= i < |spots| && spots[i].occupied|
    ensures st.available == |set i | 0 <= i < |spots| && !spots[i].occupied|
    ensures st.todayEntries == |set i | 0 <= i < |records| && Day(records[i].entryTime) == Day(now)|
    ensures st.todayRevenue == RevenueOn(records, Day(now))
  {
    SpotsPartition(spots);
    assert spots[0..] == spots && records[0..] == records;
    CountSpotsAsSet(spots, true, 0);
    CountSpotsAsSet(spots, false, 0);
    assert (set i | 0 <= i < |spots| && spots[i].occupied == true)
        == (set i | 0 <= i < |spots| && spots[i].occupied);
    assert (set i | 0 <= i < |spots| && spots[i].occupied == false)
        == (set i | 0 <= i < |spots| && !spots[i].occupied);
    CountEntriesAsSet(records, Day(now), 0);
    Stats(CountSpots(spots, true), CountSpots(spots, false),
          CountEntriesOn(records, Day(now)), SqlSumFees(records, Day(now)).GetOr(0))
  }

  /** Every space is counted once: either occupied or available. */
  lemma {:induction false} SpotsPartition(spots: seq<Spot>)
    ensures CountSpots(spots, true) + CountSpots(spots, false) == |spots|
  {
    if spots != [] {
      SpotsPartition(spots[1..]);
    }
  }

  /** The occupancy COUNT is the number of rows (from row `k` on) with that flag. */
  lemma {:induction false} CountSpotsAsSet(spots: seq<Spot>, occupied: bool, k: nat)
    requires k <= |spots|
    ensures CountSpots(spots[k..], occupied)
         == |set i | k <= i < |spots| && spots[i].occupied == occupied|
    decreases |spots| - k
  {
    var here := set i | k <= i < |spots| && spots[i].occupied == occupied;
    if k == |spots| {
      assert here == {};
    } else {
      CountSpotsAsSet(spots, occupied, k + 1);
      assert spots[k..][1..] == spots[k + 1..];
      var later := set i | k + 1 <= i < |spots| && spots[i].occupied == occupied;
      if spots[k].occupied == occupied {
        assert here == later + {k};
      } else {
        assert here == later;
      }
    }
  }

  /** The entries COUNT is the number of records (from record `k` on) that entered that day. */
  lemma {:induction false} CountEntriesAsSet(records: seq<Record>, day: int, k: nat)
    requires k <= |records|
    ensures CountEntriesOn(records[k..], day)
         == |set i | k <= i < |records| && Day(records[i].entryTime) == day|
    decreases |records| - k
  {
    var here := set i | k <= i < |records| && Day(records[i].entryTime) == day;
    if k == |records| {
      assert here == {};
    } else {
      CountEntriesAsSet(records, day, k + 1);
      assert records[k..][1..] == records[k + 1..];
      var later := set i | k + 1 <= i < |records| && Day(records[i].entryTime) == day;
      if Day(records[k].entryTime) == day {
        assert here == later + {k};
      } else {
        assert here == later;
      }
    }
  }

  /**
   * An entry's UPDATE changes the occupied count by the change of its own row:
   * +1 for a free space that becomes occupied, 0 for an occupied one that is
   * overwritten or for an id no row has.
   */
  lemma {:induction false} CountAfterUpdate(spots: seq<Spot>, id: int, occupied: bool,
                                            plate: Option<string>, entryTime: Option<int>)
    requires SpotIdsAscending(spots)
    ensures CountSpots(UpdateSpot(spots, id, occupied, plate, entryTime), true)
         == CountSpots(spots, true)
            + match Lookup(spots, id)
              case None => 0
              case Some(s) => (if occupied then 1 else 0) - (if s.occupied then 1 else 0)
  {
    if spots != [] {
      var r := UpdateSpot(spots, id, occupied, plate, entryTime);
      assert r[1..] == UpdateSpot(spots[1..], id, occupied, plate, entryTime);
      if spots[0].id == id {
        UpdateAbsentId(spots[1..], id, occupied, plate, entryTime);
      } else {
        CountAfterUpdate(spots[1..], id, occupied, plate, entryTime);
      }
    }
  }

  /** An appended record counts among today's entries exactly when it entered today. */
  lemma {:induction false} EntriesAfterAppend(records: seq<Record>, r: Record, day: int)
    ensures CountEntriesOn(records + [r], day)
         == CountEntriesOn(records, day) + (if Day(r.entryTime) == day then 1 else 0)
  {
    if records != [] {
      assert (records + [r])[1..] == records[1..] + [r];
      EntriesAfterAppend(records[1..], r, day);
    }
  }

  /** An open record adds nothing to any day's revenue. */
  lemma {:induction false} RevenueAfterAppendOpen(records: seq<Record>, r: Record, day: int)
    requires r.status == InProgress
    ensures RevenueOn(records + [r], day) == RevenueOn(records, day)
  {
    if records != [] {
      assert (records + [r])[1..] == records[1..] + [r];
      RevenueAfterAppendOpen(records[1..], r, day);
    }
  }

  /** Closing records changes no entry time, so no day's entry count. */
  lemma {:induction false} EntriesAfterClose(records: seq<Record>, plate: Option<string>,
                                             exitTime: int, duration: int, fee: int, day: int)
    ensures CountEntriesOn(CloseOpenRecords(records, plate, exitTime, duration, fee), day)
         == CountEntriesOn(records, day)
  {
    if records != [] {
      var r := CloseOpenRecords(records, plate, exitTime, duration, fee);
      assert r[1..] == CloseOpenRecords(records[1..], plate, exitTime, duration, fee);
      EntriesAfterClose(records[1..], plate, exitTime, duration, fee, day);
    }
  }

  /** Closing one record adds its fee to the exit's day, and nothing if it was not open. */
  lemma CloseOneRecord(r: Record, plate: Option<string>, exitTime: int, duration: int, fee: int,
                       day: int)
    ensures Earned(if ClosesRecord(r, plate) then CloseRecord(r, exitTime, duration, fee) else r, day)
         == Earned(r, day) + (if ClosesRecord(r, plate) && day == Day(exitTime) then fee else 0)
  {
  }

  /** Distributes the fee over one more closed record, for `RevenueAfterClose`. */
  lemma MulSucc(a: int, b: int)
    ensures a * (b + 1) == a * b + a
  {
  }

  /**
   * An exit at `exitTime` raises the revenue of that day by its fee once per
   * record it closes, and leaves every other day's revenue as it was.
   */
  lemma {:induction false} RevenueAfterClose(records: seq<Record>, plate: Option<string>,
                                             exitTime: int, duration: int, fee: int, day: int)
    ensures RevenueOn(CloseOpenRecords(records, plate, exitTime, duration, fee), day)
         == RevenueOn(records, day)
            + (if day == Day(exitTime) then fee * CountOpen(records, plate) else 0)
  {
    if records != [] {
      var r := CloseOpenRecords(records, plate, exitTime, duration, fee);
      assert r[1..] == CloseOpenRecords(records[1..], plate, exitTime, duration, fee);
      RevenueAfterClose(records[1..], plate, exitTime, duration, fee, day);
      CloseOneRecord(records[0], plate, exitTime, duration, fee, day);
      MulSucc(fee, CountOpen(records[1..], plate));
    }
  }
}

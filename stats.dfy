/**
 * The integer part of the dashboard statistics handler: occupancy rate, today's check-ins
 * and check-outs, the booking window and its percentage change against the window before.
 *
 * `Math.round` of a quotient `p / q` is computed exactly, as the integer nearest to
 * `p / q` with halves rounded up: `floor((2p + q) / 2q)`.
 */
module Stats {
  import opened Common
  import opened Schema
  import opened Store

  /** `Math.round(p / q)` for a positive divisor, on exact rationals. */
  function RoundHalfUp(p: int, q: int): (r: int)
    requires q > 0
    ensures 2 * q * r <= 2 * p + q < 2 * q * r + 2 * q
  {
    (2 * p + q) / (2 * q)
  }

  /** Rounding is monotone in the numerator. */
  lemma {:induction false} RoundHalfUpMonotone(p1: int, p2: int, q: int)
    requires q > 0 && p1 <= p2
    ensures RoundHalfUp(p1, q) <= RoundHalfUp(p2, q)
  {
    var r1, r2 := RoundHalfUp(p1, q), RoundHalfUp(p2, q);
    MultiplyMonotone(2 * q, r2 + 1, r1);
  }

  lemma {:induction false} MultiplyMonotone(k: int, a: int, b: int)
    requires k > 0
    ensures a <= b ==> k * a <= k * b
  {
    assert k * b - k * a == k * (b - a);
  }

  /** Rounding a multiple of the divisor gives the exact quotient. */
  lemma {:induction false} RoundHalfUpExact(m: int, q: int)
    requires q > 0
    ensures RoundHalfUp(m * q, q) == m
  {
    var r := RoundHalfUp(m * q, q);
    assert 2 * q * r <= 2 * q * m + q < 2 * q * r + 2 * q;
    MultiplyMonotone(2 * q, r + 1, m);
    MultiplyMonotone(2 * q, m + 1, r);
  }

  /** The rows `SUM(CASE WHEN Status = 'Occupied' ...)` counts. */
  function OccupiedRooms(rooms: map<int, Room>): (r: set<int>)
    ensures r <= rooms.Keys
    ensures forall id :: id in r <==> id in rooms && rooms[id].status == Occupied
  {
    set id | id in rooms && rooms[id].status == Occupied
  }

  /** `Math.round(occupied / total * 100) || 0`: with no rooms the quotient is NaN and becomes 0. */
  function OccupancyRate(total: nat, occupied: nat): int {
    if total == 0 then 0 else RoundHalfUp(100 * occupied, total)
  }

  /** The rate is 0 for no rooms or no occupied room, 100 for a full hotel, and within 0..100. */
  lemma {:induction false} OccupancyRateBounds(total: nat, occupied: nat)
    ensures var rate := OccupancyRate(total, occupied);
      && (total == 0 ==> rate == 0)
      && (occupied == 0 ==> rate == 0)
      && (total > 0 && occupied == total ==> rate == 100)
      && (occupied <= total ==> 0 <= rate <= 100)
  {
    if total > 0 {
      RoundHalfUpMonotone(0, 100 * occupied, total);
      RoundHalfUpExact(0, total);
      RoundHalfUpExact(100, total);
      if occupied <= total {
        MultiplyMonotone(100, occupied, total);
        RoundHalfUpMonotone(100 * occupied, 100 * total, total);
      }
    }
  }

  /** The occupancy rate of the Rooms table lies in 0..100 and is 0 for an empty table. */
  lemma {:induction false} TableOccupancyInRange(rooms: map<int, Room>)
    ensures var rate := OccupancyRate(|rooms|, |OccupiedRooms(rooms)|);
      && 0 <= rate <= 100
      && (|rooms| == 0 ==> rate == 0)
  {
    var occ := OccupiedRooms(rooms);
    assert |rooms.Keys| == |rooms|;
    SubsetCardinality(occ, rooms.Keys);
    OccupancyRateBounds(|rooms|, |occ|);
  }

  lemma {:induction false} SubsetCardinality(a: set<int>, b: set<int>)
    requires a <= b
    ensures |a| <= |b|
  {
    assert b == a + (b - a);
  }

  /** The booking window: 1 day for 'today', 30 for '30days', 7 for anything else. */
  function WindowDays(timeFilter: string): (days: nat)
    ensures timeFilter == "today" <==> days == 1
    ensures timeFilter == "30days" <==> days == 30
    ensures timeFilter != "today" && timeFilter != "30days" <==> days == 7
  {
    if timeFilter == "today" then 1 else if timeFilter == "30days" then 30 else 7
  }

  /** Active reservations whose check-in day is `today`. */
  function CheckInsOn(reservations: map<int, Reservation>, today: int): set<int> {
    set id | id in reservations && reservations[id].checkIn == today && reservations[id].status == Active
  }

  /** Active reservations whose check-out day is `today`. */
  function CheckOutsOn(reservations: map<int, Reservation>, today: int): set<int> {
    set id | id in reservations && reservations[id].checkOut == today && reservations[id].status == Active
  }

  /** Reservations of any status created on or after day `from` (`CreatedAt >= DATE_SUB(CURDATE(), ...)`,
      a timestamp against a midnight, is a comparison of day numbers); the trend rows sum to its size. */
  function CreatedSince(reservations: map<int, Reservation>, from: int): set<int> {
    set id | id in reservations && reservations[id].createdAt >= from
  }

  /** Reservations created in the day range [from, until). */
  function CreatedBetween(reservations: map<int, Reservation>, from: int, until: int): set<int> {
    set id | id in reservations && from <= reservations[id].createdAt < until
  }

  /** `Math.round((total - previous) / previous * 100)` with a previous count of 0 read as 1. */
  function BookingsChange(total: nat, previousCount: nat): int {
    var previous := if previousCount == 0 then 1 else previousCount;
    RoundHalfUp(100 * (total - previous), previous)
  }

  /** The change is 0 for equal counts, never negative for growth (a growth under half a
      percent rounds to 0), within -100..0 for a decline, and with no bookings in the previous
      window it is 100 times the current count minus 100. */
  lemma {:induction false} BookingsChangeSign(total: nat, previousCount: nat)
    ensures var previous := if previousCount == 0 then 1 else previousCount;
      var change := BookingsChange(total, previousCount);
      && (total == previous ==> change == 0)
      && (total > previous ==> change >= 0)
      && (total < previous ==> -100 <= change <= 0)
      && (previousCount == 0 ==> change == 100 * total - 100)
  {
    var previous := if previousCount == 0 then 1 else previousCount;
    RoundHalfUpExact(0, previous);
    if previousCount == 0 {
      RoundHalfUpExact(100 * total - 100, 1);
    }
    if total > previous {
      RoundHalfUpMonotone(0, 100 * (total - previous), previous);
    } else if total < previous {
      RoundHalfUpMonotone(100 * (total - previous), 0, previous);
      MultiplyMonotone(100, -previous, total - previous);
      RoundHalfUpMonotone(-100 * previous, 100 * (total - previous), previous);
      RoundHalfUpExact(-100, previous);
    }
  }

  /** The integer fields of the statistics reply; the random "change" fields and the per-day
      trend rows are not modelled. */
  datatype DashboardStats = DashboardStats(
    occupancyRate: int,
    todayCheckIns: nat,
    todayCheckOuts: nat,
    totalBookings: nat,
    bookingsChange: int)

  /** `db:get-dashboard-stats` for day `today`; a rejected query makes the handler throw (`None`). */
  function DashboardStatsResult(t: Tables, today: int, timeFilter: string, fault: Option<Fault>): (r: Option<DashboardStats>)
    ensures r.None? <==> FailsWithin(fault, 5)
    ensures r.Some? ==>
      var days := WindowDays(timeFilter);
      && r.value.occupancyRate == OccupancyRate(|t.rooms|, |OccupiedRooms(t.rooms)|)
      && 0 <= r.value.occupancyRate <= 100
      && r.value.todayCheckIns == |CheckInsOn(t.reservations, today)|
      && r.value.todayCheckOuts == |CheckOutsOn(t.reservations, today)|
      && r.value.totalBookings == |CreatedSince(t.reservations, today - days)|
      && r.value.bookingsChange
         == BookingsChange(r.value.totalBookings, |CreatedBetween(t.reservations, today - 2 * days, today - days)|)
  {
    if FailsWithin(fault, 5) then None
    else
      var days := WindowDays(timeFilter);
      TableOccupancyInRange(t.rooms);
      var total := |CreatedSince(t.reservations, today - days)|;
      Some(DashboardStats(
        OccupancyRate(|t.rooms|, |OccupiedRooms(t.rooms)|),
        |CheckInsOn(t.reservations, today)|,
        |CheckOutsOn(t.reservations, today)|,
        total,
        BookingsChange(total, |CreatedBetween(t.reservations, today - 2 * days, today - days)|)))
  }
}

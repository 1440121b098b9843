/**
 * The main-process request handlers over the Rooms, Guests, Reservations and Managers
 * tables: the date-conflict query, the transactional reservation, checkout and room-batch
 * handlers, the single-statement overwrites and the manager guards.
 *
 * Each handler is a pure result function on a `Tables` snapshot (used by the lemmas) and a
 * method of `HotelStore` that issues the same statements one by one on staged copies of
 * the tables and publishes them only when every statement succeeded (commit), leaving the
 * tables untouched otherwise (rollback).
 *
 * The database itself is not modelled: a `Fault` names the statement the database rejects
 * (a constraint, a lost connection) and the message it raises.
 */
module Store {
  import opened Common
  import opened Schema
  import JsText

  /** A snapshot of the four tables and of the ids their next inserts receive. */
  datatype Tables = Tables(
    rooms: map<int, Room>,
    guests: map<int, Guest>,
    reservations: map<int, Reservation>,
    managers: map<int, Manager>,
    nextRoomId: int,
    nextGuestId: int,
    nextReservationId: int,
    nextManagerId: int)

  /** AUTO_INCREMENT: every id in use lies below the id the table hands out next. */
  predicate IdsBelowCounters(t: Tables) {
    && (forall id :: id in t.rooms ==> id < t.nextRoomId)
    && (forall id :: id in t.guests ==> id < t.nextGuestId)
    && (forall id :: id in t.reservations ==> id < t.nextReservationId)
    && (forall id :: id in t.managers ==> id < t.nextManagerId)
  }

  /** The database rejects the statement a handler issues at this 0-based position. */
  datatype Fault = Fault(statement: nat, message: string)

  predicate FailsAt(fault: Option<Fault>, statement: nat) {
    fault.Some? && fault.value.statement == statement
  }

  /** One of the first `count` statements is rejected. */
  predicate FailsWithin(fault: Option<Fault>, count: nat) {
    fault.Some? && fault.value.statement < count
  }

  /** The `{ success, message }` envelope; `Created` carries the new manager's id. */
  datatype Reply = Done(message: string) | Created(managerId: int) | Failed(message: string)

  // ---------------------------------------------------------------------------------
  // db:check-date-conflict

  /** The three OR'd clauses of the conflict query for an existing stay against [checkIn, checkOut]. */
  predicate DateClauses(existingIn: int, existingOut: int, checkIn: int, checkOut: int) {
    || (existingIn <= checkOut && existingOut >= checkIn)
    || (existingIn <= checkIn && existingOut >= checkIn)
    || (existingIn >= checkIn && existingOut <= checkOut)
  }

  /** The WHERE clause of the conflict query for one Reservations row. */
  predicate ConflictsWith(r: Reservation, roomId: int, checkIn: int, checkOut: int) {
    r.roomId == roomId && r.status == Active && DateClauses(r.checkIn, r.checkOut, checkIn, checkOut)
  }

  /** The ids of the rows the conflict query counts. */
  function ConflictingIds(reservations: map<int, Reservation>, roomId: int, checkIn: int, checkOut: int): set<int> {
    set id | id in reservations && ConflictsWith(reservations[id], roomId, checkIn, checkOut)
  }

  /** `db:check-date-conflict`: the count of matching rows is positive. */
  function HasDateConflict(reservations: map<int, Reservation>, roomId: int, checkIn: int, checkOut: int): (conflict: bool)
    ensures conflict <==> exists id :: id in reservations && ConflictsWith(reservations[id], roomId, checkIn, checkOut)
  {
    var ids := ConflictingIds(reservations, roomId, checkIn, checkOut);
    assert forall id :: id in reservations && ConflictsWith(reservations[id], roomId, checkIn, checkOut) ==> id in ids;
    assert |ids| > 0 ==> exists id :: id in ids by {
      if forall id :: id !in ids {
        assert ids == {};
      }
    }
    |ids| > 0
  }

  /** The Active rows of one room: the only rows the conflict query can count. */
  function ActiveRowsOf(reservations: map<int, Reservation>, roomId: int): (r: map<int, Reservation>)
    ensures forall id :: id in r <==> id in reservations && reservations[id].roomId == roomId && reservations[id].status == Active
  {
    map id | id in reservations && reservations[id].roomId == roomId && reservations[id].status == Active :: reservations[id]
  }

  /** Rows of other rooms and rows that are CheckedOut or Cancelled never cause a conflict. */
  lemma OnlyActiveRowsOfTheRoomCount(reservations: map<int, Reservation>, roomId: int, checkIn: int, checkOut: int)
    ensures HasDateConflict(reservations, roomId, checkIn, checkOut)
        == HasDateConflict(ActiveRowsOf(reservations, roomId), roomId, checkIn, checkOut)
  {
    var active := ActiveRowsOf(reservations, roomId);
    if HasDateConflict(reservations, roomId, checkIn, checkOut) {
      var id :| id in reservations && ConflictsWith(reservations[id], roomId, checkIn, checkOut);
      assert id in active;
    }
  }

  /** Both boundaries are inclusive: a stay that ends on the new check-in day, or starts on
      the new check-out day, is a conflict. */
  lemma BoundaryDaysConflict(r: Reservation, roomId: int, checkIn: int, checkOut: int)
    requires r.roomId == roomId && r.status == Active
    requires r.checkIn <= r.checkOut && checkIn <= checkOut
    requires r.checkOut == checkIn || r.checkIn == checkOut
    ensures ConflictsWith(r, roomId, checkIn, checkOut)
  {
  }

  /** For well-ordered dates the second and third clauses add nothing to the first: the
      query is the intersection test of two closed day ranges. */
  lemma ClausesAreClosedRangeIntersection(existingIn: int, existingOut: int, checkIn: int, checkOut: int)
    requires existingIn <= existingOut && checkIn <= checkOut
    ensures DateClauses(existingIn, existingOut, checkIn, checkOut) <==> existingIn <= checkOut && existingOut >= checkIn
  {
  }

  /** For well-ordered dates the conflict test is symmetric in the two stays. */
  lemma ClausesSymmetric(aIn: int, aOut: int, bIn: int, bOut: int)
    requires aIn <= aOut && bIn <= bOut
    ensures DateClauses(aIn, aOut, bIn, bOut) == DateClauses(bIn, bOut, aIn, aOut)
  {
  }

  // ---------------------------------------------------------------------------------
  // The booking invariant the client-side check is meant to keep

  /** Every Active reservation leaves after it arrives. */
  predicate ActiveDatesOrdered(reservations: map<int, Reservation>) {
    forall id :: id in reservations && reservations[id].status == Active ==> reservations[id].checkIn < reservations[id].checkOut
  }

  /** No two Active reservations of the same room meet the conflict test. */
  predicate NoDoubleBooking(reservations: map<int, Reservation>) {
    forall i, j ::
      i in reservations && j in reservations && i != j
      && reservations[i].status == Active && reservations[j].status == Active
      && reservations[i].roomId == reservations[j].roomId
      ==> !DateClauses(reservations[i].checkIn, reservations[i].checkOut, reservations[j].checkIn, reservations[j].checkOut)
  }

  predicate BookingInvariant(reservations: map<int, Reservation>) {
    ActiveDatesOrdered(reservations) && NoDoubleBooking(reservations)
  }

  // ---------------------------------------------------------------------------------
  // db:create-reservation

  datatype ReservationRequest = ReservationRequest(
    roomId: int,
    isNewGuest: bool,
    guestId: Option<int>,
    guestName: string,
    guestPhone: string,
    guestEmail: Option<string>,
    guestGender: Option<string>,
    checkIn: int,
    checkOut: int,
    numberOfGuests: int,
    staffNotes: Option<string>)

  const ReservationCreated: string := "Reservation created successfully"

  /** Every reservation row records manager 1 as its creator. */
  const CreatingManagerId: int := 1

  /** INSERT INTO Guests, INSERT INTO Reservations, UPDATE Rooms; the first only for a new guest. */
  function CreateStatements(req: ReservationRequest): nat {
    if req.isNewGuest then 3 else 2
  }

  /** The Rooms table with one room's status overwritten; a missing id matches no row. */
  function SetRoomStatus(rooms: map<int, Room>, roomId: int, status: RoomStatus): (r: map<int, Room>)
    ensures r.Keys == rooms.Keys
    ensures roomId in rooms ==> r[roomId] == rooms[roomId].(status := status)
    ensures forall id :: id in rooms && id != roomId ==> r[id] == rooms[id]
  {
    if roomId in rooms then rooms[roomId := rooms[roomId].(status := status)] else rooms
  }

  /** What a committed create does to the tables, stated row by row. */
  predicate CreatedAsRequested(t: Tables, t': Tables, req: ReservationRequest, now: int) {
    var guestId := if req.isNewGuest then Some(t.nextGuestId) else req.guestId;
    // exactly one new Reservations row, Active, with the requested values
    && t'.reservations.Keys == t.reservations.Keys + {t.nextReservationId}
    && t.nextReservationId !in t.reservations
    && t'.reservations[t.nextReservationId]
       == Reservation(req.roomId, guestId, req.checkIn, req.checkOut, req.numberOfGuests,
                      req.staffNotes, Active, now, CreatingManagerId)
    && (forall id :: id in t.reservations ==> t'.reservations[id] == t.reservations[id])
    // a Guests row is inserted exactly for a new guest
    && (req.isNewGuest ==>
          && t'.guests.Keys == t.guests.Keys + {t.nextGuestId}
          && t.nextGuestId !in t.guests
          && t'.guests[t.nextGuestId] == Guest(req.guestName, req.guestPhone, req.guestEmail, req.guestGender, now)
          && (forall id :: id in t.guests ==> t'.guests[id] == t.guests[id]))
    && (!req.isNewGuest ==> t'.guests == t.guests)
    // the room becomes Occupied whatever its status was
    && t'.rooms == SetRoomStatus(t.rooms, req.roomId, Occupied)
    && t'.managers == t.managers
  }

  /** `db:create-reservation`. There is no conflict query here: the handler books whatever it is sent. */
  function CreateReservationResult(t: Tables, req: ReservationRequest, now: int, fault: Option<Fault>): (r: (Tables, Reply))
    requires IdsBelowCounters(t)
    ensures r.1.Failed? <==> FailsWithin(fault, CreateStatements(req))
    ensures r.1.Failed? ==> r.0 == t && r.1.message == fault.value.message
    ensures r.1.Done? ==> r.1.message == ReservationCreated && CreatedAsRequested(t, r.0, req, now)
    ensures r.1.Done? ==> IdsBelowCounters(r.0)
  {
    if FailsWithin(fault, CreateStatements(req)) then (t, Failed(fault.value.message))
    else
      var guestId := if req.isNewGuest then Some(t.nextGuestId) else req.guestId;
      var row := Reservation(req.roomId, guestId, req.checkIn, req.checkOut, req.numberOfGuests,
                             req.staffNotes, Active, now, CreatingManagerId);
      var guests := if req.isNewGuest
        then t.guests[t.nextGuestId := Guest(req.guestName, req.guestPhone, req.guestEmail, req.guestGender, now)]
        else t.guests;
      var t' := t.(
        guests := guests,
        nextGuestId := if req.isNewGuest then t.nextGuestId + 1 else t.nextGuestId,
        reservations := t.reservations[t.nextReservationId := row],
        nextReservationId := t.nextReservationId + 1,
        rooms := SetRoomStatus(t.rooms, req.roomId, Occupied));
      (t', Done(ReservationCreated))
  }

  /** Check, then create: when the conflict query found nothing for well-ordered dates, the
      committed reservation keeps the Active reservations of every room apart. */
  lemma {:induction false} CheckThenCreateKeepsBookingInvariant(t: Tables, req: ReservationRequest, now: int, fault: Option<Fault>)
    requires IdsBelowCounters(t) && BookingInvariant(t.reservations)
    requires req.checkIn < req.checkOut
    requires !HasDateConflict(t.reservations, req.roomId, req.checkIn, req.checkOut)
    ensures BookingInvariant(CreateReservationResult(t, req, now, fault).0.reservations)
  {
    var r := CreateReservationResult(t, req, now, fault);
    if r.1.Done? {
      var res := t.reservations;
      var res' := r.0.reservations;
      var n := t.nextReservationId;
      forall i, j |
        i in res' && j in res' && i != j
        && res'[i].status == Active && res'[j].status == Active && res'[i].roomId == res'[j].roomId
        ensures !DateClauses(res'[i].checkIn, res'[i].checkOut, res'[j].checkIn, res'[j].checkOut)
      {
        if i == n {
          assert !ConflictsWith(res[j], req.roomId, req.checkIn, req.checkOut);
          ClausesSymmetric(res[j].checkIn, res[j].checkOut, req.checkIn, req.checkOut);
        } else if j == n {
          assert !ConflictsWith(res[i], req.roomId, req.checkIn, req.checkOut);
        }
      }
    }
  }

  /** Without the check the handler double-books: a committed create can break the invariant. */
  lemma CreateWithoutCheckCanDoubleBook()
    ensures exists t: Tables, req: ReservationRequest ::
      && IdsBelowCounters(t) && BookingInvariant(t.reservations)
      && req.checkIn < req.checkOut
      && !BookingInvariant(CreateReservationResult(t, req, 0, None).0.reservations)
  {
    var stay := Reservation(101, Some(1), 10, 12, 1, None, Active, 0, CreatingManagerId);
    var t := Tables(map[], map[], map[1 := stay], map[], 1, 2, 2, 1);
    var req := ReservationRequest(101, false, Some(1), "", "", None, None, 11, 13, 1, None);
    var res' := CreateReservationResult(t, req, 0, None).0.reservations;
    assert res'[1] == stay && res'[2].checkIn == 11;
    assert !NoDoubleBooking(res');
  }

  // ---------------------------------------------------------------------------------
  // db:checkout-reservation

  const CheckoutCompleted: string := "Check-out completed successfully"

  /** UPDATE Reservations SET Status = 'CheckedOut' WHERE RoomId = ? AND Status = 'Active'. */
  function CheckOutRows(reservations: map<int, Reservation>, roomId: int): (r: map<int, Reservation>)
    ensures r.Keys == reservations.Keys
    ensures forall id :: id in r ==> !(r[id].roomId == roomId && r[id].status == Active)
    ensures forall id :: id in reservations && reservations[id].roomId == roomId && reservations[id].status == Active
              ==> r[id] == reservations[id].(status := CheckedOut)
    ensures forall id :: id in reservations && !(reservations[id].roomId == roomId && reservations[id].status == Active)
              ==> r[id] == reservations[id]
  {
    map id | id in reservations ::
      if reservations[id].roomId == roomId && reservations[id].status == Active
      then reservations[id].(status := CheckedOut) else reservations[id]
  }

  /** `db:checkout-reservation`: succeeds even when the room had no Active reservation. */
  function CheckoutResult(t: Tables, roomId: int, fault: Option<Fault>): (r: (Tables, Reply))
    ensures r.1.Failed? <==> FailsWithin(fault, 2)
    ensures r.1.Failed? ==> r.0 == t && r.1.message == fault.value.message
    ensures r.1.Done? ==> r.1.message == CheckoutCompleted
    ensures r.1.Done? ==> r.0 == t.(reservations := CheckOutRows(t.reservations, roomId),
                                    rooms := SetRoomStatus(t.rooms, roomId, Available))
  {
    if FailsWithin(fault, 2) then (t, Failed(fault.value.message))
    else (t.(reservations := CheckOutRows(t.reservations, roomId),
             rooms := SetRoomStatus(t.rooms, roomId, Available)), Done(CheckoutCompleted))
  }

  /** After a checkout no dates of that room conflict, so the same stay can be booked again. */
  lemma CheckedOutRoomHasNoConflict(reservations: map<int, Reservation>, roomId: int, checkIn: int, checkOut: int)
    ensures !HasDateConflict(CheckOutRows(reservations, roomId), roomId, checkIn, checkOut)
  {
  }

  /** A room with no Active reservation: checkout changes no Reservations row. */
  lemma {:induction false} CheckoutWithoutActiveRowChangesNoReservation(reservations: map<int, Reservation>, roomId: int)
    requires forall id :: id in reservations ==> !(reservations[id].roomId == roomId && reservations[id].status == Active)
    ensures CheckOutRows(reservations, roomId) == reservations
  {
    var r := CheckOutRows(reservations, roomId);
    assert forall id :: id in r ==> r[id] == reservations[id];
  }

  /** Checking out can only end stays, so it keeps the booking invariant. */
  lemma {:induction false} CheckoutKeepsBookingInvariant(reservations: map<int, Reservation>, roomId: int)
    requires BookingInvariant(reservations)
    ensures BookingInvariant(CheckOutRows(reservations, roomId))
  {
    var r := CheckOutRows(reservations, roomId);
    assert forall id :: id in r && r[id].status == Active ==> r[id] == reservations[id];
  }

  // ---------------------------------------------------------------------------------
  // db:update-reservation and db:update-room-status

  const ReservationUpdated: string := "Reservation updated successfully"

  /** `db:update-reservation`: overwrite the four columns of the row with that id, whatever its
      status and whatever other stays it now meets; a missing id changes nothing. */
  function UpdateReservationResult(t: Tables, reservationId: int, checkIn: int, checkOut: int,
                                   numberOfGuests: int, staffNotes: Option<string>, fault: Option<Fault>): (r: (Tables, Reply))
    ensures r.1.Failed? <==> FailsWithin(fault, 1)
    ensures r.1.Failed? ==> r.0 == t
    ensures r.1.Done? ==> r.1.message == ReservationUpdated
    ensures r.1.Done? ==> r.0 == t.(reservations := r.0.reservations)
    ensures r.1.Done? && reservationId !in t.reservations ==> r.0 == t
    ensures r.1.Done? ==> r.0.rooms == t.rooms && r.0.guests == t.guests && r.0.managers == t.managers
    ensures r.1.Done? ==> r.0.reservations.Keys == t.reservations.Keys
    ensures r.1.Done? ==> forall id :: id in t.reservations && id != reservationId ==> r.0.reservations[id] == t.reservations[id]
    ensures r.1.Done? && reservationId in t.reservations ==>
      var old_ := t.reservations[reservationId];
      r.0.reservations[reservationId] == old_.(checkIn := checkIn, checkOut := checkOut,
                                                numberOfGuests := numberOfGuests, staffNotes := staffNotes)
  {
    if FailsWithin(fault, 1) then (t, Failed(fault.value.message))
    else if reservationId !in t.reservations then (t, Done(ReservationUpdated))
    else
      var row := t.reservations[reservationId];
      (t.(reservations := t.reservations[reservationId := row.(checkIn := checkIn, checkOut := checkOut,
                                                                numberOfGuests := numberOfGuests, staffNotes := staffNotes)]),
       Done(ReservationUpdated))
  }

  /** Without a conflict query the edit can move a stay onto another one. */
  lemma UpdateCanDoubleBook()
    ensures exists t: Tables ::
      && BookingInvariant(t.reservations)
      && !BookingInvariant(UpdateReservationResult(t, 2, 10, 12, 1, None, None).0.reservations)
  {
    var a := Reservation(101, Some(1), 10, 12, 1, None, Active, 0, CreatingManagerId);
    var b := Reservation(101, Some(2), 20, 22, 1, None, Active, 0, CreatingManagerId);
    var t := Tables(map[], map[], map[1 := a, 2 := b], map[], 1, 3, 3, 1);
    var res' := UpdateReservationResult(t, 2, 10, 12, 1, None, None).0.reservations;
    assert res'[1] == a && res'[2].checkIn == 10 && res'[2].checkOut == 12;
    assert !NoDoubleBooking(res');
  }

  /** `db:update-room-status`: overwrite Status unconditionally, even for an Occupied room. */
  function UpdateRoomStatusResult(t: Tables, roomId: int, status: RoomStatus, fault: Option<Fault>): (r: (Tables, Reply))
    ensures r.1.Failed? <==> FailsWithin(fault, 1)
    ensures r.1.Failed? ==> r.0 == t
    ensures r.1.Done? ==> r.1.message == "Room status updated to " + RoomStatusName(status)
    ensures r.1.Done? ==> r.0 == t.(rooms := SetRoomStatus(t.rooms, roomId, status))
  {
    if FailsWithin(fault, 1) then (t, Failed(fault.value.message))
    else (t.(rooms := SetRoomStatus(t.rooms, roomId, status)), Done("Room status updated to " + RoomStatusName(status)))
  }

  // ---------------------------------------------------------------------------------
  // db:add-rooms and db:remove-rooms

  /** One element of the add-rooms payload. */
  datatype NewRoom = NewRoom(roomNumber: string, floorNumber: int, roomType: RoomType, pricePerNight: real, maxGuests: int)

  /** The row inserted for a payload element: always Available. */
  function NewRoomRow(spec: NewRoom, now: int): Room {
    Room(spec.roomNumber, spec.roomType, Available, spec.floorNumber, spec.pricePerNight, spec.maxGuests, now)
  }

  /** The Rooms table after inserting `batch` in order, element i receiving id `next + i`. */
  function InsertRooms(rooms: map<int, Room>, next: int, batch: seq<NewRoom>, now: int): (r: map<int, Room>)
    requires forall id :: id in rooms ==> id < next
    ensures forall id :: id in r <==> id in rooms || next <= id < next + |batch|
    ensures forall id :: id in rooms ==> r[id] == rooms[id]
    ensures forall i :: 0 <= i < |batch| ==> r[next + i] == NewRoomRow(batch[i], now)
    decreases |batch|
  {
    if batch == [] then rooms
    else
      var last := |batch| - 1;
      var before := InsertRooms(rooms, next, batch[..last], now);
      before[next + last := NewRoomRow(batch[last], now)]
  }

  /** Inserting one more element of the batch adds its row under the next id. */
  lemma {:induction false} InsertRoomsStep(rooms: map<int, Room>, next: int, batch: seq<NewRoom>, i: int, now: int)
    requires forall id :: id in rooms ==> id < next
    requires 0 <= i < |batch|
    ensures InsertRooms(rooms, next, batch[..i + 1], now)
         == InsertRooms(rooms, next, batch[..i], now)[next + i := NewRoomRow(batch[i], now)]
  {
    assert batch[..i + 1][..i] == batch[..i];
  }

  function AddedMessage(count: int): string {
    "Successfully added " + JsText.IntToString(count) + " room(s)"
  }

  /** `db:add-rooms`: every payload element becomes an Available row, or none does. */
  function AddRoomsResult(t: Tables, batch: seq<NewRoom>, now: int, fault: Option<Fault>): (r: (Tables, Reply))
    requires IdsBelowCounters(t)
    ensures r.1.Failed? <==> FailsWithin(fault, |batch|)
    ensures r.1.Failed? ==> r.0 == t
    ensures r.1.Done? ==> r.1.message == AddedMessage(|batch|)
    ensures r.1.Done? ==> r.0 == t.(rooms := InsertRooms(t.rooms, t.nextRoomId, batch, now), nextRoomId := t.nextRoomId + |batch|)
    ensures r.1.Done? ==> IdsBelowCounters(r.0)
  {
    if FailsWithin(fault, |batch|) then (t, Failed(fault.value.message))
    else (t.(rooms := InsertRooms(t.rooms, t.nextRoomId, batch, now), nextRoomId := t.nextRoomId + |batch|),
          Done(AddedMessage(|batch|)))
  }

  const OccupiedRemoval: string := "Cannot remove occupied rooms. Please check out guests first."

  /** The opening words of the database's syntax-error message for the empty list in `IN ()`;
      the full message goes on to quote the offending SQL text. */
  const EmptyInListError: string := "You have an error in your SQL syntax"

  function RemovedMessage(count: int): string {
    "Successfully removed " + JsText.IntToString(count) + " room(s)"
  }

  /** Some targeted room exists and is Occupied: the guard query counts it. */
  predicate TargetsOccupiedRoom(rooms: map<int, Room>, roomIds: seq<int>) {
    exists i :: 0 <= i < |roomIds| && roomIds[i] in rooms && rooms[roomIds[i]].status == Occupied
  }

  /** `db:remove-rooms`: the guard query, then one DELETE of every targeted row. */
  function RemoveRoomsResult(t: Tables, roomIds: seq<int>, fault: Option<Fault>): (r: (Tables, Reply))
    ensures r.1.Done? <==> roomIds != [] && !FailsWithin(fault, 2) && !TargetsOccupiedRoom(t.rooms, roomIds)
    ensures r.1.Failed? ==> r.0 == t
    ensures (r.1.Failed? && roomIds != [] && !FailsWithin(fault, 1) && TargetsOccupiedRoom(t.rooms, roomIds))
              ==> r.1.message == OccupiedRemoval
    ensures r.1.Done? ==> r.1.message == RemovedMessage(|roomIds|)
    ensures r.1.Done? ==> r.0 == t.(rooms := t.rooms - set i | 0 <= i < |roomIds| :: roomIds[i])
  {
    if roomIds == [] then (t, Failed(EmptyInListError))
    else if FailsAt(fault, 0) then (t, Failed(fault.value.message))
    else if TargetsOccupiedRoom(t.rooms, roomIds) then (t, Failed(OccupiedRemoval))
    else if FailsAt(fault, 1) then (t, Failed(fault.value.message))
    else (t.(rooms := t.rooms - set i | 0 <= i < |roomIds| :: roomIds[i]), Done(RemovedMessage(|roomIds|)))
  }

  /** A committed removal deletes exactly the targeted rooms, none of which was Occupied,
      and keeps every Reservations row, including those of the deleted rooms. */
  lemma {:induction false} RemovalDeletesExactlyTheTargets(t: Tables, roomIds: seq<int>, fault: Option<Fault>)
    requires RemoveRoomsResult(t, roomIds, fault).1.Done?
    ensures var t' := RemoveRoomsResult(t, roomIds, fault).0;
      && (forall id :: id in t'.rooms <==> id in t.rooms && id !in roomIds)
      && (forall id :: id in t.rooms && id in roomIds ==> t.rooms[id].status != Occupied)
      && (forall id :: id in t'.rooms ==> t'.rooms[id] == t.rooms[id])
      && t'.reservations == t.reservations
  {
    forall id | id in t.rooms && id in roomIds ensures t.rooms[id].status != Occupied {
      var i :| 0 <= i < |roomIds| && roomIds[i] == id;
    }
  }

  // ---------------------------------------------------------------------------------
  // auth:create-manager and auth:delete-manager

  const EmailTaken: string := "Email already exists"
  const DefaultRole: string := "Personel"
  const OwnAccount: string := "Cannot delete your own account"
  const LastManager: string := "Cannot delete the last manager"
  const ManagerDeleted: string := "Manager deleted successfully"

  predicate EmailInUse(managers: map<int, Manager>, email: string) {
    exists id :: id in managers && managers[id].email == email
  }

  /** No two accounts share an email. */
  predicate UniqueEmails(managers: map<int, Manager>) {
    forall i, j :: i in managers && j in managers && i != j ==> managers[i].email != managers[j].email
  }

  /** `auth:create-manager`: the email lookup, then the INSERT; `role` is `None` when the caller
      omits it, and `passwordHash` is what the hashing library returned for the password. */
  function CreateManagerResult(t: Tables, email: string, passwordHash: string, fullName: string,
                               role: Option<string>, now: int, fault: Option<Fault>): (r: (Tables, Reply))
    requires IdsBelowCounters(t)
    ensures r.1.Created? <==> !FailsWithin(fault, 2) && !EmailInUse(t.managers, email)
    ensures !r.1.Created? ==> r.0 == t && r.1.Failed?
    ensures !FailsWithin(fault, 1) && EmailInUse(t.managers, email) ==> r.1 == Failed(EmailTaken)
    ensures r.1.Created? ==>
      && r.1.managerId == t.nextManagerId && t.nextManagerId !in t.managers
      && r.0 == t.(managers := t.managers[t.nextManagerId := Manager(email, passwordHash, fullName, role.GetOr(DefaultRole), now, None)],
                   nextManagerId := t.nextManagerId + 1)
      && IdsBelowCounters(r.0)
  {
    if FailsAt(fault, 0) then (t, Failed(fault.value.message))
    else if EmailInUse(t.managers, email) then (t, Failed(EmailTaken))
    else if FailsAt(fault, 1) then (t, Failed(fault.value.message))
    else
      var row := Manager(email, passwordHash, fullName, role.GetOr(DefaultRole), now, None);
      (t.(managers := t.managers[t.nextManagerId := row], nextManagerId := t.nextManagerId + 1), Created(t.nextManagerId))
  }

  /** The email guard keeps emails unique. */
  lemma {:induction false} CreateManagerKeepsEmailsUnique(t: Tables, email: string, passwordHash: string, fullName: string,
                                                          role: Option<string>, now: int, fault: Option<Fault>)
    requires IdsBelowCounters(t) && UniqueEmails(t.managers)
    ensures UniqueEmails(CreateManagerResult(t, email, passwordHash, fullName, role, now, fault).0.managers)
  {
    var r := CreateManagerResult(t, email, passwordHash, fullName, role, now, fault);
    if r.1.Created? {
      var m := r.0.managers;
      var n := t.nextManagerId;
      forall i, j | i in m && j in m && i != j ensures m[i].email != m[j].email {
        if i == n {
          assert j in t.managers && m[j] == t.managers[j];
        } else if j == n {
          assert i in t.managers && m[i] == t.managers[i];
        }
      }
    }
  }

  /** `auth:delete-manager`: refused for the caller's own id and when at most one account is left;
      otherwise the DELETE, which succeeds even when the id matches no row. */
  function DeleteManagerResult(t: Tables, managerId: int, currentManagerId: int, fault: Option<Fault>): (r: (Tables, Reply))
    ensures r.1.Done? <==> managerId != currentManagerId && !FailsWithin(fault, 2) && |t.managers| > 1
    ensures !r.1.Done? ==> r.0 == t && r.1.Failed?
    ensures managerId == currentManagerId ==> r.1 == Failed(OwnAccount)
    ensures managerId != currentManagerId && !FailsWithin(fault, 1) && |t.managers| <= 1 ==> r.1 == Failed(LastManager)
    ensures r.1.Done? ==> r.1.message == ManagerDeleted && r.0 == t.(managers := t.managers - {managerId})
  {
    if managerId == currentManagerId then (t, Failed(OwnAccount))
    else if FailsAt(fault, 0) then (t, Failed(fault.value.message))
    else if |t.managers| <= 1 then (t, Failed(LastManager))
    else if FailsAt(fault, 1) then (t, Failed(fault.value.message))
    else (t.(managers := t.managers - {managerId}), Done(ManagerDeleted))
  }

  /** Deleting never removes the caller's own account and never empties a non-empty table. */
  lemma {:induction false} DeleteManagerKeepsAnAccount(t: Tables, managerId: int, currentManagerId: int, fault: Option<Fault>)
    requires |t.managers| >= 1
    ensures var m := DeleteManagerResult(t, managerId, currentManagerId, fault).0.managers;
      && |m| >= 1
      && (currentManagerId in t.managers ==> currentManagerId in m)
  {
    var r := DeleteManagerResult(t, managerId, currentManagerId, fault);
    if r.1.Done? {
      var m := r.0.managers;
      assert m == t.managers - {managerId};
      if managerId in t.managers {
        assert |m| == |t.managers| - 1;
      } else {
        assert m == t.managers;
      }
    }
  }

  // ---------------------------------------------------------------------------------
  // The tables as the main process holds them

  class HotelStore {
    var rooms: map<int, Room>
    var guests: map<int, Guest>
    var reservations: map<int, Reservation>
    var managers: map<int, Manager>
    var nextRoomId: int
    var nextGuestId: int
    var nextReservationId: int
    var nextManagerId: int

    function Snapshot(): Tables
      reads this
    {
      Tables(rooms, guests, reservations, managers, nextRoomId, nextGuestId, nextReservationId, nextManagerId)
    }

    ghost predicate Valid()
      reads this
    {
      IdsBelowCounters(Snapshot())
    }

    constructor (initial: Tables)
      requires IdsBelowCounters(initial)
      ensures Valid() && Snapshot() == initial
    {
      rooms, guests, reservations, managers := initial.rooms, initial.guests, initial.reservations, initial.managers;
      nextRoomId, nextGuestId := initial.nextRoomId, initial.nextGuestId;
      nextReservationId, nextManagerId := initial.nextReservationId, initial.nextManagerId;
    }

    /** `db:create-reservation`, statement by statement inside one transaction. */
    method CreateReservation(req: ReservationRequest, now: int, fault: Option<Fault>) returns (reply: Reply)
      requires Valid()
      modifies this
      ensures Valid()
      ensures (Snapshot(), reply) == CreateReservationResult(old(Snapshot()), req, now, fault)
    {
      var stagedGuests, stagedNextGuest := guests, nextGuestId;
      var issued := 0;
      var guestId := req.guestId;
      if req.isNewGuest {
        if FailsAt(fault, issued) {
          return Failed(fault.value.message);
        }
        stagedGuests := stagedGuests[stagedNextGuest := Guest(req.guestName, req.guestPhone, req.guestEmail, req.guestGender, now)];
        guestId := Some(stagedNextGuest);
        stagedNextGuest := stagedNextGuest + 1;
        issued := issued + 1;
      }
      if FailsAt(fault, issued) {
        return Failed(fault.value.message);
      }
      var row := Reservation(req.roomId, guestId, req.checkIn, req.checkOut, req.numberOfGuests,
                             req.staffNotes, Active, now, CreatingManagerId);
      var stagedReservations := reservations[nextReservationId := row];
      issued := issued + 1;
      if FailsAt(fault, issued) {
        return Failed(fault.value.message);
      }
      var stagedRooms := SetRoomStatus(rooms, req.roomId, Occupied);
      // commit
      guests, nextGuestId := stagedGuests, stagedNextGuest;
      reservations, nextReservationId := stagedReservations, nextReservationId + 1;
      rooms := stagedRooms;
      reply := Done(ReservationCreated);
    }

    /** `db:checkout-reservation`: both updates commit together. */
    method CheckoutReservation(roomId: int, fault: Option<Fault>) returns (reply: Reply)
      requires Valid()
      modifies this
      ensures Valid()
      ensures (Snapshot(), reply) == CheckoutResult(old(Snapshot()), roomId, fault)
    {
      if FailsAt(fault, 0) {
        return Failed(fault.value.message);
      }
      var stagedReservations := CheckOutRows(reservations, roomId);
      if FailsAt(fault, 1) {
        return Failed(fault.value.message);
      }
      reservations, rooms := stagedReservations, SetRoomStatus(rooms, roomId, Available);
      reply := Done(CheckoutCompleted);
    }

    /** `db:update-reservation`: one UPDATE, no transaction. */
    method UpdateReservation(reservationId: int, checkIn: int, checkOut: int, numberOfGuests: int,
                             staffNotes: Option<string>, fault: Option<Fault>) returns (reply: Reply)
      requires Valid()
      modifies this
      ensures Valid()
      ensures (Snapshot(), reply) == UpdateReservationResult(old(Snapshot()), reservationId, checkIn, checkOut, numberOfGuests, staffNotes, fault)
    {
      if FailsAt(fault, 0) {
        return Failed(fault.value.message);
      }
      if reservationId in reservations {
        var row := reservations[reservationId];
        reservations := reservations[reservationId := row.(checkIn := checkIn, checkOut := checkOut,
                                                           numberOfGuests := numberOfGuests, staffNotes := staffNotes)];
      }
      reply := Done(ReservationUpdated);
    }

    /** `db:update-room-status`: one UPDATE, no transaction. */
    method UpdateRoomStatus(roomId: int, status: RoomStatus, fault: Option<Fault>) returns (reply: Reply)
      requires Valid()
      modifies this
      ensures Valid()
      ensures (Snapshot(), reply) == UpdateRoomStatusResult(old(Snapshot()), roomId, status, fault)
    {
      if FailsAt(fault, 0) {
        return Failed(fault.value.message);
      }
      rooms := SetRoomStatus(rooms, roomId, status);
      reply := Done("Room status updated to " + RoomStatusName(status));
    }

    /** `db:add-rooms`: one INSERT per payload element inside one transaction. */
    method AddRooms(batch: seq<NewRoom>, now: int, fault: Option<Fault>) returns (reply: Reply)
      requires Valid()
      modifies this
      ensures (Snapshot(), reply) == AddRoomsResult(old(Snapshot()), batch, now, fault)
      ensures Valid()
    {
      var current, next := rooms, nextRoomId;
      var staged := current;
      var i := 0;
      while i < |batch|
        invariant 0 <= i <= |batch|
        invariant staged == InsertRooms(current, next, batch[..i], now)
        invariant !FailsWithin(fault, i)
        modifies {}
      {
        if FailsAt(fault, i) {
          assert FailsWithin(fault, |batch|);
          return Failed(fault.value.message);
        }
        InsertRoomsStep(current, next, batch, i, now);
        staged := staged[next + i := NewRoomRow(batch[i], now)];
        i := i + 1;
      }
      assert batch[..i] == batch;
      ghost var t := Snapshot();
      rooms, nextRoomId := staged, next + |batch|;
      reply := Done(AddedMessage(|batch|));
      assert Snapshot() == AddRoomsResult(t, batch, now, fault).0;
    }

    /** `db:remove-rooms`: the Occupied guard and the DELETE inside one transaction. */
    method RemoveRooms(roomIds: seq<int>, fault: Option<Fault>) returns (reply: Reply)
      requires Valid()
      modifies this
      ensures Valid()
      ensures (Snapshot(), reply) == RemoveRoomsResult(old(Snapshot()), roomIds, fault)
    {
      if roomIds == [] {
        return Failed(EmptyInListError);
      }
      if FailsAt(fault, 0) {
        return Failed(fault.value.message);
      }
      if TargetsOccupiedRoom(rooms, roomIds) {
        return Failed(OccupiedRemoval);
      }
      if FailsAt(fault, 1) {
        return Failed(fault.value.message);
      }
      rooms := rooms - set i | 0 <= i < |roomIds| :: roomIds[i];
      reply := Done(RemovedMessage(|roomIds|));
    }

    /** `auth:create-manager`. */
    method CreateManager(email: string, passwordHash: string, fullName: string, role: Option<string>,
                         now: int, fault: Option<Fault>) returns (reply: Reply)
      requires Valid()
      modifies this
      ensures Valid()
      ensures (Snapshot(), reply) == CreateManagerResult(old(Snapshot()), email, passwordHash, fullName, role, now, fault)
    {
      if FailsAt(fault, 0) {
        return Failed(fault.value.message);
      }
      if EmailInUse(managers, email) {
        return Failed(EmailTaken);
      }
      if FailsAt(fault, 1) {
        return Failed(fault.value.message);
      }
      managers := managers[nextManagerId := Manager(email, passwordHash, fullName, role.GetOr(DefaultRole), now, None)];
      reply := Created(nextManagerId);
      nextManagerId := nextManagerId + 1;
    }

    /** `auth:delete-manager`. */
    method DeleteManager(managerId: int, currentManagerId: int, fault: Option<Fault>) returns (reply: Reply)
      requires Valid()
      modifies this
      ensures Valid()
      ensures (Snapshot(), reply) == DeleteManagerResult(old(Snapshot()), managerId, currentManagerId, fault)
    {
      if managerId == currentManagerId {
        return Failed(OwnAccount);
      }
      if FailsAt(fault, 0) {
        return Failed(fault.value.message);
      }
      if |managers| <= 1 {
        return Failed(LastManager);
      }
      if FailsAt(fault, 1) {
        return Failed(fault.value.message);
      }
      managers := managers - {managerId};
      reply := Done(ManagerDeleted);
    }
  }
}

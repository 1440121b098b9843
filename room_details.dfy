/**
 * The room details window: the Active reservation it loads for an Occupied room, the stay's
 * length in nights, the actions it offers for each room status, and the handlers behind them
 * (check-out, saving an edit of the reservation, maintenance on and off).
 *
 * Reservation dates are day numbers; the window turns them into local midnights, so a day
 * is `MillisPerDay` milliseconds apart from the next.
 */
module RoomDetails {
  import opened Common
  import opened Schema
  import opened Store
  import Stats

  const MillisPerDay: int := 1000 * 60 * 60 * 24

  /** `Math.ceil(n / d)` for a positive divisor, on exact rationals. */
  function CeilDiv(n: int, d: int): (q: int)
    requires d > 0
    ensures d * (q - 1) < n <= d * q
  {
    var k := (-n) / d;
    assert -n == d * k + (-n) % d;
    -k
  }

  /** The nights between two instants: the elapsed time in days, rounded up. */
  function NightsBetween(checkInMillis: int, checkOutMillis: int): (nights: int)
    ensures MillisPerDay * (nights - 1) < checkOutMillis - checkInMillis <= MillisPerDay * nights
  {
    CeilDiv(checkOutMillis - checkInMillis, MillisPerDay)
  }

  /** Between two midnights the count of nights is the difference of the day numbers. */
  lemma {:induction false} NightsBetweenMidnights(checkIn: int, checkOut: int)
    ensures NightsBetween(checkIn * MillisPerDay, checkOut * MillisPerDay) == checkOut - checkIn
  {
    var n := NightsBetween(checkIn * MillisPerDay, checkOut * MillisPerDay);
    var diff := checkOut - checkIn;
    assert checkOut * MillisPerDay - checkIn * MillisPerDay == MillisPerDay * diff;
    assert MillisPerDay * (n - 1) < MillisPerDay * diff <= MillisPerDay * n;
    assert MillisPerDay * (diff - n) <= 0 < MillisPerDay * (diff - n + 1);
  }

  /** The Active reservation the window shows: its id and its row. */
  datatype Loaded = Loaded(reservationId: int, reservation: Reservation)

  /** `getDuration`: 0 without a reservation, the nights of the stay otherwise. */
  function Duration(loaded: Option<Loaded>): (nights: int)
    ensures loaded.None? ==> nights == 0
    ensures loaded.Some? ==> nights == loaded.value.reservation.checkOut - loaded.value.reservation.checkIn
  {
    match loaded
    case None => 0
    case Some(v) =>
      NightsBetweenMidnights(v.reservation.checkIn, v.reservation.checkOut);
      NightsBetween(v.reservation.checkIn * MillisPerDay, v.reservation.checkOut * MillisPerDay)
  }

  // ---------------------------------------------------------------------------------
  // The buttons of the header

  datatype Action =
    | CheckOutGuest | EditDetails | PrintInvoice   // an Occupied room with its reservation
    | NewReservation | SetMaintenance             // an Available room
    | SetAvailable                                // a room under maintenance
    | CancelEdit | SaveEdit                       // while editing

  /** The buttons shown for a room of the given status. */
  function ActionsOffered(status: RoomStatus, hasReservation: bool, isEditing: bool): (acts: set<Action>)
    ensures status == Occupied && hasReservation && !isEditing ==> acts == {CheckOutGuest, EditDetails, PrintInvoice}
    ensures status == Occupied && !hasReservation && !isEditing ==> acts == {}
    ensures status == Available && !isEditing ==> acts == {NewReservation, SetMaintenance}
    ensures status == Maintenance && !isEditing ==> acts == {SetAvailable}
    ensures isEditing ==> {CancelEdit, SaveEdit} <= acts && CheckOutGuest !in acts
    ensures SetMaintenance in acts || SetAvailable in acts ==> status != Occupied
    ensures CheckOutGuest in acts ==> status == Occupied && hasReservation
  {
    (if status == Occupied && hasReservation && !isEditing then {CheckOutGuest, EditDetails, PrintInvoice} else {})
    + (if status == Available then {NewReservation, SetMaintenance} else {})
    + (if status == Maintenance then {SetAvailable} else {})
    + (if isEditing then {CancelEdit, SaveEdit} else {})
  }

  /** A status button the window offers never changes which rooms are Occupied: the window
      cannot push an Occupied room into maintenance, although the store would accept it. */
  lemma {:induction false} OfferedStatusChangeKeepsOccupiedRooms(
    t: Tables, roomId: int, hasReservation: bool, isEditing: bool, fault: Option<Fault>)
    requires roomId in t.rooms
    requires SetMaintenance in ActionsOffered(t.rooms[roomId].status, hasReservation, isEditing)
          || SetAvailable in ActionsOffered(t.rooms[roomId].status, hasReservation, isEditing)
    ensures var target := if t.rooms[roomId].status == Available then Maintenance else Available;
      Stats.OccupiedRooms(UpdateRoomStatusResult(t, roomId, target, fault).0.rooms) == Stats.OccupiedRooms(t.rooms)
  {
    var target := if t.rooms[roomId].status == Available then Maintenance else Available;
    var rooms' := UpdateRoomStatusResult(t, roomId, target, fault).0.rooms;
    assert t.rooms[roomId].status != Occupied;
    forall id ensures id in Stats.OccupiedRooms(rooms') <==> id in Stats.OccupiedRooms(t.rooms) {
      if id == roomId && id in rooms' {
        assert rooms'[id].status in {t.rooms[id].status, target};
      }
    }
  }

  // ---------------------------------------------------------------------------------
  // Saving an edit

  /** The date check's message: check-out must come after check-in. */
  const DatesOutOfOrder: string := "\U{C7}\U{131}k\U{131}\U{15F} tarihi giri\U{15F} tarihinden sonra olmal\U{131}d\U{131}r"
  const UpdateFailed: string := "Failed to update reservation"
  const CheckOutFailedPrefix: string := "\U{C7}\U{131}k\U{131}\U{15F} yap\U{131}lamad\U{131}: "
  const StatusFailedPrefix: string := "Failed to update room status: "

  /** The edit form's fields: two dates, the party size and the notes. */
  datatype EditFields = EditFields(checkIn: int, checkOut: int, numberOfGuests: int, staffNotes: string)

  /** The edit form filled from the loaded reservation; missing notes become the empty text. */
  function EditFieldsOf(v: Loaded): (e: EditFields)
    ensures e.checkIn == v.reservation.checkIn && e.checkOut == v.reservation.checkOut
    ensures e.numberOfGuests == v.reservation.numberOfGuests
    ensures e.staffNotes == v.reservation.staffNotes.GetOr("")
  {
    EditFields(v.reservation.checkIn, v.reservation.checkOut, v.reservation.numberOfGuests,
               v.reservation.staffNotes.GetOr(""))
  }

  /** `result.message || 'Failed to update reservation'`. */
  function UpdateFailureMessage(message: string): (shown: string)
    ensures shown != ""
    ensures message != "" ==> shown == message
  {
    if message == "" then UpdateFailed else message
  }

  /** What saving an edit of reservation `reservationId` does: the tables afterwards, the error
      shown (empty on success) and whether the update was accepted. */
  function SaveEditResult(t: Tables, reservationId: int, e: EditFields, fault: Option<Fault>): (r: (Tables, string, bool))
    ensures e.checkOut <= e.checkIn ==> r == (t, DatesOutOfOrder, false)
    ensures r.2 <==> e.checkIn < e.checkOut && !FailsWithin(fault, 1)
    ensures !r.2 ==> r.0 == t && r.1 != ""
    ensures r.2 ==> r.1 == ""
    ensures r.2 ==> r.0.rooms == t.rooms && r.0.guests == t.guests && r.0.managers == t.managers
    ensures r.2 ==> r.0.reservations.Keys == t.reservations.Keys
    ensures r.2 && reservationId in t.reservations ==>
      var row := r.0.reservations[reservationId];
      && row.checkIn == e.checkIn && row.checkOut == e.checkOut && row.numberOfGuests == e.numberOfGuests
      && row.staffNotes == NullIfEmpty(e.staffNotes)
      && row.status == t.reservations[reservationId].status && row.roomId == t.reservations[reservationId].roomId
    ensures r.2 ==> forall id :: id in t.reservations && id != reservationId ==> r.0.reservations[id] == t.reservations[id]
    ensures r.2 ==> r.0 == t.(reservations := r.0.reservations)
    ensures r.2 && reservationId in t.reservations ==>
      r.0.reservations[reservationId] == t.reservations[reservationId].(
        checkIn := e.checkIn, checkOut := e.checkOut, numberOfGuests := e.numberOfGuests,
        staffNotes := NullIfEmpty(e.staffNotes))
    ensures r.2 ==> r.0 == UpdateReservationResult(t, reservationId, e.checkIn, e.checkOut, e.numberOfGuests,
                                                   NullIfEmpty(e.staffNotes), fault).0
  {
    if e.checkOut <= e.checkIn then (t, DatesOutOfOrder, false)
    else
      var (t', reply) := UpdateReservationResult(t, reservationId, e.checkIn, e.checkOut, e.numberOfGuests,
                                                 NullIfEmpty(e.staffNotes), fault);
      if reply.Done? then (t', "", true) else (t, UpdateFailureMessage(reply.message), false)
  }

  /** The window's date check keeps every Active stay's check-out after its check-in. */
  lemma {:induction false} SaveEditKeepsDatesOrdered(t: Tables, reservationId: int, e: EditFields, fault: Option<Fault>)
    requires ActiveDatesOrdered(t.reservations)
    ensures ActiveDatesOrdered(SaveEditResult(t, reservationId, e, fault).0.reservations)
  {
    var r := SaveEditResult(t, reservationId, e, fault);
    if r.2 {
      var res' := r.0.reservations;
      forall id | id in res' && res'[id].status == Active ensures res'[id].checkIn < res'[id].checkOut {
        assert id in t.reservations;
        if id != reservationId {
          assert res'[id] == t.reservations[id];
        }
      }
    }
  }

  /** The date check is the only one: an edit that passes it can move a stay onto another. */
  lemma SaveEditCanDoubleBook()
    ensures exists t: Tables ::
      && BookingInvariant(t.reservations)
      && var r := SaveEditResult(t, 2, EditFields(10, 12, 1, ""), None);
         r.2 && !BookingInvariant(r.0.reservations)
  {
    var a := Reservation(101, Some(1), 10, 12, 1, None, Active, 0, CreatingManagerId);
    var b := Reservation(101, Some(2), 20, 22, 1, None, Active, 0, CreatingManagerId);
    var t := Tables(map[], map[], map[1 := a, 2 := b], map[], 1, 3, 3, 1);
    var r := SaveEditResult(t, 2, EditFields(10, 12, 1, ""), None);
    assert r.0.reservations[1] == a && r.0.reservations[2].checkIn == 10 && r.0.reservations[2].checkOut == 12;
    assert !NoDoubleBooking(r.0.reservations);
  }

  // ---------------------------------------------------------------------------------
  // The window

  class RoomDetailsModal {
    var isOpen: bool
    var room: Option<RoomRow>
    var reservation: Option<Loaded>
    var loading: bool
    var isEditing: bool
    var edit: EditFields
    var editError: string

    constructor ()
      ensures !isOpen && room == None && reservation == None && !loading && !isEditing
      ensures edit == EditFields(0, 0, 1, "") && editError == ""
    {
      isOpen, room, reservation, loading, isEditing := false, None, None, false, false;
      edit, editError := EditFields(0, 0, 1, ""), "";
    }

    /** The buttons currently shown; nothing while the window is closed or has no room. */
    function Actions(): set<Action>
      reads this
    {
      if !isOpen || room.None? then {} else ActionsOffered(room.value.room.status, reservation.Some?, isEditing)
    }

    /** `loadReservation` with the query's reply: `None` when the query threw, otherwise the
        Active reservation found for the room, if any. */
    method LoadReservation(reply: Option<Option<Loaded>>)
      modifies this
      ensures room.Some? && reply.Some? ==> reservation == reply.value
      ensures room.Some? && reply.Some? && reply.value.Some? ==> edit == EditFieldsOf(reply.value.value)
      ensures room.None? || reply.None? || reply.value.None? ==> edit == old(edit)
      ensures room.None? || reply.None? ==> reservation == old(reservation)
      ensures room.Some? ==> !loading
      ensures room.None? ==> loading == old(loading)
      ensures isOpen == old(isOpen) && room == old(room) && isEditing == old(isEditing) && editError == old(editError)
    {
      if room.None? {
        return;
      }
      loading := true;
      if reply.Some? {
        reservation := reply.value;
        if reply.value.Some? {
          edit := EditFieldsOf(reply.value.value);
        }
      }
      loading := false;
    }

    /** The effect on opening or on a new room: load for an open window on an Occupied room,
        otherwise clear the reservation and leave edit mode. */
    method SyncProps(open: bool, shown: Option<RoomRow>, reply: Option<Option<Loaded>>)
      modifies this
      ensures isOpen == open && room == shown
      ensures open && shown.Some? && shown.value.room.status == Occupied ==>
        && (reply.Some? ==> reservation == reply.value)
        && (reply.None? ==> reservation == old(reservation))
        && isEditing == old(isEditing) && !loading
      ensures !(open && shown.Some? && shown.value.room.status == Occupied) ==>
        reservation == None && !isEditing && loading == old(loading) && edit == old(edit)
      ensures editError == old(editError)
    {
      isOpen, room := open, shown;
      if open && shown.Some? && shown.value.room.status == Occupied {
        LoadReservation(reply);
      } else {
        reservation := None;
        isEditing := false;
      }
    }

    /** The edit button. */
    method StartEditing()
      modifies this
      ensures isEditing
      ensures isOpen == old(isOpen) && room == old(room) && reservation == old(reservation)
      ensures edit == old(edit) && editError == old(editError) && loading == old(loading)
    {
      isEditing := true;
    }

    /** `handleSaveEdit`: without a reservation nothing happens; a check-out not after the
        check-in is refused before any call; otherwise the update is sent and, once accepted,
        edit mode ends and the reservation is loaded again (`reloaded`). */
    method HandleSaveEdit(store: HotelStore, fault: Option<Fault>, reloaded: Option<Option<Loaded>>)
      requires store.Valid()
      modifies this, store
      ensures store.Valid()
      ensures old(reservation).None? ==>
        store.Snapshot() == old(store.Snapshot()) && editError == old(editError) && isEditing == old(isEditing)
        && reservation == old(reservation) && loading == old(loading)
      ensures old(reservation).Some? ==>
        var r := SaveEditResult(old(store.Snapshot()), old(reservation).value.reservationId, old(edit), fault);
        && store.Snapshot() == r.0 && editError == r.1 && !loading
        && isEditing == (old(isEditing) && !r.2)
        && (r.2 && room.Some? && reloaded.Some? ==> reservation == reloaded.value)
        && (!r.2 ==> reservation == old(reservation) && edit == old(edit))
      ensures isOpen == old(isOpen) && room == old(room)
    {
      if reservation.None? {
        return;
      }
      editError := "";
      loading := true;
      if edit.checkOut <= edit.checkIn {
        editError := DatesOutOfOrder;
        loading := false;
        return;
      }
      var reply := store.UpdateReservation(reservation.value.reservationId, edit.checkIn, edit.checkOut,
                                           edit.numberOfGuests, NullIfEmpty(edit.staffNotes), fault);
      if reply.Done? {
        isEditing := false;
        LoadReservation(reloaded);
      } else {
        editError := UpdateFailureMessage(reply.message);
      }
      loading := false;
    }

    /** `handleCheckOut`: after the user confirms, the room is checked out; on success the
        window refreshes its caller and closes, otherwise it alerts the store's message. */
    method HandleCheckOut(store: HotelStore, confirmed: bool, fault: Option<Fault>) returns (closed: bool, alert: Option<string>)
      requires store.Valid()
      modifies this, store
      ensures store.Valid()
      ensures room.None? || !confirmed ==>
        store.Snapshot() == old(store.Snapshot()) && !closed && alert == None && loading == old(loading)
      ensures room.Some? && confirmed ==>
        var r := CheckoutResult(old(store.Snapshot()), room.value.roomId, fault);
        && store.Snapshot() == r.0
        && closed == r.1.Done?
        && alert == (if r.1.Done? then None else Some(CheckOutFailedPrefix + r.1.message))
        && !loading
      ensures isOpen == old(isOpen) && room == old(room) && reservation == old(reservation)
      ensures isEditing == old(isEditing) && edit == old(edit) && editError == old(editError)
    {
      closed, alert := false, None;
      if room.None? || !confirmed {
        return;
      }
      loading := true;
      var reply := store.CheckoutReservation(room.value.roomId, fault);
      if reply.Done? {
        closed := true;
      } else {
        alert := Some(CheckOutFailedPrefix + reply.message);
      }
      loading := false;
    }

    /** `handleSetMaintenance` (target Maintenance) and `handleSetAvailable` (target Available):
        after confirmation the status is overwritten; on success the window refreshes and closes. */
    method HandleSetStatus(store: HotelStore, target: RoomStatus, confirmed: bool, fault: Option<Fault>)
      returns (closed: bool, alert: Option<string>)
      requires store.Valid()
      requires target != Occupied
      modifies this, store
      ensures store.Valid()
      ensures room.None? || !confirmed ==>
        store.Snapshot() == old(store.Snapshot()) && !closed && alert == None && loading == old(loading)
      ensures room.Some? && confirmed ==>
        var r := UpdateRoomStatusResult(old(store.Snapshot()), room.value.roomId, target, fault);
        && store.Snapshot() == r.0
        && closed == r.1.Done?
        && alert == (if r.1.Done? then None else Some(StatusFailedPrefix + r.1.message))
        && !loading
      ensures isOpen == old(isOpen) && room == old(room) && reservation == old(reservation)
      ensures isEditing == old(isEditing) && edit == old(edit) && editError == old(editError)
    {
      closed, alert := false, None;
      if room.None? || !confirmed {
        return;
      }
      loading := true;
      var reply := store.UpdateRoomStatus(room.value.roomId, target, fault);
      if reply.Done? {
        closed := true;
      } else {
        alert := Some(StatusFailedPrefix + reply.message);
      }
      loading := false;
    }
  }
}

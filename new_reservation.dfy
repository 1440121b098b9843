/**
 * The new-reservation form: the rooms it offers, its reset, and the submit handler that runs
 * the validation chain, asks the store for a date conflict, and only then creates the
 * reservation. The conflict check here is the only one: the store books whatever it is sent.
 */
module NewReservation {
  import opened Common
  import opened Schema
  import opened Store
  import opened Seqs

  const SelectRoom: string := "Please select a room"
  const NameAndPhoneRequired: string := "Guest name and phone are required"
  const SelectGuest: string := "Please select a guest"
  const DatesRequired: string := "Check-in and check-out dates are required"
  const CheckOutAfterCheckIn: string := "Check-out must be after check-in"
  const AlreadyBooked: string := "This room is already booked for these dates"
  const CreateFailed: string := "Failed to create reservation"
  const LoadFailed: string := "Failed to load rooms and guests"

  /** The form's values; an empty date input is `None`, a room or guest not chosen is `None`. */
  datatype Form = Form(
    selectedRoomId: Option<int>,
    isNewGuest: bool,
    selectedGuestId: Option<int>,
    guestName: string,
    guestPhone: string,
    guestEmail: string,
    guestGender: string,
    checkIn: Option<int>,
    checkOut: Option<int>,
    numberOfGuests: int,
    staffNotes: string)

  /** The form `resetForm` leaves: new-guest mode, one guest, everything else empty. */
  const InitialForm: Form := Form(None, true, None, "", "", "", "", None, None, 1, "")

  function IsAvailable(): RoomRow -> bool {
    (r: RoomRow) => r.room.status == Available
  }

  /** The rooms offered for booking. */
  function AvailableRooms(rooms: seq<RoomRow>): seq<RoomRow> {
    Filter(rooms, IsAvailable())
  }

  /** Exactly the Available rooms are offered, in list order. */
  lemma {:induction false} AvailableRoomsExact(rooms: seq<RoomRow>)
    ensures var offered := AvailableRooms(rooms);
      && (forall i :: 0 <= i < |offered| ==> offered[i].room.status == Available && offered[i] in rooms)
      && (forall i :: 0 <= i < |rooms| && rooms[i].room.status == Available ==> rooms[i] in offered)
      && IsSubsequence(offered, rooms)
  {
    FilterIsSubsequence(rooms, IsAvailable());
  }

  /** The guest check passes: name and phone for a new guest, a chosen guest otherwise. */
  predicate GuestChosen(f: Form) {
    if f.isNewGuest then f.guestName != "" && f.guestPhone != "" else TruthyId(f.selectedGuestId)
  }

  /** The checks that need no store, in their order: room, guest, both dates, date order. */
  function FirstInvalid(f: Form): (err: Option<string>)
    ensures err.None? <==>
      && TruthyId(f.selectedRoomId)
      && GuestChosen(f)
      && f.checkIn.Some? && f.checkOut.Some? && f.checkIn.value < f.checkOut.value
    ensures !TruthyId(f.selectedRoomId) ==> err == Some(SelectRoom)
    ensures (TruthyId(f.selectedRoomId) && f.isNewGuest && (f.guestName == "" || f.guestPhone == ""))
              ==> err == Some(NameAndPhoneRequired)
    ensures TruthyId(f.selectedRoomId) && !f.isNewGuest && !TruthyId(f.selectedGuestId) ==> err == Some(SelectGuest)
    ensures err.Some? && err.value == DatesRequired ==> f.checkIn.None? || f.checkOut.None?
    ensures (f.checkIn.Some? && f.checkOut.Some? && f.checkOut.value <= f.checkIn.value)
              ==> err.Some? && err.value != DatesRequired
    ensures (TruthyId(f.selectedRoomId) && GuestChosen(f) && (f.checkIn.None? || f.checkOut.None?))
              ==> err == Some(DatesRequired)
    ensures (TruthyId(f.selectedRoomId) && GuestChosen(f) && f.checkIn.Some? && f.checkOut.Some?
             && f.checkOut.value <= f.checkIn.value)
              ==> err == Some(CheckOutAfterCheckIn)
  {
    if !TruthyId(f.selectedRoomId) then Some(SelectRoom)
    else if f.isNewGuest && (f.guestName == "" || f.guestPhone == "") then Some(NameAndPhoneRequired)
    else if !f.isNewGuest && !TruthyId(f.selectedGuestId) then Some(SelectGuest)
    else if f.checkIn.None? || f.checkOut.None? then Some(DatesRequired)
    else if f.checkOut.value <= f.checkIn.value then Some(CheckOutAfterCheckIn)
    else None
  }

  /** A check-out on the check-in day is refused once room and guest are chosen. */
  lemma SameDayRejected(f: Form, day: int)
    requires TruthyId(f.selectedRoomId) && f.isNewGuest && f.guestName != "" && f.guestPhone != ""
    requires f.checkIn == Some(day) && f.checkOut == Some(day)
    ensures FirstInvalid(f) == Some(CheckOutAfterCheckIn)
  {
  }

  /** The create payload: empty email, gender and notes are sent as `null`. */
  function Request(f: Form): (req: ReservationRequest)
    requires f.selectedRoomId.Some? && f.checkIn.Some? && f.checkOut.Some?
    ensures req.guestEmail.None? <==> f.guestEmail == ""
    ensures req.guestGender.None? <==> f.guestGender == ""
    ensures req.staffNotes.None? <==> f.staffNotes == ""
    ensures req.roomId == f.selectedRoomId.value && req.checkIn == f.checkIn.value && req.checkOut == f.checkOut.value
    ensures req.numberOfGuests == f.numberOfGuests && req.isNewGuest == f.isNewGuest && req.guestId == f.selectedGuestId
  {
    ReservationRequest(f.selectedRoomId.value, f.isNewGuest, f.selectedGuestId, f.guestName, f.guestPhone,
                       NullIfEmpty(f.guestEmail), NullIfEmpty(f.guestGender),
                       f.checkIn.value, f.checkOut.value, f.numberOfGuests, NullIfEmpty(f.staffNotes))
  }

  /** The message shown for a create reply that failed. */
  function FailureMessage(message: string): (shown: string)
    ensures shown != ""
    ensures message != "" ==> shown == message
  {
    if message == "" then CreateFailed else message
  }

  /** What a submit does: the tables afterwards and the error shown (empty on success).
      `queryError` is the message of a conflict query that threw. */
  function SubmitResult(t: Tables, f: Form, now: int, queryError: Option<string>, fault: Option<Fault>): (r: (Tables, string, bool))
    requires IdsBelowCounters(t)
    ensures r.2 ==> r.1 == "" && FirstInvalid(f).None? && queryError.None?
    ensures r.2 ==> !HasDateConflict(t.reservations, f.selectedRoomId.value, f.checkIn.value, f.checkOut.value)
    ensures FirstInvalid(f).Some? ==> r == (t, FirstInvalid(f).value, false)
    ensures FirstInvalid(f).None? && queryError.Some? ==> r == (t, queryError.value, false)
    ensures (FirstInvalid(f).None? && queryError.None?
              && HasDateConflict(t.reservations, f.selectedRoomId.value, f.checkIn.value, f.checkOut.value))
              ==> r == (t, AlreadyBooked, false)
    ensures (FirstInvalid(f).None? && queryError.None?
              && !HasDateConflict(t.reservations, f.selectedRoomId.value, f.checkIn.value, f.checkOut.value))
              ==> var c := CreateReservationResult(t, Request(f), now, fault);
                  && (r.2 <==> c.1.Done?)
                  && (r.2 ==> r.0 == c.0)
                  && (!r.2 ==> r == (t, FailureMessage(c.1.message), false))
    ensures !r.2 ==> r.0 == t
    ensures IdsBelowCounters(r.0)
  {
    match FirstInvalid(f)
    case Some(err) => (t, err, false)
    case None =>
      if queryError.Some? then (t, queryError.value, false)
      else if HasDateConflict(t.reservations, f.selectedRoomId.value, f.checkIn.value, f.checkOut.value) then (t, AlreadyBooked, false)
      else
        var (t', reply) := CreateReservationResult(t, Request(f), now, fault);
        if reply.Done? then (t', "", true) else (t, FailureMessage(reply.message), false)
  }

  /** Submitting through the form never double-books a room. */
  lemma {:induction false} SubmitKeepsBookingInvariant(t: Tables, f: Form, now: int, queryError: Option<string>, fault: Option<Fault>)
    requires IdsBelowCounters(t) && BookingInvariant(t.reservations)
    ensures BookingInvariant(SubmitResult(t, f, now, queryError, fault).0.reservations)
  {
    if FirstInvalid(f).None? && queryError.None?
       && !HasDateConflict(t.reservations, f.selectedRoomId.value, f.checkIn.value, f.checkOut.value) {
      CheckThenCreateKeepsBookingInvariant(t, Request(f), now, fault);
    }
  }

  /** `handleSubmit` itself never compares the party size with the room's capacity: given a form
      with nine guests for a room of two, it books them. Only the input's `max` attribute bounds
      the party size, and the browser enforces that before the submit handler runs. */
  lemma CapacityNotChecked()
    ensures var room := Room("101", Standard, Available, 1, 100.0, 2, 0);
      var t := Tables(map[1 := room], map[], map[], map[], 2, 1, 1, 1);
      var f := Form(Some(1), true, None, "Ay\U{15F}e", "555", "", "", Some(10), Some(12), 9, "");
      var r := SubmitResult(t, f, 0, None, None);
      r.2 && r.0.reservations[1].numberOfGuests == 9 && 9 > room.maxGuests
  {
  }

  class NewReservationForm {
    var rooms: seq<RoomRow>
    var form: Form
    var error: string
    var success: bool
    var loading: bool

    constructor ()
      ensures rooms == [] && form == InitialForm && error == "" && !success && !loading
    {
      rooms, form, error, success, loading := [], InitialForm, "", false, false;
    }

    /** `resetForm`. */
    method ResetForm()
      modifies this
      ensures form == InitialForm && error == "" && !success
      ensures rooms == old(rooms) && loading == old(loading)
    {
      form := InitialForm;
      error := "";
      success := false;
    }

    /** The open/close effect: opening loads the Available rooms (`None` when loading threw) and
        selects a preselected room; closing resets the form. */
    method SyncOpen(isOpen: bool, preselectedRoomId: Option<int>, loaded: Option<seq<RoomRow>>)
      modifies this
      ensures !isOpen ==> form == InitialForm && error == "" && !success && rooms == old(rooms)
      ensures isOpen && loaded.Some? ==> rooms == AvailableRooms(loaded.value) && error == old(error)
      ensures isOpen && loaded.None? ==> rooms == old(rooms) && error == LoadFailed
      ensures isOpen ==> form == if preselectedRoomId.Some? then old(form).(selectedRoomId := preselectedRoomId) else old(form)
      ensures isOpen ==> success == old(success)
      ensures loading == old(loading)
    {
      if isOpen {
        if preselectedRoomId.Some? {
          form := form.(selectedRoomId := preselectedRoomId);
        }
        if loaded.Some? {
          rooms := AvailableRooms(loaded.value);
        } else {
          error := LoadFailed;
        }
      } else {
        ResetForm();
      }
    }

    /** `handleSubmit`: the checks in order, the conflict query, then the create call. */
    method HandleSubmit(store: HotelStore, now: int, queryError: Option<string>, fault: Option<Fault>)
      requires store.Valid()
      modifies this, store
      ensures store.Valid()
      ensures (store.Snapshot(), error, success) == SubmitResult(old(store.Snapshot()), old(form), now, queryError, fault)
      ensures form == old(form) && rooms == old(rooms) && !loading
    {
      error, success, loading := "", false, true;
      var invalid := FirstInvalid(form);
      if invalid.Some? {
        error, loading := invalid.value, false;
        return;
      }
      if queryError.Some? {
        error, loading := queryError.value, false;
        return;
      }
      if HasDateConflict(store.reservations, form.selectedRoomId.value, form.checkIn.value, form.checkOut.value) {
        error, loading := AlreadyBooked, false;
        return;
      }
      var reply := store.CreateReservation(Request(form), now, fault);
      if reply.Done? {
        success := true;
      } else {
        error := FailureMessage(reply.message);
      }
      loading := false;
    }
  }
}

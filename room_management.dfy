/**
 * The room management window: the add form that builds a batch of rooms with consecutive
 * numbers on one floor, the selection of rooms to remove, and the two handlers that send the
 * batch or the selection to the store.
 */
module RoomManagement {
  import opened Common
  import opened Schema
  import opened Store
  import opened Seqs
  import JsText

  const InvalidRoomInfo: string := "L\U{FC}tfen ge\U{E7}erli oda bilgileri girin"
  const NotANumber: string := "Oda numaras\U{131} say\U{131} olmal\U{131}d\U{131}r"
  const AddFailed: string := "Odalar eklenemedi"
  const NothingSelected: string := "L\U{FC}tfen \U{E7}\U{131}karmak i\U{E7}in en az bir oda se\U{E7}in"
  const RemoveFailed: string := "Odalar \U{E7}\U{131}kar\U{131}lamad\U{131}"

  function AddedNotice(count: int): string {
    JsText.IntToString(count) + " oda ba\U{15F}ar\U{131}yla eklendi!"
  }

  function RemovedNotice(count: int): string {
    JsText.IntToString(count) + " oda ba\U{15F}ar\U{131}yla \U{E7}\U{131}kar\U{131}ld\U{131}!"
  }

  /** `message || fallback`: the store's message unless it is empty. */
  function ShownFailure(message: string, fallback: string): (shown: string)
    requires fallback != ""
    ensures shown != ""
    ensures message != "" ==> shown == message
  {
    if message == "" then fallback else message
  }

  /** The add form; the price is the number `parseFloat` reads from its text. */
  datatype AddForm = AddForm(
    startRoomNumber: string,
    roomCount: int,
    floorNumber: int,
    roomType: RoomType,
    pricePerNight: real,
    maxGuests: int)

  /** The form `resetForm` leaves. */
  const InitialAddForm: AddForm := AddForm("", 1, 1, Standard, 500.0, 2)

  /** The outcome of the add form's checks: an error message, or the parsed start number. */
  datatype Checked = Invalid(message: string) | Start(number: int)

  /** The checks before any room is built: a start number and a count of at least one, then
      a start number `parseInt` can read. */
  function CheckAddForm(form: AddForm): (c: Checked)
    ensures (form.startRoomNumber == "" || form.roomCount < 1) ==> c == Invalid(InvalidRoomInfo)
    ensures (form.startRoomNumber != "" && form.roomCount >= 1) ==>
      (c == Invalid(NotANumber) <==> JsText.ParseInt(form.startRoomNumber).None?)
    ensures c.Start? <==> form.startRoomNumber != "" && form.roomCount >= 1 && JsText.ParseInt(form.startRoomNumber).Some?
    ensures c.Start? ==> JsText.ParseInt(form.startRoomNumber) == Some(c.number)
  {
    if form.startRoomNumber == "" || form.roomCount < 1 then Invalid(InvalidRoomInfo)
    else match JsText.ParseInt(form.startRoomNumber)
      case None => Invalid(NotANumber)
      case Some(n) => Start(n)
  }

  /** A start number that begins with a letter is refused: `parseInt` reads no digit. */
  lemma {:induction false} LetterFirstRefused(text: string)
    requires |text| >= 1 && 'A' <= text[0] <= 'Z'
    ensures CheckAddForm(InitialAddForm.(startRoomNumber := text)) == Invalid(NotANumber)
  {
    assert !JsText.IsJsWhiteSpace(text[0]);
    assert JsText.TrimStart(text) == text;
    assert JsText.DigitPrefix(text, 10) == [];
  }

  /** The i-th room of the batch: number `startNum + i`, everything else from the form. */
  function BatchEntry(form: AddForm, startNum: int, i: int): NewRoom {
    NewRoom(JsText.IntToString(startNum + i), form.floorNumber, form.roomType, form.pricePerNight, form.maxGuests)
  }

  /** The first `count` entries of the batch, in order. */
  function Entries(form: AddForm, startNum: int, count: nat): (batch: seq<NewRoom>)
    ensures |batch| == count
    ensures forall i :: 0 <= i < count ==> batch[i] == BatchEntry(form, startNum, i)
  {
    if count == 0 then [] else Entries(form, startNum, count - 1) + [BatchEntry(form, startNum, count - 1)]
  }

  /** The batch the form sends: `roomCount` entries numbered from `startNum`. */
  function RoomsToAdd(form: AddForm, startNum: int): seq<NewRoom> {
    Entries(form, startNum, if form.roomCount < 0 then 0 else form.roomCount)
  }

  /** The for-loop of `handleAddRooms` that pushes one entry per room. */
  method BuildRooms(form: AddForm, startNum: int) returns (roomsToAdd: seq<NewRoom>)
    ensures roomsToAdd == RoomsToAdd(form, startNum)
  {
    roomsToAdd := [];
    var i := 0;
    while i < form.roomCount
      invariant 0 <= i <= (if form.roomCount < 0 then 0 else form.roomCount)
      invariant roomsToAdd == Entries(form, startNum, i)
    {
      roomsToAdd := roomsToAdd + [BatchEntry(form, startNum, i)];
      i := i + 1;
    }
  }

  /** The batch has exactly `roomCount` rooms, numbered `startNum`, `startNum + 1`, ... in
      order as decimal texts (each reads back as its number), all different, all sharing floor,
      type, price and capacity. */
  lemma {:induction false} RoomsToAddSequential(form: AddForm, startNum: int)
    requires form.roomCount >= 1
    ensures var batch := RoomsToAdd(form, startNum);
      && |batch| == form.roomCount
      && (forall i :: 0 <= i < |batch| ==> JsText.ParseInt(batch[i].roomNumber) == Some(startNum + i))
      && (forall i, j :: 0 <= i < j < |batch| ==> batch[i].roomNumber != batch[j].roomNumber)
      && (forall i :: 0 <= i < |batch| ==>
            && batch[i].floorNumber == form.floorNumber && batch[i].roomType == form.roomType
            && batch[i].pricePerNight == form.pricePerNight && batch[i].maxGuests == form.maxGuests)
  {
    var batch := RoomsToAdd(form, startNum);
    forall i | 0 <= i < |batch| ensures JsText.ParseInt(batch[i].roomNumber) == Some(startNum + i) {
      JsText.ParseIntOfIntToString(startNum + i);
    }
    forall i, j | 0 <= i < j < |batch| ensures batch[i].roomNumber != batch[j].roomNumber {
      JsText.IntToStringInjective(startNum + i, startNum + j);
    }
  }

  /** The start number suggested after a successful add. */
  function NextStart(startNum: int, roomCount: int): string {
    JsText.IntToString(startNum + roomCount)
  }

  /** The suggested start number passes the form's checks and reads back as the number right
      after the last room of this batch. */
  lemma {:induction false} NextStartAccepted(form: AddForm, startNum: int)
    requires form.roomCount >= 1
    ensures CheckAddForm(form.(startRoomNumber := NextStart(startNum, form.roomCount))) == Start(startNum + form.roomCount)
  {
    JsText.ParseIntOfIntToString(startNum + form.roomCount);
  }

  /** Accepting the suggestion continues the numbering: the next batch starts right after the
      last room of this one, so the two batches never repeat a number. */
  lemma {:induction false} NextBatchContinues(form: AddForm, startNum: int)
    requires form.roomCount >= 1
    ensures var first := RoomsToAdd(form, startNum);
      var second := RoomsToAdd(form.(startRoomNumber := NextStart(startNum, form.roomCount)), startNum + form.roomCount);
      forall i, j :: 0 <= i < |first| && 0 <= j < |second| ==> first[i].roomNumber != second[j].roomNumber
  {
    var next := form.(startRoomNumber := NextStart(startNum, form.roomCount));
    var first := RoomsToAdd(form, startNum);
    var second := RoomsToAdd(next, startNum + form.roomCount);
    forall i, j | 0 <= i < |first| && 0 <= j < |second|
      ensures first[i].roomNumber != second[j].roomNumber
    {
      assert first[i].roomNumber == JsText.IntToString(startNum + i);
      assert second[j].roomNumber == JsText.IntToString(startNum + form.roomCount + j);
      JsText.IntToStringInjective(startNum + i, startNum + form.roomCount + j);
    }
  }

  /** The rows a built batch adds (the Rooms table `AddRoomsResult` commits when no statement
      fails): the new rows take the next ids, in batch order, each an Available room made from
      the batch entry (its number, floor, type, price and capacity); the rooms already there
      are unchanged. */
  lemma {:induction false} AddedRoomsAreListed(t: Tables, form: AddForm, startNum: int, now: int)
    requires IdsBelowCounters(t) && form.roomCount >= 1
    ensures var rooms' := InsertRooms(t.rooms, t.nextRoomId, RoomsToAdd(form, startNum), now);
      && (forall id :: id in rooms' <==> id in t.rooms || t.nextRoomId <= id < t.nextRoomId + form.roomCount)
      && (forall i :: 0 <= i < form.roomCount ==> rooms'[t.nextRoomId + i] == NewRoomRow(BatchEntry(form, startNum, i), now))
      && (forall id :: id in t.rooms ==> rooms'[id] == t.rooms[id])
  {
    RowsOfBatch(t, form, startNum, RoomsToAdd(form, startNum), now);
  }

  lemma {:induction false} RowsOfBatch(t: Tables, form: AddForm, startNum: int, batch: seq<NewRoom>, now: int)
    requires IdsBelowCounters(t)
    requires forall i :: 0 <= i < |batch| ==> batch[i] == BatchEntry(form, startNum, i)
    ensures var rooms' := InsertRooms(t.rooms, t.nextRoomId, batch, now);
      forall i :: 0 <= i < |batch| ==> rooms'[t.nextRoomId + i] == NewRoomRow(BatchEntry(form, startNum, i), now)
  {
    var rooms' := InsertRooms(t.rooms, t.nextRoomId, batch, now);
    forall i | 0 <= i < |batch| ensures rooms'[t.nextRoomId + i] == NewRoomRow(BatchEntry(form, startNum, i), now) {
      assert batch[i] == BatchEntry(form, startNum, i);
    }
  }

  /** Three rooms from `301` on floor 3: rooms `301`, `302` and `303`, on floor 3, Available. */
  lemma {:induction false} AddThreeFromThreeHundredOne(t: Tables, form: AddForm, now: int)
    requires IdsBelowCounters(t)
    requires form.startRoomNumber == "301" && form.roomCount == 3 && form.floorNumber == 3
    ensures CheckAddForm(form) == Start(301)
    ensures var rooms' := InsertRooms(t.rooms, t.nextRoomId, RoomsToAdd(form, 301), now);
      var n := t.nextRoomId;
      && n in rooms' && n + 1 in rooms' && n + 2 in rooms' && n + 3 !in rooms'
      && rooms'[n].roomNumber == "301" && rooms'[n + 1].roomNumber == "302" && rooms'[n + 2].roomNumber == "303"
      && rooms'[n].floorNumber == rooms'[n + 1].floorNumber == rooms'[n + 2].floorNumber == 3
      && rooms'[n].status == rooms'[n + 1].status == rooms'[n + 2].status == Available
  {
    JsText.ParseIntOfIntToString(301);
    NatToStringExamples();
    AddedRoomsAreListed(t, form, 301, now);
    assert BatchEntry(form, 301, 0).roomNumber == "301";
    assert BatchEntry(form, 301, 1).roomNumber == "302";
    assert BatchEntry(form, 301, 2).roomNumber == "303";
  }

  lemma NatToStringExamples()
    ensures JsText.IntToString(301) == "301" && JsText.IntToString(302) == "302" && JsText.IntToString(303) == "303"
  {
    assert JsText.NatToString(3) == "3";
    assert JsText.NatToString(30) == "30";
  }

  // ---------------------------------------------------------------------------------
  // The selection of rooms to remove

  function Other(roomId: int): int -> bool {
    (id: int) => id != roomId
  }

  /** `toggleRoomSelection`: an id present is removed, an absent one appended. */
  function Toggle(selected: seq<int>, roomId: int): seq<int> {
    if roomId in selected then Filter(selected, Other(roomId)) else selected + [roomId]
  }

  /** After a toggle the id is selected exactly when it was not before; no other id changes. */
  lemma {:induction false} ToggleFlips(selected: seq<int>, roomId: int)
    ensures roomId in Toggle(selected, roomId) <==> roomId !in selected
    ensures forall id :: id != roomId ==> (id in Toggle(selected, roomId) <==> id in selected)
  {
  }

  /** Toggling twice restores the selection as a set; starting from an unselected id it
      restores the very same list. */
  lemma {:induction false} ToggleTwice(selected: seq<int>, roomId: int)
    ensures forall id :: id in Toggle(Toggle(selected, roomId), roomId) <==> id in selected
    ensures roomId !in selected ==> Toggle(Toggle(selected, roomId), roomId) == selected
  {
    ToggleFlips(selected, roomId);
    ToggleFlips(Toggle(selected, roomId), roomId);
    if roomId !in selected {
      FilterAppend(selected, [roomId], Other(roomId));
      FilterKeepsAll(selected, Other(roomId));
      assert Filter([roomId], Other(roomId)) == [];
      assert selected + [] == selected;
    }
  }

  predicate Distinct(s: seq<int>) {
    forall i, j :: 0 <= i < j < |s| ==> s[i] != s[j]
  }

  /** Toggling never selects an id twice. */
  lemma {:induction false} ToggleKeepsDistinct(selected: seq<int>, roomId: int)
    requires Distinct(selected)
    ensures Distinct(Toggle(selected, roomId))
  {
    if roomId in selected {
      FilterIsSubsequence(selected, Other(roomId));
      SubsequenceOfDistinct(Filter(selected, Other(roomId)), selected);
    }
  }

  lemma {:induction false} SubsequenceOfDistinct(a: seq<int>, b: seq<int>)
    requires IsSubsequence(a, b) && Distinct(b)
    ensures Distinct(a)
    decreases |b|
  {
    if a != [] && b != [] {
      if a[0] == b[0] {
        SubsequenceOfDistinct(a[1..], b[1..]);
        SubsequenceMembers(a[1..], b[1..]);
        assert forall j :: 0 < j < |a| ==> a[j] == a[1..][j - 1] && a[j] in b[1..];
      } else {
        SubsequenceOfDistinct(a, b[1..]);
      }
    }
  }

  lemma {:induction false} SubsequenceMembers(a: seq<int>, b: seq<int>)
    requires IsSubsequence(a, b)
    ensures forall x :: x in a ==> x in b
    decreases |b|
  {
    if a != [] && b != [] {
      if a[0] == b[0] {
        SubsequenceMembers(a[1..], b[1..]);
        assert a == [a[0]] + a[1..];
      } else {
        SubsequenceMembers(a, b[1..]);
      }
    }
  }

  /** `selectAllRooms`: the id of every loaded room, in list order. */
  function AllIds(rooms: seq<RoomRow>): (ids: seq<int>)
    ensures |ids| == |rooms|
    ensures forall i :: 0 <= i < |rooms| ==> ids[i] == rooms[i].roomId
  {
    seq(|rooms|, i requires 0 <= i < |rooms| => rooms[i].roomId)
  }

  /** The per-room button is disabled for an Occupied room, but select-all takes it too; the
      store's guard then refuses the whole removal and deletes nothing. */
  lemma {:induction false} SelectAllWithOccupiedIsRefused(t: Tables, rooms: seq<RoomRow>, k: int, fault: Option<Fault>)
    requires 0 <= k < |rooms| && rooms[k].roomId in t.rooms && t.rooms[rooms[k].roomId].status == Occupied
    ensures rooms[k].roomId in AllIds(rooms)
    ensures var r := RemoveRoomsResult(t, AllIds(rooms), fault);
      r.1.Failed? && r.0 == t
  {
    var ids := AllIds(rooms);
    assert ids[k] == rooms[k].roomId;
    assert TargetsOccupiedRoom(t.rooms, ids);
  }

  // ---------------------------------------------------------------------------------
  // The window

  class RoomManagementModal {
    var rooms: seq<RoomRow>
    var form: AddForm
    var selectedRooms: seq<int>
    var error: string
    var success: string
    var loading: bool
    /** The start number the 2-second timer of a successful add will write, once it fires. */
    var pendingStart: Option<string>

    constructor ()
      ensures rooms == [] && form == InitialAddForm && selectedRooms == [] && error == "" && success == ""
      ensures !loading && pendingStart == None
    {
      rooms, form, selectedRooms, error, success := [], InitialAddForm, [], "", "";
      loading, pendingStart := false, None;
    }

    /** `resetForm`: the add form, the selection and both messages. */
    method ResetForm()
      modifies this
      ensures form == InitialAddForm && selectedRooms == [] && error == "" && success == ""
      ensures rooms == old(rooms) && loading == old(loading) && pendingStart == old(pendingStart)
    {
      form, selectedRooms, error, success := InitialAddForm, [], "", "";
    }

    /** `loadRooms` with the listing's reply; a failed listing (`None`) changes nothing. */
    method LoadRooms(listing: Option<seq<RoomRow>>)
      modifies this
      ensures rooms == if listing.Some? then listing.value else old(rooms)
      ensures form == old(form) && selectedRooms == old(selectedRooms) && error == old(error)
      ensures success == old(success) && loading == old(loading) && pendingStart == old(pendingStart)
    {
      if listing.Some? {
        rooms := listing.value;
      }
    }

    /** The open/close effect: opening loads the rooms, closing resets the form. */
    method SyncOpen(isOpen: bool, listing: Option<seq<RoomRow>>)
      modifies this
      ensures isOpen ==> rooms == (if listing.Some? then listing.value else old(rooms)) && form == old(form)
                         && selectedRooms == old(selectedRooms) && error == old(error) && success == old(success)
      ensures !isOpen ==> rooms == old(rooms) && form == InitialAddForm && selectedRooms == [] && error == "" && success == ""
      ensures loading == old(loading) && pendingStart == old(pendingStart)
    {
      if isOpen {
        LoadRooms(listing);
      } else {
        ResetForm();
      }
    }

    /** `handleAddRooms`: the checks, the batch, the store call; on success the notice, the
        reloaded list (`listing`) and the timer that will suggest the next start number. */
    method HandleAddRooms(store: HotelStore, now: int, fault: Option<Fault>, listing: Option<seq<RoomRow>>)
      requires store.Valid()
      modifies this, store
      ensures store.Valid()
      ensures old(CheckAddForm(form)).Invalid? ==>
        && store.Snapshot() == old(store.Snapshot())
        && error == old(CheckAddForm(form)).message && success == "" && rooms == old(rooms)
        && pendingStart == old(pendingStart)
      ensures old(CheckAddForm(form)).Start? ==>
        var startNum := old(CheckAddForm(form)).number;
        var r := AddRoomsResult(old(store.Snapshot()), RoomsToAdd(old(form), startNum), now, fault);
        && store.Snapshot() == r.0
        && (r.1.Done? ==>
              && error == "" && success == AddedNotice(old(form).roomCount)
              && rooms == (if listing.Some? then listing.value else old(rooms))
              && pendingStart == Some(NextStart(startNum, old(form).roomCount)))
        && (r.1.Failed? ==>
              && error == ShownFailure(r.1.message, AddFailed) && success == ""
              && rooms == old(rooms) && pendingStart == old(pendingStart))
      ensures form == old(form) && selectedRooms == old(selectedRooms) && !loading
    {
      error, success := "", "";
      loading := true;
      var checked := CheckAddForm(form);
      if checked.Invalid? {
        error := checked.message;
        loading := false;
        return;
      }
      SendBatch(store, checked.number, now, fault, listing);
    }

    /** The part of `handleAddRooms` after the checks: build the batch, send it, and show the
        outcome. */
    method SendBatch(store: HotelStore, startNum: int, now: int, fault: Option<Fault>, listing: Option<seq<RoomRow>>)
      requires store.Valid()
      modifies this, store
      ensures var r := AddRoomsResult(old(store.Snapshot()), RoomsToAdd(form, startNum), now, fault);
        && store.Snapshot() == r.0
        && (r.1.Done? ==>
              && error == old(error) && success == AddedNotice(form.roomCount)
              && rooms == (if listing.Some? then listing.value else old(rooms))
              && pendingStart == Some(NextStart(startNum, form.roomCount)))
        && (r.1.Failed? ==>
              && error == ShownFailure(r.1.message, AddFailed) && success == old(success)
              && rooms == old(rooms) && pendingStart == old(pendingStart))
      ensures store.Valid()
      ensures form == old(form) && selectedRooms == old(selectedRooms) && !loading
    {
      var roomsToAdd := BuildRooms(form, startNum);
      var reply := store.AddRooms(roomsToAdd, now, fault);
      ShowAddOutcome(reply, startNum, listing);
    }

    /** The window after the store's reply to the add: the notice, the reloaded list and the
        pending suggestion on success, the error otherwise. */
    method ShowAddOutcome(reply: Reply, startNum: int, listing: Option<seq<RoomRow>>)
      requires reply.Done? || reply.Failed?
      modifies this
      ensures reply.Done? ==>
        && error == old(error) && success == AddedNotice(form.roomCount)
        && rooms == (if listing.Some? then listing.value else old(rooms))
        && pendingStart == Some(NextStart(startNum, form.roomCount))
      ensures reply.Failed? ==>
        && error == ShownFailure(reply.message, AddFailed) && success == old(success)
        && rooms == old(rooms) && pendingStart == old(pendingStart)
      ensures form == old(form) && selectedRooms == old(selectedRooms) && !loading
    {
      if reply.Done? {
        success := AddedNotice(form.roomCount);
        LoadRooms(listing);
        pendingStart := Some(NextStart(startNum, form.roomCount));
      } else {
        error := ShownFailure(reply.message, AddFailed);
      }
      loading := false;
    }

    /** The add timer fires: the suggested start number replaces the form's, the notice clears. */
    method FireAddTimer()
      modifies this
      ensures old(pendingStart).Some? ==>
        form == old(form).(startRoomNumber := old(pendingStart).value) && success == "" && pendingStart == None
      ensures old(pendingStart).None? ==> form == old(form) && success == old(success) && pendingStart == None
      ensures rooms == old(rooms) && selectedRooms == old(selectedRooms) && error == old(error) && loading == old(loading)
    {
      if pendingStart.Some? {
        form := form.(startRoomNumber := pendingStart.value);
        success := "";
        pendingStart := None;
      }
    }

    /** A room card's click. */
    method ToggleRoomSelection(roomId: int)
      modifies this
      ensures selectedRooms == Toggle(old(selectedRooms), roomId)
      ensures rooms == old(rooms) && form == old(form) && error == old(error) && success == old(success)
      ensures loading == old(loading) && pendingStart == old(pendingStart)
    {
      selectedRooms := Toggle(selectedRooms, roomId);
    }

    /** `selectAllRooms`: every loaded room, Occupied ones included. */
    method SelectAllRooms()
      modifies this
      ensures selectedRooms == AllIds(rooms)
      ensures rooms == old(rooms) && form == old(form) && error == old(error) && success == old(success)
      ensures loading == old(loading) && pendingStart == old(pendingStart)
    {
      selectedRooms := AllIds(rooms);
    }

    /** `deselectAllRooms`. */
    method DeselectAllRooms()
      modifies this
      ensures selectedRooms == []
      ensures rooms == old(rooms) && form == old(form) && error == old(error) && success == old(success)
      ensures loading == old(loading) && pendingStart == old(pendingStart)
    {
      selectedRooms := [];
    }

    /** `handleRemoveRooms`: an empty selection is an error with no store call; otherwise, once
        the user confirms, the selection is sent; on success it is cleared and the list reloaded. */
    method HandleRemoveRooms(store: HotelStore, confirmed: bool, fault: Option<Fault>, listing: Option<seq<RoomRow>>)
      requires store.Valid()
      modifies this, store
      ensures store.Valid()
      ensures old(selectedRooms) == [] ==>
        store.Snapshot() == old(store.Snapshot()) && error == NothingSelected && success == old(success)
        && selectedRooms == old(selectedRooms) && rooms == old(rooms) && loading == old(loading)
      ensures old(selectedRooms) != [] && !confirmed ==>
        store.Snapshot() == old(store.Snapshot()) && error == old(error) && success == old(success)
        && selectedRooms == old(selectedRooms) && rooms == old(rooms) && loading == old(loading)
      ensures old(selectedRooms) != [] && confirmed ==>
        var r := RemoveRoomsResult(old(store.Snapshot()), old(selectedRooms), fault);
        && store.Snapshot() == r.0 && !loading
        && (r.1.Done? ==>
              && error == "" && success == RemovedNotice(|old(selectedRooms)|) && selectedRooms == []
              && rooms == (if listing.Some? then listing.value else old(rooms)))
        && (r.1.Failed? ==>
              && error == ShownFailure(r.1.message, RemoveFailed) && success == ""
              && selectedRooms == old(selectedRooms) && rooms == old(rooms))
      ensures form == old(form) && pendingStart == old(pendingStart)
    {
      if |selectedRooms| == 0 {
        error := NothingSelected;
        return;
      }
      if !confirmed {
        return;
      }
      error, success := "", "";
      loading := true;
      var reply := store.RemoveRooms(selectedRooms, fault);
      if reply.Done? {
        success := RemovedNotice(|selectedRooms|);
        selectedRooms := [];
        LoadRooms(listing);
      } else {
        error := ShownFailure(reply.message, RemoveFailed);
      }
      loading := false;
    }
  }
}

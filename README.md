# Hotel reservation desk: a Dafny model of its core

The system is a desktop application for the front desk of a hotel. Its main process answers
requests from the user interface by reading and writing four MySQL tables (Rooms, Guests,
Reservations, Managers): it checks whether a room is free on some dates, books a stay (a new
guest, the reservation and the room's status in one transaction), checks a room out, edits a
stay, changes a room's status, adds and removes rooms in batches, creates and deletes staff
accounts and computes the dashboard statistics. The windows of the user interface call those
handlers: the new-reservation form, the room-details window, the room-management window, the
room grid with its filters, pager and floor grouping, the guests page with its search, and
the dashboard with its event list. Three helpers classify and repair staff role labels and
write tables out as CSV.

The model has one module per source file or concern:

- `Schema`: the row types and enumerations.
- `Store`: every write handler of the main process, as a pure function on a snapshot of the
  tables (`Tables`) and as a method of the `HotelStore` class that issues the handler's
  statements one by one on staged copies and commits them only when all succeed. A rejected
  statement is a `Fault` parameter naming the statement and the database's message.
- `Stats`: the integer part of the dashboard statistics handler.
- `NewReservation`, `RoomDetails`, `RoomManagement`, `FloorPlan` (the room grid of the main
  window), `GuestsPage`, `DashboardPage`: the windows, each a class whose fields are the
  window's state and whose methods are its event handlers. Those that call the main process
  take the `HotelStore` and are proved against the store's result functions.
- `CsvExport`, `RoleHelper`, `TextHelper`: the utilities.
- `JsText`, `Common`, `Seqs`: the JavaScript built-ins the code relies on (`toUpperCase`,
  `includes`, `parseInt`, `toString`, `filter`) and JavaScript truthiness.

Dates are day numbers and timestamps are integers given as parameters. Queries whose replies
the windows only display (the room list, the guest list, the reservation of a room) are
parameters of the methods that receive them.

The create-reservation handler runs no conflict check of its own (electron/main.ts:201-253);
only the new-reservation form runs the conflict query, before the create call. `Store.CreateWithoutCheckCanDoubleBook` shows a committed create that double-books a room.
`NewReservation.SubmitKeepsBookingInvariant` shows that a submit through the form never does,
as long as nothing is booked between the check and the create.

## Model

| member | source | states |
|---|---|---|
| Store.HasDateConflict | electron/main.ts:175-197 | The conflict query answers true exactly when some Reservations row of that room is Active and meets one of the three date clauses. |
| Store.ActiveRowsOf | electron/main.ts:178-182 | The rows the conflict query can count are exactly the Active rows of the room. |
| Store.OnlyActiveRowsOfTheRoomCount | electron/main.ts:178-187 | Rows of other rooms and CheckedOut or Cancelled rows never cause a conflict: the answer over the whole table equals the answer over the room's Active rows. |
| Store.BoundaryDaysConflict | electron/main.ts:183-187 | Both boundaries are inclusive: a stay that ends on the new check-in day, or starts on the new check-out day, conflicts. |
| Store.ClausesAreClosedRangeIntersection | electron/main.ts:183-187 | For well-ordered dates the three clauses together hold exactly when the two closed day ranges intersect. |
| Store.ClausesSymmetric | electron/main.ts:183-187 | For well-ordered dates the conflict test is symmetric in the existing and the new stay. |
| Store.SetRoomStatus | electron/main.ts:241-244 | Overwriting one room's status keeps every id, changes that row's status only, and leaves every other row as it was. |
| Store.CreateReservationResult | electron/main.ts:201-253 | The create fails exactly when one of its statements (two, or three for a new guest) is rejected, and then the tables are unchanged and the message is the database's. Otherwise there is exactly one new Active reservation row with the requested values, a new Guests row exactly for a new guest, and the room becomes Occupied whatever its status was. |
| Store.CheckThenCreateKeepsBookingInvariant | electron/main.ts:175-253 | When the conflict query finds nothing for a check-in before the check-out, the create keeps the invariant: Active stays are well ordered and no two Active stays of one room conflict. |
| Store.CreateWithoutCheckCanDoubleBook | electron/main.ts:201-253 | The handler itself makes no conflict check: there are tables and a request where a committed create breaks the invariant. |
| Store.CheckOutRows | electron/main.ts:263-268 | After the update no row of the room is Active, the room's Active rows become CheckedOut, and every other row is unchanged. |
| Store.CheckoutResult | electron/main.ts:256-283 | The checkout fails with the tables unchanged exactly when one of its two statements is rejected. Otherwise the room's Active stays are checked out and the room becomes Available, also when it had no Active stay. |
| Store.CheckedOutRoomHasNoConflict | electron/main.ts:175-197 | After a checkout the conflict query finds nothing for that room on any dates. |
| Store.CheckoutWithoutActiveRowChangesNoReservation | electron/main.ts:263-268 | For a room with no Active stay the checkout changes no Reservations row. |
| Store.CheckoutKeepsBookingInvariant | electron/main.ts:256-283 | Checking out keeps the booking invariant. |
| Store.UpdateReservationResult | electron/main.ts:286-310 | The edit fails with the tables unchanged exactly when its one statement is rejected. Otherwise the new tables are the old ones with only that row's dates, party size and notes overwritten, whatever its status: every other table, row, column and id counter is unchanged, and a missing id changes nothing. |
| Store.UpdateCanDoubleBook | electron/main.ts:286-310 | The edit runs no conflict query: it can move an Active stay onto another stay of the same room. |
| Store.UpdateRoomStatusResult | electron/main.ts:445-456 | The status change fails with the tables unchanged exactly when its statement is rejected. Otherwise it overwrites the status of that room only, even of an Occupied room, and reports the new status by name. |
| Store.InsertRooms | electron/main.ts:320-332 | Inserting a batch keeps every old row, adds exactly the ids next to next + n - 1, and element i of the batch becomes row next + i. |
| Store.InsertRoomsStep | electron/main.ts:320-332 | Inserting one more element of the batch adds exactly its row under the next id. |
| Store.AddRoomsResult | electron/main.ts:314-341 | The batch commits entirely or not at all: it fails with the tables unchanged exactly when one of its inserts is rejected. Otherwise every element becomes an Available row, the id counter advances by the batch size, and the message counts the rooms. |
| Store.RemoveRoomsResult | electron/main.ts:344-372 | The removal succeeds exactly when the id list is non-empty, no targeted room is Occupied and neither statement is rejected. An empty list is the database's syntax error. A targeted Occupied room gives the occupied-room message. Every failure leaves the tables unchanged. |
| Store.RemovalDeletesExactlyTheTargets | electron/main.ts:351-366 | A committed removal deletes exactly the targeted rooms, none of which was Occupied, and keeps every other room. |
| Store.CreateManagerResult | electron/main.ts:587-612 | An account is created exactly when the email is not in use and no statement is rejected; a used email gives the email-taken message and changes nothing. The new account has the next id, the given hash, name and role (the default role when none is given). |
| Store.CreateManagerKeepsEmailsUnique | electron/main.ts:591-599 | The email guard keeps emails unique across accounts. |
| Store.DeleteManagerResult | electron/main.ts:616-639 | The caller's own id is refused first. The deletion happens exactly when the ids differ, more than one account exists and no statement is rejected, and then it removes exactly that id. |
| Store.DeleteManagerKeepsAnAccount | electron/main.ts:621-633 | A deletion never removes the caller's own account and never empties a non-empty table. |
| Store.HotelStore.CreateReservation | electron/main.ts:201-253 | Issues the create's statements on staged copies inside one transaction; the new tables and the reply are those of `CreateReservationResult`. |
| Store.HotelStore.CheckoutReservation | electron/main.ts:256-283 | Both updates commit together; the result is that of `CheckoutResult`. |
| Store.HotelStore.UpdateReservation | electron/main.ts:286-310 | One UPDATE; the result is that of `UpdateReservationResult`. |
| Store.HotelStore.UpdateRoomStatus | electron/main.ts:445-456 | One UPDATE; the result is that of `UpdateRoomStatusResult`. |
| Store.HotelStore.AddRooms | electron/main.ts:314-341 | The insert loop stages one row per element and commits the batch only when no insert was rejected; the result is that of `AddRoomsResult`. |
| Store.HotelStore.RemoveRooms | electron/main.ts:344-372 | The occupied guard and the DELETE inside one transaction; the result is that of `RemoveRoomsResult`. |
| Store.HotelStore.CreateManager | electron/main.ts:587-612 | The email lookup, then the INSERT; the result is that of `CreateManagerResult`. |
| Store.HotelStore.DeleteManager | electron/main.ts:616-639 | The two guards, then the DELETE; the result is that of `DeleteManagerResult`. |
| Stats.RoundHalfUp | electron/main.ts:657 | `Math.round(p / q)` is the integer nearest to p / q, with halves rounded up. |
| Stats.RoundHalfUpMonotone | electron/main.ts:657 | Rounding is monotone in the numerator. |
| Stats.RoundHalfUpExact | electron/main.ts:657 | Rounding an exact multiple gives the exact quotient. |
| Stats.OccupiedRooms | electron/main.ts:651-656 | The occupied count counts exactly the rows whose status is Occupied. |
| Stats.OccupancyRateBounds | electron/main.ts:657 | The rate is 0 with no rooms (NaN becomes 0) or no occupied room, 100 for a full hotel, and always within 0 to 100. |
| Stats.TableOccupancyInRange | electron/main.ts:651-657 | The occupancy rate of the Rooms table lies within 0 to 100 and is 0 for an empty table. |
| Stats.WindowDays | electron/main.ts:674-679 | The booking window is 1 day for `today`, 30 for `30days` and 7 for anything else. |
| Stats.BookingsChangeSign | electron/main.ts:698-701 | A previous count of 0 is read as 1. The change is 0 for equal counts, never negative when bookings grew and never positive when they fell. |
| Stats.DashboardStatsResult | electron/main.ts:643-705 | The handler throws exactly when one of its five queries is rejected. Otherwise the rate comes from the Rooms table, today's check-ins and check-outs count the Active stays starting and ending today, and the total counts the reservations created in the window. The change compares that total with the window before. |
| NewReservation.AvailableRoomsExact | src/components/NewReservationModal.tsx:84 | The form offers exactly the Available rooms, in list order. |
| NewReservation.FirstInvalid | src/components/NewReservationModal.tsx:101-122 | The checks run in order: room, then guest (name and phone for a new guest, a chosen guest otherwise), then both dates, then check-out after check-in. The form passes exactly when all hold, and the first failing check's message is reported: a missing date gives the dates-required message and out-of-order dates the check-out-after-check-in message. |
| NewReservation.SameDayRejected | src/components/NewReservationModal.tsx:118-122 | A check-out on the check-in day is refused. |
| NewReservation.Request | src/components/NewReservationModal.tsx:136-148 | The create payload carries the form's room, dates, party size and guest; an empty email, gender or note is sent as null. |
| NewReservation.SubmitResult | src/components/NewReservationModal.tsx:93-167 | A failed check or a failed conflict query reports its message and changes nothing. A conflict gives the already-booked message. Otherwise the outcome is the create's: the submit succeeds exactly when `CreateReservationResult` commits, with its tables; a failed create leaves the tables unchanged and shows its message, or the fixed one when that is empty. Success implies that the conflict query found nothing. |
| NewReservation.SubmitKeepsBookingInvariant | src/components/NewReservationModal.tsx:93-167 | Submitting through the form never breaks the booking invariant. |
| NewReservation.CapacityNotChecked | src/components/NewReservationModal.tsx:361-369 | `handleSubmit` itself never compares the party size with the room's capacity: given nine guests for a room of two it books them. Only the input's `max` attribute bounds the party size, and the browser enforces it before the submit (not modelled). |
| NewReservation.NewReservationForm.constructor | src/components/NewReservationModal.tsx:24-45 | The form starts empty, in new-guest mode, for one guest. |
| NewReservation.NewReservationForm.ResetForm | src/components/NewReservationModal.tsx:60-74 | Resetting restores the initial form and clears the error and the success flag; the room list is kept. |
| NewReservation.NewReservationForm.SyncOpen | src/components/NewReservationModal.tsx:47-58 | Opening loads the Available rooms, or shows the load error when the listing failed, and preselects the given room. Closing resets the form. |
| NewReservation.NewReservationForm.HandleSubmit | src/components/NewReservationModal.tsx:93-167 | The store, the error and the success flag end as `SubmitResult` says, and the form is kept. |
| RoomDetails.CeilDiv | src/components/RoomDetailsModal.tsx:164 | `Math.ceil(n / d)` is the least integer at or above n / d. |
| RoomDetails.NightsBetween | src/components/RoomDetailsModal.tsx:160-165 | The nights of a stay are the elapsed days, rounded up. |
| RoomDetails.NightsBetweenMidnights | src/components/RoomDetailsModal.tsx:160-165 | Between two midnights the nights are the difference of the day numbers. |
| RoomDetails.Duration | src/components/RoomDetailsModal.tsx:160-165 | The duration is 0 without a reservation and the number of nights of the stay otherwise. |
| RoomDetails.ActionsOffered | src/components/RoomDetailsModal.tsx:211-290 | An Occupied room with its reservation offers check-out, edit and invoice. An Available room offers a new reservation and maintenance, and a room under maintenance offers Available. Editing offers cancel and save. The status buttons are never offered for an Occupied room. |
| RoomDetails.OfferedStatusChangeKeepsOccupiedRooms | src/components/RoomDetailsModal.tsx:114-150 | A status change the window offers never changes which rooms are Occupied. |
| RoomDetails.EditFieldsOf | src/components/RoomDetailsModal.tsx:43-48 | The edit form is filled from the loaded stay; missing notes become the empty text. |
| RoomDetails.UpdateFailureMessage | src/components/RoomDetailsModal.tsx:105 | The store's message is shown unless it is empty, and then a fixed one is shown. |
| RoomDetails.SaveEditResult | src/components/RoomDetailsModal.tsx:75-112 | A check-out not after the check-in is refused with the date message and no store call. Otherwise the outcome is that of the store's update: on success the tables are exactly those of `Store.UpdateReservationResult`, so only that reservation's dates, party size and notes (an emptied note becomes null) change and its guest, room, status, creation fields and every id counter stay; on failure a non-empty message is shown. |
| RoomDetails.SaveEditKeepsDatesOrdered | src/components/RoomDetailsModal.tsx:83-88 | The window's date check keeps every Active stay's check-out after its check-in. |
| RoomDetails.SaveEditCanDoubleBook | src/components/RoomDetailsModal.tsx:83-98 | The date check is the only check: a saved edit can move a stay onto another stay of the room. |
| RoomDetails.RoomDetailsModal.constructor | src/components/RoomDetailsModal.tsx:13-23 | The window starts closed, with no room, no reservation and an empty edit form. |
| RoomDetails.RoomDetailsModal.LoadReservation | src/components/RoomDetailsModal.tsx:34-54 | The loaded reservation replaces the shown one and fills the edit form. A failed query changes neither, and without a room nothing happens. |
| RoomDetails.RoomDetailsModal.SyncProps | src/components/RoomDetailsModal.tsx:25-32 | An open window on an Occupied room loads its reservation. Any other change clears the reservation and leaves edit mode. |
| RoomDetails.RoomDetailsModal.StartEditing | src/components/RoomDetailsModal.tsx:221 | The edit button enters edit mode and changes nothing else. |
| RoomDetails.RoomDetailsModal.HandleSaveEdit | src/components/RoomDetailsModal.tsx:75-112 | Without a reservation nothing happens. Otherwise the store and the error end as `SaveEditResult` says, and a success leaves edit mode and reloads the reservation. |
| RoomDetails.RoomDetailsModal.HandleCheckOut | src/components/RoomDetailsModal.tsx:56-73 | Without a room or a confirmation nothing happens. Otherwise the store ends as `CheckoutResult` says, a success closes the window, and a failure alerts with the store's message. |
| RoomDetails.RoomDetailsModal.HandleSetStatus | src/components/RoomDetailsModal.tsx:114-150 | Without a room or a confirmation nothing happens. Otherwise the store ends as `UpdateRoomStatusResult` says for the target status. |
| RoomManagement.ShownFailure | src/components/RoomManagementModal.tsx:105 | The store's message is shown unless it is empty, and then the fallback is shown. |
| RoomManagement.CheckAddForm | src/components/RoomManagementModal.tsx:69-76 | An empty start number or a count below one is refused first. Then the start number must be readable by `parseInt`, and the result is the number it reads. |
| RoomManagement.LetterFirstRefused | src/components/RoomManagementModal.tsx:73-76 | A start number that begins with a letter is refused as not a number. |
| RoomManagement.Entries | src/components/RoomManagementModal.tsx:79-89 | The first n entries of the batch are the entries numbered from the start number, in order. |
| RoomManagement.BuildRooms | src/components/RoomManagementModal.tsx:79-89 | The loop builds exactly the batch `RoomsToAdd` describes. |
| RoomManagement.RoomsToAddSequential | src/components/RoomManagementModal.tsx:79-89 | The batch has `roomCount` rooms numbered start, start + 1, ... as decimal text (for safe integers in JavaScript, see Left out), all on the form's floor with its type, price and capacity. |
| RoomManagement.NextStartAccepted | src/components/RoomManagementModal.tsx:100-103 | The start number suggested after an add passes the form's checks and reads back as start + count (for safe integers in JavaScript, see Left out). |
| RoomManagement.NextBatchContinues | src/components/RoomManagementModal.tsx:79-103 | A batch built from the suggestion shares no room number with the batch before it (for safe integers in JavaScript, see Left out). |
| RoomManagement.AddedRoomsAreListed | src/components/RoomManagementModal.tsx:79-96 | A committed batch adds exactly one Available row per entry, under consecutive ids, with the entry's values, and keeps every old row. |
| RoomManagement.AddThreeFromThreeHundredOne | src/components/RoomManagementModal.tsx:69-96 | Three rooms from `301` on floor 3 are rooms `301`, `302` and `303`, all on floor 3 and Available. |
| RoomManagement.ToggleFlips | src/components/RoomManagementModal.tsx:150-156 | A toggle selects the room exactly when it was not selected, and no other room changes. |
| RoomManagement.ToggleTwice | src/components/RoomManagementModal.tsx:150-156 | Toggling twice restores the selection as a set, and exactly when the room was not selected before. |
| RoomManagement.ToggleKeepsDistinct | src/components/RoomManagementModal.tsx:150-156 | Toggling never selects a room twice. |
| RoomManagement.AllIds | src/components/RoomManagementModal.tsx:158-160 | Select-all selects the id of every loaded room, in list order. |
| RoomManagement.SelectAllWithOccupiedIsRefused | src/components/RoomManagementModal.tsx:158-160 | Select-all takes Occupied rooms too, so the removal that follows fails with the tables unchanged. |
| RoomManagement.RoomManagementModal.constructor | src/components/RoomManagementModal.tsx:16-31 | The window starts with no rooms, the initial form and no selection or message. |
| RoomManagement.RoomManagementModal.ResetForm | src/components/RoomManagementModal.tsx:40-50 | Resetting restores the initial form and clears the selection and both messages. |
| RoomManagement.RoomManagementModal.LoadRooms | src/components/RoomManagementModal.tsx:52-59 | The listing replaces the room list; a failed listing changes nothing. |
| RoomManagement.RoomManagementModal.SyncOpen | src/components/RoomManagementModal.tsx:32-38 | Opening loads the rooms and closing resets the form. |
| RoomManagement.RoomManagementModal.HandleAddRooms | src/components/RoomManagementModal.tsx:61-112 | A refused form shows its message and makes no store call. Otherwise the store ends as `AddRoomsResult` says for the built batch. On success the notice counts the rooms, the list is reloaded and the next start number is pending. On failure the store's message, or the fallback, is shown. |
| RoomManagement.RoomManagementModal.SendBatch | src/components/RoomManagementModal.tsx:79-106 | Builds the batch, sends it, and shows the outcome; the store ends as `AddRoomsResult` says. |
| RoomManagement.RoomManagementModal.ShowAddOutcome | src/components/RoomManagementModal.tsx:94-106 | A success shows the notice, reloads the list and schedules the suggestion. A failure shows the store's message or the fallback. |
| RoomManagement.RoomManagementModal.FireAddTimer | src/components/RoomManagementModal.tsx:100-103 | The timer writes the suggested start number into the form and clears the notice. |
| RoomManagement.RoomManagementModal.ToggleRoomSelection | src/components/RoomManagementModal.tsx:150-156 | The selection becomes its toggle and nothing else changes. |
| RoomManagement.RoomManagementModal.SelectAllRooms | src/components/RoomManagementModal.tsx:158-160 | The selection becomes every loaded room's id. |
| RoomManagement.RoomManagementModal.DeselectAllRooms | src/components/RoomManagementModal.tsx:162-164 | The selection becomes empty. |
| RoomManagement.RoomManagementModal.HandleRemoveRooms | src/components/RoomManagementModal.tsx:114-148 | An empty selection is an error with no store call, and an unconfirmed removal does nothing. Otherwise the store ends as `RemoveRoomsResult` says; a success clears the selection and reloads the list, and a failure shows the store's message. |
| FloorPlan.FilteredRoomsExact | src/App.tsx:217-222 | The filtered list holds exactly the rooms matching both filters, in their original order, and with both filters on All it is the whole list. |
| FloorPlan.TotalPages | src/App.tsx:224 | The page count is the number of twelve-room pages the list needs, rounded up. |
| FloorPlan.PageWindow | src/App.tsx:224-227 | Page p of 1 to totalPages is the slice of the list that starts at (p - 1) * 12, and it holds 1 to 12 rooms. |
| FloorPlan.PagesAfterLastEmpty | src/App.tsx:224-227 | A page after the last one is empty. |
| FloorPlan.PagesPartition | src/App.tsx:224-227 | Pages 1 to totalPages, laid end to end, give back the filtered list. |
| FloorPlan.RoomsByFloor | src/App.tsx:230-235 | The reduce gives one bucket per floor present on the page, holding that floor's rooms in page order, and each floor is listed once. |
| FloorPlan.InsertAscending | src/App.tsx:645 | Inserting into an ascending list keeps it ascending and adds exactly the new element. |
| FloorPlan.SortAscending | src/App.tsx:645 | The sorted floor keys are strictly ascending and a permutation of the keys. |
| FloorPlan.FloorsAscending | src/App.tsx:645 | The floors shown are every floor of the page, each once, in ascending order. |
| FloorPlan.StatusCountsSum | src/App.tsx:238-242 | Every room is counted under exactly one status. |
| FloorPlan.TypeCountsSum | src/App.tsx:245-249 | Every room is counted under exactly one type. |
| FloorPlan.StatusCountIsFilterSize | src/App.tsx:238-242 | A status button's count is the size of the list that status filter shows with the type filter on All. |
| FloorPlan.PagerShape | src/App.tsx:723-736 | With the current page in range, the first and last pages, the current page and its neighbours are shown. An ellipsis appears only two pages from the current page and never at either end. |
| FloorPlan.StalePageHidesLastPage | src/App.tsx:723-736 | A current page beyond the last (left after rooms disappear) can turn the last page's button into an ellipsis. |
| FloorPlan.Controls | src/App.tsx:709-755 | The pager shows only for more than one page; previous is disabled on page 1 and next on the last page. |
| FloorPlan.App.constructor | src/App.tsx:53-82 | The main window starts with no rooms, both filters on All, page 1, no manager and the rooms view. |
| FloorPlan.App.SetStatusFilter | src/App.tsx:178-180 | A status filter button sets the filter and sends the list back to page 1 exactly when the filter changed. |
| FloorPlan.App.SetTypeFilter | src/App.tsx:178-180 | A type filter button sets the filter, with the same page reset. |
| FloorPlan.App.ChangePage | src/App.tsx:99-101 | A page change sets the current page and nothing else. |
| FloorPlan.App.HandleLogout | src/App.tsx:188-193 | Logging out clears the stored session, the manager and the rooms, and returns to the rooms view. |
| FloorPlan.FilterChangeShowsFirstPage | src/App.tsx:178-180 | After a filter change the grid shows the first twelve matching rooms. |
| GuestsPage.FilteredGuestsExact | src/pages/GuestsPage.tsx:58-62 | The search keeps exactly the guests matching by name, phone or email, in their order. |
| GuestsPage.EmptySearchKeepsAll | src/pages/GuestsPage.tsx:58-62 | An empty search keeps every guest. |
| GuestsPage.NoEmailMatchesByNameOrPhone | src/pages/GuestsPage.tsx:58-62 | A guest without an email is found only by the name or the phone. |
| GuestsPage.NameAndEmailIgnoreCase | src/pages/GuestsPage.tsx:59-61 | The name and email tests ignore the case of the search term. |
| GuestsPage.PhoneIsCaseSensitive | src/pages/GuestsPage.tsx:60 | The phone test does not: a phone holding the term in lower case is missed when the term is typed in upper case. |
| GuestsPage.TotalStaysAppend | src/pages/GuestsPage.tsx:144 | The total-stays figure adds up over concatenated lists. |
| GuestsPage.TotalStaysBounds | src/pages/GuestsPage.tsx:144 | A missing count adds nothing, and the total is at least each guest's count when no count is negative. |
| GuestsPage.LastStayLabel | src/pages/GuestsPage.tsx:64-66 | The last-stay cell shows `Never` exactly when there is no date. |
| DashboardPage.NewEvent | src/pages/DashboardPage.tsx:85-92 | The new event's id is the time as text; it takes the form's title, date and description, and primary and calendar_month replace an empty colour and icon. |
| DashboardPage.DeleteEventsExact | src/pages/DashboardPage.tsx:105-107 | Deleting removes every event with that id and keeps the others in order. |
| DashboardPage.DeleteUndoesCreate | src/pages/DashboardPage.tsx:79-107 | Deleting the event just created gives back the list before it, when no earlier event had that id. |
| DashboardPage.ColorClass | src/pages/DashboardPage.tsx:109-116 | The warning and success colours get their own classes, and any other colour gets primary's class. |
| DashboardPage.Dashboard.constructor | src/pages/DashboardPage.tsx:26-37 | The dashboard starts with no events, no statistics and the form closed. |
| DashboardPage.Dashboard.LoadEvents | src/pages/DashboardPage.tsx:67-72 | The stored list, if any, becomes the events. |
| DashboardPage.Dashboard.LoadStats | src/pages/DashboardPage.tsx:44-65 | The handler's reply becomes the statistics, or all zeros when it threw. |
| DashboardPage.Dashboard.HandleCreateEvent | src/pages/DashboardPage.tsx:79-103 | An incomplete form alerts and changes nothing. Otherwise the new event is appended and saved, the form closes and is cleared. |
| DashboardPage.Dashboard.HandleDeleteEvent | src/pages/DashboardPage.tsx:105-107 | The list without that id is saved and shown. |
| CsvExport.Field | src/utils/csvExport.ts:44-61 | Every emitted field starts and ends with a double quote. |
| CsvExport.CsvLines | src/utils/csvExport.ts:37-65 | The export is the header line of the first row's keys, then one line per row with its values under those keys, in order. |
| CsvExport.ConvertToCsv | src/utils/csvExport.ts:33-66 | No rows give the empty text. |
| CsvExport.ParseQuotedEscape | src/utils/csvExport.ts:57 | Doubling the quotes is undone by a CSV reader, whatever follows the closing quote as long as it is not itself a quote. |
| CsvExport.ConvertToCsvRoundTrip | src/utils/csvExport.ts:33-66 | When no key holds a double quote and no rendered number or date does, reading the export as CSV gives back the keys and every row's texts under them. |
| CsvExport.StringFieldRoundTrip | src/utils/csvExport.ts:56-58 | A string field comes back exactly, quotes, commas and line feeds included. |
| CsvExport.HeaderLine | src/utils/csvExport.ts:40 | The header keys are quoted without doubling their quotes; for keys without quotes this is the escaped line. |
| CsvExport.RecordLine | src/utils/csvExport.ts:43-62 | A row's line is the escaped line of its texts when no rendered value holds a double quote. |
| RoleHelper.IsManagerRoleMatchesReference | src/utils/roleHelper.ts:4-17 | Only two of the five tests matter: a label is a manager's exactly when it is `Manager` or its upper case contains `Y` and `NETICI`. |
| RoleHelper.KnownManagerLabels | src/utils/roleHelper.ts:10-16 | The Turkish and English labels, their upper-case forms and the corrupted `Y??netici` are manager roles. |
| RoleHelper.StaffLabels | src/utils/roleHelper.ts:5 | The empty label and the default `Personel` are staff roles. |
| RoleHelper.StaffIsComplement | src/utils/roleHelper.ts:19-21 | Every label is exactly one of staff and manager. |
| TextHelper.FixTurkishEncoding | src/utils/textHelper.ts:4-15 | The two table keys become `Yönetici`; every other text (prototype keys aside, see below) is returned as it is. |
| TextHelper.FixTurkishEncodingIdempotent | src/utils/textHelper.ts:4-15 | Repairing twice is repairing once. |
| TextHelper.RepairedLabelsAreManagerRoles | src/utils/textHelper.ts:8-11 | Both repaired labels are manager roles, although `Administrator` itself is not. |
| JsText.ParseIntOfIntToString | src/components/RoomManagementModal.tsx:73-81 | `parseInt` reads back what `toString` writes, for every integer of the model (in JavaScript only for safe integers, see Left out). |
| JsText.IntToStringInjective | src/components/RoomManagementModal.tsx:81 | Distinct numbers get distinct decimal texts. |
| Common.NullIfEmpty | src/components/NewReservationModal.tsx:142-147 | `s || null` is null exactly for the empty text and the text otherwise. |
| Seqs.Filter | src/App.tsx:217 | The filtered list has only elements of the list that pass the test, and every element that passes is kept. |
| Seqs.FilterIsSubsequence | src/App.tsx:217 | Filtering keeps the order of the elements it keeps. |

## Left out

- The MySQL connection, the IPC bridge and the database's own behaviour are not modelled. A rejected statement is the `Fault` parameter. The connection settings are not reproduced.
- Read-only handlers are not modelled: the listing of rooms, guests and reservations, login and the connection test. Their replies are parameters of the window methods that receive them.
- Password hashing (bcrypt) is outside the model: `Store.CreateManagerResult` takes the hash as a parameter.
- Prices are `real` values that the model only carries. `parseFloat`, revenue sums and invoice amounts are floating point and are left out. So is the printable invoice.
- The random change fields of the statistics reply are left out, and so are the per-day trend rows. Only their sum, the total, is modelled.
- Clocks and time zones: dates are day numbers and `now` is a parameter. The day-light saving shift that `getDuration` can see is left out.
- Rendering, styling, navigation between pages and the timers other than the add-rooms suggestion timer are left out.
- The race between the form's conflict query and the create call is not modelled: a submit is one step.
- Failures that make a handler throw, and the alerts they cause in the windows, are modelled only where the source turns them into a result.
- JsText.ToUpper: the case mapping covers ASCII and the Latin-1 letters only, not all of Unicode (see also the ToLower line below). Three Latin-1 letters whose JavaScript upper case lies outside Latin-1 are left unchanged by the model: `ß` (JavaScript gives the two letters `SS`), `ÿ` (U+0178) and `µ` (the Greek capital mu, U+039C).
- CsvExport.ConvertToCsvRoundTrip: rows are modelled as key lists and value maps. Prototype keys and the text of dates and numbers are parameters of the model (the rendered text of a value).
- RoomManagement.CheckAddForm: `roomCount` is an integer. A NaN or fractional count from the number input is not modelled.
- NewReservation.SubmitResult, NewReservation.CapacityNotChecked, RoomManagement.CheckAddForm: the browser's native form validation is not modelled. Both forms lack `noValidate`, so before the submit handler runs the browser refuses a form whose `required` inputs are empty or whose values break a `min` or `max` attribute: a party size above the room's capacity (NewReservationModal.tsx:357-363), a check-in before today or a check-out before the check-in (:334, :346), and in the room-management form a start number, room count or floor outside its bounds, a negative price or a capacity outside 1..10 (RoomManagementModal.tsx:248-331). The model starts at the submit handler, so it accepts forms the browser blocks.
- JsText.ParseIntOfIntToString, RoomManagement.CheckAddForm, RoomManagement.RoomsToAddSequential, RoomManagement.NextStartAccepted, RoomManagement.NextBatchContinues: numbers are exact unbounded integers, whereas JavaScript numbers are IEEE doubles. The results hold in the source only for safe integers (|n| < 2^53). Above that, `parseInt` rounds the digits it reads and `startNum + i` rounds, so a batch can repeat a number and the next batch can share one; from 1e21 on `toString` writes exponent text (`1e+21`) that `parseInt` reads as 1.
- RoomDetails.SaveEditResult: the edit dates are day numbers; an emptied date input (`Invalid Date`, which compares false both ways) is not modelled.
- OccupancyRate: `Math.round` is computed on exact rationals, whereas the source rounds a floating-point product. The two differ where the product falls just below a half: 29 occupied rooms out of 200 give 14 in the source and 15 in the model.
- BookingsChange: the same exact rounding, with the same floating-point caveat.
- TextHelper.FixTurkishEncoding: the repair table is a plain map. In the source `fixes[text] || text` also finds the keys every object inherits, so `constructor` gives back a function and `__proto__` an object; those texts are not modelled.
- Store.CreateReservationResult, Store.AddRoomsResult, Store.CreateManagerResult: a failed transaction leaves the id counters where they were. InnoDB does not give back the AUTO_INCREMENT values a rolled-back insert consumed, so after a failed batch the source's next ids skip them, while the model hands them out again (element i becomes row next + i). Which ids a failure consumes depends on the server's lock mode and on where the statement failed, and that is outside the model.
- Store.EmailInUse, Store.CreateManagerResult: the email lookup is exact string equality. The source's `WHERE Email = ?` compares under the column's collation, which for MySQL's default utf8mb4 collations ignores case, so the source refuses `Ali@otel.com` when `ali@otel.com` exists while the model creates the account. The table definitions are not part of this model.
- JsText.ToLower, GuestsPage.FilteredGuests, GuestsPage.NameAndEmailIgnoreCase: the case map covers ASCII and Latin-1 only. Turkish capitals outside Latin-1 (Ş, Ğ, İ) keep their case, so the search term `şule` finds `Şule Yılmaz` in the source but not in the model. `NameAndEmailIgnoreCase` holds only for that case map: in the source, `ı` (dotless i) is found in `Işık` but its upper case `I` lower-cases to `i`, which `ışık` does not contain, and the German `ß` behaves alike.
- RoomDetails.EditFieldsOf: the edit form takes the stored days as they are. The source writes them through `new Date(...).toISOString()`, and the driver returns a DATE at local midnight, so in a zone ahead of UTC (Turkey is UTC+3) the form shows the day before and saving it unchanged moves the stay back a day. The model matches zones at or behind UTC only. The statistics handler likewise takes `today` as the UTC day (electron/main.ts:648), which the model's `today` parameter does not distinguish from the local day.

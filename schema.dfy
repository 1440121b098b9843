/**
 * Row types of the four tables (Rooms, Guests, Reservations, Managers) and the three
 * enumerations shared by the main process and the user interface.
 * Dates are day numbers. A CreatedAt timestamp is the day number of the day it falls on, so
 * comparing it with the midnight that starts a day is comparing day numbers; LastLoginAt is
 * an opaque integer.
 */
module Schema {
  import opened Common

  datatype RoomType = Standard | Deluxe | Suite
  datatype RoomStatus = Available | Occupied | Maintenance
  datatype ReservationStatus = Active | CheckedOut | Cancelled

  function RoomStatusName(s: RoomStatus): string {
    match s
    case Available => "Available"
    case Occupied => "Occupied"
    case Maintenance => "Maintenance"
  }

  datatype Room = Room(
    roomNumber: string,
    roomType: RoomType,
    status: RoomStatus,
    floorNumber: int,
    pricePerNight: real,
    maxGuests: int,
    createdAt: int)

  datatype Guest = Guest(
    fullName: string,
    phoneNumber: string,
    email: Option<string>,
    gender: Option<string>,
    createdAt: int)

  datatype Reservation = Reservation(
    roomId: int,
    guestId: Option<int>,
    checkIn: int,
    checkOut: int,
    numberOfGuests: int,
    staffNotes: Option<string>,
    status: ReservationStatus,
    createdAt: int,
    createdByManagerId: int)

  /** A staff account; `role` is the free-text label stored in the Role column. */
  datatype Manager = Manager(
    email: string,
    passwordHash: string,
    fullName: string,
    role: string,
    createdAt: int,
    lastLoginAt: Option<int>)

  /** A Rooms row as the user interface receives it: its id and its columns. */
  datatype RoomRow = RoomRow(roomId: int, room: Room)
}

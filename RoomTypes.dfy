/** The records exchanged with the backend (src/types/room.ts). */
module RoomTypes {
  import opened Wrappers

  /** Instants are integers here; the wire format carries ISO 8601 strings. */
  type Timestamp = int

  /** A piece of equipment, embedded in its room. */
  datatype Equipment = Equipment(name: string)

  /** A meeting room as stored in the `rooms` table. The field keeps the wire name
      `equipements`, spelling included. */
  datatype Room = Room(
    id: string,
    name: string,
    description: string,
    capacity: int,
    equipements: seq<Equipment>,
    createdAt: Timestamp,
    updatedAt: Timestamp)

  /** The joined room name a reservation may carry (`rooms?: { name }`). */
  datatype RoomName = RoomName(name: string)

  /** A reservation as stored in the `reservations` table. */
  datatype Reservation = Reservation(
    id: string,
    roomId: string,
    startTime: Timestamp,
    endTime: Timestamp,
    title: string,
    description: Option<string>,
    createdAt: Timestamp,
    rooms: Option<RoomName>)
}

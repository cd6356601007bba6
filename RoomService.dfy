/** The client-side logic of `roomService.getAvailableRooms` (src/services/supabase.ts):
    the overlap test it asks the backend to apply, and the filter it applies to the
    two query results. The queries themselves are inputs. */
module RoomService {
  import opened Wrappers
  import opened RoomTypes

  /** What one backend query hands back: `{ data, error }`. `data` may be null. */
  datatype Response<T> = Response(data: Option<T>, error: Option<string>)

  /** A row of the conflict query, which selects only `room_id`. */
  datatype ConflictRow = ConflictRow(roomId: string)

  /** The conflict filter sent to the backend: an existing reservation
      [rStart, rEnd) conflicts with the requested slot [qStart, qEnd) when
      `start_time < endTime AND end_time > startTime`. Both comparisons are strict,
      so back-to-back bookings (one ends exactly when the other starts) do not conflict. */
  predicate Overlaps(rStart: Timestamp, rEnd: Timestamp, qStart: Timestamp, qEnd: Timestamp)
    ensures rEnd <= qStart ==> !Overlaps(rStart, rEnd, qStart, qEnd)
    ensures qEnd <= rStart ==> !Overlaps(rStart, rEnd, qStart, qEnd)
  {
    rStart < qEnd && rEnd > qStart
  }

  /** Instant `t` lies in the half-open interval [start, end). */
  predicate Within(t: Timestamp, start: Timestamp, end: Timestamp)
  {
    start <= t < end
  }

  /** For non-empty intervals the predicate is exactly "the two half-open intervals
      share an instant". */
  lemma OverlapsIffSharedInstant(rStart: Timestamp, rEnd: Timestamp, qStart: Timestamp, qEnd: Timestamp)
    requires rStart < rEnd && qStart < qEnd
    ensures Overlaps(rStart, rEnd, qStart, qEnd)
        <==> exists t :: Within(t, rStart, rEnd) && Within(t, qStart, qEnd)
  {
    if Overlaps(rStart, rEnd, qStart, qEnd) {
      var t := if rStart < qStart then qStart else rStart;
      assert Within(t, rStart, rEnd) && Within(t, qStart, qEnd);
    }
  }

  /** The rows the backend returns for the conflict query over the persisted
      reservations: one `room_id` per overlapping reservation, in table order. */
  function ConflictRows(persisted: seq<Reservation>, qStart: Timestamp, qEnd: Timestamp): (rows: seq<ConflictRow>)
    ensures |rows| <= |persisted|
  {
    if persisted == [] then []
    else
      var head := persisted[0];
      var rest := ConflictRows(persisted[1..], qStart, qEnd);
      if Overlaps(head.startTime, head.endTime, qStart, qEnd) then [ConflictRow(head.roomId)] + rest else rest
  }

  /** Some persisted reservation of room `id` overlaps the slot. */
  ghost predicate Booked(persisted: seq<Reservation>, id: string, qStart: Timestamp, qEnd: Timestamp)
  {
    exists res :: res in persisted && res.roomId == id && Overlaps(res.startTime, res.endTime, qStart, qEnd)
  }

  /** A room id is among the conflict rows exactly when the room is booked in the slot. */
  lemma {:induction false} ConflictRowsExact(persisted: seq<Reservation>, id: string, qStart: Timestamp, qEnd: Timestamp)
    ensures ConflictRow(id) in ConflictRows(persisted, qStart, qEnd) <==> Booked(persisted, id, qStart, qEnd)
  {
    if persisted != [] {
      ConflictRowsExact(persisted[1..], id, qStart, qEnd);
      var head := persisted[0];
      if Booked(persisted[1..], id, qStart, qEnd) {
        var res :| res in persisted[1..] && res.roomId == id && Overlaps(res.startTime, res.endTime, qStart, qEnd);
        assert res in persisted;
      }
      if Booked(persisted, id, qStart, qEnd) {
        var res :| res in persisted && res.roomId == id && Overlaps(res.startTime, res.endTime, qStart, qEnd);
        if res != head {
          assert res in persisted[1..];
        }
      }
    }
  }

  /** `new Set(conflicting.map(r => r.room_id))`; a null list gives the empty set. */
  function ReservedRoomIds(conflicting: Option<seq<ConflictRow>>): (ids: set<string>)
    ensures conflicting.None? ==> ids == {}
    ensures conflicting.Some? ==> forall id :: id in ids <==> ConflictRow(id) in conflicting.value
  {
    match conflicting
    case None => {}
    case Some(rows) => set c | c in rows :: c.roomId
  }

  /** `rooms.filter(room => !reserved.has(room.id))`: the rooms, in order, whose id
      is not reserved. */
  function RoomFilter(rooms: seq<Room>, reserved: set<string>): (r: seq<Room>)
    ensures |r| <= |rooms|
    ensures forall room :: room in r ==> room in rooms && room.id !in reserved
    ensures forall room :: room in rooms && room.id !in reserved ==> room in r
  {
    if rooms == [] then []
    else if rooms[0].id in reserved then RoomFilter(rooms[1..], reserved)
    else [rooms[0]] + RoomFilter(rooms[1..], reserved)
  }

  /** `a` is `b` with some elements left out, the rest in their original order. */
  predicate IsSubsequence<T(==)>(a: seq<T>, b: seq<T>)
    decreases |b|
  {
    if a == [] then true
    else if b == [] then false
    else if a[0] == b[0] then IsSubsequence(a[1..], b[1..])
    else IsSubsequence(a, b[1..])
  }

  /** The filter keeps the relative order of the fetched rooms. */
  lemma {:induction false} RoomFilterIsSubsequence(rooms: seq<Room>, reserved: set<string>)
    ensures IsSubsequence(RoomFilter(rooms, reserved), rooms)
  {
    if rooms != [] {
      RoomFilterIsSubsequence(rooms[1..], reserved);
    }
  }

  /** The filter keeps every copy of an unreserved room and no copy of a reserved one. */
  lemma {:induction false} RoomFilterCounts(rooms: seq<Room>, reserved: set<string>, room: Room)
    ensures multiset(RoomFilter(rooms, reserved))[room]
         == if room.id in reserved then 0 else multiset(rooms)[room]
  {
    if rooms != [] {
      RoomFilterCounts(rooms[1..], reserved, room);
      assert rooms == [rooms[0]] + rooms[1..];
    }
  }

  /** When no fetched room is reserved, the filter returns the fetched list unchanged. */
  lemma {:induction false} RoomFilterKeepsAll(rooms: seq<Room>, reserved: set<string>)
    requires forall room :: room in rooms ==> room.id !in reserved
    ensures RoomFilter(rooms, reserved) == rooms
  {
    if rooms != [] {
      RoomFilterKeepsAll(rooms[1..], reserved);
    }
  }

  /** Filtering twice by the same ids is filtering once. */
  lemma {:induction false} RoomFilterIdempotent(rooms: seq<Room>, reserved: set<string>)
    ensures RoomFilter(RoomFilter(rooms, reserved), reserved) == RoomFilter(rooms, reserved)
  {
    RoomFilterKeepsAll(RoomFilter(rooms, reserved), reserved);
  }

  /** `allRooms?.filter(room => !reservedRoomIds.has(room.id)) || []`: the rooms with
      no conflicting reservation, or `[]` when the room list is null. */
  function AvailableRooms(allRooms: Option<seq<Room>>, conflicting: Option<seq<ConflictRow>>): (r: seq<Room>)
    ensures allRooms.None? ==> r == []
    ensures allRooms.Some? ==> IsSubsequence(r, allRooms.value)
    ensures forall room :: room in r <==>
              allRooms.Some? && room in allRooms.value && ConflictRow(room.id) !in conflicting.GetOr([])
    ensures allRooms.Some? && (conflicting.None? || conflicting.value == []) ==> r == allRooms.value
  {
    match allRooms
    case None => []
    case Some(rooms) =>
      var reserved := ReservedRoomIds(conflicting);
      RoomFilterIsSubsequence(rooms, reserved);
      if conflicting.None? || conflicting.value == [] then
        RoomFilterKeepsAll(rooms, reserved);
        RoomFilter(rooms, reserved)
      else
        RoomFilter(rooms, reserved)
  }

  /** The whole of `roomService.getAvailableRooms` given the two query responses:
      an error on either query rejects, otherwise the filtered rooms resolve. */
  function GetAvailableRooms(roomsQuery: Response<seq<Room>>, conflictQuery: Response<seq<ConflictRow>>): (r: Outcome<seq<Room>>)
    ensures r.Err? <==> roomsQuery.error.Some? || conflictQuery.error.Some?
    ensures r.Ok? ==> r.v == AvailableRooms(roomsQuery.data, conflictQuery.data)
  {
    if roomsQuery.error.Some? then Err
    else if conflictQuery.error.Some? then Err
    else Ok(AvailableRooms(roomsQuery.data, conflictQuery.data))
  }

  /** When the backend answers the conflict query faithfully, a fetched room is
      returned exactly when no persisted reservation of it overlaps the slot. */
  lemma {:induction false} AvailableIffNotBooked(allRooms: seq<Room>, persisted: seq<Reservation>, qStart: Timestamp, qEnd: Timestamp, room: Room)
    requires room in allRooms
    ensures room in AvailableRooms(Some(allRooms), Some(ConflictRows(persisted, qStart, qEnd)))
        <==> !Booked(persisted, room.id, qStart, qEnd)
  {
    ConflictRowsExact(persisted, room.id, qStart, qEnd);
  }

  /** A reservation on a room that overlaps the slot keeps that room out of the answer. */
  lemma {:induction false} BookedRoomExcluded(allRooms: seq<Room>, persisted: seq<Reservation>, qStart: Timestamp, qEnd: Timestamp, res: Reservation)
    requires res in persisted && Overlaps(res.startTime, res.endTime, qStart, qEnd)
    ensures forall room :: room in AvailableRooms(Some(allRooms), Some(ConflictRows(persisted, qStart, qEnd)))
              ==> room.id != res.roomId
  {
    ConflictRowsExact(persisted, res.roomId, qStart, qEnd);
  }
}

# Room reservation front end: store and availability filter

A model of the two pieces of client logic in a Vue/Pinia room-reservation front end
whose data lives in a hosted backend:

- **The room store** (`useRoomStore`): five pieces of state (`rooms`, `reservations`,
  `loading`, `error`, `refreshTrigger`) and four actions (`fetchRooms`,
  `createReservation`, `getAvailableRooms`, `getUpcomingMeetings`). Each action raises
  `loading`, awaits one remote call, applies or discards its result, records a fixed
  message on failure and lowers `loading` in `finally`. The store is the class
  `RoomStore.Store`. Each action is split at its `await` into `BeginX` (raise the flag)
  and `CompleteX(outcome)` (apply the settled outcome, lower the flag), so that the
  state while a call is pending can be stated. The remote call's outcome is a parameter:
  `Ok(value)` for a resolved call, `Err` for a rejected one.
- **The availability filter** of `roomService.getAvailableRooms`: the set of room ids of
  the reservations the backend reports as conflicting, and the order-preserving filter
  that drops rooms with those ids (`RoomService.RoomFilter`, `RoomService.AvailableRooms`).
  The overlap predicate the backend is asked to apply is `RoomService.Overlaps`, and
  `RoomService.ConflictRows` is what a backend applying it to a list of persisted
  reservations returns. This lets the model state that a room is offered exactly when no
  persisted reservation of it overlaps the requested slot.

Files: `Wrappers.dfy` (`Option`, `Outcome`), `RoomTypes.dfy` (the `Equipment`, `Room`
and `Reservation` records, with optional fields as `Option`), `RoomService.dfy`,
`RoomStore.dfy`. Timestamps are integers rather than ISO 8601 strings.

Beyond the state that the source names, `Store.Valid()` records two invariants the
actions keep: `error` is null or one of the four fixed messages, and `refreshTrigger`
equals the number of reservations appended (both start at zero and only a successful
creation changes either, by one each).

## Model

| member | source | states |
|---|---|---|
| RoomStore.Store.constructor | src/stores/roomStore.ts:7-11 | a fresh store has no rooms, no reservations, `loading` false, no error and counter 0 |
| RoomStore.Store.BeginFetchRooms | src/stores/roomStore.ts:15 | entering `fetchRooms` raises `loading` and changes nothing else |
| RoomStore.Store.CompleteFetchRooms | src/stores/roomStore.ts:13-23 | success replaces `rooms` by exactly the fetched list and keeps any earlier error; failure keeps `rooms` and records "Failed to fetch rooms"; `loading` ends false; reservations and counter unchanged |
| RoomStore.Store.BeginCreateReservation | src/stores/roomStore.ts:27 | entering `createReservation` raises `loading` and changes nothing else |
| RoomStore.Store.CompleteCreateReservation | src/stores/roomStore.ts:25-39 | success appends exactly the returned record, raises the counter by one, keeps the error and returns the record; failure changes neither list nor counter, records "Failed to create reservation" and returns null; `loading` ends false |
| RoomStore.Store.BeginGetAvailableRooms | src/stores/roomStore.ts:43 | entering `getAvailableRooms` raises `loading` and changes nothing else |
| RoomStore.Store.CompleteGetAvailableRooms | src/stores/roomStore.ts:41-52 | returns the service's rooms on success, `[]` plus "Failed to fetch available rooms" on failure; never writes rooms, reservations or counter; `loading` ends false |
| RoomStore.Store.BeginGetUpcomingMeetings | src/stores/roomStore.ts:56 | entering `getUpcomingMeetings` raises `loading` and changes nothing else |
| RoomStore.Store.CompleteGetUpcomingMeetings | src/stores/roomStore.ts:54-65 | returns the service's reservations on success, `[]` plus "Failed to fetch upcoming meetings" on failure; never writes rooms, reservations or counter; `loading` ends false |
| RoomStore.FetchRoomsScenario | src/__tests__/stores/roomStore.test.ts:19-45 | on a fresh store `loading` is false before `fetchRooms`, true while the fetch is pending, false after, and `rooms` is then exactly the fetched list with no error |
| RoomStore.StaleErrorScenario | src/stores/roomStore.ts:13-23 | after a failed fetch and then a successful one, `rooms` is the new list but the failure message remains, because no success path clears `error` |
| RoomStore.CreateReservationScenario | src/stores/roomStore.ts:25-39 | a rejected then an accepted creation leaves exactly the accepted record, a counter of 1, the creation error, and returns null then the record |
| RoomStore.AvailableRoomsScenario | src/stores/roomStore.ts:41-52 | the store's `getAvailableRooms` over the service's returns the filtered rooms with no error when both queries succeed, and `[]` with the fixed message when either reports an error |
| RoomService.Overlaps | src/services/supabase.ts:25 | the conflict test is strict on both sides: a reservation ending at or before the slot's start, or starting at or after its end, does not conflict |
| RoomService.OverlapsIffSharedInstant | src/services/supabase.ts:25 | for non-empty intervals, the conflict test holds exactly when the two half-open intervals share an instant |
| RoomService.ConflictRows | src/services/supabase.ts:23-25 | the backend's answer to the conflict query has at most one row per persisted reservation |
| RoomService.ConflictRowsExact | src/services/supabase.ts:23-25 | a room id is among the conflict rows if and only if some persisted reservation of that room overlaps the slot |
| RoomService.ReservedRoomIds | src/services/supabase.ts:30 | the id set holds exactly the `room_id`s of the conflict rows, and is empty when the conflict data is null |
| RoomService.RoomFilter | src/services/supabase.ts:31 | every returned room is a fetched room whose id is not reserved, and every fetched room whose id is not reserved is returned |
| RoomService.RoomFilterIsSubsequence | src/services/supabase.ts:31 | the filter's result is a subsequence of the fetched rooms: their relative order is kept |
| RoomService.RoomFilterCounts | src/services/supabase.ts:31 | each unreserved room occurs in the result as often as among the fetched rooms, each reserved room not at all |
| RoomService.RoomFilterKeepsAll | src/services/supabase.ts:31 | when no fetched room is reserved, the result equals the fetched list |
| RoomService.RoomFilterIdempotent | src/services/supabase.ts:31 | filtering the result again by the same ids changes nothing |
| RoomService.AvailableRooms | src/services/supabase.ts:30-31 | null room data gives `[]`; otherwise the result is an order-preserving subsequence holding exactly the rooms with no conflict row, and equals the fetched list when the conflict data is null or empty |
| RoomService.GetAvailableRooms | src/services/supabase.ts:14-32 | the call fails exactly when either backend query reports an error, and otherwise resolves to the filtered rooms |
| RoomService.AvailableIffNotBooked | src/services/supabase.ts:23-31 | with the backend answering the conflict query, a fetched room is offered if and only if no persisted reservation of it overlaps the slot |
| RoomService.BookedRoomExcluded | src/services/supabase.ts:23-31 | a persisted reservation that overlaps the slot keeps its room out of the result |

## Left out

- Network calls to the backend (`getAllRooms`, the select and insert queries, the
  `getUpcomingMeetings` query): the settled outcome of each is a parameter. The backend's
  `start_time >= now`, ascending order and limit of 5 for upcoming meetings are therefore
  not modelled; they are evaluated by the backend against the wall clock.
- The insert field mapping of `reservationService.createReservation`: a projection of the
  draft onto the wire shape; the store only sees the returned record.
- `console.error` logging in the four actions: a side effect with no effect on state.
- Interleaving of concurrent actions: actions are modelled as sequential Begin/Complete
  pairs, so the shared-`loading` race between two overlapping actions is not captured.
- Order of the two queries in `getAvailableRooms`:
  `RoomService.GetAvailableRooms` takes both responses as inputs, so the fact that the
  conflict query is not issued at all once the room query failed is not visible (the
  result, a rejection, is the same).
- `getAllRooms` resolving with null data and no error: the store's outcome is a list of
  rooms, so a null `rooms` value is not modelled.
- ISO 8601 parsing and time-zone display formatting: timestamps are integers.
- Vue components and their tests, store tests that mock the store's own methods, and the
  test-runner configuration.

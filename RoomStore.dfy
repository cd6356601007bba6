/** The room store (src/stores/roomStore.ts): five pieces of reactive state and four
    asynchronous actions. Each action is split at its `await`: `BeginX` is what runs
    before the remote call is awaited, `CompleteX` is what runs once it settles, with
    the settled outcome as a parameter. */
module RoomStore {
  import opened Wrappers
  import opened RoomTypes
  import RoomService

  /** The four fixed messages the actions record on failure. */
  const FetchRoomsFailed: string := "Failed to fetch rooms"
  const CreateReservationFailed: string := "Failed to create reservation"
  const FetchAvailableRoomsFailed: string := "Failed to fetch available rooms"
  const FetchUpcomingMeetingsFailed: string := "Failed to fetch upcoming meetings"

  /** `msg` is one of the messages an action can record. */
  predicate IsStoreError(msg: string)
  {
    msg == FetchRoomsFailed || msg == CreateReservationFailed
    || msg == FetchAvailableRoomsFailed || msg == FetchUpcomingMeetingsFailed
  }

  class Store {
    var rooms: seq<Room>
    var reservations: seq<Reservation>
    var loading: bool
    var error: Option<string>
    var refreshTrigger: nat

    /** What the actions keep true: the error is null or one of the fixed messages,
        and since the store starts empty and only a successful creation both appends a
        reservation and bumps the counter, the counter equals the number of
        reservations created through the store. */
    ghost predicate Valid()
      reads this
    {
      && (error.None? || IsStoreError(error.value))
      && refreshTrigger == |reservations|
    }

    /** A fresh store: no rooms, no reservations, not loading, no error, counter 0. */
    constructor ()
      ensures Valid()
      ensures rooms == [] && reservations == [] && !loading && error == None && refreshTrigger == 0
    {
      rooms := [];
      reservations := [];
      loading := false;
      error := None;
      refreshTrigger := 0;
    }

    /** `fetchRooms`, up to the await: raise the loading flag. */
    method BeginFetchRooms()
      requires Valid()
      modifies this
      ensures Valid() && loading
      ensures rooms == old(rooms) && reservations == old(reservations)
      ensures error == old(error) && refreshTrigger == old(refreshTrigger)
    {
      loading := true;
    }

    /** `fetchRooms`, once `getAllRooms` settles: on success `rooms` becomes the fetched
        list; on failure `rooms` is kept and the fixed message recorded. Success leaves
        a previous error in place. Loading is cleared either way. */
    method CompleteFetchRooms(fetched: Outcome<seq<Room>>)
      requires Valid()
      modifies this
      ensures Valid() && !loading
      ensures fetched.Ok? ==> rooms == fetched.v && error == old(error)
      ensures fetched.Err? ==> rooms == old(rooms) && error == Some(FetchRoomsFailed)
      ensures reservations == old(reservations) && refreshTrigger == old(refreshTrigger)
    {
      match fetched {
        case Ok(all) =>
          rooms := all;
        case Err =>
          error := Some(FetchRoomsFailed);
      }
      loading := false;
    }

    /** `createReservation`, up to the await: raise the loading flag. */
    method BeginCreateReservation()
      requires Valid()
      modifies this
      ensures Valid() && loading
      ensures rooms == old(rooms) && reservations == old(reservations)
      ensures error == old(error) && refreshTrigger == old(refreshTrigger)
    {
      loading := true;
    }

    /** `createReservation`, once the insert settles: on success the returned record is
        appended, the counter goes up by one and the record is returned; on failure
        nothing but the error changes and null is returned. */
    method CompleteCreateReservation(created: Outcome<Reservation>) returns (r: Option<Reservation>)
      requires Valid()
      modifies this
      ensures Valid() && !loading
      ensures created.Ok? ==>
                && reservations == old(reservations) + [created.v]
                && refreshTrigger == old(refreshTrigger) + 1
                && error == old(error)
                && r == Some(created.v)
      ensures created.Err? ==>
                && reservations == old(reservations)
                && refreshTrigger == old(refreshTrigger)
                && error == Some(CreateReservationFailed)
                && r == None
      ensures rooms == old(rooms)
    {
      match created {
        case Ok(data) =>
          reservations := reservations + [data];
          refreshTrigger := refreshTrigger + 1;
          r := Some(data);
        case Err =>
          error := Some(CreateReservationFailed);
          r := None;
      }
      loading := false;
    }

    /** `getAvailableRooms`, up to the await: raise the loading flag. */
    method BeginGetAvailableRooms()
      requires Valid()
      modifies this
      ensures Valid() && loading
      ensures rooms == old(rooms) && reservations == old(reservations)
      ensures error == old(error) && refreshTrigger == old(refreshTrigger)
    {
      loading := true;
    }

    /** `getAvailableRooms`, once the service settles: pass its rooms through, or
        return `[]` and record the fixed message. No collection is written. */
    method CompleteGetAvailableRooms(available: Outcome<seq<Room>>) returns (r: seq<Room>)
      requires Valid()
      modifies this
      ensures Valid() && !loading
      ensures available.Ok? ==> r == available.v && error == old(error)
      ensures available.Err? ==> r == [] && error == Some(FetchAvailableRoomsFailed)
      ensures rooms == old(rooms) && reservations == old(reservations)
      ensures refreshTrigger == old(refreshTrigger)
    {
      match available {
        case Ok(found) =>
          r := found;
        case Err =>
          error := Some(FetchAvailableRoomsFailed);
          r := [];
      }
      loading := false;
    }

    /** `getUpcomingMeetings`, up to the await: raise the loading flag. */
    method BeginGetUpcomingMeetings()
      requires Valid()
      modifies this
      ensures Valid() && loading
      ensures rooms == old(rooms) && reservations == old(reservations)
      ensures error == old(error) && refreshTrigger == old(refreshTrigger)
    {
      loading := true;
    }

    /** `getUpcomingMeetings`, once the service settles: pass its reservations through,
        or return `[]` and record the fixed message. No collection is written. */
    method CompleteGetUpcomingMeetings(upcoming: Outcome<seq<Reservation>>) returns (r: seq<Reservation>)
      requires Valid()
      modifies this
      ensures Valid() && !loading
      ensures upcoming.Ok? ==> r == upcoming.v && error == old(error)
      ensures upcoming.Err? ==> r == [] && error == Some(FetchUpcomingMeetingsFailed)
      ensures rooms == old(rooms) && reservations == old(reservations)
      ensures refreshTrigger == old(refreshTrigger)
    {
      match upcoming {
        case Ok(found) =>
          r := found;
        case Err =>
          error := Some(FetchUpcomingMeetingsFailed);
          r := [];
      }
      loading := false;
    }
  }

  /** On a fresh store, a successful `fetchRooms`: loading is false before the call,
      true while `getAllRooms` is pending and false again after, and the store then
      holds exactly the fetched rooms with no error. */
  method FetchRoomsScenario(fetched: seq<Room>)
    returns (before: bool, during: bool, after: bool, rooms: seq<Room>, error: Option<string>)
    ensures !before && during && !after
    ensures rooms == fetched && error == None
  {
    var store := new Store();
    before := store.loading;
    store.BeginFetchRooms();
    during := store.loading;
    store.CompleteFetchRooms(Ok(fetched));
    after := store.loading;
    rooms, error := store.rooms, store.error;
  }

  /** A failed `fetchRooms` followed by a successful one: the rooms are those of the
      second call, but the message of the first failure is still there. */
  method StaleErrorScenario(prior: seq<Room>, fetched: seq<Room>)
    returns (afterFailure: seq<Room>, rooms: seq<Room>, error: Option<string>, loading: bool)
    ensures afterFailure == prior
    ensures rooms == fetched && error == Some(FetchRoomsFailed) && !loading
  {
    var store := new Store();
    store.BeginFetchRooms();
    store.CompleteFetchRooms(Ok(prior));
    store.BeginFetchRooms();
    store.CompleteFetchRooms(Err);
    afterFailure := store.rooms;
    store.BeginFetchRooms();
    store.CompleteFetchRooms(Ok(fetched));
    rooms, error, loading := store.rooms, store.error, store.loading;
  }

  /** Two reservation attempts on a fresh store, the first rejected and the second
      accepted: only the accepted record is kept, the counter moved once, and each
      call returned what its outcome says. */
  method CreateReservationScenario(record: Reservation)
    returns (first: Option<Reservation>, second: Option<Reservation>,
             reservations: seq<Reservation>, trigger: nat, error: Option<string>)
    ensures first == None && second == Some(record)
    ensures reservations == [record] && trigger == 1
    ensures error == Some(CreateReservationFailed)
  {
    var store := new Store();
    store.BeginCreateReservation();
    first := store.CompleteCreateReservation(Err);
    store.BeginCreateReservation();
    second := store.CompleteCreateReservation(Ok(record));
    reservations, trigger, error := store.reservations, store.refreshTrigger, store.error;
  }

  /** The store's `getAvailableRooms` over the service's: with both backend queries
      answered it returns the filtered rooms without touching the error; when either
      query reports an error it returns `[]` and records the fixed message. */
  method AvailableRoomsScenario(
    roomsQuery: RoomService.Response<seq<Room>>,
    conflictQuery: RoomService.Response<seq<RoomService.ConflictRow>>)
    returns (r: seq<Room>, error: Option<string>)
    ensures roomsQuery.error.None? && conflictQuery.error.None? ==>
              r == RoomService.AvailableRooms(roomsQuery.data, conflictQuery.data) && error == None
    ensures roomsQuery.error.Some? || conflictQuery.error.Some? ==>
              r == [] && error == Some(FetchAvailableRoomsFailed)
  {
    var store := new Store();
    store.BeginGetAvailableRooms();
    r := store.CompleteGetAvailableRooms(RoomService.GetAvailableRooms(roomsQuery, conflictQuery));
    error := store.error;
  }
}

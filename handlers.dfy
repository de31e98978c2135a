/**
 * The server's request handlers as functions of the store they read:
 * each takes the decoded request and the current `users` or `trips` map
 * and gives back the status and the map the handler leaves behind.
 * These are the reference definitions the class in ServerStore is proved
 * against; the lemmas at the end follow a whole sequence of requests.
 */
module Handlers {
  import opened Domain

  /**
   * POST or PUT of a user under the path identifier `id`. A payload that did
   * not decode is `None`. POST stamps the creation time; PUT keeps the
   * payload's. A car owner without a licence or a plate is refused.
   */
  function UserStep(users: map<string, User>, m: Method, id: string, payload: Option<User>, now: Time)
    : (r: Reply<map<string, User>>)
    ensures r.status == Accepted || r.status == BadRequest
    ensures r.status == BadRequest ==> r.store == users
    ensures r.status == Accepted <==> payload.Some? && OwnerProfileComplete(payload.value)
    ensures r.status == Accepted ==>
      && r.store.Keys == users.Keys + {id}
      && (forall k :: k in users && k != id ==> r.store[k] == users[k])
      && r.store[id].createdAt == (if m == Post then now else payload.value.createdAt)
      && r.store[id].(createdAt := payload.value.createdAt) == payload.value
    ensures UsersWellFormed(users) ==> UsersWellFormed(r.store)
  {
    if payload.None? then Reply(BadRequest, users)
    else
      var user := if m == Post then payload.value.(createdAt := now) else payload.value;
      if !OwnerProfileComplete(user) then Reply(BadRequest, users)
      else Reply(Accepted, users[id := user])
  }

  /** The DELETE branch of the user and trip handlers: remove the key if present. */
  function Delete<V>(m: map<string, V>, id: string): (r: Reply<map<string, V>>)
    ensures r.status == Ok || r.status == NotFound
    ensures r.status == Ok <==> id in m
    ensures r.status == NotFound ==> r.store == m
    ensures r.store.Keys == m.Keys - {id}
    ensures forall k :: k in r.store ==> r.store[k] == m[k]
  {
    if id in m then Reply(Ok, m - {id}) else Reply(NotFound, m)
  }

  /**
   * POST or PUT of a trip under the path identifier `id`. There is no check
   * that the trip is new: POST overwrites. The passenger list of a trip
   * already stored under `id` survives the write; the seat count is derived.
   */
  function TripStep(users: map<string, User>, trips: map<string, Trip>, id: string,
                    payload: Option<Trip>, now: Time): (r: Reply<map<string, Trip>>)
    ensures r.status == Accepted || r.status == BadRequest || r.status == NotFound
    ensures r.status != Accepted ==> r.store == trips
    ensures r.status == NotFound <==> payload.Some? && payload.value.carOwnerID !in users
    ensures r.status == Accepted <==>
      payload.Some? && EligibleOwner(users, payload.value.carOwnerID) && LeadTimeOk(payload.value.startTime, now)
    ensures r.status == Accepted ==>
      && r.store.Keys == trips.Keys + {id}
      && (forall k :: k in trips && k != id ==> r.store[k] == trips[k])
      && r.store[id].enrolledPassengers ==
           (if id in trips then trips[id].enrolledPassengers else payload.value.enrolledPassengers)
      && SeatsConsistent(r.store[id])
      && r.store[id].(enrolledPassengers := payload.value.enrolledPassengers,
                      availableSeats := payload.value.availableSeats) == payload.value
  {
    if payload.None? then Reply(BadRequest, trips)
    else
      var trip := payload.value;
      if trip.carOwnerID !in users then Reply(NotFound, trips)
      else
        var owner := users[trip.carOwnerID];
        if !owner.isCarOwner then Reply(BadRequest, trips)
        else if owner.driverLicense == "" || owner.carPlateNumber == "" then Reply(BadRequest, trips)
        else if !LeadTimeOk(trip.startTime, now) then Reply(BadRequest, trips)
        else
          var passengers := if id in trips then trips[id].enrolledPassengers else trip.enrolledPassengers;
          var stored := trip.(enrolledPassengers := passengers,
                              availableSeats := SeatsLeft(trip.totalSeats, |passengers|));
          Reply(Accepted, trips[id := stored])
  }

  /** The key an enrollment body names the passenger under. */
  const USER_ID_KEY: string := "user_id"

  /**
   * Enrollment of the passenger named in the decoded body into trip `id`.
   * No capacity cap and no check that the passenger is a known user; only a
   * duplicate is refused. The advertised seat count is left as it was.
   */
  function EnrollStep(trips: map<string, Trip>, id: string, body: Option<map<string, string>>)
    : (r: Reply<map<string, Trip>>)
    ensures r.status == Accepted || r.status == BadRequest || r.status == NotFound
    ensures r.status != Accepted ==> r.store == trips
    ensures body.None? || USER_ID_KEY !in body.value ==> r.status == BadRequest
    ensures r.status == NotFound <==> body.Some? && USER_ID_KEY in body.value && id !in trips
    ensures r.status == Accepted <==>
      body.Some? && USER_ID_KEY in body.value && id in trips
      && body.value[USER_ID_KEY] !in trips[id].enrolledPassengers
    ensures r.status == Accepted ==>
      var before := trips[id].enrolledPassengers;
      && r.store.Keys == trips.Keys
      && (forall k :: k in trips && k != id ==> r.store[k] == trips[k])
      && |r.store[id].enrolledPassengers| == |before| + 1
      && r.store[id].enrolledPassengers[..|before|] == before
      && r.store[id].enrolledPassengers[|before|] == body.value[USER_ID_KEY]
      && r.store[id].(enrolledPassengers := before) == trips[id]
      && (NoDuplicates(before) ==> NoDuplicates(r.store[id].enrolledPassengers))
  {
    if body.None? || USER_ID_KEY !in body.value then Reply(BadRequest, trips)
    else
      var userID := body.value[USER_ID_KEY];
      if id !in trips then Reply(NotFound, trips)
      else if userID in trips[id].enrolledPassengers then Reply(BadRequest, trips)
      else
        var passengers := trips[id].enrolledPassengers;
        Reply(Accepted, trips[id := trips[id].(enrolledPassengers := passengers + [userID])])
  }

  /**
   * The duplicate-enrollment scan: a linear search of the passenger list for
   * an exact match of `userID`.
   */
  method Contains(passengers: seq<string>, userID: string) returns (found: bool)
    ensures found <==> userID in passengers
  {
    found := false;
    var i := 0;
    while i < |passengers|
      invariant 0 <= i <= |passengers|
      invariant userID !in passengers[..i]
    {
      if passengers[i] == userID {
        return true;
      }
      i := i + 1;
    }
  }

  /**
   * Starting trip `id` on behalf of `callerID` (the car-owner-id header).
   * The checks run in this order: the trip exists, the caller owns it, it has
   * not started, it has a passenger, and it starts at least thirty minutes
   * after `now`. On success only the started flag changes.
   */
  function StartStep(trips: map<string, Trip>, id: string, callerID: string, now: Time)
    : (r: Reply<map<string, Trip>>)
    ensures r.status != Ok
    ensures r.status != Accepted ==> r.store == trips
    ensures r.status == NotFound <==> id !in trips
    ensures r.status == Unauthorized <==> id in trips && trips[id].carOwnerID != callerID
    ensures r.status == BadRequest <==>
      id in trips && trips[id].carOwnerID == callerID
      && (trips[id].started || |trips[id].enrolledPassengers| == 0 || !LeadTimeOk(trips[id].startTime, now))
    ensures r.status == Accepted ==>
      && r.store.Keys == trips.Keys
      && (forall k :: k in trips && k != id ==> r.store[k] == trips[k])
      && !trips[id].started && r.store[id].started
      && r.store[id].(started := false) == trips[id]
  {
    if id !in trips then Reply(NotFound, trips)
    else
      var trip := trips[id];
      if trip.carOwnerID != callerID then Reply(Unauthorized, trips)
      else if trip.started then Reply(BadRequest, trips)
      else if |trip.enrolledPassengers| == 0 then Reply(BadRequest, trips)
      else if !LeadTimeOk(trip.startTime, now) then Reply(BadRequest, trips)
      else Reply(Accepted, trips[id := trip.(started := true)])
  }

  /** A started trip cannot be started again: the second call fails at the started check. */
  lemma StartTwice(trips: map<string, Trip>, id: string, callerID: string, now: Time, later: Time)
    requires StartStep(trips, id, callerID, now).status == Accepted
    ensures var again := StartStep(StartStep(trips, id, callerID, now).store, id, callerID, later);
      again.status == BadRequest && again.store == StartStep(trips, id, callerID, now).store
  {
  }

  /** Enrolling the same passenger twice: the second attempt is refused, so the list grows by one. */
  lemma EnrollTwice(trips: map<string, Trip>, id: string, body: Option<map<string, string>>)
    requires EnrollStep(trips, id, body).status == Accepted
    ensures var once := EnrollStep(trips, id, body).store;
      && EnrollStep(once, id, body).status == BadRequest
      && |EnrollStep(once, id, body).store[id].enrolledPassengers| == |trips[id].enrolledPassengers| + 1
  {
  }

  /** One decoded request to the server, with the path identifier and the clock reading it sees. */
  datatype Request =
    | PutUser(m: Method, id: string, user: Option<User>, now: Time)
    | DeleteUser(id: string)
    | PutTrip(id: string, trip: Option<Trip>, now: Time)
    | DeleteTrip(id: string)
    | Enroll(id: string, body: Option<map<string, string>>)
    | Start(id: string, callerID: string, now: Time)

  /** The two maps of the server. */
  datatype Db = Db(users: map<string, User>, trips: map<string, Trip>)

  /** One request, routed to its handler. */
  function Handle(db: Db, req: Request): (r: Reply<Db>)
    ensures r.status != Accepted && r.status != Ok ==> r.store == db
    ensures !req.PutUser? && !req.DeleteUser? ==> r.store.users == db.users
    ensures !req.PutTrip? && !req.DeleteTrip? && !req.Enroll? && !req.Start? ==> r.store.trips == db.trips
    ensures UsersWellFormed(db.users) ==> UsersWellFormed(r.store.users)
  {
    match req
    case PutUser(m, id, user, now) =>
      var r := UserStep(db.users, m, id, user, now); Reply(r.status, db.(users := r.store))
    case DeleteUser(id) =>
      var r := Delete(db.users, id); Reply(r.status, db.(users := r.store))
    case PutTrip(id, trip, now) =>
      var r := TripStep(db.users, db.trips, id, trip, now); Reply(r.status, db.(trips := r.store))
    case DeleteTrip(id) =>
      var r := Delete(db.trips, id); Reply(r.status, db.(trips := r.store))
    case Enroll(id, body) =>
      var r := EnrollStep(db.trips, id, body); Reply(r.status, db.(trips := r.store))
    case Start(id, callerID, now) =>
      var r := StartStep(db.trips, id, callerID, now); Reply(r.status, db.(trips := r.store))
  }

  /** The store after the requests `reqs`, handled one after another. */
  function Run(db: Db, reqs: seq<Request>): Db
    decreases |reqs|
  {
    if reqs == [] then db else Run(Handle(db, reqs[0]).store, reqs[1..])
  }

  /** Every sequence of requests keeps every stored car owner's licence and plate non-empty. */
  lemma {:induction false} RunKeepsUsersWellFormed(db: Db, reqs: seq<Request>)
    requires UsersWellFormed(db.users)
    ensures UsersWellFormed(Run(db, reqs).users)
    decreases |reqs|
  {
    if reqs != [] {
      RunKeepsUsersWellFormed(Handle(db, reqs[0]).store, reqs[1..]);
    }
  }

  /** The trip path identifier a request names, if it is a trip request. */
  function TripTarget(req: Request): Option<string>
  {
    match req
    case PutTrip(id, _, _) => Some(id)
    case DeleteTrip(id) => Some(id)
    case Enroll(id, _) => Some(id)
    case Start(id, _, _) => Some(id)
    case _ => None
  }

  /** A trip that no request of the sequence names is left exactly as it was. */
  lemma {:induction false} RunFramesUntouchedTrip(db: Db, reqs: seq<Request>, id: string)
    requires forall i :: 0 <= i < |reqs| ==> TripTarget(reqs[i]) != Some(id)
    ensures (id in Run(db, reqs).trips <==> id in db.trips)
    ensures id in db.trips ==> Run(db, reqs).trips[id] == db.trips[id]
    decreases |reqs|
  {
    if reqs != [] {
      var next := Handle(db, reqs[0]).store;
      assert TripTarget(reqs[0]) != Some(id);
      assert id in next.trips <==> id in db.trips;
      assert id in db.trips ==> next.trips[id] == db.trips[id];
      assert forall i :: 0 <= i < |reqs[1..]| ==> TripTarget(reqs[1..][i]) != Some(id) by {
        forall i | 0 <= i < |reqs[1..]| ensures TripTarget(reqs[1..][i]) != Some(id) {
          assert reqs[1..][i] == reqs[i + 1];
        }
      }
      RunFramesUntouchedTrip(next, reqs[1..], id);
    }
  }

  /** A request that may overwrite or remove trip `id` wholesale. */
  predicate Rewrites(req: Request, id: string)
  {
    (req.PutTrip? || req.DeleteTrip?) && req.id == id
  }

  /**
   * Once started, a trip stays started through any requests that do not
   * rewrite or delete it: enrollment keeps the flag and a second start fails.
   */
  lemma {:induction false} RunKeepsStarted(db: Db, reqs: seq<Request>, id: string)
    requires id in db.trips && db.trips[id].started
    requires forall i :: 0 <= i < |reqs| ==> !Rewrites(reqs[i], id)
    ensures id in Run(db, reqs).trips && Run(db, reqs).trips[id].started
    decreases |reqs|
  {
    if reqs != [] {
      var next := Handle(db, reqs[0]).store;
      assert !Rewrites(reqs[0], id);
      assert id in next.trips && next.trips[id].started;
      assert forall i :: 0 <= i < |reqs[1..]| ==> !Rewrites(reqs[1..][i], id) by {
        forall i | 0 <= i < |reqs[1..]| ensures !Rewrites(reqs[1..][i], id) {
          assert reqs[1..][i] == reqs[i + 1];
        }
      }
      RunKeepsStarted(next, reqs[1..], id);
    }
  }

  /**
   * Once a trip's passenger list is free of duplicates, it stays so through
   * any requests that do not rewrite or delete that trip.
   */
  lemma {:induction false} RunKeepsNoDuplicates(db: Db, reqs: seq<Request>, id: string)
    requires id in db.trips && NoDuplicates(db.trips[id].enrolledPassengers)
    requires forall i :: 0 <= i < |reqs| ==> !Rewrites(reqs[i], id)
    ensures id in Run(db, reqs).trips && NoDuplicates(Run(db, reqs).trips[id].enrolledPassengers)
    decreases |reqs|
  {
    if reqs != [] {
      var next := Handle(db, reqs[0]).store;
      assert !Rewrites(reqs[0], id);
      assert id in next.trips && NoDuplicates(next.trips[id].enrolledPassengers);
      assert forall i :: 0 <= i < |reqs[1..]| ==> !Rewrites(reqs[1..][i], id) by {
        forall i | 0 <= i < |reqs[1..]| ensures !Rewrites(reqs[1..][i], id) {
          assert reqs[1..][i] == reqs[i + 1];
        }
      }
      RunKeepsNoDuplicates(next, reqs[1..], id);
    }
  }

  /**
   * A trip written under a new identifier keeps the payload's passenger
   * list as it is, duplicates included.
   */
  lemma NewTripMayHoldDuplicates(users: map<string, User>, trips: map<string, Trip>, id: string, t: Trip, now: Time)
    requires id !in trips && EligibleOwner(users, t.carOwnerID) && LeadTimeOk(t.startTime, now)
    requires t.enrolledPassengers == ["a", "a"]
    ensures var r := TripStep(users, trips, id, Some(t), now);
      r.status == Accepted && !NoDuplicates(r.store[id].enrolledPassengers)
  {
    var p := TripStep(users, trips, id, Some(t), now).store[id].enrolledPassengers;
    assert p == ["a", "a"] && p[0] == p[1];
  }

  /**
   * Enrollment does not refresh the advertised seat count: a trip whose
   * count was consistent and still had a free seat is inconsistent afterwards.
   */
  lemma EnrollLeavesSeatCountStale(trips: map<string, Trip>, id: string, body: Option<map<string, string>>)
    requires EnrollStep(trips, id, body).status == Accepted
    requires SeatsConsistent(trips[id]) && |trips[id].enrolledPassengers| < trips[id].totalSeats
    ensures !SeatsConsistent(EnrollStep(trips, id, body).store[id])
    ensures EnrollStep(trips, id, body).store[id].availableSeats == trips[id].availableSeats
  {
  }

  /** A PUT can clear the started flag: the trip is rewritten from the payload. */
  lemma UpdateCanClearStarted(users: map<string, User>, trips: map<string, Trip>, id: string, t: Trip, now: Time)
    requires id in trips && trips[id].started
    requires !t.started && EligibleOwner(users, t.carOwnerID) && LeadTimeOk(t.startTime, now)
    ensures var r := TripStep(users, trips, id, Some(t), now);
      r.status == Accepted && !r.store[id].started
  {
  }
}

/**
 * The server's process-wide store: the `users` and `trips` maps, updated in
 * place by the request handlers. Each method performs its handler's checks
 * in the handler's order, writes the map back on success, and is proved to
 * answer and leave the maps exactly as the reference step in Handlers does;
 * every method keeps the car-owner profile rule for all stored users.
 */
module ServerStore {
  import opened Domain
  import opened Handlers

  class Store {
    var users: map<string, User>
    var trips: map<string, Trip>

    /** Every stored car owner has a licence and a plate. */
    ghost predicate Valid()
      reads this
    {
      UsersWellFormed(users)
    }

    constructor ()
      ensures Valid()
      ensures users == map[] && trips == map[]
    {
      users := map[];
      trips := map[];
    }

    /** The POST/PUT user handler. */
    method CreateOrUpdateUser(m: Method, userID: string, payload: Option<User>, now: Time)
      returns (status: Status)
      requires Valid()
      modifies this
      ensures Valid()
      ensures trips == old(trips)
      ensures Reply(status, users) == UserStep(old(users), m, userID, payload, now)
      ensures status == BadRequest ==> users == old(users)
    {
      if payload.None? {
        return BadRequest;
      }
      var user := payload.value;
      if m == Post {
        user := user.(createdAt := now);
      }
      if user.isCarOwner {
        if user.driverLicense == "" || user.carPlateNumber == "" {
          return BadRequest;
        }
      }
      users := users[userID := user];
      status := Accepted;
    }

    /** The DELETE branch of the user handler: no check beyond presence, no cascade to trips. */
    method DeleteUser(userID: string) returns (status: Status)
      requires Valid()
      modifies this
      ensures Valid()
      ensures trips == old(trips)
      ensures status == (if userID in old(users) then Ok else NotFound)
      ensures users == old(users) - {userID}
    {
      if userID in users {
        users := users - {userID};
        status := Ok;
      } else {
        status := NotFound;
      }
    }

    /** The DELETE branch of the trip handler, the one the console's cancellation calls. */
    method DeleteTrip(tripID: string) returns (status: Status)
      requires Valid()
      modifies this
      ensures Valid()
      ensures users == old(users)
      ensures status == (if tripID in old(trips) then Ok else NotFound)
      ensures trips == old(trips) - {tripID}
    {
      if tripID in trips {
        trips := trips - {tripID};
        status := Ok;
      } else {
        status := NotFound;
      }
    }

    /** The POST/PUT trip handler. */
    method CreateOrUpdateTrip(tripID: string, payload: Option<Trip>, now: Time) returns (status: Status)
      requires Valid()
      modifies this
      ensures Valid()
      ensures users == old(users)
      ensures Reply(status, trips) == TripStep(users, old(trips), tripID, payload, now)
    {
      if payload.None? {
        return BadRequest;
      }
      var trip := payload.value;
      if trip.carOwnerID !in users {
        return NotFound;
      }
      var carOwner := users[trip.carOwnerID];
      if !carOwner.isCarOwner {
        return BadRequest;
      }
      if carOwner.isCarOwner {
        if carOwner.driverLicense == "" || carOwner.carPlateNumber == "" {
          return BadRequest;
        }
      }
      if trip.startTime - now < THIRTY_MIN {
        return BadRequest;
      }
      if tripID in trips {
        trip := trip.(enrolledPassengers := trips[tripID].enrolledPassengers);
      }
      var available := Wrap64(trip.totalSeats - |trip.enrolledPassengers|);
      if available < 0 {
        available := 0;
      }
      trip := trip.(availableSeats := available);
      trips := trips[tripID := trip];
      status := Accepted;
    }

    /** The enrollment handler, with its linear duplicate scan. */
    method EnrollPassenger(tripID: string, body: Option<map<string, string>>) returns (status: Status)
      requires Valid()
      modifies this
      ensures Valid()
      ensures users == old(users)
      ensures Reply(status, trips) == EnrollStep(old(trips), tripID, body)
    {
      if body.None? || USER_ID_KEY !in body.value {
        return BadRequest;
      }
      var userID := body.value[USER_ID_KEY];
      if tripID !in trips {
        return NotFound;
      }
      var trip := trips[tripID];
      var enrolled := Contains(trip.enrolledPassengers, userID);
      if enrolled {
        return BadRequest;
      }
      trip := trip.(enrolledPassengers := trip.enrolledPassengers + [userID]);
      trips := trips[tripID := trip];
      status := Accepted;
    }

    /** The start handler; `callerID` is the car-owner-id request header. */
    method StartTrip(tripID: string, callerID: string, now: Time) returns (status: Status)
      requires Valid()
      modifies this
      ensures Valid()
      ensures users == old(users)
      ensures Reply(status, trips) == StartStep(old(trips), tripID, callerID, now)
      ensures status == Accepted ==> tripID in trips && trips[tripID].started
    {
      if tripID !in trips {
        return NotFound;
      }
      var trip := trips[tripID];
      if trip.carOwnerID != callerID {
        return Unauthorized;
      }
      if trip.started {
        return BadRequest;
      }
      if |trip.enrolledPassengers| == 0 {
        return BadRequest;
      }
      if trip.startTime - now < THIRTY_MIN {
        return BadRequest;
      }
      trip := trip.(started := true);
      trips := trips[tripID := trip];
      status := Accepted;
    }
  }
}

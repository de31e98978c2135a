/**
 * The console client's guards: the checks it makes, on the records it
 * fetched from the server, before it sends a request. The existence probes
 * are GET requests that answer 200 exactly when the key is stored, so they
 * read the server's maps directly here. The lemmas relate each guard to the
 * server handler the request then reaches.
 */
module Console {
  import opened Domain
  import opened Handlers

  /** Why the console refuses to send a request. */
  datatype Refusal =
    | UserAlreadyExists
    | UserMissing
    | AccountTooYoung
    | TripAlreadyExists
    | TripMissing
    | OwnerMissing
    | NotCarOwner
    | ProfileIncomplete
    | TooSoon
    | NotOwner
    | AlreadyStarted
    | NoPassengers
    | TooLate

  datatype Verdict = Proceed | Refuse(reason: Refusal)

  /** Creating a user: the identifier must be free. */
  function CreateUserCheck(users: map<string, User>, userID: string): (v: Verdict)
    ensures v == Proceed <==> userID !in users
    ensures v != Proceed ==> v == Refuse(UserAlreadyExists)
  {
    if userID in users then Refuse(UserAlreadyExists) else Proceed
  }

  /** Updating a user: the user must exist. */
  function UpdateUserCheck(users: map<string, User>, userID: string): (v: Verdict)
    ensures v == Proceed <==> userID in users
    ensures v != Proceed ==> v == Refuse(UserMissing)
  {
    if userID !in users then Refuse(UserMissing) else Proceed
  }

  /**
   * Deleting a user: the user must exist and its account must not have been
   * created after `oneYearAgo` (the current time less one calendar year).
   */
  function DeleteUserCheck(users: map<string, User>, userID: string, oneYearAgo: Time): (v: Verdict)
    ensures v == Proceed <==> userID in users && users[userID].createdAt <= oneYearAgo
    ensures v == Refuse(UserMissing) <==> userID !in users
    ensures v == Refuse(AccountTooYoung) <==> userID in users && oneYearAgo < users[userID].createdAt
  {
    if userID !in users then Refuse(UserMissing)
    else if users[userID].createdAt > oneYearAgo then Refuse(AccountTooYoung)
    else Proceed
  }

  /**
   * Creating a trip, checked in this order: the trip identifier is free, the
   * owner exists, is a car owner, has a licence and a plate, and the start is
   * not before `now` plus thirty minutes.
   */
  function CreateTripCheck(users: map<string, User>, trips: map<string, Trip>, tripID: string,
                           carOwnerID: string, startTime: Time, now: Time): (v: Verdict)
    ensures v == Proceed <==>
      tripID !in trips && EligibleOwner(users, carOwnerID) && now + THIRTY_MIN <= startTime
    ensures v == Refuse(TripAlreadyExists) <==> tripID in trips
    ensures v == Refuse(OwnerMissing) <==> tripID !in trips && carOwnerID !in users
    ensures v == Refuse(NotCarOwner) <==>
      tripID !in trips && carOwnerID in users && !users[carOwnerID].isCarOwner
    ensures v == Refuse(ProfileIncomplete) <==>
      tripID !in trips && carOwnerID in users && users[carOwnerID].isCarOwner && !EligibleOwner(users, carOwnerID)
    ensures v == Refuse(TooSoon) <==>
      tripID !in trips && EligibleOwner(users, carOwnerID) && startTime < now + THIRTY_MIN
  {
    if tripID in trips then Refuse(TripAlreadyExists)
    else if carOwnerID !in users then Refuse(OwnerMissing)
    else
      var carOwner := users[carOwnerID];
      if !carOwner.isCarOwner then Refuse(NotCarOwner)
      else if carOwner.driverLicense == "" || carOwner.carPlateNumber == "" then Refuse(ProfileIncomplete)
      else if startTime < now + THIRTY_MIN then Refuse(TooSoon)
      else Proceed
  }

  /** Enrolling in a trip and listing its status: the trip must exist. */
  function TripPresenceCheck(trips: map<string, Trip>, tripID: string): (v: Verdict)
    ensures v == Proceed <==> tripID in trips
    ensures v != Proceed ==> v == Refuse(TripMissing)
  {
    if tripID !in trips then Refuse(TripMissing) else Proceed
  }

  /**
   * The window in which a trip may still be started or cancelled: until
   * thirty minutes after its scheduled start, that instant included.
   */
  function StartWindowOpen(startTime: Time, now: Time): (open: bool)
    ensures open <==> now <= startTime + THIRTY_MIN
  {
    !(startTime - now < -THIRTY_MIN)
  }

  lemma StartWindowBoundary(startTime: Time)
    ensures StartWindowOpen(startTime, startTime - THIRTY_MIN)
    ensures StartWindowOpen(startTime, startTime)
    ensures StartWindowOpen(startTime, startTime + THIRTY_MIN)
    ensures !StartWindowOpen(startTime, startTime + THIRTY_MIN + 1_000_000_000)
  {
  }

  /**
   * Starting a trip, checked in this order on the fetched record: the trip
   * exists, the caller owns it, it has not started, it has a passenger, and
   * the start window is still open.
   */
  function StartCheck(trips: map<string, Trip>, tripID: string, callerID: string, now: Time): (v: Verdict)
    ensures v == Proceed <==>
      && tripID in trips
      && trips[tripID].carOwnerID == callerID
      && !trips[tripID].started
      && |trips[tripID].enrolledPassengers| > 0
      && now <= trips[tripID].startTime + THIRTY_MIN
    ensures v == Refuse(TripMissing) <==> tripID !in trips
    ensures v == Refuse(NotOwner) <==> tripID in trips && trips[tripID].carOwnerID != callerID
    ensures v == Refuse(AlreadyStarted) <==>
      tripID in trips && trips[tripID].carOwnerID == callerID && trips[tripID].started
    ensures v == Refuse(NoPassengers) <==>
      tripID in trips && trips[tripID].carOwnerID == callerID && !trips[tripID].started
      && |trips[tripID].enrolledPassengers| == 0
    ensures v == Refuse(TooLate) <==>
      tripID in trips && trips[tripID].carOwnerID == callerID && !trips[tripID].started
      && |trips[tripID].enrolledPassengers| > 0 && trips[tripID].startTime + THIRTY_MIN < now
  {
    if tripID !in trips then Refuse(TripMissing)
    else
      var trip := trips[tripID];
      if trip.carOwnerID != callerID then Refuse(NotOwner)
      else if trip.started then Refuse(AlreadyStarted)
      else if |trip.enrolledPassengers| == 0 then Refuse(NoPassengers)
      else if !StartWindowOpen(trip.startTime, now) then Refuse(TooLate)
      else Proceed
  }

  /**
   * Cancelling a trip: it must exist, a started trip is refused whatever the
   * time, and otherwise the window must still be open.
   */
  function CancelCheck(trips: map<string, Trip>, tripID: string, now: Time): (v: Verdict)
    ensures v == Proceed <==>
      tripID in trips && !trips[tripID].started && now <= trips[tripID].startTime + THIRTY_MIN
    ensures v == Refuse(TripMissing) <==> tripID !in trips
    ensures v == Refuse(AlreadyStarted) <==> tripID in trips && trips[tripID].started
    ensures v == Refuse(TooLate) <==>
      tripID in trips && !trips[tripID].started && trips[tripID].startTime + THIRTY_MIN < now
  {
    if tripID !in trips then Refuse(TripMissing)
    else if trips[tripID].started then Refuse(AlreadyStarted)
    else if !StartWindowOpen(trips[tripID].startTime, now) then Refuse(TooLate)
    else Proceed
  }

  /**
   * The whole cancellation: the guard, then a DELETE of the trip on the
   * server. The trips map it leaves behind.
   */
  function CancelTrip(trips: map<string, Trip>, tripID: string, now: Time): (after: map<string, Trip>)
    ensures CancelCheck(trips, tripID, now) == Proceed ==> after == trips - {tripID} && tripID in trips
    ensures CancelCheck(trips, tripID, now) != Proceed ==> after == trips
    ensures tripID in trips && trips[tripID].started ==> after == trips
  {
    if CancelCheck(trips, tripID, now) == Proceed then Delete(trips, tripID).store else trips
  }

  /**
   * The whole user deletion: the guard, then a DELETE of the user on the
   * server. The users map it leaves behind.
   */
  function DeleteUserFlow(users: map<string, User>, userID: string, oneYearAgo: Time): (after: map<string, User>)
    ensures userID in users && users[userID].createdAt <= oneYearAgo ==> after == users - {userID}
    ensures userID in users && oneYearAgo < users[userID].createdAt ==> after == users
    ensures userID !in users ==> after == users
    ensures UsersWellFormed(users) ==> UsersWellFormed(after)
  {
    if DeleteUserCheck(users, userID, oneYearAgo) == Proceed then Delete(users, userID).store else users
  }

  /**
   * A start that passes both the console's guard and the server's handler
   * happens at least thirty minutes before the scheduled time: the server's
   * stricter window is the one that binds.
   */
  lemma StartPassingBothGuards(trips: map<string, Trip>, tripID: string, callerID: string, now: Time)
    requires StartCheck(trips, tripID, callerID, now) == Proceed
    requires StartStep(trips, tripID, callerID, now).status == Accepted
    ensures tripID in trips && now + THIRTY_MIN <= trips[tripID].startTime
  {
  }

  /**
   * When the console lets a start through, the server's only further
   * refusal is its own time check: it accepts exactly when the trip is at
   * least thirty minutes away, and refuses otherwise with BadRequest.
   */
  lemma ServerStartAfterConsole(trips: map<string, Trip>, tripID: string, callerID: string, now: Time)
    requires StartCheck(trips, tripID, callerID, now) == Proceed
    ensures var r := StartStep(trips, tripID, callerID, now);
      && (r.status == Accepted <==> now + THIRTY_MIN <= trips[tripID].startTime)
      && (r.status != Accepted ==> r.status == BadRequest && r.store == trips)
  {
  }

  /**
   * The server refuses a start at the scheduled time itself, which the
   * console allows: the two windows disagree.
   */
  lemma ServerRefusesOnTimeStart(trips: map<string, Trip>, tripID: string, callerID: string)
    requires tripID in trips && trips[tripID].carOwnerID == callerID
    requires !trips[tripID].started && |trips[tripID].enrolledPassengers| > 0
    ensures StartCheck(trips, tripID, callerID, trips[tripID].startTime) == Proceed
    ensures StartStep(trips, tripID, callerID, trips[tripID].startTime).status == BadRequest
  {
  }

  /**
   * A trip the console lets through for creation, sent with no passengers
   * and not started, is stored by the server as a scheduled trip: no
   * passengers, not started, and every seat available.
   */
  lemma ConsoleCreatedTripIsScheduled(users: map<string, User>, trips: map<string, Trip>, tripID: string,
                                      t: Trip, now: Time)
    requires CreateTripCheck(users, trips, tripID, t.carOwnerID, t.startTime, now) == Proceed
    requires t.enrolledPassengers == [] && !t.started
    ensures var r := TripStep(users, trips, tripID, Some(t), now);
      && r.status == Accepted
      && tripID in r.store
      && r.store[tripID].enrolledPassengers == []
      && !r.store[tripID].started
      && (t.totalSeats >= 0 ==> r.store[tripID].availableSeats == t.totalSeats)
      && r.store - {tripID} == trips
  {
  }

  /** The console's lead-time check and the server's agree, boundary included. */
  lemma CreateLeadTimesAgree(startTime: Time, now: Time)
    ensures !(startTime < now + THIRTY_MIN) <==> LeadTimeOk(startTime, now)
  {
  }

  /** Cancellation is refused for a started trip whatever the clock says. */
  lemma StartedTripNeverCancelled(trips: map<string, Trip>, tripID: string, now: Time, later: Time)
    requires tripID in trips
    requires StartStep(trips, tripID, trips[tripID].carOwnerID, now).status == Accepted
    ensures var started := StartStep(trips, tripID, trips[tripID].carOwnerID, now).store;
      && CancelCheck(started, tripID, later) == Refuse(AlreadyStarted)
      && CancelTrip(started, tripID, later) == started
  {
  }

  /**
   * The console's update sends no creation time, so a PUT stores whatever the
   * decoded payload carries there. A user re-written with a creation time at
   * or before `oneYearAgo` passes the account-age check, however recently it
   * was first created.
   */
  lemma UpdateResetsAccountAge(users: map<string, User>, userID: string, u: User, now: Time, oneYearAgo: Time)
    requires OwnerProfileComplete(u) && u.createdAt <= oneYearAgo
    requires userID in users && oneYearAgo < users[userID].createdAt
    ensures DeleteUserCheck(users, userID, oneYearAgo) == Refuse(AccountTooYoung)
    ensures var r := UserStep(users, Put, userID, Some(u), now);
      r.status == Accepted && DeleteUserCheck(r.store, userID, oneYearAgo) == Proceed
  {
  }
}

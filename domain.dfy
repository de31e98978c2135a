/**
 * The records shared by the car-pooling server and its console client:
 * users, trips, the HTTP status kinds the server answers with, and the
 * rules both sides apply to them (car-owner profile completeness, owner
 * eligibility, lead time, available-seat accounting).
 */
module Domain {

  datatype Option<T> = None | Some(value: T)

  /** An instant, modelled as a count of nanoseconds since a fixed epoch. */
  type Time = int

  /** One minute and thirty minutes, as Go durations (nanoseconds). */
  const MINUTE: int := 60 * 1_000_000_000
  const THIRTY_MIN: int := 30 * MINUTE

  /** The range of Go's 64-bit `int`. */
  const INT64_MIN: int := -0x8000_0000_0000_0000
  const INT64_MAX: int := 0x7FFF_FFFF_FFFF_FFFF
  const TWO_TO_64: int := 0x1_0000_0000_0000_0000

  /** A value of Go's 64-bit `int`. */
  type Int64 = x: int | INT64_MIN <= x <= INT64_MAX

  /** Two's-complement wrap-around of an exact result into Go's `int`. */
  function Wrap64(x: int): (r: Int64)
    ensures INT64_MIN <= x <= INT64_MAX ==> r == x
    ensures (r - x) % TWO_TO_64 == 0
  {
    (x - INT64_MIN) % TWO_TO_64 + INT64_MIN
  }

  datatype User = User(
    id: string,
    firstName: string,
    lastName: string,
    mobileNumber: string,
    email: string,
    driverLicense: string,
    carPlateNumber: string,
    isCarOwner: bool,
    createdAt: Time)

  datatype Trip = Trip(
    id: string,
    carOwnerID: string,
    pickupLocation: string,
    altPickupLocation: string,
    startTime: Time,
    destination: string,
    availableSeats: Int64,
    enrolledPassengers: seq<string>,
    totalSeats: Int64,
    started: bool)

  /** The request method of the user and trip create/update routes. */
  datatype Method = Post | Put

  /** The status codes the handlers answer with. */
  datatype Status =
    | Ok            // 200: the DELETE branches write a body without a header
    | Accepted      // 202
    | BadRequest    // 400
    | Unauthorized  // 401
    | NotFound      // 404

  /** A handler's answer together with the store it leaves behind. */
  datatype Reply<S> = Reply(status: Status, store: S)

  /** A user flagged as car owner carries both a licence and a plate. */
  predicate OwnerProfileComplete(u: User)
  {
    u.isCarOwner ==> u.driverLicense != "" && u.carPlateNumber != ""
  }

  /** Every stored user satisfies the car-owner profile rule. */
  ghost predicate UsersWellFormed(users: map<string, User>)
  {
    forall id :: id in users ==> OwnerProfileComplete(users[id])
  }

  /** The user `id` may publish trips: it exists, is a car owner, and has a licence and a plate. */
  predicate EligibleOwner(users: map<string, User>, id: string)
  {
    && id in users
    && users[id].isCarOwner
    && users[id].driverLicense != ""
    && users[id].carPlateNumber != ""
  }

  /** A trip starting at `startTime` is booked at least thirty minutes ahead of `now`. */
  predicate LeadTimeOk(startTime: Time, now: Time)
  {
    !(startTime - now < THIRTY_MIN)
  }

  lemma LeadTimeBoundary(startTime: Time, now: Time)
    ensures LeadTimeOk(startTime, now) <==> now + THIRTY_MIN <= startTime
    ensures LeadTimeOk(now + THIRTY_MIN, now)
    ensures !LeadTimeOk(now + THIRTY_MIN - 1_000_000_000, now)
  {
  }

  /**
   * The seats left when `enrolled` passengers hold seats out of `total`:
   * the difference in Go's `int`, raised to zero when negative. When the
   * exact difference fits in 64 bits this is `max(0, total - enrolled)`;
   * below the range the difference wraps around to a large positive value.
   */
  function SeatsLeft(total: Int64, enrolled: nat): (left: Int64)
    ensures left >= 0
    ensures left == 0 || left == Wrap64(total - enrolled)
    ensures Wrap64(total - enrolled) >= 0 ==> left == Wrap64(total - enrolled)
    ensures Wrap64(total - enrolled) < 0 ==> left == 0
    ensures INT64_MIN <= total - enrolled ==>
      left >= total - enrolled && (left == 0 || left == total - enrolled)
  {
    var left := Wrap64(total - enrolled);
    if left < 0 then 0 else left
  }

  /** The wrap-around case: the most negative seat count less one passenger gives the largest count. */
  lemma SeatsLeftWrapsAround()
    ensures SeatsLeft(INT64_MIN, 1) == INT64_MAX
  {
  }

  /** The advertised seat count agrees with the seats and the passenger list. */
  predicate SeatsConsistent(t: Trip)
  {
    t.availableSeats == SeatsLeft(t.totalSeats, |t.enrolledPassengers|)
  }

  /** No identifier occurs twice in `s`. */
  predicate NoDuplicates(s: seq<string>)
  {
    forall i, j :: 0 <= i < j < |s| ==> s[i] != s[j]
  }

}

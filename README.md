# Car-pooling trip and user store

A Dafny model of the booking rules of a small car-pooling service written in Go. The service has two parts:

- The server (`mainsub.go`) keeps two in-memory maps, `users` and `trips`. Its HTTP handlers create, update and delete users. They also create, update and delete trips, enroll passengers and start trips. Each handler runs a fixed sequence of checks and answers with a status (200, 202, 400, 401 or 404). On success a create, update, enrollment or start writes one entry into one map, and a delete removes one entry from one map.
- The console client (`consolesub.go`) asks the server whether a record exists and fetches it. It then applies its own guards before it sends a request. Cancelling a trip and the one-year age limit on deleting an account exist only in these guards.

Time is modelled as an integer count of nanoseconds since a fixed epoch. This is a modelling choice: a Go `time.Time` also carries a monotonic reading and a location, and only `time.Duration` is a plain nanosecond count. `time.Until(t)` is `t - now`, with one reading of `now` per operation. Seat counts are Go's 64-bit `int` (`Int64` in the model), and the subtraction that derives available seats wraps around as Go's does.

Modules:

- `Domain` (`domain.dfy`): the user and trip records and the status kinds. It also holds the rules both sides share: a car owner's profile must be complete, a trip owner must be eligible, a trip needs thirty minutes of lead time, and the available-seat count is the 64-bit difference of seats and passengers, raised to zero when negative.
- `Handlers` (`handlers.dfy`): each server handler as a function from the decoded request and the current map to the status and the new map. A payload that does not decode is `None`. The module also holds the duplicate-enrollment scan as a method with a loop. It ends with lemmas over whole sequences of requests.
- `ServerStore` (`store.dfy`): the class `Store`, whose fields `users` and `trips` the handler methods update in place. Each method runs its handler's checks in the source's order. Each is proved to answer and leave the maps exactly as the matching `Handlers` function does. Each keeps the invariant that every stored car owner has a licence and a plate.
- `Console` (`console.dfy`): the console's guards as functions of the server's maps and the clock. Lemmas connect each guard to the handler its request then reaches.

The model follows the code where it departs from what a reader of a booking service would expect: advertised seat counts kept current, a start flag that only goes from false to true, no overbooking, a create that never overwrites an existing trip, and unique passengers on each trip. The departures:

- Enrollment does not recompute `AvailableSeats`, so the advertised count goes stale (`Handlers.EnrollLeavesSeatCountStale`).
- A PUT of a trip takes `Started` from the payload, so a started trip can be reset (`Handlers.UpdateCanClearStarted`). `Started` is one-way only for requests that do not rewrite or delete the trip (`Handlers.RunKeepsStarted`).
- The server has no negative-seat check and no capacity cap on enrollment. POST of a trip overwrites an existing one and keeps its passengers. A new trip keeps whatever passenger list its payload carries, so it can be stored with duplicate passengers (`Handlers.NewTripMayHoldDuplicates`).
- Enrollment does not check that the passenger is a known user. Deleting a user does not touch the trips that name it.
- The console's user update sends no creation time and the server's PUT does not stamp one. A re-written account therefore carries whatever creation time its payload holds, and can pass the one-year deletion check however young it is (`Console.UpdateResetsAccountAge`).

## Model

| member | source | states |
|---|---|---|
| Domain.LeadTimeBoundary | mainsub.go:172-178 | the lead-time rule holds iff `now + 30min <= startTime`; exactly thirty minutes ahead passes, one second less fails |
| Domain.SeatsLeft | mainsub.go:185-189 | available seats are never negative; they are the 64-bit wrapped difference whenever that is non-negative and zero otherwise, so a difference that wraps below Go's range gives the wrapped value; when the exact difference fits in 64 bits they are `max(0, total - enrolled)` |
| Domain.Wrap64 | mainsub.go:186 | the result lies in Go's `int` range, equals its argument when that fits, and differs from it by a multiple of 2^64 |
| Domain.SeatsLeftWrapsAround | mainsub.go:186-189 | with the most negative seat count and one passenger, the subtraction wraps and the stored count is the largest `int` |
| Handlers.UserStep | mainsub.go:85-113 | a payload that does not decode, or a car owner with an empty licence or plate, gives 400 and leaves `users` unchanged; otherwise 202 and the user is stored under the path id, no other user changes, POST stamps `createdAt := now`, PUT keeps the payload's value, and the car-owner profile invariant is preserved |
| Handlers.Delete | mainsub.go:63-76 | DELETE of a user or a trip answers 200 iff the key is present; the result is exactly the map without that key, unchanged (404) when absent |
| Handlers.TripStep | mainsub.go:138-194 | 404 iff the owner is unknown; 202 iff the owner is an eligible car owner and the start is at least thirty minutes ahead (boundary accepted); every failure leaves `trips` unchanged; on success only the path id changes, the stored trip is the payload with the previous passenger list (if that id was stored) and `availableSeats` derived by `SeatsLeft` from the seats and that list |
| Handlers.EnrollStep | mainsub.go:197-237 | 400 without a decodable body holding `user_id`, 404 for an unknown trip, 400 for an exact-match duplicate; all failures leave `trips` unchanged; on success the list is the old list plus the new id (length grows by one), every other field, `availableSeats` included, and every other trip is unchanged, and a duplicate-free list stays duplicate-free |
| Handlers.Contains | mainsub.go:216-223 | the linear scan finds the passenger iff the id occurs in the list |
| Handlers.StartStep | mainsub.go:241-289 | checks in order: 404 iff the trip is unknown, 401 iff the caller is not the owner, otherwise 400 iff started, no passengers, or less than thirty minutes before the start; failures leave `trips` unchanged; success changes only `started` from false to true |
| Handlers.StartTwice | mainsub.go:262-267 | after a successful start, a second start fails with 400 at the started check and changes nothing |
| Handlers.EnrollTwice | mainsub.go:216-229 | enrolling the same passenger twice: the second attempt fails with 400 and the list has grown by exactly one |
| Handlers.Handle | mainsub.go:47-56 | failures leave both maps unchanged, user requests leave `trips` alone, trip requests leave `users` alone, and every request preserves the car-owner profile invariant |
| Handlers.RunKeepsUsersWellFormed | mainsub.go:102-110 | every sequence of requests keeps every stored car owner's licence and plate non-empty |
| Handlers.RunFramesUntouchedTrip | mainsub.go:138-289 | a trip that no request of a sequence names is neither added, removed nor changed |
| Handlers.RunKeepsStarted | mainsub.go:197-289 | a started trip stays present and started through any requests that do not PUT, POST or DELETE it |
| Handlers.RunKeepsNoDuplicates | mainsub.go:215-229 | a duplicate-free passenger list stays duplicate-free through any requests that do not PUT, POST or DELETE that trip |
| Handlers.NewTripMayHoldDuplicates | mainsub.go:180-191 | a trip written under a new id is stored with the payload's passenger list, duplicates included |
| Handlers.EnrollLeavesSeatCountStale | mainsub.go:225-229 | enrollment leaves `availableSeats` as it was, so a consistent trip with a free seat becomes inconsistent |
| Handlers.UpdateCanClearStarted | mainsub.go:180-191 | a PUT with an eligible owner and a not-started payload resets a started trip to not started |
| ServerStore.Store.constructor | mainsub.go:39-42 | the store starts with empty `users` and `trips` maps and satisfies the car-owner invariant |
| ServerStore.Store.CreateOrUpdateUser | mainsub.go:85-113 | the handler's status and new `users` are those of `UserStep`, `trips` is untouched, the car-owner invariant is kept |
| ServerStore.Store.DeleteUser | mainsub.go:63-76 | 200 and the key removed when present, 404 otherwise; `users` becomes the old map without the key, `trips` is untouched |
| ServerStore.Store.DeleteTrip | mainsub.go:116-129 | 200 and the key removed when present, 404 otherwise; `trips` becomes the old map without the key, `users` is untouched |
| ServerStore.Store.CreateOrUpdateTrip | mainsub.go:138-194 | the handler's status and new `trips` are those of `TripStep`, `users` is untouched |
| ServerStore.Store.EnrollPassenger | mainsub.go:197-237 | the handler, through its duplicate scan, gives the status and new `trips` of `EnrollStep`; `users` is untouched |
| ServerStore.Store.StartTrip | mainsub.go:241-289 | the handler's status and new `trips` are those of `StartStep`; on success the trip is stored as started |
| Console.CreateUserCheck | consolesub.go:107-111 | creating a user proceeds iff the id is not stored |
| Console.UpdateUserCheck | consolesub.go:168-172 | updating a user proceeds iff the user is stored |
| Console.DeleteUserCheck | consolesub.go:229-259 | deletion is refused for an unknown user, and otherwise iff `createdAt` is strictly after `oneYearAgo`; an account created exactly then may go |
| Console.DeleteUserFlow | consolesub.go:224-262 | a user whose account is old enough is removed and no other user changes; a younger account or an unknown user leaves `users` unchanged; the car-owner invariant is kept |
| Console.CreateTripCheck | consolesub.go:273-349 | refusals in order: the trip id is taken, the owner is unknown, the owner is not a car owner, the profile is incomplete, the start is before `now + 30min`; it proceeds iff none holds (boundary accepted) |
| Console.TripPresenceCheck | consolesub.go:385-389 | enrolling and listing status proceed iff the trip is stored |
| Console.StartWindowOpen | consolesub.go:461-465 | the window is open iff `now <= startTime + 30min` |
| Console.StartWindowBoundary | consolesub.go:461-465 | the window is open thirty minutes early, on time, and exactly thirty minutes late, and closed one second later |
| Console.StartCheck | consolesub.go:443-465 | refusals in order: not the owner, already started, no passengers, more than thirty minutes late; it proceeds iff none holds |
| Console.CancelCheck | consolesub.go:656-666 | a started trip is refused whatever the time; an unstarted one iff `now > startTime + 30min` |
| Console.CancelTrip | consolesub.go:626-670 | when the guard passes, the trip is deleted and nothing else changes; otherwise, and always for a started trip, `trips` is unchanged |
| Console.StartPassingBothGuards | consolesub.go:461-468 | a start that passes the console's guard and the server's handler happens at least thirty minutes before the scheduled time |
| Console.ServerStartAfterConsole | mainsub.go:276-281 | once the console lets a start through, the server accepts iff the trip is at least thirty minutes away, and otherwise answers 400 and changes nothing |
| Console.ServerRefusesOnTimeStart | mainsub.go:276-281 | a start on the scheduled instant passes the console's guard but the server answers 400 |
| Console.ConsoleCreatedTripIsScheduled | consolesub.go:365-377 | a trip the console lets through, sent without passengers and not started, is stored with no passengers, not started and, for non-negative seats, all seats available; no other trip changes |
| Console.CreateLeadTimesAgree | consolesub.go:344-349 | the console's lead-time check and the server's accept exactly the same start times |
| Console.UpdateResetsAccountAge | consolesub.go:199-259 | a PUT whose payload carries a creation time at or before `oneYearAgo` turns an account too young to delete into one the deletion check lets through |
| Console.StartedTripNeverCancelled | consolesub.go:656-660 | after a successful start, cancellation is refused as already started at any later time and leaves `trips` unchanged |

## Findings

| source | as written | input that shows it | evidently intended | confidence | as-written member | corrected member |
|---|---|---|---|---|---|---|
| mainsub.go:276-281 | the start handler refuses when `time.Until(startTime) < 30min`, so a trip can start only at least thirty minutes BEFORE its scheduled time | a not-started trip with one passenger, started by its owner at `now == startTime`: the console's guard passes, the server answers 400 | refuse only more than thirty minutes AFTER the scheduled time (`< -30min`), as the handler's own error message, the console's guard at consolesub.go:462 and its cancellation window say | high; not executed | Handlers.StartStep, shown by Console.ServerRefusesOnTimeStart | Console.StartWindowOpen, with Console.StartWindowBoundary |

The server methods keep the rule as written, so they describe the code that runs. The intended window, `StartWindowOpen`, is the one the console's start and cancel guards use.

## Left out

- HTTP routing, the request and response writers and all `fmt` output are not modelled. Only the returned status kind is.
- JSON encoding and decoding are left out. A payload is the already-decoded record, or `None` when decoding failed. The console's HTTP helpers (`createOrUpdateTrip`, `createOrUpdateUser`, `getData`, `deleteUserByID`, `startTripOnServer`, `userExists`, `tripExists`) are network I/O. Their existence probes appear as membership in the server's maps.
- The console menu loop, the prompts and the scanner reads are user interface and are not modelled. So are the payload maps the console builds by assignment.
- `strconv.ParseBool`, `strconv.Atoi` and the `time.Parse` of an `HH:MM` start time are library calls. The model takes the already-parsed values.
- `time.Now().AddDate(-1, 0, 0)` is calendar arithmetic. The age check takes `oneYearAgo` as a parameter.
- Concurrent handlers touch the maps without locks. Each operation is modelled as one atomic step, and races are not modelled. The console's guard and the request it sends are assumed to see the same store and the same `now`.
- The GET branches of the user and trip handlers and the listing handlers (`getAllUsers`, `getAllTrips`, the console's listing and status printing) only read. The model uses them only as the existence probes above.
- Time arithmetic is not bounded: the `int64` nanosecond overflow and the saturation of `time.Until`, and monotonic clock readings, are not modelled. Seat arithmetic, by contrast, wraps as in Go. The passenger count is not bounded by the `int` range.
- Profile strings (names, e-mail, mobile number, locations) are opaque and unvalidated, as in the code.
- The console's update sends no creation time, so a PUT stores whatever the decoded payload carries. The model passes that value through and does not model Go's zero time.

# Flight booking, marketplace orders and retention: a verified model

This project models the parts of the repository in which several steps, several processes or several
tables have to agree, and proves what they keep.  Run `dafny verify dfyconfig.toml`.

## What is modelled

**Seats and bookings (`дз_3`).**  `FlightDb` says what one committed call does to the flight database
and what seat accounting means.  `FlightTransactions` runs the two store transactions statement by
statement: any number at once, with row locks, with the unique booking id, with rollbacks at any point,
and with operators who insert flights and change their status.  It proves that every interleaving equals
uninterrupted calls in commit order, and `FlightProgress` that each of its statements is a step towards the
end.  `FlightStore` performs the calls in place.

`BookingSaga` is the protocol between the two services: requests sit in a bag, and each of them may be
lost, delayed, or processed many times, also after its sender gave up; handlers retry, compensate, and may
stop anywhere.  `BookingLaws` states what every run keeps, and gives runs that show what is not promised.
`BookingHandler` is the imperative `CreateBooking` and `CancelBooking`; its ghost trace is a run of
`BookingSaga`, so the laws hold of the tables it leaves behind, and `RetriedCalls` says what the retries of
one call come to.

**The cache (`дз_3`).**  `FlightCache` is Redis with its two scripts, expiry included.  `CacheProtocol`
interleaves readers, writers, operators and time, one command at a time; any cache call may fail.
`StaleHits` and `StaleLists` hold the executions in which a reader sees a flight or a list that is old, and
say exactly when a list is.
`FlightServer` is the imperative service on top of both.

**The circuit breaker (`дз_3`).**  `CircuitBreakers` relates the breaker to the history of the calls it
received, late reports included.  `RetryClient` is the retry loop, and many such loops sharing a breaker.

**Orders (`дз_2`).**  `Orders` says what create, update and cancel make of stock, promo codes, money and
operations; `OrderService` does it with the loops of the source; `OrderLaws` proves what runs of the three
keep, with sellers and deliveries as an environment; `OrderOutcomes` says when each of them succeeds, with which
error it refuses and what it stores.  `OrderRaces` takes cancels apart into the steps that
other handlers can come between.  `дз_2_prob` holds an identical copy.

**Retention (`dz_5`).**  `Retention` writes out the retention query, the cohort query and the daily users as
functions of any table of events.  `Aggregation` rewrites the tables that store their results.

`Sums` and `Windows` hold the two pieces of arithmetic that several modules need: totals over a map, and how
many instants that keep a distance fit into a window.

## Where the code and its descriptions differ

- A write deletes the cached payload before it raises the version key, so a reader with an older row can
  fill it in between.  `CacheProtocol.WriteIsSeenUnlessOvertaken` says exactly when an old flight is shown,
  and `StaleHits.StaleFlightIsHit` gives such an execution for every new flight.
- A cached list shows only the maximum of its rows' versions, so a list that was read before a write can be
  filled in even after the write's fence.  `StaleLists.OldListIsHitIff` says exactly when an old list is shown,
  and `StaleLists.StaleListIsHit` gives such an execution for every two new flights of a search.
- Lists are kept by flight date, but a write deletes the list of the day of departure.  Where the two differ a
  list stays old without any race: exactly when by `FlightServer.ListsDroppedIff`, in an execution for every
  such flight by `StaleLists.DatedListStaysOld`.
- An insertion of a booking may be stored although its handler sees an error, and the handler then
  compensates.  So a confirmed booking can lose its seats without any cancellation
  (`BookingLaws.LostInsertionLosesSeats`); exactly when it does is `BookingLaws.ConfirmedLosesSeatsIff`.
- Seats can stay taken without a booking (`BookingLaws.SeatsCanLeak`; exactly when by
  `BookingLaws.HeldWithoutBookingIff`), and a confirmed booking can be without seats
  (`BookingLaws.ConfirmedCanLoseSeats`).
- The store looks for free seats before it looks for the booking id.  So a retried reservation whose first
  attempt went through unheard is refused, and its seats stay taken, unless as many seats are free once more:
  `RetriedCalls.RetriedReserve`, with a case in `RetriedCalls.RetryCanLoseSeats`.
- A probe of the breaker that ends in any other error than Unavailable or DeadlineExceeded reports nothing,
  and the breaker stays half open: exactly when by `CircuitBreakers.HalfOpenIffUnansweredProbe`, for how long by
  `CircuitBreakers.StuckWithoutReport`, for every configuration by `CircuitBreakers.ProbeCanGetStuck`.
- Total and discount of an order are rounded separately, and add up to one cent too much when the discount
  falls on a half cent: exactly when by `OrderLaws.RoundedParts`, in a run by `OrderLaws.PartsCanExceedAmount`.
- A cancel reads its order before it locks anything, so two cancels of one order can give its stock back twice:
  exactly when a cancel conserves stock by `OrderRaces.FinishConservesIff`, in a run by
  `OrderRaces.StockGivenBackTwice`.

## Assumptions

UUIDs are numbers.  Money is in cents, times are whole units of one clock that does not go back.  Flights
start with all seats free, at any version, and only the store's transactions touch their seat and version
columns.  Booking ids are fresh, as `uuid.NewString` makes them.  A booking id has one spelling.  Each
order handler is one step, except in `OrderRaces`.  An insertion of a booking that is reported as failed may be
stored at any later time; the marking of a cancelled booking is stored at once or never.  Foreign keys hold
and rows are not deleted.

## Model

| member | source | states |
|---|---|---|
| FlightDb.ReserveAnswers | дз_3/flight_service/internal/store/store.go:133-155 | a reservation succeeds exactly if the flight is scheduled, the seats that active reservations leave suffice, and the booking id is new; each refusal has its own exact condition; only this flight's held seats grow, by exactly the seats asked for |
| FlightDb.ReleaseAnswers | дз_3/flight_service/internal/store/store.go:181-218 | a release succeeds exactly for an active reservation and returns exactly its seats to its flight |
| FlightDb.ReleaseUndoesReserve | дз_3/flight_service/internal/store/store.go:112-224 | reserve then release restores the flight row except for two version steps, and the booking id can never be used again |
| FlightDb.ApplyKeepsBalanced | дз_3/flight_service/internal/store/store.go:112-224 | every call conserves available + active seats = total, and version = first version + reservations + releases |
| FlightDb.ApplyAdvances | дз_3/flight_service/internal/store/store.go:196-214 | a call succeeds exactly when it moves its own booking one step along absent, active, released; other bookings stay; a refused call changes nothing |
| FlightDb.ApplyFollows | дз_3/flight_service/internal/store/store.go:148-153 | a version never goes back, moves by one with each success, and fixes the number of free seats |
| FlightTransactions.StatementRefinesCall | дз_3/flight_service/internal/store/store.go:112-172 | a statement either leaves the committed rows alone or ends its transaction with the database and answer of the uninterrupted call; only a booking id committed meanwhile makes it fail without effect |
| FlightTransactions.RunIsSafe | дз_3/flight_service/internal/store/store.go:112-224 | in every interleaving, locks match the statements done, what a transaction remembers is current, and seats are conserved |
| FlightTransactions.RunIsSerial | дз_3/flight_service/internal/store/store.go:112-224 | every interleaving equals uninterrupted calls in commit order, with the same answers |
| FlightTransactions.NeverOversold | дз_3/flight_service/migrations/0001_init.up.sql:11-18 | every committed state of every interleaving has available + active seats = total and 0 <= available <= total |
| FlightTransactions.WrittenRowsPassChecks | дз_3/flight_service/migrations/0001_init.up.sql:11-18 | the checks on seats never reject an update of the two transactions |
| FlightTransactions.NoDeadlock | дз_3/flight_service/internal/store/store.go:121-207 | whatever locks are held, some unfinished transaction can take its next statement |
| FlightProgress.StatementIsProgress | дз_3/flight_service/internal/store/store.go:112-224 | every statement that can be taken leaves one statement less of five or four, or ends its transaction |
| FlightProgress.AtMostFiveStatements | дз_3/flight_service/internal/store/store.go:112-224 | in no interleaving does a transaction take more than five statements |
| FlightProgress.CallAloneIsAnswered | дз_3/flight_service/internal/store/store.go:112-224 | a call that starts with no locks held and is left alone ends within five statements with the database and the answer of the call |
| FlightProgress.AnswersAreSerial | дз_3/flight_service/internal/store/store.go:112-224 | every answer given in an interleaving stands in the serial history |
| FlightProgress.RollbackWritesNothing | дз_3/flight_service/internal/store/store.go:112-117 | a transaction may be rolled back wherever it stands, and has then written nothing |
| FlightDb.SearchFinds | дз_3/flight_service/internal/store/store.go:52-90 | a search lists exactly the scheduled flights of its route and date, each once with its row, by departure |
| FlightDb.DepartureDayIsDay | дз_3/flight_service/internal/grpcserver/server.go:138 | the day of departure is the calendar day that the departure falls in |
| FlightStore.Store.ReserveSeats | дз_3/flight_service/internal/store/store.go:112-172 | row by row: the database and the answer of the atomic reservation that the laws of `FlightDb` describe; seats stay conserved |
| FlightStore.Store.ReleaseReservation | дз_3/flight_service/internal/store/store.go:174-224 | row by row: the database and the answer of the atomic release that the laws of `FlightDb` describe; seats stay conserved |
| FlightStore.Store.SearchFlights | дз_3/flight_service/internal/store/store.go:52-90 | the row loop returns the rows of exactly the matching flights, in the order of the query |
| BookingSaga.ActKeepsSound | дз_3/booking_service/internal/http/handlers.go:135-167 | every step of any create, cancel, delivery or operator keeps the two databases consistent |
| BookingLaws.RunIsSound | дз_3/booking_service/internal/http/handlers.go:114-220 | that consistency in every state of every run |
| BookingLaws.BookingsAreBacked | дз_3/booking_service/internal/http/handlers.go:149-167 | every booking has a reservation of the same id, flight and seats; a cancelled one has released it |
| BookingLaws.HeldIffOffered | дз_3/flight_service/internal/store/store.go:133-155 | in every run a booking id has a reservation if and only if some delivery of its request found the flight scheduled with enough seats left |
| BookingLaws.ReleasedIffDelivered | дз_3/flight_service/internal/store/store.go:196-218 | in every run a reservation is released if and only if some release of it was delivered, whatever the answer |
| BookingLaws.HeldWithoutBookingIff | дз_3/booking_service/internal/http/handlers.go:135-165 | seats are held without a booking if and only if a reservation was delivered while seats were on offer, no release was delivered, and the create has neither returned 201 nor had its insertion stored unseen |
| BookingLaws.ConfirmedLosesSeatsIff | дз_3/booking_service/internal/http/handlers.go:203-219 | a confirmed booking has lost its seats if and only if a release was delivered, whatever its answer, that a cancel sent, or that its own create sent because its insertion was stored but reported as failed |
| BookingLaws.CreatedKeepsSeats | дз_3/booking_service/internal/http/handlers.go:135-167 | after a 201 the booking is confirmed and its seats active until some cancel asks for the release |
| BookingLaws.CancelledOnce | дз_3/booking_service/internal/http/handlers.go:203-219 | at most one cancel of a booking returns 200, and then booking and seats are given up |
| BookingLaws.ReservationsAdvance | дз_3/flight_service/internal/store/store.go:196-214 | over any stretch of a run reservations only advance and are never rewritten |
| BookingLaws.SucceedsOnce | дз_3/flight_service/internal/store/store.go:141-155 | under repeated and late delivery a booking id takes seats at most once and returns them at most once, in that order |
| BookingLaws.VersionCountsCalls | дз_3/flight_service/internal/store/store.go:148-207 | a flight's version is its first one plus the number of its reservations plus the number of its released ones |
| BookingLaws.NoOverbooking | дз_3/booking_service/internal/http/handlers.go:135-167 | the bookings that still have their seats never hold more than the flight has taken, let alone its total |
| BookingLaws.SeatsCanLeak | дз_3/booking_service/internal/http/handlers.go:141-147 | for every flight with enough seats there is a run in which a caller hangs up and the seats stay taken without a booking |
| BookingLaws.ConfirmedCanLoseSeats | дз_3/booking_service/internal/http/handlers.go:208-218 | there is a run in which a created booking stays confirmed although a failed cancel released its seats |
| BookingLaws.LostInsertionLosesSeats | дз_3/booking_service/internal/http/handlers.go:160-165 | there is a run without any cancel in which an insertion reported as failed leaves a confirmed booking without seats |
| BookingLaws.NetworkIsFree | дз_3/booking_service/internal/grpcclient/client.go:96-113 | whatever was sent may be delivered again and again, and any attempt may end in any error |
| BookingLaws.LateRowMayCome | дз_3/booking_service/internal/http/handlers.go:160-165 | an insertion reported as failed may be stored at any later time |
| FlightApi.ReserveCodes | дз_3/flight_service/internal/grpcserver/server.go:122-134 | which situation of a reservation is answered with which code |
| FlightApi.ReleaseCodes | дз_3/flight_service/internal/grpcserver/server.go:156-162 | a release is answered OK exactly for an active reservation, and NotFound otherwise |
| BookingHandler.CreateRefused | дз_3/booking_service/internal/http/handlers.go:141-147 | a reservation answered at once is refused with 404 exactly if the flight is not on offer and 409 exactly if it is and the seats do not fit; one that is not reached at last with 503 |
| BookingHandler.CancelRefused | дз_3/booking_service/internal/http/handlers.go:208-212 | a release answered at once is refused with 404 exactly if the reservation is not active; one that is not reached at last with 503 |
| BookingHandler.Handler.CreateBooking | дз_3/booking_service/internal/http/handlers.go:114-168 | its steps are a run of the protocol; the status of every exit; a 201 exactly if the breaker admits, the insertion is seen, and the last attempt finds enough seats; the bookings and the flight database after every outcome; seats stay active exactly if the reservation arrived in time and no compensation did |
| BookingHandler.Handler.CancelBooking | дз_3/booking_service/internal/http/handlers.go:188-220 | its steps are a run of the protocol; the status of every exit; a 200 exactly if the reservation was active, the mark is seen, and the last attempt is answered and the first to arrive; the bookings and the reservation after every outcome |
| BookingHandler.Handler.Reserve | дз_3/booking_service/internal/grpcclient/client.go:94-119 | how many attempts are made, whose end is returned, what they leave in the flight database, and the stage the run goes to |
| BookingHandler.Handler.Compensate | дз_3/booking_service/internal/http/handlers.go:160-165 | the reservation is released once if any attempt arrives, and the run ends in a 500 whatever the answers |
| BookingHandler.Handler.Release | дз_3/booking_service/internal/grpcclient/client.go:94-119 | how many attempts are made, whose end is returned, what they leave in the flight database, and the stage the run goes to |
| RetriedCalls.LastAttempt | дз_3/booking_service/internal/grpcclient/client.go:96-113 | the attempt that stops the loop: it alone does not end in a transport failure, or it is the third |
| RetriedCalls.OneMoreAttempt | дз_3/booking_service/internal/grpcclient/client.go:96-113 | however many attempts arrive, the database changes as by one |
| RetriedCalls.RetriedReserve | дз_3/flight_service/internal/store/store.go:137-146 | a new booking gets its seats if and only if they are on offer and some attempt arrives; the caller is told so if and only if the last attempt is answered and, when an earlier one had arrived, as many seats are free once more |
| RetriedCalls.RetryCanLoseSeats | дз_3/flight_service/internal/store/store.go:137-146 | for every new flight with room for one such booking and not for two, a lost first answer ends in a refusal while the seats stay taken |
| RetriedCalls.RetriedRelease | дз_3/flight_service/internal/store/store.go:196-198 | a retried release releases if and only if some attempt arrives; it is told OK if and only if the reservation was active and the answered last attempt is the first to arrive |
| CircuitBreakers.CircuitBreaker.constructor | дз_3/booking_service/internal/grpcclient/circuit_breaker.go:20-28 | a closed breaker with replaced non-positive settings |
| CircuitBreakers.CircuitBreaker.Allow | дз_3/booking_service/internal/grpcclient/circuit_breaker.go:30-53 | a closed breaker admits; an open one whose time is up turns half open and lets one probe through; any other call is refused and changes nothing |
| CircuitBreakers.CircuitBreaker.OnSuccess | дз_3/booking_service/internal/grpcclient/circuit_breaker.go:55-66 | a success clears the counter and closes a half-open breaker; an open one stays open |
| CircuitBreakers.CircuitBreaker.OnFailure | дз_3/booking_service/internal/grpcclient/circuit_breaker.go:68-88 | only breaker errors count: one more failure while closed, opening at the threshold; a half-open breaker opens again for a whole timeout |
| CircuitBreakers.ClosedCountsFailures | дз_3/booking_service/internal/grpcclient/circuit_breaker.go:55-88 | for every history: while closed the counter is the number of breaker failures since the last success and below the threshold; half open exactly when the flag is set |
| CircuitBreakers.OpensExactlyAtThreshold | дз_3/booking_service/internal/grpcclient/circuit_breaker.go:81-87 | a closed breaker opens on exactly the report that reaches the threshold |
| CircuitBreakers.HalfOpenIffUnansweredProbe | дз_3/booking_service/internal/grpcclient/circuit_breaker.go:36-49 | half open exactly while an admitted probe has no conclusive report, and then no call is admitted |
| CircuitBreakers.ClosesIff | дз_3/booking_service/internal/grpcclient/circuit_breaker.go:55-66 | a breaker that is not closed closes on exactly the success that comes while a probe is unanswered |
| CircuitBreakers.OpenAdmitsIff | дз_3/booking_service/internal/grpcclient/circuit_breaker.go:34-52 | an open breaker admits exactly the calls that come more than a timeout after the report that opened it |
| CircuitBreakers.LeavesOpenIff | дз_3/booking_service/internal/grpcclient/circuit_breaker.go:35-43 | an open breaker leaves that state exactly with a call that it admits, which becomes its probe |
| CircuitBreakers.FailedProbeReopens | дз_3/booking_service/internal/grpcclient/circuit_breaker.go:76-80 | a failed probe opens the breaker for exactly one more timeout |
| CircuitBreakers.StuckWithoutReport | дз_3/booking_service/internal/grpcclient/circuit_breaker.go:69-71 | as long as no conclusive report follows a probe, no call is ever admitted again |
| CircuitBreakers.ProbeCanGetStuck | дз_3/booking_service/internal/grpcclient/circuit_breaker.go:69-71 | for every configuration, a history whose probe ends in another error leaves the breaker stuck |
| CircuitBreakers.AdmissionsFarApart | дз_3/booking_service/internal/grpcclient/circuit_breaker.go:34-52 | two admissions while the breaker does not close are more than the timeout apart |
| CircuitBreakers.TrippedAdmissionBound | дз_3/booking_service/internal/grpcclient/circuit_breaker.go:76-87 | such a window admits at most length / (timeout + 1) + 1 calls |
| RetryClient.CallWithRetry | дз_3/booking_service/internal/grpcclient/client.go:89-119 | which attempt's answer is returned, how many are made, how long the loop sleeps, and exactly one report to the breaker |
| RetryClient.RetryTiming | дз_3/booking_service/internal/grpcclient/client.go:95-113 | three attempts, 100 and 200 milliseconds apart |
| RetryClient.CallTries | дз_3/booking_service/internal/grpcclient/client.go:96-118 | one of many concurrent calls makes attempts until one is not to be retried, and has that one's end to report |
| RetryClient.BreakerHears | дз_3/booking_service/internal/grpcclient/client.go:90-118 | the breaker hears of every admission and of every report, and of nothing else |
| RetryClient.ScheduleBounded | дз_3/booking_service/internal/grpcclient/client.go:96-113 | in every schedule of concurrent calls each call was admitted and made at most three attempts |
| RetryClient.TrippedTrafficBound | дз_3/booking_service/internal/grpcclient/client.go:89-119 | however calls interleave and report late, a window of a tripped breaker lets out at most three requests per timeout, plus three |
| FlightCache.Cache.SetPayloadIfNewer | дз_3/flight_service/internal/cache/cache.go:17-25 | writes payload and version exactly if no live version key is newer |
| FlightCache.Cache.SetVersion | дз_3/flight_service/internal/cache/cache.go:27-34 | writes the version exactly if no live version key is newer |
| FlightCache.Cache.InvalidateSearch | дз_3/flight_service/internal/cache/cache.go:132-138 | neither the list of the day nor the list of any day can be hit at any time; every other payload and all versions stay |
| FlightCache.RunIsCovered | дз_3/flight_service/internal/cache/cache.go:17-34 | in every run of commands and time, a live payload has a live version key that outlives it and is no older |
| FlightCache.EverythingExpires | дз_3/flight_service/internal/cache/cache.go:20-21 | once a time to live has passed with nothing filled in, nothing is hit |
| FlightCache.PayloadsNeverGoBack | дз_3/flight_service/internal/cache/cache.go:17-34 | during one lifetime of a version key, the version and the payloads hit never go back |
| FlightCache.HitWasInstalled | дз_3/flight_service/internal/cache/cache.go:125-130 | what is hit after a deletion was installed by a later accepted fill that still stands |
| FlightCache.StaleHitIff | дз_3/flight_service/internal/grpcserver/server.go:135-144 | while the version key lives, a payload older than the fence is hit if and only if an older fill was accepted between deletion and fence and still stands |
| FlightCache.FenceHolds | дз_3/flight_service/internal/grpcserver/server.go:135-144 | without an older fill in that window every later hit is at least as new as the fence |
| CacheProtocol.MaxVersionIsMax | дз_3/flight_service/internal/grpcserver/server.go:59-66 | the version of a list is the maximum of its rows' versions |
| CacheProtocol.ActKeepsSound | дз_3/flight_service/internal/grpcserver/server.go:74-175 | every step of readers, writers, operators and time keeps cache and history consistent |
| CacheProtocol.ExecutionIsSound | дз_3/flight_service/internal/grpcserver/server.go:74-175 | that consistency in every reachable state |
| CacheProtocol.AnythingMayFail | дз_3/flight_service/internal/grpcserver/server.go:82-105 | time may pass, and any call of any handler may fail, in every world |
| CacheProtocol.ChangesAreLogged | дз_3/flight_service/internal/grpcserver/server.go:122-136 | every commit and edit is one more state of the database, and a commit makes its handler a writer of the flight it changed |
| CacheProtocol.VersionFixesSeats | дз_3/flight_service/internal/store/store.go:148-153 | over the whole history one version of a flight stands for one number of free seats |
| CacheProtocol.FlightHitIsCommitted | дз_3/flight_service/internal/grpcserver/server.go:94-104 | a flight that is hit was a committed row, its seats are those of its version, and payload version <= key version <= database version, the key expiring no earlier |
| CacheProtocol.SearchHitIsSnapshot | дз_3/flight_service/internal/grpcserver/server.go:54-70 | a list that is hit answers its query in one committed state, and its maximum version is at most that of its live key |
| CacheProtocol.CurrentFillAccepted | дз_3/flight_service/internal/cache/cache.go:154-158 | a fill with the current version of its flight is never refused |
| CacheProtocol.HitsInOrder | дз_3/flight_service/internal/cache/cache.go:17-25 | readers see the versions of a flight or list in order during one lifetime of its key |
| CacheProtocol.WriteIsSeenUnlessOvertaken | дз_3/flight_service/internal/grpcserver/server.go:135-144 | after a write's fence a hit is older than the write if and only if an older fill landed between its deletion and its fence and still stands |
| StaleHits.StaleFlightIsHit | дз_3/flight_service/internal/grpcserver/server.go:136-140 | for every new flight on sale there is an execution of a reader and a writer after whose fence the flight is hit with the seat still free |
| StaleLists.ListFillAcceptedIff | дз_3/flight_service/internal/grpcserver/server.go:59-69 | a list passes a live version key above 0 if and only if one of its rows reaches it |
| StaleLists.OldListIsHitIff | дз_3/flight_service/internal/grpcserver/server.go:135-144 | in every execution, after a write has deleted and fenced a list, the list is hit with a row of the flight older than the write if and only if such a list was filled in since the deletion, with a row that reaches the version key alive then, and still stands |
| StaleLists.LateListIsCarried | дз_3/flight_service/internal/grpcserver/server.go:59-69 | while the version key lives, an old row gets past the fence only in a list in which another flight reaches it |
| StaleLists.StaleListIsHit | дз_3/flight_service/internal/grpcserver/server.go:59-69 | for every two new flights of one search, whatever their versions and departures, there is an execution in which a list is hit that shows one of them as it was before a write that is through |
| StaleLists.DatedListStaysOld | дз_3/flight_service/internal/grpcserver/server.go:138-142 | for every new flight whose date is not its day of departure there is an execution without overlap in which its dated list is hit as it was before a write |
| FlightServer.WriteFences | дз_3/flight_service/internal/grpcserver/server.go:136-142 | after a write the payload of the flight and both lists of its route are gone, everything older is refused for each of the three keys, and nothing else is |
| FlightServer.WriteLeavesOthers | дз_3/flight_service/internal/grpcserver/server.go:136-142 | a write leaves the payload and the version of every other key |
| FlightServer.WriterAlone | дз_3/flight_service/internal/grpcserver/server.go:135-144 | the stages of a writer of the interleaved model, uninterrupted, come to that write |
| FlightServer.FlightReaderAlone | дз_3/flight_service/internal/grpcserver/server.go:82-105 | the steps of a reader of a flight, uninterrupted, come to a hit without effect, or to the fill of the committed row |
| FlightServer.ListReaderAlone | дз_3/flight_service/internal/grpcserver/server.go:42-71 | the steps of a reader of a list, uninterrupted, come to a hit without effect, or to the fill of the snapshot |
| FlightServer.ListsDroppedIff | дз_3/flight_service/internal/grpcserver/server.go:138-142 | an uninterrupted write leaves no list that shows its flight if and only if the flight date is the day of departure or there was no list of the flight date |
| FlightServer.Server.GetFlight | дз_3/flight_service/internal/grpcserver/server.go:82-105 | a hit is returned as it is; otherwise the committed row is returned and offered to the cache under its version |
| FlightServer.Server.Collect | дз_3/flight_service/internal/grpcserver/server.go:59-66 | the loop keeps all rows in order and finds their maximum version |
| FlightServer.Server.SearchFlights | дз_3/flight_service/internal/grpcserver/server.go:42-71 | a hit is returned as it is; otherwise the snapshot is returned and offered under its maximum version |
| FlightServer.Server.ReserveSeats | дз_3/flight_service/internal/grpcserver/server.go:118-145 | the code of each outcome, the specified write, and the cache after deletion, rereading and fencing |
| FlightServer.Server.ReleaseReservation | дз_3/flight_service/internal/grpcserver/server.go:156-174 | the code of each outcome, the specified write, and the cache after deletion, rereading and fencing |
| FlightServer.AfterWriteIsFresh | дз_3/flight_service/internal/grpcserver/server.go:135-144 | after an uninterrupted write nothing older can be hit or installed for its flight |
| Orders.SellableIff | дз_2/app/src/main.py:381-405 | the checks pass exactly if each product is there, active, and has stock for all its lines together |
| OrderService.Aggregate | дз_2/app/src/main.py:354-357 | the loop adds up the quantities per product and keeps the products in order of first mention |
| OrderService.CheckSellable | дз_2/app/src/main.py:381-386 | the first product that is missing or inactive decides the error |
| OrderService.FindShortages | дз_2/app/src/main.py:388-398 | exactly the products short of stock are listed, with what was requested and what is there |
| OrderService.TakeStock | дз_2/app/src/main.py:407-408 | the loop takes the aggregated quantity of each product and touches no other |
| OrderService.Restock | дз_2/app/src/main.py:503-506 | the loop gives back each product's total over the lines, duplicates included |
| OrderService.PriceItems | дз_2/app/src/main.py:410-422 | the lines carry the current prices and the amount is their subtotal |
| OrderService.Service.CheckRateLimit | дз_2/app/src/main.py:142-155 | looking at the latest operation finds out whether any operation is too recent |
| OrderService.Service.CreateOrder | дз_2/app/src/main.py:348-450 | the loops come to the specification that the laws of `OrderLaws` describe: every refusal in its order, and then stock, order, code and operation together; a failure leaves every table as it was |
| OrderService.Service.UpdateOrder | дз_2/app/src/main.py:467-578 | likewise: stock of the old lines back before the check, the new lines taken, the code kept or returned; a failure leaves every table as it was |
| OrderService.Service.CancelOrder | дз_2/app/src/main.py:581-626 | likewise: stock and the use of a code given back once; a failure leaves every table as it was |
| OrderLaws.PricedQuantity | дз_2/app/src/main.py:412-422 | the lines of an order hold of each product exactly what the items ask for |
| OrderLaws.DiscountBounds | дз_2/app/src/main.py:167-181 | a discount lies between 0 and the amount, and within 70 per cent for percentage codes |
| OrderLaws.RoundedParts | дз_2/app/src/models/order.py:28-29 | rounded total and rounded discount add up to the amount, or to one cent more exactly when the discount falls on a half cent |
| OrderLaws.PartsCanExceedAmount | дз_2/app/src/models/order.py:28-29 | there is a run in which a product for 1.01 with half of it off is stored as 0.51 and 0.51 |
| OrderLaws.SellKeepsStock | дз_2/app/src/main.py:494-535 | taking the new items after giving back the old ones conserves stock plus held quantities, and never overdraws |
| OrderLaws.HeldCodeIsCounted | дз_2/app/src/main.py:563-564 | a code that a live order holds has a counted use, so the guard never suppresses a decrement |
| OrderLaws.ActKeepsSound | дз_2/app/src/main.py:348-626 | every handler and every environment step keeps stock, promo uses, money, one active order and the rate limit |
| OrderLaws.RunIsSound | дз_2/app/src/main.py:348-626 | all of that in every state of every run |
| OrderLaws.StockConserved | дз_2/app/src/main.py:407-408 | stock plus what uncancelled orders hold is the stock supplied, and stock is never negative |
| OrderLaws.PromoUsesCounted | дз_2/app/src/main.py:431-440 | the uses of a code are the uncancelled orders that hold it, never more than its maximum |
| OrderLaws.ReturnedUseExists | дз_2/app/src/main.py:614-617 | whenever an update or cancel gives back a use there is one to give back |
| OrderLaws.OrdersAddUp | дз_2/app/src/models/order.py:28-29 | the stored total and discount of every order add up to its lines, or to one cent more, each within the subtotal |
| OrderLaws.OneActiveOrder | дз_2/app/src/main.py:365-371 | a user has at most one order that is created or awaits payment |
| OrderLaws.OperationsPerWindow | дз_2/app/src/main.py:142-155 | a window holds at most length / limit + 1 operations of one kind by one user |
| OrderLaws.UpdateFitsIff | дз_2/app/src/main.py:503-535 | an update fits exactly if stock plus the old lines covers the new items, and leaves the difference |
| OrderLaws.TakeBackAndTake | дз_2/app/src/main.py:503-506 | giving back what an order's items took restores the product table |
| OrderLaws.LastUpdateCounts | дз_2/app/src/main.py:467-578 | two updates leave the stock the second alone would have left |
| OrderLaws.CancelUndoesCreate | дз_2/app/src/main.py:599-619 | cancelling a fresh order succeeds and restores stock and promo uses |
| OrderLaws.CreatedMoney | дз_2/app/src/main.py:424-440 | a new order stores its code's exact discount, bounded and rounded as above, or none |
| OrderLaws.UpdatedMoney | дз_2/app/src/main.py:551-569 | an update recomputes the discount, and drops the code exactly if the new lines miss its minimum |
| OrderOutcomes.AmountIsSubtotal | дз_2/app/src/main.py:410-422 | the amount of an order is the sum of quantity times price over its items |
| OrderOutcomes.SubtotalAdds | дз_2/app/src/main.py:415 | amounts of lines add up |
| OrderOutcomes.SubtotalOfOne | дз_2/app/src/main.py:415 | the amount of one line is its quantity times its price |
| OrderOutcomes.RoundsToNearest | дз_2/app/src/models/order.py:28-29 | stored money is the nearest cent, half a cent going up |
| OrderOutcomes.DiscountIs | дз_2/app/src/main.py:171-181 | a percentage code takes its share or 70 per cent if that is less, a fixed code its value or the amount if that is less |
| OrderOutcomes.StockProblemIs | дз_2/app/src/main.py:381-405 | the first bad item decides between a missing and an inactive product; otherwise exactly the short products are listed, once each, with what was asked for and what is there |
| OrderOutcomes.CreateSucceedsIff | дз_2/app/src/main.py:362-440 | a create succeeds if and only if the limit, the user's orders, the products, the stock and the code allow it |
| OrderOutcomes.CreateRefusesWith | дз_2/app/src/main.py:362-440 | each error of a create with its exact condition, in order of precedence |
| OrderOutcomes.CreateStores | дз_2/app/src/main.py:407-444 | a create stores the stock taken, one use of the code, the order with a line per item, and one operation, and nothing else |
| OrderOutcomes.CreateCharges | дз_2/app/src/main.py:424-429 | without a code the total is the amount: for one item its quantity times its price |
| OrderOutcomes.UpdateSucceedsIff | дз_2/app/src/main.py:474-560 | an update succeeds if and only if owner, status, limit, products, stock with the old lines back, and the kept code allow it |
| OrderOutcomes.UpdateRefusesWith | дз_2/app/src/main.py:474-560 | each error of an update with its exact condition, in order of precedence |
| OrderOutcomes.UpdateStores | дз_2/app/src/main.py:503-572 | an update stores the difference in stock, the code or its returned use, the new lines, and one operation, and nothing else |
| OrderOutcomes.CancelSucceedsIff | дз_2/app/src/main.py:587-594 | a cancel succeeds if and only if its user owns the order, or is an administrator, and the order is created or awaits payment |
| OrderOutcomes.CancelRefusesWith | дз_2/app/src/main.py:587-594 | each error of a cancel with its exact condition |
| OrderOutcomes.CancelStores | дз_2/app/src/main.py:599-620 | a cancel stores the stock and the use given back and the new status, and nothing else |
| OrderRaces.FinishConservesIff | дз_2/app/src/main.py:599-623 | the transaction of a cancel conserves stock if and only if the lines it has read are those its order still holds |
| OrderRaces.UnchangedIsCancel | дз_2/app/src/main.py:581-626 | the steps of a cancel come to the cancel of one step if its order has not changed |
| OrderRaces.SeparateRunIsSound | дз_2/app/src/main.py:581-626 | interleavings in which no other handler touches an order while a cancel of it is under way keep everything that whole handlers keep |
| OrderRaces.StockGivenBackTwice | дз_2/app/src/main.py:587-612 | for every order id and product there is a run in which two overlapping cancels leave two pieces of one supplied |
| Retention.FirstWatchIsFirst | dz_5/aggregation-service/app/aggregation.py:162-169 | the first-watch table has exactly the users who watch, each with the earliest of their days |
| Retention.DateIsDay | dz_5/infra/clickhouse/init/01_init.sql:28 | the date of an event is the calendar day of its timestamp |
| Retention.WatchKinds | dz_5/aggregation-service/app/aggregation.py:167 | exactly the four kinds of viewing events are watches |
| Retention.ShareIsExact | dz_5/aggregation-service/app/aggregation.py:259 | a share times the size of its cohort gives its users |
| Retention.ActiveIff | dz_5/aggregation-service/app/aggregation.py:82-85 | active on a day are exactly the users with an event of any kind on it |
| Retention.CohortRowsAre | dz_5/aggregation-service/app/aggregation.py:254-264 | a row stands in the cohort table if and only if users of the cohort watched on its day, and gives their number, the cohort's size and the share |
| Retention.JoinFlags | dz_5/aggregation-service/app/aggregation.py:175-186 | a flag of the left join is set exactly if the user watches on that day; the row of defaults sets none |
| Retention.AverageIsShare | dz_5/aggregation-service/app/aggregation.py:187-192 | the average of the flags is the share of the cohort that returned |
| Retention.CohortTableSays | dz_5/aggregation-service/app/aggregation.py:238-264 | each lifecycle day of the cohort table gives the users and the share of the cohort that watched then, 0 where there is no row |
| Retention.QueriesAgree | dz_5/aggregation-service/app/aggregation.py:154-267 | both queries give the same day-1 and day-7 retention for every table of events |
| Retention.CohortsPartition | dz_5/aggregation-service/app/aggregation.py:230-264 | summing the cohort tables over up to seven days back counts each recent watcher of a day exactly once |
| Retention.CohortsWithinDau | dz_5/aggregation-service/app/aggregation.py:78-86 | so that sum is at most the daily active users |
| Retention.FirstDayIsComplete | dz_5/aggregation-service/app/aggregation.py:254-264 | a cohort that is not empty has rate 1 on its first day, and is no larger than that day's active users |
| Aggregation.EventsAreArrivals | dz_5/infra/clickhouse/init/01_init.sql:44-59 | the event table holds every event that arrived, in order |
| Aggregation.RewriteShows | dz_5/aggregation-service/app/aggregation.py:155-160 | delete then insert replaces what its date shows and nothing else |
| Aggregation.ShowsLatestRewrite | dz_5/aggregation-service/app/aggregation.py:28-46 | after any run of events and rewrites each date shows what its latest rewrite computed from the events of that moment |
| Aggregation.KeysAreUnique | dz_5/infra/clickhouse/init/01_init.sql:101-131 | sorting keys stay unique in every run, so collapsing equal keys drops nothing |
| Aggregation.StoredFiguresAgree | dz_5/aggregation-service/app/aggregation.py:154-267 | stored retention equals the stored cohort rates whenever both rewrites saw the same events |
| Aggregation.AggregationService.RewriteDailyDau | dz_5/aggregation-service/app/aggregation.py:72-88 | afterwards the date shows one row, with the number of different users of that day; no other date and no other table changes |
| Aggregation.AggregationService.RewriteDailyRetention | dz_5/aggregation-service/app/aggregation.py:154-200 | afterwards the date shows one row, with the shares of its cohort that watched one and seven days later; no other date and no other table changes |
| Aggregation.AggregationService.RewriteRetentionCohorts | dz_5/aggregation-service/app/aggregation.py:222-267 | afterwards the date shows, for each lifecycle day, how many and which share of its cohort watched then, in order; no other date and no other table changes |
| Aggregation.AggregationService.AggregateForDate | dz_5/aggregation-service/app/aggregation.py:28-46 | the date shows the figures of the current events whatever was stored before; every other date shows what it showed |

## Left out

- BookingHandler.Handler.CreateBooking: runs without interruption; interleaving with other runs is in `BookingSaga`, whose laws its trace inherits.  The check of the text fields of the request, JSON and prices are not modelled.
- BookingHandler.Handler.CancelBooking: runs without interruption, as above.
- RetryClient.CallWithRetry: deadlines and the caller's context are known only by the code with which an attempt ends; the clock readings of the breaker are arguments.
- FlightStore.Store.SearchFlights: the order of rows with equal departure times is an argument; failures of the database connection are not modelled here, but are in `FlightTransactions` (rollback) and `CacheProtocol` (failing steps).
- FlightServer.Server.GetFlight: parsing of ids and failures of store or cache calls; failing calls are in `CacheProtocol`.
- FlightServer.Server.ReserveSeats: a rereading that fails after the commit is in `CacheProtocol` only.
- FlightCache.Cache.SetPayloadIfNewer: eviction, failover, and Lua's conversion of versions above 2^53 to doubles are not modelled; neither is a time to live below one millisecond, which Redis refuses.  A payload is modelled together with the version it was read with, which Redis keeps in the version key only.
- CacheProtocol.SearchHitIsSnapshot: freshness of single flights within a list is not claimed here; when it fails is `StaleLists.OldListIsHitIff`.
- Collisions of cache keys made of strings with colons in them.
- The reservation status EXPIRED, which no code sets.
- Circuit breaker states inside the booking protocol: there its answer is an arbitrary flag, which covers every breaker.
- OrderService.Service.CreateOrder: the bounds of the request schema on items and quantities are not required, so the results hold for any; promo codes and their ids are one; order ids are given.
- OrderService.Service.UpdateOrder: the order row and the promo row are read without a lock, but creates and updates are taken as one atomic step each, also in `OrderRaces`, where only cancels are taken apart; so are reading and writing the uses of a promo code.
- Product administration and deliveries are environment steps: a product edited to any stock, a promo code added, an order advanced to another status.
- Retention.DailyRetention: rates are exact reals; ClickHouse's floats, and the resolution of aliases beyond what the queries need, are not modelled.  The filter on days 0 to 7 applies before the conversion to 8 bits.
- Aggregation.AggregationService.AggregateForDate: one aggregation at a time, with no event arriving in its midst and no failing statement; `computed_at`, watch time, top films, conversion, devices and the metric payload are not modelled.
- Authentication, roles other than administrator, logging, configuration, HTTP routing, protobuf conversion, product lists, exporters and the event generator.

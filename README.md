# Hotel booking and testing-metrics core in Dafny

This project models two parts of a small hotel system and proves properties of the model.

**The booking API.** It is a FastAPI service over an SQLite database with five tables: users, sessions, rooms, reservations and payments. The model covers these endpoints:

- bearer-token validation (`verificar_token`);
- `login`, which opens a seven-day session;
- the room search (`buscar_habitaciones`);
- reservation creation (`crear_reserva`);
- the simulated payment (`procesar_pago`);
- the caller's reservation list (`obtener_mis_reservas`).

The database is a Dafny class, `HotelStore.Store`, with one `seq` field per table. Each endpoint is a method on it. A method returns `Result` in place of raising `HTTPException`: every refusal is a `Failure` constructor, which carries the status code and the Spanish `detail` text. The store's invariant (`StoreInvariant`) covers:

- primary keys and unique tokens;
- well-formed stays;
- no two active reservations sharing a night of the same room;
- the payment bookkeeping: a reservation has one approved payment when it is confirmed and none while it is pending.

Every state-changing endpoint preserves the invariant. The decisions of the endpoints are stated as pure functions:

- `VerifyToken`;
- `ReservationDecision`;
- `PaymentDecision`;
- `Qualifying` with `SortRooms`;
- `OwnViews`.

Each method is proved to agree with its function.

**The testing-metrics store** (`MetricasTesting`). It keeps an append-only history of daily test counts with derived indicators (`registrar_dia`). It classifies the trend of a metric over the last days (`detectar_tendencia`). It decides whether testing may stop, listing every unmet exit criterion (`criterios_salida`). The history is the class `ExitCriteria.MetricsHistory`. The indicators, the trend classifier and the list of exit reasons are pure functions.

Modelling choices:

- Dates are whole-day numbers and clock readings are integer seconds.
- Prices and percentages are exact reals.
- Row ids are assigned by AUTOINCREMENT with no deletions, so row k of the sessions, reservations and payments tables has id k + 1. User and room ids are taken as given; room ids are only required to be unique.
- Two choices of the code that depart from common REST practice are modelled as written:
  - Paying for a reservation that is already confirmed is refused with 400 ("La reserva ya fue procesada"), not with the 409 Conflict usually returned for a state clash.
  - An unknown token and an expired one are not told apart: both get the single 401 "Token inválido o expirado".
- Other behaviours modelled as written:
  - The search rejects a start date in the past; reservation creation does not.
  - Reservation creation checks neither the room's `disponible` flag nor that the guest count is positive.
  - In the search, an explicit null guest count is compared with NULL and admits no room. An omitted one defaults to 1, which the caller passes as `Some(1)`. An empty room type applies no type filter.

## Model

| member | source | states |
|---|---|---|
| BookingTypes.Failure.Status | hotel_booking_system.py:193-443 | each refusal's HTTP status as raised: 401 for bad credentials or token, 404 for an unknown room or reservation, 409 for an unavailable room, 400 for the other checks; 500 exactly for the unhandled UNIQUE-column error |
| BookingTypes.Failure.Detail | hotel_booking_system.py:193-443 | each refusal's `detail` text as raised; the framework's "Internal Server Error" exactly for the unhandled UNIQUE-column error, and never an empty text |
| BookingTypes.FindRoom | hotel_booking_system.py:380-385 | the lookup returns the first row with the id, or nothing when no row has it |
| BookingTypes.SeedRooms | hotel_booking_system.py:152-170 | the seeded catalogue has ten available rooms, ids 1 to 10 and so pairwise distinct (a legal catalogue for a new store), each with capacity at least 1 and a positive rate |
| BookingTypes.StayPrice | hotel_booking_system.py:392 | no contract: the nightly rate times the nights (also the search's `precio_total` at line 335); AcceptedQuote, SearchedRoomIsReservable and the store invariant state that every quote and stored row is priced by it |
| Availability.SqlOverlap | hotel_booking_system.py:300-304 | no contract: the three overlap clauses as written, shared by the search (lines 300-304) and the creation count (lines 364-368); characterised by SqlOverlapIsIntersection and AdjacentStaysDoNotConflict |
| Availability.CountOverlapping | hotel_booking_system.py:360-376 | the count never exceeds the number of rows; its meaning (positive exactly when some active row on the room overlaps) is CountOverlappingPositive |
| Availability.Free | hotel_booking_system.py:297-305 | no contract: no active row on the room overlaps the stay; characterised by FreeIffNoneCounted and FreeMeansNoSharedNight |
| Availability.SqlOverlapIsIntersection | hotel_booking_system.py:364-368 | for stays with start before end, the three-clause SQL overlap test holds exactly when the half-open intervals intersect |
| Availability.AdjacentStaysDoNotConflict | hotel_booking_system.py:364-368 | a stay ending on day D and a stay starting on day D never conflict, whichever of the two is already booked |
| Availability.CountOverlappingPositive | hotel_booking_system.py:360-376 | the `COUNT(*)` of the availability query is positive exactly when some active row on the room overlaps the request |
| Availability.FreeIffNoneCounted | hotel_booking_system.py:297-305 | the search's `NOT IN` subquery and the creation's `COUNT(*) = 0` test agree |
| Availability.InsertKeepsNoDoubleBooking | hotel_booking_system.py:360-405 | inserting a well-formed stay that the count let through keeps "no two active reservations on a room share a night" |
| Availability.ConfirmKeepsNoDoubleBooking | hotel_booking_system.py:455-458 | moving a reservation to confirmed keeps that invariant |
| RoomSearch.TextBeforeTransitive | hotel_booking_system.py:319 | the TEXT order used by `ORDER BY h.tipo` is transitive |
| RoomSearch.TextBeforeTotal | hotel_booking_system.py:319 | any two different type names are ordered one way or the other |
| RoomSearch.RoomNotAfterTotal | hotel_booking_system.py:319 | the (type, nightly rate) order is total |
| RoomSearch.RoomNotAfterTransitive | hotel_booking_system.py:319 | the (type, nightly rate) order is transitive |
| RoomSearch.InsertRoom | hotel_booking_system.py:319 | inserting a row adds exactly that row: the multiset grows by it |
| RoomSearch.InsertRoomOrdered | hotel_booking_system.py:319 | inserting into rows ordered by type then rate leaves them ordered |
| RoomSearch.SortRooms | hotel_booking_system.py:319 | the answer rows are a permutation of the matched rows |
| RoomSearch.SortRoomsOrdered | hotel_booking_system.py:319 | the answer rows are ordered by type, then by ascending nightly rate |
| RoomSearch.Qualifies | hotel_booking_system.py:293-317 | no contract: the `WHERE` clause, available, capacity at least the guest count (an explicit null count admits nothing), the optional type filter, and Free; used by QualifyingMembers |
| RoomSearch.Qualifying | hotel_booking_system.py:293-317 | never longer than the room table; characterised by QualifyingMembers (exactly the qualifying rows) and QualifyingMultiplicity (each as often as in the table) |
| RoomSearch.QualifyingMembers | hotel_booking_system.py:293-317 | a room is matched exactly when it is in the table, available, large enough, of the requested type (if one is given) and free of overlapping active reservations |
| RoomSearch.QualifyingMultiplicity | hotel_booking_system.py:293-317 | a matched room appears as often as in the table, and an unmatched one not at all |
| Sessions.FindLoginUser | hotel_booking_system.py:246-256 | login finds an active user with that email and password hash, or fails exactly when there is none |
| Sessions.FindUser | hotel_booking_system.py:184-189 | the join finds a user with the session's user id, or none exists |
| Sessions.NewSession | hotel_booking_system.py:258-266 | a new session is active, belongs to the user and expires seven days after its creation |
| Sessions.Admits | hotel_booking_system.py:188 | no contract: token equal, session active, expiry after now, and its user present for the join; characterised by VerifyToken's ensures and TokenValidUntilExpiry |
| Sessions.FindLiveSession | hotel_booking_system.py:184-190 | the token query finds an active, unexpired session of an existing user with that token, or none exists |
| Sessions.VerifyToken | hotel_booking_system.py:180-202 | the token is accepted exactly when some active, unexpired session of an existing user carries it; the caller is that session's user; every refusal is the single 401 |
| Sessions.TokenValidUntilExpiry | hotel_booking_system.py:184-196 | with unique tokens, an active session authenticates its owner exactly until its expiry instant |
| Sessions.FreshSessionLifetime | hotel_booking_system.py:258-266 | a session opened at time c with a fresh token authenticates at time t exactly when t < c + 7 days |
| Payments.LastFour | hotel_booking_system.py:447 | `[-4:]`: the last four characters, or the whole of a shorter string |
| Payments.TransactionCode | hotel_booking_system.py:446 | the code is "TXN-" followed by the random hex digits |
| Payments.FindOwnedReservation | hotel_booking_system.py:425-433 | the lookup finds a reservation with that id owned by the caller, or none exists |
| Payments.OwnedLookupNumbered | hotel_booking_system.py:425-433 | with AUTOINCREMENT ids the lookup finds row id - 1 exactly when the id exists and the caller owns it |
| Payments.ValidCardNumber | hotel_booking_system.py:439-440 | no contract: exactly sixteen characters, all digits; PaymentDecision states that InvalidCardNumber is returned exactly when it fails on an owned pending reservation |
| Payments.ValidCvv | hotel_booking_system.py:442-443 | no contract: exactly three characters, all digits; PaymentDecision states that InvalidCvv is returned exactly when it fails after a valid card number |
| Payments.PaymentDecision | hotel_booking_system.py:425-443 | 404 exactly when the caller owns no such reservation; 400 "already processed" exactly when it is not pending; for a pending owned reservation, "invalid card" exactly when the card is not 16 digits, and "invalid CVV" exactly when the card is valid but the CVV is not 3 digits; success only for a pending owned reservation with a 16-digit card and a 3-digit CVV |
| Payments.PaymentCountNone | hotel_booking_system.py:449-453 | a reservation no payment row names has no payments |
| Payments.NewReservationKeepsConsistency | hotel_booking_system.py:394-405 | a new pending reservation keeps the payment bookkeeping |
| HotelStore.CheckReservation | hotel_booking_system.py:360-392 | the checks run one after another (dates, overlap count, room lookup, capacity, then rate × nights) give exactly the reservation decision |
| HotelStore.AcceptedQuote | hotel_booking_system.py:360-392 | when the dates are ordered, nothing overlaps, the room exists and holds the guests, the decision quotes that room's rate times the nights |
| HotelStore.InsertKeepsStoreInvariant | hotel_booking_system.py:387-405 | appending a pending reservation numbered next, for a listed room that holds its guests, priced at the room's rate per night, with no overlapping active stay, keeps the whole store invariant; so every stored reservation stays within its room's capacity and at rate × nights |
| HotelStore.ConfirmKeepsRoomTerms | hotel_booking_system.py:455-458 | confirming a reservation keeps every row within its room's capacity and priced at rate × nights |
| HotelStore.PaymentKeepsStoreInvariant | hotel_booking_system.py:449-458 | recording an approved payment with a fresh transaction code and confirming the pending reservation keeps the whole store invariant, capacity and price terms included |
| Payments.PaymentKeepsConsistency | hotel_booking_system.py:449-458 | recording one approved payment of the reservation's total, and confirming that reservation, keeps the bookkeeping: every other reservation keeps its payment count |
| Payments.SecondPaymentRejected | hotel_booking_system.py:435-436 | once confirmed, a reservation refuses every further payment with "already processed" |
| Reservations.ReservationDecision | hotel_booking_system.py:355-392 | the refusals in the endpoint's order: 400 exactly for start >= end; 409 exactly when an active overlapping reservation exists; 404 exactly for an unknown room; 400 exactly for too little capacity. On success the stay has end - start nights priced at rate × nights |
| Reservations.FreeMeansNoSharedNight | hotel_booking_system.py:360-377 | over well-formed rows, the availability test passes exactly when no active booking of the room shares a night with the request |
| Reservations.AcceptedStayIsFree | hotel_booking_system.py:360-377 | an accepted request shares no night with any active booking of its room |
| Reservations.SameStayTwiceConflicts | hotel_booking_system.py:360-377 | requesting an already-booked stay again is refused with 409 |
| Reservations.EarlierStayAddsNoConflict | hotel_booking_system.py:364-368 | a booking that ends on or before the requested check-in leaves the overlap count unchanged |
| Reservations.SearchedRoomIsReservable | hotel_booking_system.py:293-305 | a room the search offers for a stay and guest count can then be reserved for it, at the price the search showed |
| HotelStore.OwnViews | hotel_booking_system.py:474-482 | no contract: the caller's rows joined to their rooms, newest first; characterised by OwnViewsMembers and OwnViewsNewestFirst |
| HotelStore.OwnViewsMembers | hotel_booking_system.py:475-482 | the list holds exactly the caller's reservations, each joined with its room |
| HotelStore.OwnViewsNewestFirst | hotel_booking_system.py:481 | the list is in strictly decreasing id order (newest first) and only names existing rows |
| HotelStore.Store.constructor | hotel_booking_system.py:75-150 | an empty database with the given users and rooms satisfies the store invariant |
| HotelStore.Store.Login | hotel_booking_system.py:241-277 | 401 when no active user matches; otherwise one session row is added; the returned token then authenticates that user exactly until seven days after login; no other table changes |
| HotelStore.Store.Search | hotel_booking_system.py:279-347 | 400 for end not after start and for past dates. Otherwise the offered rooms are a permutation of the matched rooms, ordered by type then rate, each priced at rate × nights. The store is not changed |
| HotelStore.Store.Reserve | hotel_booking_system.py:349-416 | 401 for a bad token; otherwise it follows the reservation decision: a refusal leaves the table unchanged, and success appends one pending row with the next id and the quoted price. The invariant is kept, including that every stored reservation fits its room's capacity and costs rate × nights |
| HotelStore.Store.Pay | hotel_booking_system.py:418-468 | 401 for a bad token; otherwise it follows the payment decision. On success exactly one approved payment of the reservation's total with the card's last four digits is added, and that reservation, and no other, becomes confirmed. A refusal changes nothing; rows only ever move from pending to confirmed |
| HotelStore.CollectOwnViews | hotel_booking_system.py:484-500 | the loop over the fetched rows builds exactly the caller's list, newest first |
| HotelStore.Store.MyReservations | hotel_booking_system.py:470-506 | 401 for a bad token; otherwise the caller's reservations joined with their rooms, newest first |
| TestMetrics.Coverage | metricas_testing.py:135-144 | 0 when nothing was planned; otherwise executed / planned × 100, within [0, 100] when executed <= planned |
| TestMetrics.SuccessRate | metricas_testing.py:148-157 | 0 when nothing was executed; otherwise passed / executed × 100, within [0, 100] when passed <= executed |
| TestMetrics.DefectDensity | metricas_testing.py:161-172 | 0 when nothing was executed; otherwise defects of all severities per hundred executed cases, non-negative |
| TestMetrics.Effectiveness | metricas_testing.py:176-187 | 100 without new defects, 95 with any |
| TestMetrics.ResolutionRate | metricas_testing.py:191-200 | 100 when no defect is open; otherwise resolved / open × 100, within [0, 100] when resolved <= open |
| TestMetrics.Backlog | metricas_testing.py:204-211 | the backlog plus the resolved defects equals the open defects |
| TestMetrics.QualityIndex | metricas_testing.py:225-239 | with the inputs in range the index lies in [0, 100] |
| TestMetrics.Percent | metricas_testing.py:144 | part / whole × 100, within [0, 100] for 0 <= part <= whole |
| TestMetrics.Measure | metricas_testing.py:99-125 | the day's record carries its number, date and counts and each indicator computed from the counts; its quality index is in [0, 100] for consistent counts |
| Trend.LastDays | metricas_testing.py:258 | `[-n:]`: the last n days (all when fewer), the whole history for n = 0, the history without its first -n days for negative n |
| Trend.ValueOf | metricas_testing.py:258 | no contract: `getattr(m, metrica)`, the named field of a day's record as a number; used by Values |
| Trend.Values | metricas_testing.py:258 | the metric read from each day of the window, in order |
| Trend.Diffs | metricas_testing.py:264 | the steps between consecutive values, one fewer than the values |
| Trend.ByMean | metricas_testing.py:272-279 | stable exactly for a mean step strictly between -0.5 and 0.5; otherwise ascending or descending by its sign |
| Trend.Mean | metricas_testing.py:273 | the mean times the number of steps is their sum |
| Trend.DetectTrend | metricas_testing.py:243-261 | insufficient data exactly when the history or the window has fewer than two days; never for a window of two or more (or the whole history) over two or more days |
| Trend.ClassifySteps | metricas_testing.py:266-279 | no contract: all steps rising, else all falling, else by the mean step; characterised by MonotoneWindows, MixedTrendFromEndpoints, FlatWindowIsStable and StepsNegated |
| Trend.Classify | metricas_testing.py:264-279 | no contract: ClassifySteps of the consecutive differences; characterised by MonotoneWindows, FlatWindowIsStable, MixedTrendFromEndpoints and ClassifyNegated |
| Trend.SumOfDiffs | metricas_testing.py:264-273 | the steps of a window sum to its last value minus its first |
| Trend.MonotoneWindows | metricas_testing.py:266-270 | a strictly rising window is ascending and a strictly falling one descending |
| Trend.MixedTrendFromEndpoints | metricas_testing.py:271-279 | with mixed steps the verdict depends only on (last - first) / (length - 1) |
| Trend.FlatWindowIsStable | metricas_testing.py:271-275 | a window of equal values is stable |
| Trend.StepsNegated | metricas_testing.py:266-279 | negating every step swaps ascending and descending and keeps stable |
| Trend.ClassifyNegated | metricas_testing.py:266-279 | negating every value swaps ascending and descending and keeps stable |
| ExitCriteria.ThresholdReasons | metricas_testing.py:311-339 | the five threshold checks on the last day give at most five reasons, never "no history" |
| ExitCriteria.HistoryReasons | metricas_testing.py:341-360 | the trend and stability checks give at most two reasons, never "no history" |
| ExitCriteria.ExitReasons | metricas_testing.py:296-364 | an empty history gives exactly the "no history" reason; otherwise at most seven reasons, none of them "no history" |
| ExitCriteria.NoThresholdReasonsIffMet | metricas_testing.py:311-339 | the threshold checks give no reason exactly when coverage >= 85, success >= 90, no critical defect, at most two high ones and density <= 15 |
| ExitCriteria.NoHistoryReasonsIffStable | metricas_testing.py:341-360 | over a non-empty history the trend and stability checks give no reason exactly when there are two days, neither with a critical defect, and from the third day on open defects are not ascending |
| ExitCriteria.NoReasonsIffReady | metricas_testing.py:305-362 | no reason is reported exactly when there are at least two days, the last day meets the five thresholds, neither of the last two days has critical defects, and from the third day on open defects are not ascending |
| ExitCriteria.ShortHistoryNeverExits | metricas_testing.py:350-360 | with fewer than two days some reason is always reported, and with one day the last reason is "needs at least 2 days" |
| ExitCriteria.CoverageCriterionOnCounts | metricas_testing.py:311-315 | the coverage criterion holds exactly when executed × 100 >= 85 × planned, and never when nothing was planned |
| ExitCriteria.SuccessCriterionOnCounts | metricas_testing.py:317-321 | the success criterion holds exactly when passed × 10 >= 9 × executed, and never when nothing was executed |
| ExitCriteria.MetricsHistory.constructor | metricas_testing.py:48-74 | the store starts from the loaded history, and is valid exactly when the loaded days are numbered 1, 2, 3, … (always so for an empty start) |
| ExitCriteria.MetricsHistory.RegisterDay | metricas_testing.py:86-131 | exactly one record is appended, numbered one past the previous length and dated that many days after today; earlier records are unchanged and numbering is kept |
| ExitCriteria.MetricsHistory.EvaluateExit | metricas_testing.py:296-364 | the reasons are exactly the criteria's reasons in their order, and testing may stop exactly when there are none |

## Left out

- The HTTP layer is not modelled: FastAPI routing, pydantic validation, CORS and the bearer-header plumbing. The SQLite connection manager is also omitted. Every `HTTPException` becomes a `Failure` value.
- Concurrency is not modelled. The store is sequential, so nothing is claimed about two requests interleaving between the availability count and the insert.
- Randomness, hashing and clocks are parameters:
  - `login` receives the session token.
  - `Pay` receives `hex`, which stands for the upper-cased `secrets.token_hex(8)` text of the transaction code. The model accepts any string there.
  - The SHA-256 password hash arrives already computed.
  - The current time and today's date are passed in.
- User registration and its duplicate-email error are not modelled. Neither are the root and room-type listing endpoints, which return constants.
- HotelStore.Store.Pay: `nombre_titular` is accepted and, as in the source, never used.
- HotelStore.Store.Search: the request model's default of 1 for an omitted `huespedes` is not modelled; the caller supplies `Some(1)` itself.
- HotelStore.Store.Search: SQLite promises no order among rooms with equal type and rate. The model fixes one order (table order) for them.
- HotelStore.OwnViews: orders by descending id rather than by the `fecha_reserva` timestamp. The two agree for rows inserted in sequence, except that rows created within the same second tie in the source.
- Sessions.VerifyToken: expiry is compared as integer instants. The source compares a local-time timestamp string with SQLite's UTC `datetime('now')` text, so its real cut-off shifts by the server's UTC offset.
- Payments.ValidCardNumber: accepts ASCII digits only. Python's `isdigit` also accepts other Unicode digits.
- Payments.ValidCvv: accepts ASCII digits only, for the same reason.
- BookingTypes.Failure.Detail: `DuplicateKey` is the model's own label for a collision on a UNIQUE column (session token or transaction code). In the source, `get_db` rolls back and re-raises the database error, no handler catches it, and the framework answers a plain 500 "Internal Server Error" with no `detail`. The model returns that status and text, and does not model the framework's error handling or the database error's own message.
- TestMetrics.Coverage: exact reals; `round(…, 2)` and float arithmetic are not modelled.
- TestMetrics.SuccessRate: exact reals, without rounding to two decimals.
- TestMetrics.DefectDensity: exact reals, without rounding to two decimals.
- TestMetrics.ResolutionRate: exact reals, without rounding to two decimals.
- TestMetrics.QualityIndex: exact reals, without rounding to two decimals.
- ExitCriteria.CoverageCriterionOnCounts: states the exact cut-off, executed × 100 >= 85 × planned. The source compares the coverage after `round(…, 2)`, so it also passes coverages from about 84.995 % up (for example 84996 executed of 100000 planned), which the model reports as `LowCoverage`.
- ExitCriteria.SuccessCriterionOnCounts: states the exact cut-off, passed × 10 >= 9 × executed. The source compares the rounded success rate, so it also passes rates from about 89.995 % up (for example 89996 passed of 100000 executed), which the model reports as `LowSuccessRate`.
- ExitCriteria.MetricsHistory.EvaluateExit: judges the unrounded indicators, so on a day whose coverage or success rate lies within 0.005 below its threshold, or whose defect density lies within 0.005 above 15, it reports a reason the source does not.
- The record's date is a day number, not its `%Y-%m-%d` text.
- ExitCriteria.ExitReasons: reasons are data carrying their figures, not formatted message strings.
- The `tendencia_defectos` setting is configured in the source but never read, so it has no counterpart.
- The history's JSON load and save are not modelled, nor the reports, the pandas export and `analizar_todas_tendencias`.
- The dashboard, the five-day simulator, the interactive menu and the HTTP test client are not part of this model.

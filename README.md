# Parking reservations: availability, pricing and the reservation table

This project is a Dafny model of the core of a parking reservation backend
written in Go. Customers book a space for a vehicle type over a time window
and pay through a checkout session. Staff create bookings, cancel them
(optionally refunding) and configure the number of spaces and the prices
per vehicle type. An hourly job marks finished bookings.

The model covers:

- **Space pools** (`VehicleTypes`). An SUV uses the car's capacity. A request
  for a type lists every vehicle-type id whose bookings count against that pool.
- **Hourly availability** (`ReservationRepo`, `ReservationService`). The
  window is cut into whole one-hour slots. Each slot counts the `active`
  bookings of pool members that overlap it, and pairs that count with the
  configured capacity. The service turns the slots into per-slot and overall
  availability.
- **Tiered pricing** (`ReservationService`). The duration picks the hour,
  day, week or month rate. The count is a ceiling. The total is the rate
  times the count.
- **The reservation lifecycle** on an in-memory table (`Models.Database`):
  - a customer booking: `pending`, inserted only after the checkout opened;
  - a staff booking: `active`;
  - a customer cancel: 12-hour cutoff, the refund must succeed first;
  - a staff cancel: optional refund, "already refunded" tolerated;
  - the sweep from `active` to `finished` (`JobRepo`, `JobService`).
- **Administration** (`AdminRepo`, `AdminService`):
  - the filtered listing query, with numbered placeholders and arguments in step;
  - the space and price listing;
  - the space update and the price upsert;
  - the update loop that stops at its first failure.

Conventions:

- Times are integers in nanoseconds. Prices are integers. The checkout amount is in cents.
- The clock is a `now` parameter.
- A database failure is an `Option<string>` parameter wherever the model
  covers it. Every failure it does not cover is listed under "## Left out".
- The payment provider is the `Payments.PaymentGateway` class. It logs every
  checkout and refund request and returns the answer it is given. "No refund
  was attempted" therefore reads as "the refund log is unchanged".

Behaviour of the code that the model keeps as written:

- The hourly series covers only whole hours from the start. A trailing
  partial hour is never checked (`ReservationService.TrailingPartialHourNotChecked`).
- The total price is not monotone in the duration. Crossing from hours to
  days can lower it (`ReservationService.UnitSwitchCanLowerPrice`).
- The repository's cancel updates every row carrying the code, whatever
  its status.
- Booking codes repeat every 10^8 ns (`ReservationService.CodesRepeat`).

The source also contains calls that do not compile as written. The model
follows their evident intent:

- The availability query receives the vehicle-type name explicitly.
- Prices are integers where the source mixes `float32` and `int`.

## Model

| member | source | states |
|---|---|---|
| VehicleTypes.MapVehicleTypeIDForSpace | internal/utils/vehicle_type.go:7-14 | a name that lower-cases to "suv" maps to pool id 1; any other name keeps its id |
| VehicleTypes.MapVehicleTypeIDForSpaceIdempotent | internal/utils/vehicle_type.go:7-14 | mapping twice is mapping once |
| VehicleTypes.VehicleTypeIDsForSpace | internal/utils/vehicle_type.go:17-29 | the loop returns exactly the pool list `PoolIds` of the lower-cased request |
| VehicleTypes.PoolIdsMembership | internal/utils/vehicle_type.go:18-27 | an id is listed iff some entry with that id has a stored name in the requested pool: "car"/"suv" exactly for car or suv, otherwise equal to the lower-cased request |
| VehicleTypes.PoolIdsSubsequence | internal/utils/vehicle_type.go:17-29 | the result is a subsequence of the input ids, in input order |
| VehicleTypes.CarAndSuvSharePool | internal/utils/vehicle_type.go:21-22 | "car" and "suv", in any case, give identical id lists |
| VehicleTypes.CarPoolIsCaseSensitive | internal/utils/vehicle_type.go:21-24 | a stored "Car" or "SUV" is not part of the car pool |
| VehicleTypes.OtherPoolMembers | internal/utils/vehicle_type.go:25-28 | for other names the list is empty iff no stored name equals the lower-cased request |
| ReservationRepo.SlotStarts | internal/repository/reservation_repo.go:102-111 | the series start + k·1h for every slot with start + k·1h ≤ end − 1h: ⌊(end−start)/1h⌋ slots, none for a window under an hour, leftover under one hour |
| ReservationRepo.SlotStartsAreTheSeries | internal/repository/reservation_repo.go:103-111 | a time is a slot start iff it is in the hourly series from start to end − 1h; starts ascend |
| ReservationRepo.SlotsTileTheWindow | internal/repository/reservation_repo.go:103-130 | slots are consecutive from start and leave less than one hour of the window uncovered |
| ReservationRepo.Booked | internal/repository/reservation_repo.go:122-128 | the count of overlapping active pool bookings never exceeds the table size |
| ReservationRepo.BookedZeroIff | internal/repository/reservation_repo.go:122-128 | a slot has no booking iff no row is an active pool member overlapping it |
| ReservationRepo.BookedAppend | internal/repository/reservation_repo.go:122-128 | adding a row adds one to a slot's count exactly when that row occupies the slot |
| ReservationRepo.BookedPointwise | internal/repository/reservation_repo.go:122-128 | a table whose rows occupy no more slots than before has no higher count |
| ReservationRepo.GetHourlyAvailabilityDetails | internal/repository/reservation_repo.go:77-171 | errors for end ≤ start, for no pool ids and for a mapped id without capacity; otherwise one entry per hourly slot with the mapped capacity and the booked count |
| ReservationRepo.GetPriceForUnit | internal/repository/reservation_repo.go:173-183 | the stored price for (type, unit), or an error when no row exists |
| ReservationRepo.FindByCode | internal/repository/reservation_repo.go:266-288 | found iff some row has the code; the result is the first such row (see "## Left out") |
| ReservationRepo.CancelRows | internal/repository/reservation_repo.go:251-264 | every row with the code becomes canceled with updated_at = now; other rows and fields are unchanged |
| ReservationRepo.CancelRowsTwice | internal/repository/reservation_repo.go:251-264 | canceling a code again only moves updated_at |
| ReservationRepo.CancelFreesCapacity | internal/repository/reservation_repo.go:251-264 | a cancel never raises any slot's booked count |
| ReservationRepo.SetStatusesById | internal/repository/reservation_repo.go:320-327 | the row with the id gets the status, payment status and updated_at; nothing else changes |
| ReservationRepo.CreateReservation | internal/repository/reservation_repo.go:185-210 | the row is appended with the next id and ids stay distinct; a failure inserts nothing |
| ReservationRepo.CancelReservation | internal/repository/reservation_repo.go:251-264 | a known code cancels every row with it and reports "canceled"; an unknown code or a database failure is an error and changes nothing |
| ReservationRepo.UpdateReservationAndPaymentStatus | internal/repository/reservation_repo.go:320-327 | a database failure is returned and writes nothing; otherwise no error and the table becomes `SetStatusesById` of the old table (no matching row is no error) |
| ReservationService.CheckAvailability | internal/service/reservation_service.go:40-81 | one slot detail per repository slot in order, with remaining = total − booked and available iff remaining > 0; overall available iff there are slots and all are available; repository errors pass through; the first-unavailable time is not returned |
| ReservationService.BookingWithinCapacity | internal/service/reservation_service.go:60-78 | when every slot is available, adding one booking leaves every slot within capacity |
| ReservationService.TrailingPartialHourNotChecked | internal/repository/reservation_repo.go:107-111 | a 90-minute window is checked as one slot, so a booking of the last half hour is never seen |
| ReservationService.BestUnitAndCount | internal/service/reservation_service.go:356-390 | hour below 24h, day below 168h, week below 720h, month otherwise |
| ReservationService.BestCountIsCeiling | internal/service/reservation_service.go:358-388 | count ≥ 1 and (count−1)·unit < d ≤ count·unit for d > 0 |
| ReservationService.ShortDurationsCostOneHour | internal/service/reservation_service.go:358-364 | any duration above −1h and up to one hour, zero included, is one hour |
| ReservationService.UnitBoundaries | internal/service/reservation_service.go:356-390 | exactly 24h, 168h and 720h give one day, one week and one month; just under 24h gives 24 hours |
| ReservationService.CountMonotoneWithinUnit | internal/service/reservation_service.go:356-390 | within one unit a longer duration never has a smaller count |
| ReservationService.GetTotalPriceForReservation | internal/service/reservation_service.go:83-93 | an error for end ≤ start before any lookup; otherwise the unit price times the ceiling count, and a missing price row is an error |
| ReservationService.TwoAndAHalfHours | internal/service/reservation_service.go:83-93 | 2.5 hours at 5 per hour costs 15 |
| ReservationService.UnitSwitchCanLowerPrice | internal/service/reservation_service.go:356-390 | 23 hours can cost more than 24 hours |
| ReservationService.HexFixedRoundTrip | internal/service/reservation_service.go:96 | the fixed-width upper-case hex text of n reads back as n when n fits |
| ReservationService.HexFixedPads | internal/service/reservation_service.go:96 | widening the text pads it with a leading '0' |
| ReservationService.ReservationCode | internal/service/reservation_service.go:96 | the code is 8 hex digits |
| ReservationService.CodeDecodes | internal/service/reservation_service.go:96 | the code reads back as now mod 10^8 and starts with '0' |
| ReservationService.CodesRepeat | internal/service/reservation_service.go:96 | clocks 10^8 ns apart give the same code |
| ReservationService.ChargeAmount | internal/service/reservation_service.go:337-343 | method 2 charges the whole price in cents, method 1 a 30% deposit, any other method nothing |
| ReservationService.HandlePaymentIntent | internal/service/reservation_service.go:335-354 | an unsupported method asks for no checkout; otherwise one checkout for the amount due, and the session is attached with payment status pending |
| ReservationService.CreateReservation | internal/service/reservation_service.go:95-130 | a pending row with the code, inserted only after the checkout opened; every failure inserts nothing |
| ReservationService.CancelReservation | internal/service/reservation_service.go:136-167 | unknown code, missing session, a failed re-read by session id and less than 12h before the start fail with no refund; a refund is requested only for a non-empty session id; a failed refund, or a failed final update after the refund, returns the error and leaves the table as it was (the refund stays requested); otherwise every row with the code is canceled |
| ReservationService.StatusTranslation | internal/service/reservation_service.go:393-420 | Spanish and Italian labels for the four statuses; any other language or status is returned unchanged |
| ReservationService.StatusLabels | internal/service/reservation_service.go:393-420 | "canceled" and "cancelled" share a label; the four labels are distinct |
| JobRepo.ActivePastEndIdsMembership | internal/repository/job_repo.go:20-41 | an id is selected iff some row with it is active and ended strictly before now |
| JobRepo.OnlyActiveRowsSelected | internal/repository/job_repo.go:22 | pending, canceled or finished rows are never selected |
| JobRepo.SetStatuses | internal/repository/job_repo.go:45-63 | only listed ids get the new status and updated_at |
| JobRepo.GetActiveReservationIDsPastEndTime | internal/repository/job_repo.go:20-41 | the loop returns the selection in row order; a query failure is an error |
| JobRepo.UpdateReservationStatuses | internal/repository/job_repo.go:45-63 | an empty list writes nothing and succeeds; a failure writes nothing; otherwise `SetStatuses` |
| JobService.Swept | internal/service/job_service.go:19-41 | the table after a sweep: active rows past their end are finished at now |
| JobService.SelectionUpdateIsSweep | internal/service/job_service.go:22-34 | with distinct ids, updating the selected ids is the sweep |
| JobService.NothingLeftAfterSweep | internal/service/job_service.go:22-34 | after a sweep nothing is selected at the same time |
| JobService.EmptySelectionChangesNothing | internal/service/job_service.go:27-30 | an empty selection means the sweep changes no row |
| JobService.SweepIdempotent | internal/service/job_service.go:22-34 | sweeping twice equals sweeping once |
| JobService.SweepFreesCapacity | internal/service/job_service.go:22-34 | a sweep never raises a slot's booked count |
| JobService.UpdateFinishedReservations | internal/service/job_service.go:19-41 | a fetch failure or an update failure returns an error and changes nothing; otherwise the table becomes the sweep |
| AdminRepo.Itoa | internal/repository/admin_repo.go:34 | placeholder numbers are non-empty runs of decimal digits that denote the number, with no leading zero |
| AdminRepo.AppendFilter | internal/repository/admin_repo.go:34-38 | one non-empty filter appends its condition, `$idx` and its argument, and advances idx |
| AdminRepo.AppendFilters | internal/repository/admin_repo.go:22-58 | the base query followed by the filters in the order start, end, code, type, status, numbered $1, $2, … consecutively; one argument per filter |
| AdminRepo.BuildListQuery | internal/repository/admin_repo.go:22-65 | the whole statement, then " ORDER BY r.created_at DESC", then LIMIT and OFFSET verbatim and only when non-empty |
| AdminRepo.PlaceholdersMatchArgs | internal/repository/admin_repo.go:31-58 | the filter part holds one `$` per argument |
| AdminRepo.ListPlaceholdersMatchArgs | internal/repository/admin_repo.go:31-58 | for the listing's filters the placeholder count equals the argument count |
| AdminRepo.CodeFilterIsSubstringMatch | internal/repository/admin_repo.go:43-47 | the code filter is LIKE $n with the argument "%code%" |
| AdminRepo.Scanned | internal/repository/admin_repo.go:73-85 | rows that fail to scan are dropped; a value is kept iff some row scanned to it |
| AdminRepo.ScanRows | internal/repository/admin_repo.go:73-85 | the row loop keeps the scanned rows in query order |
| AdminRepo.ListReservationsWithFilters | internal/repository/admin_repo.go:21-86 | sends the built statement and arguments; a query error is returned, otherwise the scanned rows |
| AdminRepo.PriceMap | internal/repository/admin_repo.go:147-155 | one key per time name that has a scanned price row |
| AdminRepo.PriceMapLastRowWins | internal/repository/admin_repo.go:147-155 | a repeated time name holds the price of its last row |
| AdminRepo.VehicleSpaces | internal/repository/admin_repo.go:131-163 | at most one entry per space row |
| AdminRepo.VehicleSpacesEntries | internal/repository/admin_repo.go:131-163 | every entry comes from a scanned row whose price query answered, and every such row yields its entry |
| AdminRepo.CollectPrices | internal/repository/admin_repo.go:149-155 | the price row loop builds `PriceMap` |
| AdminRepo.ListVehicleSpaces | internal/repository/admin_repo.go:122-165 | a failing space query is an error; otherwise the listing skips rows that fail to scan and types whose price query fails |
| AdminRepo.SpacesAfterUpdate | internal/repository/admin_repo.go:167-177 | every capacity row whose type has that name gets the new value; others are unchanged |
| AdminRepo.UpdateVehicleSpaces | internal/repository/admin_repo.go:167-177 | the capacity table becomes `SpacesAfterUpdate`; a failure changes nothing; no match is no error |
| AdminRepo.LookupId | internal/repository/admin_repo.go:181-194 | a name resolves iff some entry has it, to the id of the first such entry |
| AdminRepo.UpsertPrice | internal/repository/admin_repo.go:179-206 | an unknown type or time name is an error; when both names resolve the upsert succeeds, setting the one price of (type, time) and keeping every other price |
| AdminRepo.UpdateVehiclePrice | internal/repository/admin_repo.go:179-206 | an unknown name errors before any write; otherwise the price table becomes the upsert |
| AdminService.ListReservationsAsWritten | internal/service/admin_service.go:27-34 | the call as written: start date, end date and code land in the code, start and end parameters |
| AdminService.StartDateListedAsCode | internal/service/admin_service.go:28 | as written, a start date alone is sent as the pattern "%2025-01-01%" of a code LIKE filter |
| AdminService.ListReservations | internal/service/admin_service.go:27-34 | each filter goes to the parameter of the same meaning; a repository error is returned |
| AdminService.StartDateListedAsStartDate | internal/service/admin_service.go:27-34 | corrected, a start date alone bounds DATE(start_time) and is bound as given |
| AdminService.CreateReservation | internal/service/admin_service.go:36-73 | an active row with the code and price is inserted, then read back by code; an insert failure inserts nothing |
| AdminService.AlreadyRefundedDoesNotBlock | internal/service/admin_service.go:91-98 | a refund error mentioning "charge_already_refunded" anywhere does not stop the cancel |
| AdminService.CancelReservation | internal/service/admin_service.go:75-103 | a failed lookup changes nothing; no session or no refund flag cancels with no refund; a refund error other than "already refunded" stops the cancel; a failed update returns its error and changes nothing (a requested refund stays requested); there is no cutoff |
| AdminService.PriceEntries | internal/service/admin_service.go:114 | given an order listing each time name of the map once, the entries are exactly the map's (time name, price) pairs, each time name once |
| AdminService.ApplyPricesSucceedsIff | internal/service/admin_service.go:114-120 | the loop succeeds iff there are no prices, or the type and every time name resolve |
| AdminService.ApplyPricesStopsAtFirstFailure | internal/service/admin_service.go:114-120 | on failure, the entries before the failing one are written and its error is returned |
| AdminService.ApplyPricesKeepsOtherTypes | internal/service/admin_service.go:109-122 | prices of every other vehicle type are untouched |
| AdminService.UpdateVehicleSpacesAndPrices | internal/service/admin_service.go:109-122 | a failed space update writes no price; otherwise the capacity update, then the upserts in order up to the first failure |

## Findings

| source | as written | input that shows it | evidently intended | confidence | as-written member | corrected member |
|---|---|---|---|---|---|---|
| internal/service/admin_service.go:28 | the service passes `(startTime, endTime, code, …)` to a repository method declared `(code, startTime, endTime, …)` | a listing with only startTime = "2025-01-01" sends the filter `r.code LIKE $1` with "%2025-01-01%" | each filter reaches the parameter of the same name | high (argument order read from both signatures; not executed) | AdminService.StartDateListedAsCode | AdminService.StartDateListedAsStartDate |

## Left out

- Notifications are not modelled: e-mail and SMS sending, templates and time zones are external I/O.
- The payment provider's SDK, webhooks and the payment-intent lookup are not modelled. A checkout and a refund are one abstract answer each.
- HTTP handlers, wiring, JWT authentication and the legacy counter handlers are not modelled.
- Concurrency is not modelled: the check-then-insert race, the cron scheduler and goroutines.
- `DeleteOldPendingReservations`, the price and vehicle-type listings and the lookups by e-mail or session id are outside the modelled core.
- ReservationService.CancelReservation: the reservation read again by session id feeds only the notifications, so only that read's failure (`rereadFailure`) is modelled.
- ReservationRepo.FindByCode: returns the first row with the code. The source's `QueryRow` has no ORDER BY, so the database may return any matching row; this matters because codes repeat.
- ReservationService.CancelReservation, AdminService.CancelReservation: a database failure of the first lookup by code is not modelled; that lookup fails only for an unknown code.
- AdminRepo.BuildListQuery: the fixed part of the statement is the source's text with each run of whitespace collapsed to one space.
- ReservationService.ChargeAmount: the 30% deposit is exact integer cents (`totalPrice * 30`). The source computes it in floating point and truncates, which can differ by one cent.
- ReservationService.BestUnitAndCount: durations are integer nanoseconds. The source's floating-point `d.Hours()` comparisons are not modelled.
- ReservationService.ReservationCode: the clock is a natural number. Clocks before 1970 (negative UnixNano) are not modelled.
- VehicleTypes.MapVehicleTypeIDForSpace: lower-casing is ASCII only. Go's Unicode case mapping is not modelled.
- AdminService.UpdateVehicleSpacesAndPrices: Go's map iteration order is the `order` parameter, which must list each price key once. Prices are integers, not `float32`.
- AdminService.CreateReservation: the read-back is a plain first-row-with-this-code lookup. The join with vehicle types and payment methods that adds their names is not modelled, and neither is a failure of that read.
- AdminRepo.ListReservationsWithFilters: the SQL engine's evaluation of the statement is not modelled. The rows it returns are a parameter.
- AdminRepo.ListVehicleSpaces: the join of capacity rows with vehicle types is not modelled. The joined rows are given, and so is each type's price answer.
- AdminRepo.UpdateVehiclePrice: database failures other than an unknown name are not modelled.
- JobRepo.GetActiveReservationIDsPastEndTime: a scan error aborting the selection is not modelled. Only a query failure is.
- JobRepo.UpdateReservationStatuses: the affected-row count is only logged in the source, so it is not modelled.
- ReservationRepo.GetHourlyAvailabilityDetails: a NULL total-spaces column and a failing slot query are not modelled.
- ReservationRepo.GetHourlyAvailabilityDetails: a failure of the vehicle-types read (internal/repository/reservation_repo.go:82-85) and a read failure of the configured-spaces check other than a missing row (internal/repository/reservation_repo.go:167) are not modelled; the vehicle types and spaces are the database's fields.
- ReservationRepo.GetPriceForUnit: a read failure other than a missing price row (internal/repository/reservation_repo.go:180) is not modelled; the price table is a map that always answers.

/**
 * The user-facing reservation service: availability, tiered pricing,
 * reservation codes, booking with a checkout session, user cancellation,
 * and the localized status labels.
 */
module ReservationService {
  import opened Models
  import opened VehicleTypes
  import opened Payments
  import Repo = ReservationRepo

  // ---------------------------------------------------------------------------
  // Availability
  // ---------------------------------------------------------------------------

  datatype TimeSlotAvailability = TimeSlotAvailability(startTime: int, endTime: int, isAvailable: bool, availableSpaces: int)

  datatype AvailabilityResponse = AvailabilityResponse(
    isOverallAvailable: bool,
    requestedStartTime: int,
    requestedEndTime: int,
    slotDetails: seq<TimeSlotAvailability>,
    firstUnavailableSlotStart: Option<int>)

  /** The detail shown for a slot: its bounds, the spaces left, and whether any is left. */
  predicate Describes(t: TimeSlotAvailability, d: Repo.SlotOccupationInfo)
  {
    t.startTime == d.slotStart && t.endTime == d.slotEnd &&
    t.availableSpaces == d.totalSpaces - d.bookedSpaces &&
    (t.isAvailable <==> t.availableSpaces > 0)
  }

  function HourlyDetails(db: Database, req: ReservationRequest): Result<seq<Repo.SlotOccupationInfo>>
    reads db
  {
    Repo.GetHourlyAvailabilityDetails(db.reservations, db.vehicleTypes, db.spaces,
                                      req.startTime, req.endTime, req.vehicleTypeId, req.vehicleTypeName)
  }

  /**
   * One slot detail per hourly slot, in order; the window is available
   * overall exactly when there is at least one slot and every slot has a
   * space left. The first unavailable slot is found but not reported.
   */
  method CheckAvailability(db: Database, req: ReservationRequest) returns (r: Result<AvailabilityResponse>)
    ensures HourlyDetails(db, req).Err? ==> r == Err(HourlyDetails(db, req).error)
    ensures HourlyDetails(db, req).Ok? ==>
      var details := HourlyDetails(db, req).value;
      r.Ok? &&
      r.value.requestedStartTime == req.startTime && r.value.requestedEndTime == req.endTime &&
      |r.value.slotDetails| == |details| &&
      (forall k :: 0 <= k < |details| ==> Describes(r.value.slotDetails[k], details[k])) &&
      (r.value.isOverallAvailable <==>
         |details| > 0 && forall k :: 0 <= k < |details| ==> r.value.slotDetails[k].isAvailable) &&
      r.value.firstUnavailableSlotStart == None
  {
    var q := HourlyDetails(db, req);
    if q.Err? {
      return Err(q.error);
    }
    var details := q.value;
    var response := AvailabilityResponse(true, req.startTime, req.endTime, [], None);
    if |details| == 0 {
      response := response.(isOverallAvailable := false);
      return Ok(response);
    }
    var firstUnavailableTime: Option<int> := None;
    for i := 0 to |details|
      invariant response.requestedStartTime == req.startTime && response.requestedEndTime == req.endTime
      invariant response.firstUnavailableSlotStart == None
      invariant |response.slotDetails| == i
      invariant forall k :: 0 <= k < i ==> Describes(response.slotDetails[k], details[k])
      invariant response.isOverallAvailable <==> forall k :: 0 <= k < i ==> response.slotDetails[k].isAvailable
      invariant firstUnavailableTime.None? <==> forall k :: 0 <= k < i ==> response.slotDetails[k].isAvailable
      invariant firstUnavailableTime.Some? ==>
        exists k :: 0 <= k < i && !response.slotDetails[k].isAvailable && details[k].slotStart == firstUnavailableTime.value
                    && forall j :: 0 <= j < k ==> response.slotDetails[j].isAvailable
    {
      var detail := details[i];
      var availableInSlot := detail.totalSpaces - detail.bookedSpaces;
      var isSlotAvailable := availableInSlot > 0;
      response := response.(slotDetails := response.slotDetails +
        [TimeSlotAvailability(detail.slotStart, detail.slotEnd, isSlotAvailable, availableInSlot)]);
      if !isSlotAvailable {
        response := response.(isOverallAvailable := false);
        if firstUnavailableTime.None? {
          firstUnavailableTime := Some(detail.slotStart);
        }
      }
    }
    r := Ok(response);
  }

  /**
   * No overbooking through an admitted booking: when every hourly slot of a
   * window still has a space, adding one more active reservation of the pool
   * leaves every slot within its configured total.
   */
  lemma BookingWithinCapacity(rows: seq<Reservation>, types: seq<VehicleType>, spaces: map<int, int>,
                              start: int, end: int, vehicleTypeId: int, vehicleTypeName: string, added: Reservation)
    requires Repo.GetHourlyAvailabilityDetails(rows, types, spaces, start, end, vehicleTypeId, vehicleTypeName).Ok?
    requires var d := Repo.GetHourlyAvailabilityDetails(rows, types, spaces, start, end, vehicleTypeId, vehicleTypeName).value;
             forall k :: 0 <= k < |d| ==> d[k].bookedSpaces < d[k].totalSpaces
    ensures Repo.GetHourlyAvailabilityDetails(rows + [added], types, spaces, start, end, vehicleTypeId, vehicleTypeName).Ok?
    ensures var d := Repo.GetHourlyAvailabilityDetails(rows + [added], types, spaces, start, end, vehicleTypeId, vehicleTypeName).value;
            forall k :: 0 <= k < |d| ==> d[k].bookedSpaces <= d[k].totalSpaces
  {
    var before := Repo.GetHourlyAvailabilityDetails(rows, types, spaces, start, end, vehicleTypeId, vehicleTypeName).value;
    var after := Repo.GetHourlyAvailabilityDetails(rows + [added], types, spaces, start, end, vehicleTypeId, vehicleTypeName).value;
    var pool := PoolIds(types, ToLower(vehicleTypeName));
    forall k | 0 <= k < |after| ensures after[k].bookedSpaces <= after[k].totalSpaces {
      assert before[k].slotStart == after[k].slotStart && before[k].slotEnd == after[k].slotEnd;
      Repo.BookedAppend(rows, added, pool, after[k].slotStart, after[k].slotEnd);
    }
  }

  /**
   * The part of a window after its last whole hour is never checked: with one
   * car space taken from 1:00 to 1:30, a 0:00-1:30 window reports one slot,
   * 0:00-1:00, with nothing booked.
   */
  lemma TrailingPartialHourNotChecked(held: Reservation)
    requires held.vehicleTypeId == 1 && held.status == StatusActive
    requires held.startTime == OneHour && held.endTime == OneHour + OneHour / 2
    ensures Repo.GetHourlyAvailabilityDetails([held], [VehicleType(1, "car")], map[1 := 1],
                                              0, OneHour + OneHour / 2, 1, "car")
         == Ok([Repo.SlotOccupationInfo(0, OneHour, 1, 0)])
  {
    var types := [VehicleType(1, "car")];
    assert ToLower("car") == "car";
    assert PoolIds(types, "car") == PoolIds([], "car") + [1] by {
      assert types[..0] == [];
    }
    assert [held][..0] == [];
    assert Repo.Booked([held], [1], 0, OneHour) == 0;
    var starts := Repo.SlotStarts(0, OneHour + OneHour / 2);
    assert |starts| == 1 && starts[0] == 0;
    var r := Repo.GetHourlyAvailabilityDetails([held], types, map[1 := 1], 0, OneHour + OneHour / 2, 1, "car");
    assert r.Ok? && |r.value| == 1;
    assert r.value[0] == Repo.SlotOccupationInfo(0, OneHour, 1, 0);
    assert r.value == [Repo.SlotOccupationInfo(0, OneHour, 1, 0)];
  }

  // ---------------------------------------------------------------------------
  // Pricing
  // ---------------------------------------------------------------------------

  /** A billing unit; `Id` is its reservation_times id. */
  datatype Unit = Hourly | Daily | Weekly | Monthly
  {
    function Id(): int
    {
      match this
      case Hourly => 1
      case Daily => 2
      case Weekly => 3
      case Monthly => 4
    }

    function Name(): string
    {
      match this
      case Hourly => "hour"
      case Daily => "day"
      case Weekly => "week"
      case Monthly => "month"
    }

    function Length(): int
    {
      match this
      case Hourly => OneHour
      case Daily => OneDay
      case Weekly => OneWeek
      case Monthly => OneMonth
    }
  }

  datatype UnitCount = UnitCount(unit: Unit, count: int)

  /** Go's `int(x)` conversion of a quotient: truncation toward zero. */
  function TruncDiv(a: int, b: int): int
    requires b > 0
  {
    if a >= 0 then a / b else -((-a) / b)
  }

  /** Whole units, plus one more if any part of a unit is left over. */
  function CeilCount(d: int, len: int): int
    requires len > 0
  {
    var c := TruncDiv(d, len);
    if d > c * len then c + 1 else c
  }

  lemma CeilCountIsCeiling(d: int, len: int)
    requires d > 0 && len > 0
    ensures CeilCount(d, len) >= 1
    ensures (CeilCount(d, len) - 1) * len < d <= CeilCount(d, len) * len
  {
    var q := d / len;
    assert d == q * len + d % len;
    if q <= 0 {
      assert q * len <= 0;
    }
  }

  /** getBestUnitAndCount: the unit is chosen by the duration thresholds of 24 hours, 7 days and 30 days. */
  function BestUnitAndCount(d: int): (uc: UnitCount)
    ensures uc.unit == Hourly <==> d < OneDay
    ensures uc.unit == Daily <==> OneDay <= d < OneWeek
    ensures uc.unit == Weekly <==> OneWeek <= d < OneMonth
    ensures uc.unit == Monthly <==> OneMonth <= d
  {
    if d < OneDay then
      var c := CeilCount(d, OneHour);
      UnitCount(Hourly, if c == 0 then 1 else c)
    else if d < OneWeek then UnitCount(Daily, CeilCount(d, OneDay))
    else if d < OneMonth then UnitCount(Weekly, CeilCount(d, OneWeek))
    else UnitCount(Monthly, CeilCount(d, OneMonth))
  }

  /** For a positive duration the count is the ceiling of the duration over the unit, at least 1. */
  lemma BestCountIsCeiling(d: int)
    requires d > 0
    ensures var uc := BestUnitAndCount(d);
      uc.count >= 1 && (uc.count - 1) * uc.unit.Length() < d <= uc.count * uc.unit.Length()
  {
    var uc := BestUnitAndCount(d);
    CeilCountIsCeiling(d, uc.unit.Length());
  }

  /** A zero or sub-hour duration costs one hour. */
  lemma ShortDurationsCostOneHour(d: int)
    requires -OneHour < d <= OneHour
    ensures BestUnitAndCount(d) == UnitCount(Hourly, 1)
  {
  }

  /** Exactly one day, one week and one month select that unit with count 1, not the smaller unit. */
  lemma UnitBoundaries()
    ensures BestUnitAndCount(OneDay) == UnitCount(Daily, 1)
    ensures BestUnitAndCount(OneWeek) == UnitCount(Weekly, 1)
    ensures BestUnitAndCount(OneMonth) == UnitCount(Monthly, 1)
    ensures BestUnitAndCount(OneDay - 1) == UnitCount(Hourly, 24)
  {
  }

  lemma MulMonotone(a: int, b: int, len: int)
    requires a <= b && len > 0
    ensures a * len <= b * len
  {
  }

  /** Within one unit, a longer stay is never billed fewer units. */
  lemma CountMonotoneWithinUnit(d1: int, d2: int)
    requires 0 < d1 <= d2
    requires BestUnitAndCount(d1).unit == BestUnitAndCount(d2).unit
    ensures BestUnitAndCount(d1).count <= BestUnitAndCount(d2).count
  {
    var u1, u2 := BestUnitAndCount(d1), BestUnitAndCount(d2);
    BestCountIsCeiling(d1);
    BestCountIsCeiling(d2);
    if u2.count < u1.count {
      MulMonotone(u2.count, u1.count - 1, u1.unit.Length());
    }
  }

  /**
   * The price of a stay: the unit price of the best unit times its count.
   * An empty or reversed window fails before any price is looked up; a
   * missing price row is an error.
   */
  function GetTotalPriceForReservation(prices: map<(int, int), int>, vehicleTypeId: int, startTime: int, endTime: int)
    : (r: Result<int>)
    ensures endTime <= startTime ==> r == Err(InvalidWindow)
    ensures endTime > startTime ==>
      var uc := BestUnitAndCount(endTime - startTime);
      (r.Ok? <==> (vehicleTypeId, uc.unit.Id()) in prices) &&
      (r.Err? ==> r.error == NoPrice(vehicleTypeId, uc.unit.Id())) &&
      (r.Ok? ==> r.value == prices[(vehicleTypeId, uc.unit.Id())] * uc.count
                 && uc.count >= 1
                 && (uc.count - 1) * uc.unit.Length() < endTime - startTime <= uc.count * uc.unit.Length())
  {
    if endTime <= startTime then Err(InvalidWindow)
    else
      var uc := BestUnitAndCount(endTime - startTime);
      BestCountIsCeiling(endTime - startTime);
      match Repo.GetPriceForUnit(prices, vehicleTypeId, uc.unit.Id())
      case Err(e) => Err(e)
      case Ok(pricePerUnit) => Ok(pricePerUnit * uc.count)
  }

  /** Two and a half hours at 5 per hour are billed as three hours: 15. */
  lemma TwoAndAHalfHours()
    ensures GetTotalPriceForReservation(map[(1, 1) := 5], 1, 0, 2 * OneHour + OneHour / 2) == Ok(15)
  {
  }

  /**
   * The total is not monotonic in the duration across a unit switch: with 10
   * per hour and 100 per day, 23 hours cost 230 but 24 hours cost 100.
   */
  lemma UnitSwitchCanLowerPrice()
    ensures var prices := map[(1, 1) := 10, (1, 2) := 100];
      GetTotalPriceForReservation(prices, 1, 0, 23 * OneHour) == Ok(230) &&
      GetTotalPriceForReservation(prices, 1, 0, 24 * OneHour) == Ok(100)
  {
  }

  // ---------------------------------------------------------------------------
  // Reservation codes: `fmt.Sprintf("%08X", now % 100000000)`
  // ---------------------------------------------------------------------------

  const CodeModulus: int := 100_000_000

  predicate IsHexDigit(c: char)
  {
    '0' <= c <= '9' || 'A' <= c <= 'F'
  }

  function HexDigit(d: int): (c: char)
    requires 0 <= d < 16
    ensures IsHexDigit(c)
  {
    if d < 10 then ('0' as int + d) as char else ('A' as int + d - 10) as char
  }

  function HexDigitValue(c: char): (d: int)
    requires IsHexDigit(c)
    ensures 0 <= d < 16
  {
    if c <= '9' then c as int - '0' as int else c as int - 'A' as int + 10
  }

  function Pow16(n: nat): nat
  {
    if n == 0 then 1 else 16 * Pow16(n - 1)
  }

  /** The `width` lowest hexadecimal digits of `n`, most significant first, upper case, zero padded. */
  function HexFixed(n: nat, width: nat): (s: string)
    ensures |s| == width
    ensures forall i :: 0 <= i < |s| ==> IsHexDigit(s[i])
  {
    if width == 0 then [] else HexFixed(n / 16, width - 1) + [HexDigit(n % 16)]
  }

  /** Reading a string of hexadecimal digits back as a number. */
  function HexValue(s: string): nat
    requires forall i :: 0 <= i < |s| ==> IsHexDigit(s[i])
  {
    if s == [] then 0 else HexValue(s[..|s| - 1]) * 16 + HexDigitValue(s[|s| - 1])
  }

  lemma {:induction false} HexFixedRoundTrip(n: nat, width: nat)
    requires n < Pow16(width)
    ensures HexValue(HexFixed(n, width)) == n
  {
    if width > 0 {
      HexFixedRoundTrip(n / 16, width - 1);
      var s := HexFixed(n, width);
      assert s[..width - 1] == HexFixed(n / 16, width - 1);
      assert HexDigitValue(HexDigit(n % 16)) == n % 16;
    }
  }

  /** A number below 16^w written with w + 1 digits starts with a padding '0'. */
  lemma {:induction false} HexFixedPads(n: nat, width: nat)
    requires n < Pow16(width)
    ensures HexFixed(n, width + 1) == ['0'] + HexFixed(n, width)
  {
    if width == 0 {
      assert n == 0;
    } else {
      HexFixedPads(n / 16, width - 1);
    }
  }

  /** The code of a reservation created at `now` nanoseconds: 8 upper-case hex digits. */
  function ReservationCode(now: nat): (code: string)
    ensures |code| == 8
    ensures forall i :: 0 <= i < 8 ==> IsHexDigit(code[i])
  {
    HexFixed(now % CodeModulus, 8)
  }

  /** The code reads back as the clock modulo 10^8, and always starts with '0' since 10^8 < 16^7. */
  lemma CodeDecodes(now: nat)
    ensures HexValue(ReservationCode(now)) == now % CodeModulus
    ensures ReservationCode(now)[0] == '0'
  {
    assert Pow16(7) == 268435456 by {
      assert Pow16(1) == 16;
      assert Pow16(2) == 256;
      assert Pow16(3) == 4096;
      assert Pow16(4) == 65536;
      assert Pow16(5) == 1048576;
      assert Pow16(6) == 16777216;
    }
    assert Pow16(8) == 4294967296;
    HexFixedRoundTrip(now % CodeModulus, 8);
    HexFixedPads(now % CodeModulus, 7);
  }

  /** Codes repeat every 10^8 nanoseconds (0.1 s), so two bookings can share one. */
  lemma CodesRepeat(now: nat)
    ensures ReservationCode(now + CodeModulus) == ReservationCode(now)
  {
    assert (now + CodeModulus) % CodeModulus == now % CodeModulus;
  }

  // ---------------------------------------------------------------------------
  // Booking
  // ---------------------------------------------------------------------------

  datatype StripeSessionResponse = StripeSessionResponse(code: string, url: string, sessionId: string)

  /** The amount charged through checkout, in cents: all of it online (2), a 30% deposit on site (1). */
  function ChargeAmount(paymentMethodId: int, totalPrice: int): (amount: Option<int>)
    ensures amount.Some? <==> paymentMethodId == 1 || paymentMethodId == 2
    ensures paymentMethodId == 2 ==> amount == Some(totalPrice * 100)
    ensures paymentMethodId == 1 ==> amount.Some? && amount.value * 10 == totalPrice * 100 * 3
  {
    if paymentMethodId == 2 then Some(totalPrice * 100)
    else if paymentMethodId == 1 then Some(totalPrice * 30)
    else None
  }

  /** The row a user booking inserts: pending, with the checkout session attached. */
  function UserReservation(req: ReservationRequest, now: nat, sessionId: string): Reservation
  {
    Reservation(0, ReservationCode(now), req.userName, req.userEmail, req.userPhone, req.vehicleTypeId,
                req.vehiclePlate, req.vehicleModel, req.paymentMethodId, StatusPending,
                req.startTime, req.endTime, now, now, sessionId, StatusPending, req.language, None)
  }

  function CheckoutFor(req: ReservationRequest, now: nat): CheckoutRequest
    requires ChargeAmount(req.paymentMethodId, req.totalPrice).Some?
  {
    CheckoutRequest(ChargeAmount(req.paymentMethodId, req.totalPrice).value, "eur",
                    ReservationCode(now), req.userEmail, req.language)
  }

  /** Opens the checkout session for the amount due and attaches it to the reservation. */
  method HandlePaymentIntent(gateway: PaymentGateway, req: ReservationRequest, reservation: Reservation,
                             answer: CheckoutAnswer)
    returns (r: Result<(string, Reservation)>)
    modifies gateway`checkouts
    ensures ChargeAmount(req.paymentMethodId, req.totalPrice).None? ==>
      r == Err(UnsupportedPaymentMethod(req.paymentMethodId)) && gateway.checkouts == old(gateway.checkouts)
    ensures ChargeAmount(req.paymentMethodId, req.totalPrice).Some? ==>
      gateway.checkouts == old(gateway.checkouts) +
        [CheckoutRequest(ChargeAmount(req.paymentMethodId, req.totalPrice).value, "eur",
                         reservation.code, req.userEmail, reservation.language)] &&
      (answer.Refused? ==> r == Err(Upstream(answer.message))) &&
      (answer.Opened? ==> r == Ok((answer.session.url,
         reservation.(stripeSessionId := answer.session.sessionId, paymentStatus := StatusPending))))
  {
    var amount := ChargeAmount(req.paymentMethodId, req.totalPrice);
    if amount.None? {
      return Err(UnsupportedPaymentMethod(req.paymentMethodId));
    }
    var checkout := CheckoutRequest(amount.value, "eur", reservation.code, req.userEmail, reservation.language);
    var a := gateway.CreateCheckoutSession(checkout, answer);
    if a.Refused? {
      return Err(Upstream(a.message));
    }
    var updated := reservation.(stripeSessionId := a.session.sessionId, paymentStatus := StatusPending);
    r := Ok((a.session.url, updated));
  }

  /**
   * A user booking: a pending reservation with a fresh code, inserted only
   * after the checkout session opened; an unsupported payment method asks
   * for no checkout and inserts nothing.
   */
  method CreateReservation(db: Database, gateway: PaymentGateway, req: ReservationRequest, now: nat,
                           answer: CheckoutAnswer, storeFailure: Option<string>)
    returns (r: Result<StripeSessionResponse>)
    requires db.Valid()
    modifies db`reservations, db`nextId, gateway`checkouts
    ensures db.Valid()
    ensures ChargeAmount(req.paymentMethodId, req.totalPrice).None? ==>
      r == Err(UnsupportedPaymentMethod(req.paymentMethodId)) &&
      gateway.checkouts == old(gateway.checkouts) && db.reservations == old(db.reservations)
    ensures ChargeAmount(req.paymentMethodId, req.totalPrice).Some? ==>
      gateway.checkouts == old(gateway.checkouts) + [CheckoutFor(req, now)]
    ensures ChargeAmount(req.paymentMethodId, req.totalPrice).Some? && answer.Refused? ==>
      r == Err(Upstream(answer.message)) && db.reservations == old(db.reservations)
    ensures ChargeAmount(req.paymentMethodId, req.totalPrice).Some? && answer.Opened? && storeFailure.Some? ==>
      r == Err(Store(storeFailure.value)) && db.reservations == old(db.reservations)
    ensures ChargeAmount(req.paymentMethodId, req.totalPrice).Some? && answer.Opened? && storeFailure.None? ==>
      r == Ok(StripeSessionResponse(ReservationCode(now), answer.session.url, answer.session.sessionId)) &&
      db.reservations == old(db.reservations)
        + [UserReservation(req, now, answer.session.sessionId).(id := old(db.nextId))]
  {
    var code := ReservationCode(now);
    var reservation := Reservation(0, code, req.userName, req.userEmail, req.userPhone, req.vehicleTypeId,
                                   req.vehiclePlate, req.vehicleModel, req.paymentMethodId, StatusPending,
                                   req.startTime, req.endTime, now, now, "", "", req.language, None);
    var intent := HandlePaymentIntent(gateway, req, reservation, answer);
    if intent.Err? {
      return Err(intent.error);
    }
    var (sessionUrl, paid) := intent.value;
    var inserted := Repo.CreateReservation(db, paid, storeFailure);
    if inserted.Err? {
      return Err(inserted.error);
    }
    r := Ok(StripeSessionResponse(code, sessionUrl, paid.stripeSessionId));
  }

  // ---------------------------------------------------------------------------
  // User cancellation
  // ---------------------------------------------------------------------------

  /** Users may cancel only 12 hours or more before the start. */
  predicate BeforeCutoff(reservation: Reservation, now: int)
  {
    reservation.startTime - now >= 12 * OneHour
  }

  /**
   * A user cancel: the reservation must have been paid through a checkout
   * session and start at least 12 hours from now; the refund must succeed
   * before the rows with that code are marked canceled. `rereadFailure` is
   * the database's answer when the reservation is read again by its session
   * id, `cancelFailure` its answer to the final update.
   */
  method CancelReservation(db: Database, gateway: PaymentGateway, code: string, now: int,
                           rereadFailure: Option<string>, refundAnswer: Option<string>,
                           cancelFailure: Option<string>)
    returns (err: Option<Error>)
    requires db.Valid()
    modifies db`reservations, gateway`refunds
    ensures db.Valid()
    ensures var found := Repo.FindByCode(old(db.reservations), code);
      (found.Err? ==> err == Some(NotFound(code))) &&
      (found.Ok? && found.value.stripeSessionId == "" ==> err == Some(NoSession(code))) &&
      (found.Ok? && found.value.stripeSessionId != "" && rereadFailure.Some? ==>
         err == Some(Store(rereadFailure.value))) &&
      (found.Ok? && found.value.stripeSessionId != "" && rereadFailure.None? && !BeforeCutoff(found.value, now) ==>
         err == Some(CancelCutoff)) &&
      (found.Ok? && found.value.stripeSessionId != "" && rereadFailure.None? && BeforeCutoff(found.value, now) ==>
         gateway.refunds == old(gateway.refunds) + [found.value.stripeSessionId] &&
         (refundAnswer.Some? ==> err == Some(Upstream(refundAnswer.value))) &&
         (refundAnswer.None? && cancelFailure.Some? ==> err == Some(Store(cancelFailure.value))) &&
         (refundAnswer.None? && cancelFailure.None? ==> err == None))
    ensures err == None ==> db.reservations == Repo.CancelRows(old(db.reservations), code, now)
    ensures err != None ==> db.reservations == old(db.reservations)
    ensures gateway.refunds != old(gateway.refunds) ==>
              var found := Repo.FindByCode(old(db.reservations), code);
              found.Ok? && found.value.stripeSessionId != "" && rereadFailure.None? && BeforeCutoff(found.value, now)
  {
    var found := Repo.FindByCode(db.reservations, code);
    if found.Err? {
      return Some(found.error);
    }
    var reservation := found.value;
    var sessionId := reservation.stripeSessionId;
    if sessionId == "" {
      return Some(NoSession(code));
    }
    if rereadFailure.Some? {
      return Some(Store(rereadFailure.value));
    }
    if reservation.startTime - now < 12 * OneHour {
      return Some(CancelCutoff);
    }
    var refundErr := gateway.RefundPaymentBySessionID(sessionId, refundAnswer);
    if refundErr.Some? {
      return Some(Upstream(refundErr.value));
    }
    var canceled := Repo.CancelReservation(db, code, now, cancelFailure);
    if canceled.Err? {
      return Some(canceled.error);
    }
    err := None;
  }

  // ---------------------------------------------------------------------------
  // Status labels
  // ---------------------------------------------------------------------------

  predicate IsKnownStatus(status: string)
  {
    status == "pending" || status == "active" || status == "finished" || status == "canceled" || status == "cancelled"
  }

  /** The status label in the reservation's language; English and anything unknown keep the status itself. */
  function StatusTranslation(status: string, lang: string): (shown: string)
    ensures lang != "es" && lang != "it" ==> shown == status
    ensures !IsKnownStatus(status) ==> shown == status
    ensures IsKnownStatus(status) && (lang == "es" || lang == "it") ==> shown != status
  {
    if lang == "es" then
      if status == "pending" then "pendiente"
      else if status == "active" then "activa"
      else if status == "finished" then "finalizada"
      else if status == "canceled" || status == "cancelled" then "cancelada"
      else status
    else if lang == "it" then
      if status == "pending" then "in attesa"
      else if status == "active" then "attiva"
      else if status == "finished" then "finito"
      else if status == "canceled" || status == "cancelled" then "annullata"
      else status
    else status
  }

  /** Both spellings of canceled get one label; the four lifecycle states get four different labels. */
  lemma StatusLabels(lang: string)
    ensures lang == "es" || lang == "it" ==> StatusTranslation("canceled", lang) == StatusTranslation("cancelled", lang)
    ensures var labels := [StatusTranslation("pending", lang), StatusTranslation("active", lang),
                           StatusTranslation("finished", lang), StatusTranslation("canceled", lang)];
            forall i, j :: 0 <= i < j < 4 ==> labels[i] != labels[j]
    ensures lang == "es" ==>
      [StatusTranslation("pending", lang), StatusTranslation("active", lang),
       StatusTranslation("finished", lang), StatusTranslation("canceled", lang)]
      == ["pendiente", "activa", "finalizada", "cancelada"]
    ensures lang == "it" ==>
      [StatusTranslation("pending", lang), StatusTranslation("active", lang),
       StatusTranslation("finished", lang), StatusTranslation("canceled", lang)]
      == ["in attesa", "attiva", "finito", "annullata"]
  {
  }
}

/**
 * The admin service: listing with filters, bookings entered by staff,
 * cancellation with an optional refund, and the configuration of spaces and
 * prices.
 */
module AdminService {
  import opened Models
  import opened Payments
  import opened AdminRepo
  import Repo = ReservationRepo
  import Booking = ReservationService

  // ---------------------------------------------------------------------------
  // Listing
  // ---------------------------------------------------------------------------

  /**
   * ListReservations as written: the service takes (startTime, endTime, code,
   * ...) and hands them on in that order to a repository method whose first
   * three parameters are (code, startTime, endTime). The start date is
   * matched as a code, the end date as a start date, the code as an end date.
   */
  method ListReservationsAsWritten(startTime: string, endTime: string, code: string, vehicleType: string,
                                   status: string, limit: string, offset: string,
                                   answer: QueryAnswer<ReservationResponse>)
    returns (query: string, args: seq<string>, r: Result<seq<ReservationResponse>>)
    ensures query == ListQuery(startTime, endTime, code, vehicleType, status, limit, offset)
    ensures args == Args(ActiveFilters(startTime, endTime, code, vehicleType, status))
    ensures answer.QueryFailed? ==> r == Err(Store(answer.message))
    ensures answer.Rows? ==> r == Ok(Scanned(answer.rows))
  {
    query, args, r := ListReservationsWithFilters(startTime, endTime, code, vehicleType, status, limit, offset, answer);
  }

  /** A start date alone, passed as written, becomes a code pattern instead of a date bound. */
  lemma StartDateListedAsCode()
    ensures Args(ActiveFilters("2025-01-01", "", "", "", "")) == ["%2025-01-01%"]
    ensures WhereClauses(ActiveFilters("2025-01-01", "", "", "", ""), 1) == CodeCondition + "$1"
  {
    CodeFilterIsSubstringMatch("2025-01-01");
    assert "%" + "2025-01-01" + "%" == "%2025-01-01%";
  }

  /** ListReservations with each filter handed to the parameter of the same meaning. */
  method ListReservations(startTime: string, endTime: string, code: string, vehicleType: string,
                          status: string, limit: string, offset: string,
                          answer: QueryAnswer<ReservationResponse>)
    returns (query: string, args: seq<string>, r: Result<seq<ReservationResponse>>)
    ensures query == ListQuery(code, startTime, endTime, vehicleType, status, limit, offset)
    ensures args == Args(ActiveFilters(code, startTime, endTime, vehicleType, status))
    ensures answer.QueryFailed? ==> r == Err(Store(answer.message))
    ensures answer.Rows? ==> r == Ok(Scanned(answer.rows))
  {
    query, args, r := ListReservationsWithFilters(code, startTime, endTime, vehicleType, status, limit, offset, answer);
  }

  /** With the arguments in place, a start date alone bounds the start date and is bound as given. */
  lemma {:induction false} StartDateListedAsStartDate(startTime: string)
    requires startTime != ""
    ensures Args(ActiveFilters("", startTime, "", "", "")) == [startTime]
    ensures WhereClauses(ActiveFilters("", startTime, "", "", ""), 1) == StartDateCondition + "$1"
  {
    var fs := ActiveFilters("", startTime, "", "", "");
    assert fs == [Filter(StartDateCondition, startTime)];
    assert fs[..0] == [];
    assert Itoa(1) == "1";
  }

  // ---------------------------------------------------------------------------
  // Staff bookings
  // ---------------------------------------------------------------------------

  /** The row a staff booking inserts: active at once, no checkout session, the given price. */
  function StaffReservation(req: ReservationRequest, now: nat): Reservation
  {
    Reservation(0, Booking.ReservationCode(now), req.userName, req.userEmail, req.userPhone, req.vehicleTypeId,
                req.vehiclePlate, req.vehicleModel, req.paymentMethodId, StatusActive,
                req.startTime, req.endTime, now, now, "", "", req.language, Some(req.totalPrice))
  }

  /**
   * CreateReservation for staff: insert the active row, then read it back by
   * its code. The read returns the first row with that code, so an older
   * reservation with the same code would be returned instead.
   */
  method CreateReservation(db: Database, req: ReservationRequest, now: nat, storeFailure: Option<string>)
    returns (r: Result<Reservation>)
    requires db.Valid()
    modifies db`reservations, db`nextId
    ensures db.Valid()
    ensures storeFailure.Some? ==> r == Err(Store(storeFailure.value)) && db.reservations == old(db.reservations)
    ensures storeFailure.None? ==>
      db.reservations == old(db.reservations) + [StaffReservation(req, now).(id := old(db.nextId))] &&
      r == Repo.FindByCode(db.reservations, Booking.ReservationCode(now)) && r.Ok? &&
      r.value.code == Booking.ReservationCode(now)
    ensures storeFailure.None? &&
      (forall i :: 0 <= i < |old(db.reservations)| ==> old(db.reservations)[i].code != Booking.ReservationCode(now))
      ==> r == Ok(StaffReservation(req, now).(id := old(db.nextId)))
  {
    var code := Booking.ReservationCode(now);
    var reservation := StaffReservation(req, now);
    var inserted := Repo.CreateReservation(db, reservation, storeFailure);
    if inserted.Err? {
      return Err(inserted.error);
    }
    ghost var last := |db.reservations| - 1;
    assert db.reservations[last].code == code;
    r := Repo.FindByCode(db.reservations, code);
    if forall i :: 0 <= i < |old(db.reservations)| ==> old(db.reservations)[i].code != code {
      var k :| 0 <= k < |db.reservations| && db.reservations[k] == r.value
               && forall j :: 0 <= j < k ==> db.reservations[j].code != code;
      assert k == last;
    }
  }

  // ---------------------------------------------------------------------------
  // Staff cancellation
  // ---------------------------------------------------------------------------

  /** strings.Contains. */
  predicate Contains(s: string, part: string)
  {
    exists i :: 0 <= i <= |s| - |part| && OccursAt(s, part, i)
  }

  predicate OccursAt(s: string, part: string, i: int)
    requires 0 <= i <= |s| - |part|
  {
    s[i..i + |part|] == part
  }

  const AlreadyRefunded: string := "charge_already_refunded"

  /** A provider error that says the charge was already refunded does not stop the cancel. */
  predicate RefundBlocks(refundErr: Option<string>)
  {
    refundErr.Some? && !Contains(refundErr.value, AlreadyRefunded)
  }

  /** The provider's own wording is recognised wherever it appears in the message. */
  lemma AlreadyRefundedDoesNotBlock(prefix: string, suffix: string)
    ensures !RefundBlocks(Some(prefix + AlreadyRefunded + suffix))
  {
    var s := prefix + AlreadyRefunded + suffix;
    assert OccursAt(s, AlreadyRefunded, |prefix|) by {
      assert s[|prefix|..|prefix| + |AlreadyRefunded|] == AlreadyRefunded;
    }
  }

  /**
   * CancelReservation for staff: no cutoff; a reservation without a checkout
   * session is canceled directly; otherwise, when asked, the payment is
   * refunded first and only a refund error other than "already refunded"
   * stops the cancel.
   */
  method CancelReservation(db: Database, gateway: PaymentGateway, code: string, refund: bool,
                           refundAnswer: Option<string>, now: int, cancelFailure: Option<string>)
    returns (err: Option<Error>)
    requires db.Valid()
    modifies db`reservations, gateway`refunds
    ensures db.Valid()
    ensures var found := Repo.FindByCode(old(db.reservations), code);
      var updateOutcome := if cancelFailure.Some? then Some(Store(cancelFailure.value)) else None;
      (found.Err? ==> err == Some(NotFound(code)) && gateway.refunds == old(gateway.refunds)) &&
      (found.Ok? && (found.value.stripeSessionId == "" || !refund) ==>
         err == updateOutcome && gateway.refunds == old(gateway.refunds)) &&
      (found.Ok? && found.value.stripeSessionId != "" && refund ==>
         gateway.refunds == old(gateway.refunds) + [found.value.stripeSessionId] &&
         (RefundBlocks(refundAnswer) ==> err == Some(Upstream(refundAnswer.value))) &&
         (!RefundBlocks(refundAnswer) ==> err == updateOutcome))
    ensures err == None ==> db.reservations == Repo.CancelRows(old(db.reservations), code, now)
    ensures err != None ==> db.reservations == old(db.reservations)
  {
    var found := Repo.FindByCode(db.reservations, code);
    if found.Err? {
      return Some(found.error);
    }
    var sessionId := found.value.stripeSessionId;
    if sessionId == "" {
      var canceled := Repo.CancelReservation(db, code, now, cancelFailure);
      if canceled.Err? {
        return Some(canceled.error);
      }
      return None;
    }
    if refund {
      var refundErr := gateway.RefundPaymentBySessionID(sessionId, refundAnswer);
      if refundErr.Some? && !Contains(refundErr.value, AlreadyRefunded) {
        return Some(Upstream(refundErr.value));
      }
    }
    var canceled := Repo.CancelReservation(db, code, now, cancelFailure);
    if canceled.Err? {
      return Some(canceled.error);
    }
    err := None;
  }

  // ---------------------------------------------------------------------------
  // Spaces and prices
  // ---------------------------------------------------------------------------

  /**
   * The price map's entries in the order the loop visits them: every
   * (time name, price) pair of the map exactly once.
   */
  function PriceEntries(prices: map<string, int>, order: seq<string>): (entries: seq<(string, int)>)
    requires forall k :: k in prices <==> k in order
    requires forall i, j :: 0 <= i < j < |order| ==> order[i] != order[j]
    ensures |entries| == |order|
    ensures forall i :: 0 <= i < |entries| ==> entries[i].0 in prices && entries[i].1 == prices[entries[i].0]
    ensures forall k :: k in prices ==> exists i :: 0 <= i < |entries| && entries[i] == (k, prices[k])
    ensures forall i, j :: 0 <= i < j < |entries| ==> entries[i].0 != entries[j].0
  {
    var entries := seq(|order|, i requires 0 <= i < |order| => (order[i], prices[order[i]]));
    assert forall k :: k in prices ==> exists i :: 0 <= i < |order| && order[i] == k && entries[i] == (k, prices[k]);
    entries
  }

  /**
   * Reference definition of the price loop: upsert each entry in turn and
   * stop at the first that fails, keeping what was written before it.
   */
  function ApplyPrices(types: seq<VehicleType>, times: seq<ReservationTime>, prices: map<(int, int), int>,
                       vehicleType: string, entries: seq<(string, int)>)
    : (r: (map<(int, int), int>, Option<Error>))
    decreases |entries|
  {
    if entries == [] then (prices, None)
    else
      match UpsertPrice(types, times, prices, vehicleType, entries[0].0, entries[0].1)
      case Err(e) => (prices, Some(e))
      case Ok(updated) => ApplyPrices(types, times, updated, vehicleType, entries[1..])
  }

  /** The loop succeeds exactly when there is nothing to write or every name resolves. */
  lemma {:induction false} ApplyPricesSucceedsIff(types: seq<VehicleType>, times: seq<ReservationTime>,
                                                  prices: map<(int, int), int>, vehicleType: string,
                                                  entries: seq<(string, int)>)
    ensures ApplyPrices(types, times, prices, vehicleType, entries).1.None? <==>
      entries == [] ||
      (LookupId(TypeEntries(types), vehicleType).Some? &&
       forall i :: 0 <= i < |entries| ==> LookupId(TimeEntries(times), entries[i].0).Some?)
    decreases |entries|
  {
    if entries != [] {
      var u := UpsertPrice(types, times, prices, vehicleType, entries[0].0, entries[0].1);
      if u.Ok? {
        ApplyPricesSucceedsIff(types, times, u.value, vehicleType, entries[1..]);
        assert forall i :: 1 <= i < |entries| ==> entries[i] == entries[1..][i - 1];
      }
    }
  }

  /**
   * Entry k is where the loop stops: the entries before it were all written,
   * the loop's outcome is what they wrote, and entry k's upsert fails with
   * the loop's error.
   */
  ghost predicate StopsAt(types: seq<VehicleType>, times: seq<ReservationTime>, prices: map<(int, int), int>,
                          vehicleType: string, entries: seq<(string, int)>, k: int)
  {
    0 <= k < |entries| &&
    var before := ApplyPrices(types, times, prices, vehicleType, entries[..k]);
    var outcome := ApplyPrices(types, times, prices, vehicleType, entries);
    before.1.None? && outcome.0 == before.0 && outcome.1.Some? &&
    UpsertPrice(types, times, before.0, vehicleType, entries[k].0, entries[k].1) == Err(outcome.1.value)
  }

  /** A failure leaves the writes of the entries before the failing one, and that entry's error. */
  lemma {:induction false} ApplyPricesStopsAtFirstFailure(types: seq<VehicleType>, times: seq<ReservationTime>,
                                                          prices: map<(int, int), int>, vehicleType: string,
                                                          entries: seq<(string, int)>)
    requires ApplyPrices(types, times, prices, vehicleType, entries).1.Some?
    ensures exists k :: StopsAt(types, times, prices, vehicleType, entries, k)
    decreases |entries|
  {
    var u := UpsertPrice(types, times, prices, vehicleType, entries[0].0, entries[0].1);
    if u.Err? {
      assert entries[..0] == [];
      assert StopsAt(types, times, prices, vehicleType, entries, 0);
    } else {
      var rest := entries[1..];
      ApplyPricesStopsAtFirstFailure(types, times, u.value, vehicleType, rest);
      var k :| StopsAt(types, times, u.value, vehicleType, rest, k);
      var prefix := entries[..k + 1];
      assert prefix[0] == entries[0] && prefix[1..] == rest[..k];
      assert ApplyPrices(types, times, prices, vehicleType, prefix)
          == ApplyPrices(types, times, u.value, vehicleType, rest[..k]);
      assert entries[k + 1] == rest[k];
      assert StopsAt(types, times, prices, vehicleType, entries, k + 1);
    }
  }

  /** Prices of every other vehicle type are never touched by the loop. */
  lemma {:induction false} ApplyPricesKeepsOtherTypes(types: seq<VehicleType>, times: seq<ReservationTime>,
                                                      prices: map<(int, int), int>, vehicleType: string,
                                                      entries: seq<(string, int)>, key: (int, int))
    requires key in prices
    requires LookupId(TypeEntries(types), vehicleType).Some? ==> key.0 != LookupId(TypeEntries(types), vehicleType).value
    ensures key in ApplyPrices(types, times, prices, vehicleType, entries).0
    ensures ApplyPrices(types, times, prices, vehicleType, entries).0[key] == prices[key]
    decreases |entries|
  {
    if entries != [] {
      var u := UpsertPrice(types, times, prices, vehicleType, entries[0].0, entries[0].1);
      if u.Ok? {
        ApplyPricesKeepsOtherTypes(types, times, u.value, vehicleType, entries[1..], key);
      }
    }
  }

  /**
   * UpdateVehicleSpacesAndPrices: the spaces first (a failure there writes
   * no price), then one upsert per price entry in the map's iteration order
   * `order`, returning at the first error.
   */
  method UpdateVehicleSpacesAndPrices(db: Database, vehicleType: string, spaces: int, prices: map<string, int>,
                                      order: seq<string>, spacesFailure: Option<string>)
    returns (err: Option<Error>)
    requires forall k :: k in prices <==> k in order
    requires forall i, j :: 0 <= i < j < |order| ==> order[i] != order[j]
    modifies db`spaces, db`prices
    ensures spacesFailure.Some? ==>
      err == Some(Store(spacesFailure.value)) && db.spaces == old(db.spaces) && db.prices == old(db.prices)
    ensures spacesFailure.None? ==>
      db.spaces == SpacesAfterUpdate(old(db.spaces), db.vehicleTypes, vehicleType, spaces) &&
      (db.prices, err) == ApplyPrices(db.vehicleTypes, db.reservationTimes, old(db.prices), vehicleType,
                                      PriceEntries(prices, order))
  {
    err := UpdateVehicleSpaces(db, vehicleType, spaces, spacesFailure);
    if err.Some? {
      return err;
    }
    var entries := PriceEntries(prices, order);
    ghost var outcome := ApplyPrices(db.vehicleTypes, db.reservationTimes, db.prices, vehicleType, entries);
    for i := 0 to |entries|
      invariant outcome == ApplyPrices(db.vehicleTypes, db.reservationTimes, db.prices, vehicleType, entries[i..])
      invariant db.spaces == SpacesAfterUpdate(old(db.spaces), db.vehicleTypes, vehicleType, spaces)
      invariant err == None
    {
      assert entries[i..][0] == entries[i] && entries[i..][1..] == entries[i + 1..];
      err := UpdateVehiclePrice(db, vehicleType, entries[i].0, entries[i].1);
      if err.Some? {
        return err;
      }
    }
    assert entries[|entries|..] == [];
  }
}

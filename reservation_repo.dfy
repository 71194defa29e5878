/**
 * The reservation repository: the hourly availability query, the price
 * lookup, and the row operations on the reservations table.
 */
module ReservationRepo {
  import opened Models
  import opened VehicleTypes

  datatype SlotOccupationInfo = SlotOccupationInfo(slotStart: int, slotEnd: int, totalSpaces: int, bookedSpaces: int)

  /**
   * The slot starts produced by `generate_series(start, end - 1 hour, 1 hour)`:
   * whole hours from `start`, never a partial final slot.
   */
  function SlotStarts(start: int, end: int): (s: seq<int>)
    ensures end - start < OneHour ==> s == []
    ensures end >= start ==> |s| == (end - start) / OneHour
    ensures end >= start ==> start + |s| * OneHour <= end < start + (|s| + 1) * OneHour
    ensures forall k :: 0 <= k < |s| ==> s[k] == start + k * OneHour && s[k] + OneHour <= end
  {
    if end - start < OneHour then [] else seq((end - start) / OneHour, k => start + k * OneHour)
  }

  /** The rows of `generate_series(a, b, step)` as an independent reference: a + k*step up to b. */
  ghost predicate InSeries(x: int, from: int, to: int)
  {
    exists k: nat :: x == from + k * OneHour && x <= to
  }

  /** The slots are exactly the members of the SQL series, in ascending order. */
  lemma SlotStartsAreTheSeries(start: int, end: int, x: int)
    ensures x in SlotStarts(start, end) <==> InSeries(x, start, end - OneHour)
    ensures forall i, j :: 0 <= i < j < |SlotStarts(start, end)| ==> SlotStarts(start, end)[i] < SlotStarts(start, end)[j]
  {
    var s := SlotStarts(start, end);
    if InSeries(x, start, end - OneHour) {
      var k: nat :| x == start + k * OneHour && x <= end - OneHour;
      assert end >= start;
      assert k < |s|;
      assert s[k] == x;
    }
  }

  /** The slots tile [start, start + n hours) without gaps or overlaps; at most one hour of the window is left over. */
  lemma SlotsTileTheWindow(start: int, end: int)
    requires end > start
    ensures var s := SlotStarts(start, end);
      (|s| > 0 ==> s[0] == start) &&
      (forall k :: 0 <= k < |s| - 1 ==> s[k] + OneHour == s[k + 1]) &&
      0 <= end - (start + |s| * OneHour) < OneHour
  {
  }

  /** A reservation takes a space in [slotStart, slotEnd) of the pool. Only 'active' rows count. */
  predicate Occupies(r: Reservation, poolIds: seq<int>, slotStart: int, slotEnd: int)
  {
    r.vehicleTypeId in poolIds && r.status == StatusActive && r.startTime < slotEnd && r.endTime > slotStart
  }

  /** The `COUNT(r.id)` of the LEFT JOIN for one slot. */
  function Booked(rows: seq<Reservation>, poolIds: seq<int>, slotStart: int, slotEnd: int): (n: nat)
    ensures n <= |rows|
  {
    if rows == [] then 0
    else Booked(rows[..|rows| - 1], poolIds, slotStart, slotEnd)
         + (if Occupies(rows[|rows| - 1], poolIds, slotStart, slotEnd) then 1 else 0)
  }

  /** No space is booked exactly when no row occupies the slot. */
  lemma {:induction false} BookedZeroIff(rows: seq<Reservation>, poolIds: seq<int>, slotStart: int, slotEnd: int)
    ensures Booked(rows, poolIds, slotStart, slotEnd) == 0
        <==> forall i :: 0 <= i < |rows| ==> !Occupies(rows[i], poolIds, slotStart, slotEnd)
  {
    if rows != [] {
      var front := rows[..|rows| - 1];
      BookedZeroIff(front, poolIds, slotStart, slotEnd);
      if forall i :: 0 <= i < |front| ==> !Occupies(front[i], poolIds, slotStart, slotEnd) {
        forall i | 0 <= i < |rows| - 1 ensures !Occupies(rows[i], poolIds, slotStart, slotEnd) {
          assert rows[i] == front[i];
        }
      }
    }
  }

  /** Appending a row adds one booking exactly when that row occupies the slot. */
  lemma BookedAppend(rows: seq<Reservation>, r: Reservation, poolIds: seq<int>, slotStart: int, slotEnd: int)
    ensures Booked(rows + [r], poolIds, slotStart, slotEnd)
         == Booked(rows, poolIds, slotStart, slotEnd) + (if Occupies(r, poolIds, slotStart, slotEnd) then 1 else 0)
  {
    assert (rows + [r])[..|rows|] == rows;
  }

  /**
   * If every row of `after` that occupies the slot did so already in `before`
   * (row by row), the slot has no more bookings after than before.
   */
  lemma {:induction false} BookedPointwise(before: seq<Reservation>, after: seq<Reservation>,
                                           poolIds: seq<int>, slotStart: int, slotEnd: int)
    requires |before| == |after|
    requires forall i :: 0 <= i < |after| && Occupies(after[i], poolIds, slotStart, slotEnd)
                         ==> Occupies(before[i], poolIds, slotStart, slotEnd)
    ensures Booked(after, poolIds, slotStart, slotEnd) <= Booked(before, poolIds, slotStart, slotEnd)
  {
    if after != [] {
      var n := |after| - 1;
      BookedPointwise(before[..n], after[..n], poolIds, slotStart, slotEnd);
    }
  }

  /**
   * The hourly occupancy of a window for the pool of `vehicleTypeName`:
   * one entry per whole hour from `start`, each with the pool's configured
   * total and the count of active pool reservations overlapping the slot.
   */
  function GetHourlyAvailabilityDetails(rows: seq<Reservation>, types: seq<VehicleType>, spaces: map<int, int>,
                                        start: int, end: int, vehicleTypeId: int, vehicleTypeName: string)
    : (r: Result<seq<SlotOccupationInfo>>)
    ensures end <= start ==> r == Err(InvalidWindow)
    ensures end > start && PoolIds(types, ToLower(vehicleTypeName)) == [] ==> r == Err(NoPoolIds)
    ensures end > start && PoolIds(types, ToLower(vehicleTypeName)) != []
            && MapVehicleTypeIDForSpace(vehicleTypeId, vehicleTypeName) !in spaces
            ==> r == Err(NotConfigured(MapVehicleTypeIDForSpace(vehicleTypeId, vehicleTypeName)))
    ensures r.Ok? <==> end > start && PoolIds(types, ToLower(vehicleTypeName)) != []
                       && MapVehicleTypeIDForSpace(vehicleTypeId, vehicleTypeName) in spaces
    ensures r.Ok? ==>
      var pool := PoolIds(types, ToLower(vehicleTypeName));
      var total := spaces[MapVehicleTypeIDForSpace(vehicleTypeId, vehicleTypeName)];
      |r.value| == (end - start) / OneHour &&
      forall k :: 0 <= k < |r.value| ==>
        r.value[k].slotStart == start + k * OneHour &&
        r.value[k].slotEnd == start + (k + 1) * OneHour &&
        r.value[k].slotEnd <= end &&
        r.value[k].totalSpaces == total &&
        r.value[k].bookedSpaces == Booked(rows, pool, r.value[k].slotStart, r.value[k].slotEnd)
  {
    if end <= start then Err(InvalidWindow)
    else
      var pool := PoolIds(types, ToLower(vehicleTypeName));
      if pool == [] then Err(NoPoolIds)
      else
        var mapped := MapVehicleTypeIDForSpace(vehicleTypeId, vehicleTypeName);
        if mapped !in spaces then Err(NotConfigured(mapped))
        else
          var starts := SlotStarts(start, end);
          Ok(seq(|starts|, k requires 0 <= k < |starts| =>
            SlotOccupationInfo(starts[k], starts[k] + OneHour, spaces[mapped],
                               Booked(rows, pool, starts[k], starts[k] + OneHour))))
  }

  /** The price stored for (vehicle type, reservation time), or an error when there is none. */
  function GetPriceForUnit(prices: map<(int, int), int>, vehicleTypeId: int, reservationTimeId: int): (r: Result<int>)
    ensures r.Ok? <==> (vehicleTypeId, reservationTimeId) in prices
    ensures r.Ok? ==> r.value == prices[(vehicleTypeId, reservationTimeId)]
    ensures r.Err? ==> r.error == NoPrice(vehicleTypeId, reservationTimeId)
  {
    if (vehicleTypeId, reservationTimeId) in prices then Ok(prices[(vehicleTypeId, reservationTimeId)])
    else Err(NoPrice(vehicleTypeId, reservationTimeId))
  }

  /**
   * The first row with the code, or NotFound. `QueryRow` returns one row and
   * the statement has no ORDER BY; the model fixes that row as the first.
   */
  function FindByCode(rows: seq<Reservation>, code: string): (r: Result<Reservation>)
    ensures r.Ok? <==> exists i :: 0 <= i < |rows| && rows[i].code == code
    ensures r.Err? ==> r.error == NotFound(code)
    ensures r.Ok? ==> exists i :: 0 <= i < |rows| && rows[i] == r.value
                                 && forall j :: 0 <= j < i ==> rows[j].code != code
    ensures r.Ok? ==> r.value.code == code
  {
    if rows == [] then Err(NotFound(code))
    else if rows[0].code == code then Ok(rows[0])
    else
      var rest := FindByCode(rows[1..], code);
      assert forall i :: 0 < i < |rows| ==> rows[i] == rows[1..][i - 1];
      assert rest.Ok? ==> exists i :: 0 <= i < |rows| && rows[i].code == code;
      rest
  }

  /** The rows after `UPDATE ... SET status = 'canceled', updated_at = now WHERE code = $1`. */
  function CancelRows(rows: seq<Reservation>, code: string, now: int): (r: seq<Reservation>)
    ensures |r| == |rows|
    ensures forall i :: 0 <= i < |rows| ==>
      r[i] == if rows[i].code == code then rows[i].(status := StatusCanceled, updatedAt := now) else rows[i]
  {
    seq(|rows|, i requires 0 <= i < |rows| =>
      if rows[i].code == code then rows[i].(status := StatusCanceled, updatedAt := now) else rows[i])
  }

  /** Canceling again only moves updated_at: the second cancel of a code leaves the same statuses. */
  lemma CancelRowsTwice(rows: seq<Reservation>, code: string, t1: int, t2: int)
    ensures CancelRows(CancelRows(rows, code, t1), code, t2) == CancelRows(rows, code, t2)
  {
  }

  /** Canceling never adds a booking to any slot: capacity is recomputed from statuses. */
  lemma CancelFreesCapacity(rows: seq<Reservation>, code: string, now: int,
                            poolIds: seq<int>, slotStart: int, slotEnd: int)
    ensures Booked(CancelRows(rows, code, now), poolIds, slotStart, slotEnd)
         <= Booked(rows, poolIds, slotStart, slotEnd)
  {
    BookedPointwise(rows, CancelRows(rows, code, now), poolIds, slotStart, slotEnd);
  }

  /** The rows after `UPDATE ... SET payment_status, status, updated_at WHERE id = $3`. */
  function SetStatusesById(rows: seq<Reservation>, id: int, status: string, paymentStatus: string, now: int)
    : (r: seq<Reservation>)
    ensures |r| == |rows|
    ensures forall i :: 0 <= i < |rows| ==>
      r[i] == if rows[i].id == id
              then rows[i].(status := status, paymentStatus := paymentStatus, updatedAt := now)
              else rows[i]
  {
    seq(|rows|, i requires 0 <= i < |rows| =>
      if rows[i].id == id then rows[i].(status := status, paymentStatus := paymentStatus, updatedAt := now)
      else rows[i])
  }

  /**
   * INSERT ... RETURNING id: the row is appended with the next serial id.
   * A failure reported by the database inserts nothing.
   */
  method CreateReservation(db: Database, res: Reservation, failure: Option<string>) returns (r: Result<int>)
    requires db.Valid()
    modifies db`reservations, db`nextId
    ensures db.Valid()
    ensures failure.Some? ==> r == Err(Store(failure.value)) && db.reservations == old(db.reservations)
                              && db.nextId == old(db.nextId)
    ensures failure.None? ==> r == Ok(old(db.nextId))
                              && db.reservations == old(db.reservations) + [res.(id := old(db.nextId))]
                              && db.nextId == old(db.nextId) + 1
  {
    if failure.Some? {
      return Err(Store(failure.value));
    }
    var id := db.nextId;
    db.reservations := db.reservations + [res.(id := id)];
    db.nextId := id + 1;
    r := Ok(id);
  }

  /**
   * Marks every row carrying `code` as canceled, whatever its status was,
   * and reports the new status; an unknown code is an error and changes
   * nothing, and so is a failure reported by the database.
   */
  method CancelReservation(db: Database, code: string, now: int, failure: Option<string>) returns (r: Result<string>)
    requires db.Valid()
    modifies db`reservations
    ensures db.Valid()
    ensures failure.Some? ==> r == Err(Store(failure.value)) && db.reservations == old(db.reservations)
    ensures failure.None? && (exists i :: 0 <= i < |old(db.reservations)| && old(db.reservations)[i].code == code)
            ==> r == Ok(StatusCanceled) && db.reservations == CancelRows(old(db.reservations), code, now)
    ensures failure.None? && (forall i :: 0 <= i < |old(db.reservations)| ==> old(db.reservations)[i].code != code)
            ==> r == Err(NotFound(code)) && db.reservations == old(db.reservations)
  {
    if failure.Some? {
      return Err(Store(failure.value));
    }
    if exists i :: 0 <= i < |db.reservations| && db.reservations[i].code == code {
      db.reservations := CancelRows(db.reservations, code, now);
      r := Ok(StatusCanceled);
    } else {
      r := Err(NotFound(code));
    }
  }

  /**
   * Sets status, payment status and updated_at of the row with that id; no
   * row is no error, and a failure reported by the database writes nothing.
   */
  method UpdateReservationAndPaymentStatus(db: Database, reservationId: int, reservationStatus: string,
                                           paymentStatus: string, now: int, failure: Option<string>)
    returns (err: Option<Error>)
    requires db.Valid()
    modifies db`reservations
    ensures db.Valid()
    ensures failure.Some? ==> err == Some(Store(failure.value)) && db.reservations == old(db.reservations)
    ensures failure.None? ==> err == None
    ensures failure.None? ==>
      db.reservations == SetStatusesById(old(db.reservations), reservationId, reservationStatus, paymentStatus, now)
  {
    if failure.Some? {
      return Some(Store(failure.value));
    }
    db.reservations := SetStatusesById(db.reservations, reservationId, reservationStatus, paymentStatus, now);
    err := None;
  }
}

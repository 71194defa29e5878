/**
 * The hourly sweep that moves active reservations whose end has passed to
 * 'finished'.
 */
module JobService {
  import opened Models
  import opened JobRepo
  import Repo = ReservationRepo

  /** The table after a sweep at `now`: every active row that ended before now is finished. */
  function Swept(rows: seq<Reservation>, now: int): (r: seq<Reservation>)
    ensures |r| == |rows|
    ensures forall i :: 0 <= i < |rows| ==>
      r[i] == if ActivePastEnd(rows[i], now) then rows[i].(status := StatusFinished, updatedAt := now) else rows[i]
  {
    seq(|rows|, i requires 0 <= i < |rows| =>
      if ActivePastEnd(rows[i], now) then rows[i].(status := StatusFinished, updatedAt := now) else rows[i])
  }

  /** With distinct ids, updating the selected ids to 'finished' is exactly the sweep. */
  lemma SelectionUpdateIsSweep(rows: seq<Reservation>, now: int)
    requires DistinctIds(rows)
    ensures SetStatuses(rows, ActivePastEndIds(rows, now), StatusFinished, now) == Swept(rows, now)
  {
    var ids := ActivePastEndIds(rows, now);
    forall i | 0 <= i < |rows|
      ensures SetStatuses(rows, ids, StatusFinished, now)[i] == Swept(rows, now)[i]
    {
      ActivePastEndIdsMembership(rows, now, rows[i].id);
    }
  }

  /** Nothing is left to select after a sweep at the same time. */
  lemma NothingLeftAfterSweep(rows: seq<Reservation>, now: int)
    ensures ActivePastEndIds(Swept(rows, now), now) == []
  {
    var s := Swept(rows, now);
    var ids := ActivePastEndIds(s, now);
    if ids != [] {
      ActivePastEndIdsMembership(s, now, ids[0]);
      assert false;
    }
  }

  /** When nothing is selected, the sweep changes no row. */
  lemma EmptySelectionChangesNothing(rows: seq<Reservation>, now: int)
    requires ActivePastEndIds(rows, now) == []
    ensures Swept(rows, now) == rows
  {
    forall i | 0 <= i < |rows| ensures !ActivePastEnd(rows[i], now) {
      ActivePastEndIdsMembership(rows, now, rows[i].id);
    }
  }

  /** Sweeping twice at the same time has the effect of sweeping once. */
  lemma SweepIdempotent(rows: seq<Reservation>, now: int)
    ensures Swept(Swept(rows, now), now) == Swept(rows, now)
  {
    NothingLeftAfterSweep(rows, now);
    EmptySelectionChangesNothing(Swept(rows, now), now);
  }

  /** Finishing reservations never adds a booking to any slot. */
  lemma SweepFreesCapacity(rows: seq<Reservation>, now: int, poolIds: seq<int>, slotStart: int, slotEnd: int)
    ensures Repo.Booked(Swept(rows, now), poolIds, slotStart, slotEnd) <= Repo.Booked(rows, poolIds, slotStart, slotEnd)
  {
    Repo.BookedPointwise(rows, Swept(rows, now), poolIds, slotStart, slotEnd);
  }

  /**
   * UpdateFinishedReservations: fetch the candidates, return early when there
   * are none, otherwise finish all of them; either database failure is
   * returned and leaves the table as it was.
   */
  method UpdateFinishedReservations(db: Database, now: int, fetchFailure: Option<string>, updateFailure: Option<string>)
    returns (err: Option<Error>)
    requires db.Valid()
    modifies db`reservations
    ensures db.Valid()
    ensures fetchFailure.Some? ==> err == Some(Store(fetchFailure.value)) && db.reservations == old(db.reservations)
    ensures fetchFailure.None? && ActivePastEndIds(old(db.reservations), now) == [] ==>
      err == None && db.reservations == old(db.reservations)
    ensures fetchFailure.None? && ActivePastEndIds(old(db.reservations), now) != [] && updateFailure.Some? ==>
      err == Some(Store(updateFailure.value)) && db.reservations == old(db.reservations)
    ensures fetchFailure.None? && updateFailure.None? ==>
      err == None && db.reservations == Swept(old(db.reservations), now)
  {
    var fetched := GetActiveReservationIDsPastEndTime(db, now, fetchFailure);
    if fetched.Err? {
      return Some(fetched.error);
    }
    var reservationIds := fetched.value;
    if |reservationIds| == 0 {
      EmptySelectionChangesNothing(db.reservations, now);
      return None;
    }
    SelectionUpdateIsSweep(db.reservations, now);
    err := UpdateReservationStatuses(db, reservationIds, StatusFinished, now, updateFailure);
  }
}

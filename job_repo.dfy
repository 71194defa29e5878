/**
 * The job repository: selecting active reservations whose end has passed,
 * and the bulk status update by id.
 */
module JobRepo {
  import opened Models

  /** The sweep's selection criterion: status exactly 'active' and end strictly before now. */
  predicate ActivePastEnd(r: Reservation, now: int)
  {
    r.status == StatusActive && r.endTime < now
  }

  /** Reference definition of `SELECT id ... WHERE status = 'active' AND end_time < now`, in row order. */
  function ActivePastEndIds(rows: seq<Reservation>, now: int): seq<int>
  {
    if rows == [] then []
    else
      var last := rows[|rows| - 1];
      ActivePastEndIds(rows[..|rows| - 1], now) + (if ActivePastEnd(last, now) then [last.id] else [])
  }

  /** An id is selected exactly when some row with that id is active and past its end. */
  lemma {:induction false} ActivePastEndIdsMembership(rows: seq<Reservation>, now: int, id: int)
    ensures id in ActivePastEndIds(rows, now)
        <==> exists i :: 0 <= i < |rows| && rows[i].id == id && ActivePastEnd(rows[i], now)
  {
    if rows != [] {
      var front := rows[..|rows| - 1];
      ActivePastEndIdsMembership(front, now, id);
      if exists i :: 0 <= i < |rows| && rows[i].id == id && ActivePastEnd(rows[i], now) {
        var i :| 0 <= i < |rows| && rows[i].id == id && ActivePastEnd(rows[i], now);
        if i < |rows| - 1 {
          assert front[i] == rows[i];
        }
      }
      if exists i :: 0 <= i < |front| && front[i].id == id && ActivePastEnd(front[i], now) {
        var i :| 0 <= i < |front| && front[i].id == id && ActivePastEnd(front[i], now);
        assert rows[i] == front[i];
      }
    }
  }

  /** With distinct ids, a pending, canceled or finished row is never selected, whatever its end. */
  lemma OnlyActiveRowsSelected(rows: seq<Reservation>, now: int, i: int)
    requires DistinctIds(rows)
    requires 0 <= i < |rows| && rows[i].status != StatusActive
    ensures rows[i].id !in ActivePastEndIds(rows, now)
  {
    ActivePastEndIdsMembership(rows, now, rows[i].id);
  }

  /** The rows after `UPDATE ... SET status = newStatus, updated_at = now WHERE id = ANY(ids)`. */
  function SetStatuses(rows: seq<Reservation>, ids: seq<int>, newStatus: string, now: int): (r: seq<Reservation>)
    ensures |r| == |rows|
    ensures forall i :: 0 <= i < |rows| ==>
      r[i] == if rows[i].id in ids then rows[i].(status := newStatus, updatedAt := now) else rows[i]
  {
    seq(|rows|, i requires 0 <= i < |rows| =>
      if rows[i].id in ids then rows[i].(status := newStatus, updatedAt := now) else rows[i])
  }

  /**
   * The row loop of GetActiveReservationIDsPastEndTime; a query failure
   * reported by the database is returned as an error.
   */
  method GetActiveReservationIDsPastEndTime(db: Database, now: int, failure: Option<string>)
    returns (r: Result<seq<int>>)
    ensures failure.Some? ==> r == Err(Store(failure.value))
    ensures failure.None? ==> r == Ok(ActivePastEndIds(db.reservations, now))
  {
    if failure.Some? {
      return Err(Store(failure.value));
    }
    var rows := db.reservations;
    var ids := [];
    for i := 0 to |rows|
      invariant ids == ActivePastEndIds(rows[..i], now)
    {
      assert rows[..i + 1][..i] == rows[..i];
      if rows[i].status == StatusActive && rows[i].endTime < now {
        ids := ids + [rows[i].id];
      }
    }
    assert rows[..|rows|] == rows;
    r := Ok(ids);
  }

  /**
   * Sets the status and updated_at of the listed ids. An empty list writes
   * nothing; a failure of the update is returned and writes nothing; the
   * affected-row count is only logged.
   */
  method UpdateReservationStatuses(db: Database, ids: seq<int>, newStatus: string, now: int, failure: Option<string>)
    returns (err: Option<Error>)
    requires db.Valid()
    modifies db`reservations
    ensures db.Valid()
    ensures ids == [] ==> err == None && db.reservations == old(db.reservations)
    ensures ids != [] && failure.Some? ==> err == Some(Store(failure.value)) && db.reservations == old(db.reservations)
    ensures ids != [] && failure.None? ==> err == None && db.reservations == SetStatuses(old(db.reservations), ids, newStatus, now)
  {
    if |ids| == 0 {
      return None;
    }
    if failure.Some? {
      return Some(Store(failure.value));
    }
    db.reservations := SetStatuses(db.reservations, ids, newStatus, now);
    err := None;
  }
}

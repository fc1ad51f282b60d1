/** When a booked stay blocks a requested one: the three-clause SQL test shared by
    the room search and reservation creation, its agreement with half-open interval
    intersection, and the no-double-booking invariant of the `reservas` table. */
module Availability {
  import opened BookingTypes

  /** The overlap test of both availability queries, with the booked stay
      [bookedStart, bookedEnd) and the requested stay [start, end). */
  predicate SqlOverlap(bookedStart: Day, bookedEnd: Day, start: Day, end: Day) {
    || (bookedStart <= start && bookedEnd > start)
    || (bookedStart < end && bookedEnd >= end)
    || (bookedStart >= start && bookedEnd <= end)
  }

  /** Half-open intersection of [s1, e1) and [s2, e2): a checkout on day D and a check-in on D share no night. */
  predicate Intersects(s1: Day, e1: Day, s2: Day, e2: Day) {
    s1 < e2 && s2 < e1
  }

  /** The `estado IN ('confirmada', 'pendiente')` filter; every state the store writes passes it. */
  predicate Active(r: Reservation) {
    r.state == Pending || r.state == Confirmed
  }

  /** A stored row that the availability query counts against room `roomId` and [start, end). */
  predicate Blocks(r: Reservation, roomId: int, start: Day, end: Day) {
    r.roomId == roomId && Active(r) && SqlOverlap(r.start, r.end, start, end)
  }

  /** For well-formed stays the three SQL clauses say exactly "the two stays share a night". */
  lemma SqlOverlapIsIntersection(bookedStart: Day, bookedEnd: Day, start: Day, end: Day)
    requires bookedStart < bookedEnd && start < end
    ensures SqlOverlap(bookedStart, bookedEnd, start, end) <==> Intersects(bookedStart, bookedEnd, start, end)
  {
  }

  /** Back-to-back stays never conflict, whichever of the two is already booked. */
  lemma AdjacentStaysDoNotConflict(s1: Day, d: Day, e2: Day)
    requires s1 < d < e2
    ensures !SqlOverlap(s1, d, d, e2) && !SqlOverlap(d, e2, s1, d)
  {
  }

  /** `SELECT COUNT(*) FROM reservas WHERE habitacion_id = ? AND estado IN (...) AND (overlap)`. */
  function CountOverlapping(rs: seq<Reservation>, roomId: int, start: Day, end: Day): (n: nat)
    ensures n <= |rs|
  {
    if rs == [] then 0
    else CountOverlapping(rs[..|rs| - 1], roomId, start, end)
         + (if Blocks(rs[|rs| - 1], roomId, start, end) then 1 else 0)
  }

  /** The count is positive exactly when some stored row blocks the request. */
  lemma {:induction false} CountOverlappingPositive(rs: seq<Reservation>, roomId: int, start: Day, end: Day)
    ensures CountOverlapping(rs, roomId, start, end) > 0
            <==> exists i :: 0 <= i < |rs| && Blocks(rs[i], roomId, start, end)
  {
    if rs != [] {
      var init := rs[..|rs| - 1];
      CountOverlappingPositive(init, roomId, start, end);
      if exists i :: 0 <= i < |init| && Blocks(init[i], roomId, start, end) {
        var i :| 0 <= i < |init| && Blocks(init[i], roomId, start, end);
        assert rs[i] == init[i];
      }
      if exists i :: 0 <= i < |rs| && Blocks(rs[i], roomId, start, end) {
        var i :| 0 <= i < |rs| && Blocks(rs[i], roomId, start, end);
        if i < |init| {
          assert init[i] == rs[i];
        }
      }
    }
  }

  /** No stored row blocks room `roomId` over [start, end) (the `NOT IN` subquery of the search). */
  predicate Free(rs: seq<Reservation>, roomId: int, start: Day, end: Day) {
    forall i :: 0 <= i < |rs| ==> !Blocks(rs[i], roomId, start, end)
  }

  /** The search's `NOT IN` test and the creation's `COUNT(*) > 0` test agree. */
  lemma FreeIffNoneCounted(rs: seq<Reservation>, roomId: int, start: Day, end: Day)
    ensures Free(rs, roomId, start, end) <==> CountOverlapping(rs, roomId, start, end) == 0
  {
    CountOverlappingPositive(rs, roomId, start, end);
  }

  /** Every stored stay has at least one night. */
  ghost predicate StaysWellFormed(rs: seq<Reservation>) {
    forall i :: 0 <= i < |rs| ==> rs[i].start < rs[i].end
  }

  /** The core invariant: two active reservations on one room never share a night. */
  ghost predicate NoDoubleBooking(rs: seq<Reservation>) {
    forall i, j :: 0 <= i < j < |rs| && rs[i].roomId == rs[j].roomId && Active(rs[i]) && Active(rs[j])
      ==> !Intersects(rs[i].start, rs[i].end, rs[j].start, rs[j].end)
  }

  /** Inserting a stay that the availability count let through keeps the invariant. */
  lemma InsertKeepsNoDoubleBooking(rs: seq<Reservation>, r: Reservation)
    requires StaysWellFormed(rs) && NoDoubleBooking(rs)
    requires r.start < r.end
    requires CountOverlapping(rs, r.roomId, r.start, r.end) == 0
    ensures StaysWellFormed(rs + [r]) && NoDoubleBooking(rs + [r])
  {
    FreeIffNoneCounted(rs, r.roomId, r.start, r.end);
    var rs' := rs + [r];
    forall i, j | 0 <= i < j < |rs'| && rs'[i].roomId == rs'[j].roomId && Active(rs'[i]) && Active(rs'[j])
      ensures !Intersects(rs'[i].start, rs'[i].end, rs'[j].start, rs'[j].end)
    {
      if j == |rs| {
        assert rs'[i] == rs[i] && rs'[j] == r;
        assert !Blocks(rs[i], r.roomId, r.start, r.end);
        SqlOverlapIsIntersection(rs[i].start, rs[i].end, r.start, r.end);
      } else {
        assert rs'[i] == rs[i] && rs'[j] == rs[j];
      }
    }
  }

  /** Confirming a reservation (changing only its state) keeps the invariant. */
  lemma ConfirmKeepsNoDoubleBooking(rs: seq<Reservation>, k: nat)
    requires k < |rs|
    requires StaysWellFormed(rs) && NoDoubleBooking(rs)
    ensures StaysWellFormed(rs[k := rs[k].(state := Confirmed)])
    ensures NoDoubleBooking(rs[k := rs[k].(state := Confirmed)])
  {
  }
}

/** The decision of `crear_reserva`: the order of its refusals, the price of an accepted
    stay, and what an accepted stay means for the room's other bookings. */
module Reservations {
  import opened BookingTypes
  import opened Availability
  import opened RoomSearch

  /** What an accepted request is charged: `noches = (fin - inicio).days`, `precio_noche * noches`. */
  datatype Quote = Quote(nights: int, totalPrice: real)

  /** The checks of `crear_reserva` in its order: dates, then the overlap count, then the room
      lookup, then the capacity. The availability check runs before the room lookup. */
  function ReservationDecision(rooms: seq<Room>, rs: seq<Reservation>, roomId: int,
                               start: Day, end: Day, guests: int): (r: Result<Quote>)
    ensures r.Err? ==> r.error in {InvalidDates, RoomUnavailable, RoomNotFound, InsufficientCapacity}
    ensures r == Err(InvalidDates) <==> start >= end
    ensures r == Err(RoomUnavailable) <==> start < end && !Free(rs, roomId, start, end)
    ensures r == Err(RoomNotFound) <==> start < end && Free(rs, roomId, start, end) && FindRoom(rooms, roomId).None?
    ensures r == Err(InsufficientCapacity) <==>
              start < end && Free(rs, roomId, start, end) && FindRoom(rooms, roomId).Some?
              && rooms[FindRoom(rooms, roomId).value].capacity < guests
    ensures r.Ok? ==> FindRoom(rooms, roomId).Some?
                      && r.value.nights == end - start > 0
                      && rooms[FindRoom(rooms, roomId).value].capacity >= guests
                      && r.value.totalPrice == StayPrice(rooms[FindRoom(rooms, roomId).value].nightlyRate, end - start)
  {
    FreeIffNoneCounted(rs, roomId, start, end);
    if start >= end then Err(InvalidDates)
    else if CountOverlapping(rs, roomId, start, end) > 0 then Err(RoomUnavailable)
    else match FindRoom(rooms, roomId)
      case None => Err(RoomNotFound)
      case Some(k) =>
        if rooms[k].capacity < guests then Err(InsufficientCapacity)
        else
          var nights := end - start;
          Ok(Quote(nights, StayPrice(rooms[k].nightlyRate, nights)))
  }

  /** Free in the SQL sense means that no active booking of the room shares a night with the request. */
  lemma FreeMeansNoSharedNight(rs: seq<Reservation>, roomId: int, start: Day, end: Day)
    requires StaysWellFormed(rs) && start < end
    ensures Free(rs, roomId, start, end) <==>
            forall i :: 0 <= i < |rs| && rs[i].roomId == roomId && Active(rs[i])
                        ==> !Intersects(rs[i].start, rs[i].end, start, end)
  {
    forall i | 0 <= i < |rs| {
      SqlOverlapIsIntersection(rs[i].start, rs[i].end, start, end);
    }
  }

  /** An accepted request shares no night with any active booking of its room. */
  lemma AcceptedStayIsFree(rooms: seq<Room>, rs: seq<Reservation>, roomId: int, start: Day, end: Day, guests: int)
    requires StaysWellFormed(rs)
    requires ReservationDecision(rooms, rs, roomId, start, end, guests).Ok?
    ensures forall i :: 0 <= i < |rs| && rs[i].roomId == roomId && Active(rs[i])
                        ==> !Intersects(rs[i].start, rs[i].end, start, end)
  {
    FreeMeansNoSharedNight(rs, roomId, start, end);
  }

  /** Asking again for a stay that is already booked is refused as unavailable. */
  lemma SameStayTwiceConflicts(rooms: seq<Room>, rs: seq<Reservation>, r: Reservation, guests: int)
    requires r.start < r.end && Active(r)
    ensures ReservationDecision(rooms, rs + [r], r.roomId, r.start, r.end, guests) == Err(RoomUnavailable)
  {
    assert Blocks((rs + [r])[|rs|], r.roomId, r.start, r.end);
  }

  /** A booking that ends on or before the requested check-in day adds no conflict. */
  lemma {:induction false} EarlierStayAddsNoConflict(rs: seq<Reservation>, r: Reservation, roomId: int, start: Day, end: Day)
    requires r.start < r.end <= start < end
    ensures CountOverlapping(rs + [r], roomId, start, end) == CountOverlapping(rs, roomId, start, end)
  {
    assert (rs + [r])[..|rs|] == rs;
  }

  /** A room the search offers for [start, end) and `guests` guests can then be booked by the same request. */
  lemma SearchedRoomIsReservable(rooms: seq<Room>, rs: seq<Reservation>, x: Room, start: Day, end: Day,
                                 kind: Option<string>, guests: int)
    requires RoomIdsUnique(rooms) && start < end
    requires x in Qualifying(rooms, rs, start, end, kind, Some(guests))
    ensures ReservationDecision(rooms, rs, x.id, start, end, guests).Ok?
    ensures ReservationDecision(rooms, rs, x.id, start, end, guests).value.totalPrice
            == StayPrice(x.nightlyRate, end - start)
  {
    QualifyingMembers(rooms, rs, start, end, kind, Some(guests), x);
    var k :| 0 <= k < |rooms| && rooms[k] == x;
    var f := FindRoom(rooms, x.id);
    assert f.Some? && f.value == k;
  }
}

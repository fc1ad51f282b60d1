/** The booking store and its endpoints: login, room search, reservation creation,
    payment and the caller's reservation list, each acting on the five tables in turn. */
module HotelStore {
  import opened BookingTypes
  import opened Availability
  import opened RoomSearch
  import opened Sessions
  import opened Reservations
  import opened Payments

  /** The answer of `login`. */
  datatype LoginReply = LoginReply(token: string, userId: int, firstName: string, email: string,
                                   expiresAt: Instant)

  /** One room of the search answer, priced for the requested stay. */
  datatype Offer = Offer(room: Room, nights: int, totalPrice: real)

  /** The answer of `crear_reserva`. */
  datatype Booking = Booking(reservationId: int, totalPrice: real, nights: int, state: ReservationState)

  /** The answer of `procesar_pago`. */
  datatype Receipt = Receipt(transactionCode: string, amount: real, payMethod: string,
                             lastFour: string, status: PaymentStatus)

  /** One entry of `obtener_mis_reservas`: the reservation joined with its room. */
  datatype ReservationView = ReservationView(id: int, start: Day, end: Day, guests: int, totalPrice: real,
                                             state: ReservationState, roomNumber: string,
                                             roomKind: string, roomDescription: string)

  function OfferedRooms(offers: seq<Offer>): seq<Room> {
    seq(|offers|, k requires 0 <= k < |offers| => offers[k].room)
  }

  /** A reservation row either stays as it was or goes from pending to confirmed. */
  predicate Advances(before: Reservation, after: Reservation) {
    after == before || (before.state == Pending && after == before.(state := Confirmed))
  }

  function TokenInUse(sessions: seq<Session>, token: string): bool {
    exists i :: 0 <= i < |sessions| && sessions[i].token == token
  }

  function CodeInUse(ps: seq<Payment>, code: string): bool {
    exists i :: 0 <= i < |ps| && ps[i].transactionCode == code
  }

  function ViewOf(r: Reservation, room: Room): ReservationView {
    ReservationView(r.id, r.start, r.end, r.guests, r.totalPrice, r.state,
                    room.number, room.kind, room.description)
  }

  /** `SELECT ... FROM reservas r JOIN habitaciones h ... WHERE r.usuario_id = ? ORDER BY
      r.fecha_reserva DESC`: the caller's rows, later insertions first. */
  function OwnViews(rs: seq<Reservation>, rooms: seq<Room>, userId: int): seq<ReservationView> {
    if rs == [] then []
    else
      var r := rs[|rs| - 1];
      var rest := OwnViews(rs[..|rs| - 1], rooms, userId);
      if r.userId == userId && FindRoom(rooms, r.roomId).Some?
      then [ViewOf(r, rooms[FindRoom(rooms, r.roomId).value])] + rest
      else rest
  }

  /** The entry one row contributes to the caller's list: its view if it is the caller's and
      its room is listed, nothing otherwise. */
  function StepView(r: Reservation, rooms: seq<Room>, userId: int): seq<ReservationView> {
    if r.userId == userId && FindRoom(rooms, r.roomId).Some?
    then [ViewOf(r, rooms[FindRoom(rooms, r.roomId).value])] else []
  }

  /** Walking back one row: the entries gathered so far, that row's entry and the list of the
      shorter prefix still make up the whole list. */
  lemma OwnViewsStep(rs: seq<Reservation>, rooms: seq<Room>, userId: int, views: seq<ReservationView>, i: nat)
    requires 0 < i <= |rs|
    requires views + OwnViews(rs[..i], rooms, userId) == OwnViews(rs, rooms, userId)
    ensures (views + StepView(rs[i - 1], rooms, userId)) + OwnViews(rs[..i - 1], rooms, userId)
            == OwnViews(rs, rooms, userId)
  {
    assert rs[..i][..i - 1] == rs[..i - 1];
    assert OwnViews(rs[..i], rooms, userId) == StepView(rs[i - 1], rooms, userId) + OwnViews(rs[..i - 1], rooms, userId);
  }

  /** The loop over the fetched rows, newest first, appending the caller's rows with their rooms. */
  method CollectOwnViews(rs: seq<Reservation>, rooms: seq<Room>, userId: int) returns (views: seq<ReservationView>)
    ensures views == OwnViews(rs, rooms, userId)
  {
    views := [];
    var i := |rs|;
    assert rs[..i] == rs;
    while i > 0
      invariant 0 <= i <= |rs|
      invariant views + OwnViews(rs[..i], rooms, userId) == OwnViews(rs, rooms, userId)
    {
      OwnViewsStep(rs, rooms, userId, views, i);
      var row := rs[i - 1];
      var found := FindRoom(rooms, row.roomId);
      if row.userId == userId && found.Some? {
        views := views + [ViewOf(row, rooms[found.value])];
      }
      i := i - 1;
    }
    assert views + [] == views;
  }

  /** The list holds exactly the caller's reservations, each once, with its own room. */
  lemma {:induction false} OwnViewsMembers(rs: seq<Reservation>, rooms: seq<Room>, userId: int, v: ReservationView)
    ensures v in OwnViews(rs, rooms, userId) <==>
            exists i :: 0 <= i < |rs| && rs[i].userId == userId && FindRoom(rooms, rs[i].roomId).Some?
                        && v == ViewOf(rs[i], rooms[FindRoom(rooms, rs[i].roomId).value])
  {
    if rs != [] {
      var init := rs[..|rs| - 1];
      OwnViewsMembers(init, rooms, userId, v);
      if exists i :: 0 <= i < |init| && init[i].userId == userId && FindRoom(rooms, init[i].roomId).Some?
                     && v == ViewOf(init[i], rooms[FindRoom(rooms, init[i].roomId).value]) {
        var i :| 0 <= i < |init| && init[i].userId == userId && FindRoom(rooms, init[i].roomId).Some?
                 && v == ViewOf(init[i], rooms[FindRoom(rooms, init[i].roomId).value]);
        assert rs[i] == init[i];
      }
      if exists i :: 0 <= i < |rs| && rs[i].userId == userId && FindRoom(rooms, rs[i].roomId).Some?
                     && v == ViewOf(rs[i], rooms[FindRoom(rooms, rs[i].roomId).value]) {
        var i :| 0 <= i < |rs| && rs[i].userId == userId && FindRoom(rooms, rs[i].roomId).Some?
                 && v == ViewOf(rs[i], rooms[FindRoom(rooms, rs[i].roomId).value]);
        if i < |init| {
          assert init[i] == rs[i];
        }
      }
    }
  }

  /** With AUTOINCREMENT ids, the list is in strictly decreasing id order: newest first. */
  lemma {:induction false} OwnViewsNewestFirst(rs: seq<Reservation>, rooms: seq<Room>, userId: int)
    requires ReservationsNumbered(rs)
    ensures forall i, j :: 0 <= i < j < |OwnViews(rs, rooms, userId)| ==>
              OwnViews(rs, rooms, userId)[i].id > OwnViews(rs, rooms, userId)[j].id
    ensures forall i :: 0 <= i < |OwnViews(rs, rooms, userId)| ==> 1 <= OwnViews(rs, rooms, userId)[i].id <= |rs|
  {
    if rs != [] {
      var init := rs[..|rs| - 1];
      OwnViewsNewestFirst(init, rooms, userId);
    }
  }

  /** A reservation on a listed room, for no more guests than the room holds, priced at the
      room's nightly rate for each of its nights. */
  ghost predicate OnRoomTerms(rooms: seq<Room>, r: Reservation) {
    && FindRoom(rooms, r.roomId).Some?
    && r.guests <= rooms[FindRoom(rooms, r.roomId).value].capacity
    && r.totalPrice == StayPrice(rooms[FindRoom(rooms, r.roomId).value].nightlyRate, r.end - r.start)
  }

  ghost predicate AllOnRoomTerms(rooms: seq<Room>, rs: seq<Reservation>) {
    forall i :: 0 <= i < |rs| ==> OnRoomTerms(rooms, rs[i])
  }

  /** The state the store's operations keep: primary keys, well-formed stays, no double
      booking, every reservation on an existing room within its capacity and at its rate, and
      the payment bookkeeping. */
  ghost predicate StoreInvariant(rooms: seq<Room>, sessions: seq<Session>, rs: seq<Reservation>, ps: seq<Payment>) {
    && RoomIdsUnique(rooms)
    && TokensUnique(sessions)
    && (forall i :: 0 <= i < |sessions| ==> sessions[i].id == i + 1)
    && ReservationsNumbered(rs)
    && StaysWellFormed(rs)
    && NoDoubleBooking(rs)
    && AllOnRoomTerms(rooms, rs)
    && PaymentsConsistent(ps, rs)
  }

  /** When every check of `crear_reserva` passes on the room found at `k`, the decision quotes
      that room's rate for each night. */
  lemma AcceptedQuote(rooms: seq<Room>, rs: seq<Reservation>, roomId: int, start: Day, end: Day,
                      guests: int, k: nat)
    requires start < end && CountOverlapping(rs, roomId, start, end) == 0
    requires FindRoom(rooms, roomId).Some? && FindRoom(rooms, roomId).value == k
    requires rooms[k].capacity >= guests
    ensures ReservationDecision(rooms, rs, roomId, start, end, guests)
            == Ok(Quote(end - start, StayPrice(rooms[k].nightlyRate, end - start)))
  {
    FreeIffNoneCounted(rs, roomId, start, end);
  }

  /** A row on the room found at `k`, within its capacity and at its rate, is on room terms. */
  lemma RowOnRoomTerms(rooms: seq<Room>, k: nat, r: Reservation)
    requires FindRoom(rooms, r.roomId).Some? && FindRoom(rooms, r.roomId).value == k
    requires r.guests <= rooms[k].capacity
    requires r.totalPrice == StayPrice(rooms[k].nightlyRate, r.end - r.start)
    ensures OnRoomTerms(rooms, r)
  {
  }

  /** The checks of `crear_reserva`, one after another: the dates, the overlap count, the room
      lookup and the capacity; then the price of the stay. */
  method CheckReservation(rooms: seq<Room>, rs: seq<Reservation>, roomId: int, start: Day, end: Day,
                          guests: int) returns (d: Result<Quote>)
    ensures d == ReservationDecision(rooms, rs, roomId, start, end, guests)
  {
    if start >= end {
      return Err(InvalidDates);
    }
    var conflicts := CountOverlapping(rs, roomId, start, end);
    if conflicts > 0 {
      return Err(RoomUnavailable);
    }
    var found := FindRoom(rooms, roomId);
    if found.None? {
      return Err(RoomNotFound);
    }
    var room := rooms[found.value];
    if room.capacity < guests {
      return Err(InsufficientCapacity);
    }
    var nights := end - start;
    AcceptedQuote(rooms, rs, roomId, start, end, guests, found.value);
    d := Ok(Quote(nights, StayPrice(room.nightlyRate, nights)));
  }

  /** Appending a pending stay, numbered next, for a listed room that is free over its nights
      keeps the store invariant. */
  lemma InsertKeepsStoreInvariant(rooms: seq<Room>, sessions: seq<Session>, rs: seq<Reservation>,
                                  ps: seq<Payment>, r: Reservation)
    requires StoreInvariant(rooms, sessions, rs, ps)
    requires r.id == |rs| + 1 && r.state == Pending && r.start < r.end
    requires OnRoomTerms(rooms, r)
    requires CountOverlapping(rs, r.roomId, r.start, r.end) == 0
    ensures StoreInvariant(rooms, sessions, rs + [r], ps)
  {
    InsertKeepsNoDoubleBooking(rs, r);
    NewReservationKeepsConsistency(ps, rs, r);
    AppendKeepsRoomTerms(rooms, rs, r);
  }

  /** Appending a row on room terms keeps every row on room terms. */
  lemma AppendKeepsRoomTerms(rooms: seq<Room>, rs: seq<Reservation>, r: Reservation)
    requires AllOnRoomTerms(rooms, rs) && OnRoomTerms(rooms, r)
    ensures AllOnRoomTerms(rooms, rs + [r])
  {
    var rs' := rs + [r];
    forall i | 0 <= i < |rs'| ensures OnRoomTerms(rooms, rs'[i]) {
      if i < |rs| {
        assert rs'[i] == rs[i];
      }
    }
  }

  /** Confirming a reservation changes neither its room, its guests nor its price. */
  lemma ConfirmKeepsRoomTerms(rooms: seq<Room>, rs: seq<Reservation>, k: nat)
    requires k < |rs| && AllOnRoomTerms(rooms, rs)
    ensures AllOnRoomTerms(rooms, rs[k := rs[k].(state := Confirmed)])
  {
    var rs' := rs[k := rs[k].(state := Confirmed)];
    forall i | 0 <= i < |rs'| ensures OnRoomTerms(rooms, rs'[i]) {
      assert OnRoomTerms(rooms, rs[i]);
    }
  }

  /** Recording an approved payment for a pending stay and confirming that stay keeps the store
      invariant. */
  lemma PaymentKeepsStoreInvariant(rooms: seq<Room>, sessions: seq<Session>, rs: seq<Reservation>,
                                   ps: seq<Payment>, k: nat, p: Payment)
    requires StoreInvariant(rooms, sessions, rs, ps)
    requires k < |rs| && rs[k].state == Pending
    requires p.id == |ps| + 1 && p.reservationId == k + 1 && p.amount == rs[k].totalPrice
    requires p.status == Approved
    requires forall i :: 0 <= i < |ps| ==> ps[i].transactionCode != p.transactionCode
    ensures StoreInvariant(rooms, sessions, rs[k := rs[k].(state := Confirmed)], ps + [p])
  {
    PaymentKeepsConsistency(ps, rs, k, p);
    ConfirmKeepsNoDoubleBooking(rs, k);
    ConfirmKeepsRoomTerms(rooms, rs, k);
  }

  class Store {
    var users: seq<User>
    var sessions: seq<Session>
    var rooms: seq<Room>
    var reservations: seq<Reservation>
    var payments: seq<Payment>

    ghost predicate Valid()
      reads this
    {
      StoreInvariant(rooms, sessions, reservations, payments)
    }

    /** `init_database` over registered users and the room catalogue: no session, reservation or payment yet. */
    constructor (users: seq<User>, rooms: seq<Room>)
      requires RoomIdsUnique(rooms)
      ensures Valid()
      ensures this.users == users && this.rooms == rooms
      ensures sessions == [] && reservations == [] && payments == []
    {
      this.users := users;
      this.rooms := rooms;
      sessions := [];
      reservations := [];
      payments := [];
    }

    /** `login`: checks the credentials and opens a seven-day session under the given token. */
    method Login(email: string, passwordHash: string, token: string, now: Instant) returns (r: Result<LoginReply>)
      requires Valid()
      modifies this
      ensures Valid()
      ensures users == old(users) && rooms == old(rooms)
      ensures reservations == old(reservations) && payments == old(payments)
      ensures FindLoginUser(users, email, passwordHash).None? ==>
                r == Err(InvalidCredentials) && sessions == old(sessions)
      ensures FindLoginUser(users, email, passwordHash).Some? && TokenInUse(old(sessions), token) ==>
                r == Err(DuplicateKey) && sessions == old(sessions)
      ensures FindLoginUser(users, email, passwordHash).Some? && !TokenInUse(old(sessions), token) ==>
                var u := users[FindLoginUser(users, email, passwordHash).value];
                && sessions == old(sessions) + [NewSession(|old(sessions)| + 1, u.id, token, now)]
                && r == Ok(LoginReply(token, u.id, u.firstName, email, now + SessionLifetime))
      ensures r.Ok? ==> forall t :: VerifyToken(sessions, users, token, t).Ok? <==> t < now + SessionLifetime
      ensures r.Ok? ==> forall t :: VerifyToken(sessions, users, token, t).Ok? ==>
                          VerifyToken(sessions, users, token, t).value.userId == r.value.userId
    {
      var found := FindLoginUser(users, email, passwordHash);
      if found.None? {
        return Err(InvalidCredentials);
      }
      var u := users[found.value];
      if TokenInUse(sessions, token) {
        return Err(DuplicateKey);
      }
      var s := NewSession(|sessions| + 1, u.id, token, now);
      assert FindUser(users, u.id).Some?;
      ghost var before := sessions;
      sessions := sessions + [s];
      forall t
        ensures VerifyToken(sessions, users, token, t).Ok? <==> t < now + SessionLifetime
        ensures VerifyToken(sessions, users, token, t).Ok? ==> VerifyToken(sessions, users, token, t).value.userId == u.id
      {
        FreshSessionLifetime(before, users, u.id, token, now, t);
        TokenValidUntilExpiry(sessions, users, |before|, t);
      }
      r := Ok(LoginReply(token, u.id, u.firstName, email, now + SessionLifetime));
    }

    /** `buscar_habitaciones`: validates the dates, then prices every qualifying room for the stay. */
    method Search(start: Day, end: Day, today: Day, kind: Option<string>, guests: Option<int>)
      returns (r: Result<seq<Offer>>)
      ensures start >= end ==> r == Err(EndNotAfterStart)
      ensures start < end && start < today ==> r == Err(PastDates)
      ensures start < end && start >= today ==> r.Ok?
      ensures r.Ok? ==>
                && multiset(OfferedRooms(r.value)) == multiset(Qualifying(rooms, reservations, start, end, kind, guests))
                && OrderedByKindAndRate(OfferedRooms(r.value))
                && forall k :: 0 <= k < |r.value| ==>
                     r.value[k].nights == end - start
                     && r.value[k].totalPrice == StayPrice(r.value[k].room.nightlyRate, end - start)
    {
      if start >= end {
        return Err(EndNotAfterStart);
      }
      if start < today {
        return Err(PastDates);
      }
      var rows := SortRooms(Qualifying(rooms, reservations, start, end, kind, guests));
      SortRoomsOrdered(Qualifying(rooms, reservations, start, end, kind, guests));
      var nights := end - start;
      var offers: seq<Offer> := [];
      var i := 0;
      while i < |rows|
        invariant 0 <= i <= |rows|
        invariant |offers| == i
        invariant forall k :: 0 <= k < i ==>
                    offers[k] == Offer(rows[k], nights, StayPrice(rows[k].nightlyRate, nights))
      {
        offers := offers + [Offer(rows[i], nights, StayPrice(rows[i].nightlyRate, nights))];
        i := i + 1;
      }
      assert OfferedRooms(offers) == rows;
      r := Ok(offers);
    }

    /** `crear_reserva` behind `verificar_token`: a pending reservation for the caller, or the first refusal. */
    method Reserve(token: string, roomId: int, start: Day, end: Day, guests: int, now: Instant)
      returns (r: Result<Booking>)
      requires Valid()
      modifies this
      ensures Valid()
      ensures users == old(users) && sessions == old(sessions) && rooms == old(rooms)
      ensures payments == old(payments)
      ensures VerifyToken(sessions, users, token, now).Err? ==>
                r == Err(InvalidToken) && reservations == old(reservations)
      ensures VerifyToken(sessions, users, token, now).Ok? ==>
                var userId := VerifyToken(sessions, users, token, now).value.userId;
                var d := ReservationDecision(rooms, old(reservations), roomId, start, end, guests);
                && (d.Err? ==> r == Err(d.error) && reservations == old(reservations))
                && (d.Ok? ==>
                      && reservations == old(reservations)
                           + [Reservation(|old(reservations)| + 1, userId, roomId, start, end, guests,
                                          d.value.totalPrice, Pending, now)]
                      && r == Ok(Booking(|old(reservations)| + 1, d.value.totalPrice, d.value.nights, Pending)))
    {
      var auth := VerifyToken(sessions, users, token, now);
      if auth.Err? {
        return Err(InvalidToken);
      }
      var userId := auth.value.userId;
      var d := CheckReservation(rooms, reservations, roomId, start, end, guests);
      if d.Err? {
        return Err(d.error);
      }
      var nights, price := d.value.nights, d.value.totalPrice;
      var row := Reservation(|reservations| + 1, userId, roomId, start, end, guests, price, Pending, now);
      ghost var k := FindRoom(rooms, roomId).value;
      RowOnRoomTerms(rooms, k, row);
      InsertKeepsStoreInvariant(rooms, sessions, reservations, payments, row);
      reservations := reservations + [row];
      r := Ok(Booking(row.id, price, nights, Pending));
    }

    /** `procesar_pago` behind `verificar_token`: records one approved payment and confirms the
        caller's pending reservation, or gives the first refusal. */
    method Pay(token: string, reservationId: int, payMethod: string, card: string, cvv: string,
               holderName: string, hex: string, now: Instant) returns (r: Result<Receipt>)
      requires Valid()
      modifies this
      ensures Valid()
      ensures users == old(users) && sessions == old(sessions) && rooms == old(rooms)
      ensures |reservations| == |old(reservations)|
      ensures forall k :: 0 <= k < |reservations| ==> Advances(old(reservations)[k], reservations[k])
      ensures r.Err? ==> reservations == old(reservations) && payments == old(payments)
      ensures VerifyToken(sessions, users, token, now).Err? ==> r == Err(InvalidToken)
      ensures VerifyToken(sessions, users, token, now).Ok? ==>
                var userId := VerifyToken(sessions, users, token, now).value.userId;
                var d := PaymentDecision(old(reservations), reservationId, userId, card, cvv);
                var code := TransactionCode(hex);
                && (d.Err? ==> r == Err(d.error))
                && (d.Ok? && CodeInUse(old(payments), code) ==> r == Err(DuplicateKey))
                && (d.Ok? && !CodeInUse(old(payments), code) ==>
                      var k := d.value;
                      var amount := old(reservations)[k].totalPrice;
                      && reservations == old(reservations)[k := old(reservations)[k].(state := Confirmed)]
                      && payments == old(payments)
                           + [Payment(|old(payments)| + 1, reservationId, amount, payMethod,
                                      LastFour(card), Approved, now, code)]
                      && r == Ok(Receipt(code, amount, payMethod, LastFour(card), Approved)))
    {
      var auth := VerifyToken(sessions, users, token, now);
      if auth.Err? {
        return Err(InvalidToken);
      }
      var userId := auth.value.userId;
      var found := FindOwnedReservation(reservations, reservationId, userId);
      if found.None? {
        return Err(ReservationNotFound);
      }
      var k := found.value;
      if reservations[k].state != Pending {
        return Err(AlreadyProcessed);
      }
      if !ValidCardNumber(card) {
        return Err(InvalidCardNumber);
      }
      if !ValidCvv(cvv) {
        return Err(InvalidCvv);
      }
      var code := TransactionCode(hex);
      var lastFour := LastFour(card);
      if CodeInUse(payments, code) {
        return Err(DuplicateKey);
      }
      var amount := reservations[k].totalPrice;
      var p := Payment(|payments| + 1, reservationId, amount, payMethod, lastFour, Approved, now, code);
      PaymentKeepsStoreInvariant(rooms, sessions, reservations, payments, k, p);
      payments := payments + [p];
      reservations := reservations[k := reservations[k].(state := Confirmed)];
      r := Ok(Receipt(code, amount, payMethod, lastFour, Approved));
    }

    /** `obtener_mis_reservas` behind `verificar_token`: the caller's reservations with their
        rooms, newest first. */
    method MyReservations(token: string, now: Instant) returns (r: Result<seq<ReservationView>>)
      ensures VerifyToken(sessions, users, token, now).Err? ==> r == Err(InvalidToken)
      ensures VerifyToken(sessions, users, token, now).Ok? ==>
                r == Ok(OwnViews(reservations, rooms, VerifyToken(sessions, users, token, now).value.userId))
    {
      var auth := VerifyToken(sessions, users, token, now);
      if auth.Err? {
        return Err(InvalidToken);
      }
      var views := CollectOwnViews(reservations, rooms, auth.value.userId);
      r := Ok(views);
    }
  }
}

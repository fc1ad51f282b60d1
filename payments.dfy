/** The simulated payment: card-format checks, the owned-reservation lookup, the
    order of the payment endpoint's refusals, and the bookkeeping that ties rows of
    `pagos` to confirmed rows of `reservas`. */
module Payments {
  import opened BookingTypes

  predicate AsciiDigits(s: string) {
    forall i :: 0 <= i < |s| ==> '0' <= s[i] <= '9'
  }

  /** The card number must be exactly sixteen digits. */
  predicate ValidCardNumber(card: string) {
    |card| == 16 && AsciiDigits(card)
  }

  /** The CVV must be exactly three digits. */
  predicate ValidCvv(cvv: string) {
    |cvv| == 3 && AsciiDigits(cvv)
  }

  /** Python's `s[-4:]`: the last four characters, or all of a shorter string. */
  function LastFour(s: string): (r: string)
    ensures |s| >= 4 ==> |r| == 4 && s == s[..|s| - 4] + r
    ensures |s| < 4 ==> r == s
  {
    if |s| >= 4 then s[|s| - 4..] else s
  }

  /** `f"TXN-{hex}"`: the transaction code built from the supplied text, which in the source is
      the upper-cased `token_hex(8)`, sixteen random hex digits. */
  function TransactionCode(hex: string): (code: string)
    ensures |code| == |hex| + 4 && code[..4] == "TXN-" && code[4..] == hex
  {
    "TXN-" + hex
  }

  /** First row of `SELECT ... FROM reservas WHERE id = ? AND usuario_id = ?`. */
  function FindOwnedReservation(rs: seq<Reservation>, reservationId: int, userId: int): (k: Option<nat>)
    ensures k.Some? ==> k.value < |rs| && rs[k.value].id == reservationId && rs[k.value].userId == userId
    ensures k.None? <==> forall i :: 0 <= i < |rs| ==> rs[i].id != reservationId || rs[i].userId != userId
  {
    if rs == [] then None
    else if rs[0].id == reservationId && rs[0].userId == userId then Some(0)
    else match FindOwnedReservation(rs[1..], reservationId, userId)
      case None => None
      case Some(j) => Some(j + 1)
  }

  /** AUTOINCREMENT ids with no deletions: row k holds id k + 1. */
  ghost predicate ReservationsNumbered(rs: seq<Reservation>) {
    forall k :: 0 <= k < |rs| ==> rs[k].id == k + 1
  }

  /** With numbered rows the lookup finds row `reservationId - 1`, and only if the caller owns it. */
  lemma OwnedLookupNumbered(rs: seq<Reservation>, reservationId: int, userId: int)
    requires ReservationsNumbered(rs)
    ensures FindOwnedReservation(rs, reservationId, userId)
            == if 1 <= reservationId <= |rs| && rs[reservationId - 1].userId == userId
               then Some(reservationId - 1) else None
  {
    var k := FindOwnedReservation(rs, reservationId, userId);
    if 1 <= reservationId <= |rs| && rs[reservationId - 1].userId == userId {
      assert k.Some?;
    }
  }

  /** Steps 1 to 4 of `procesar_pago`, in the endpoint's order: the row the payment is for,
      or the first refusal. */
  function PaymentDecision(rs: seq<Reservation>, reservationId: int, userId: int,
                           card: string, cvv: string): (r: Result<nat>)
    ensures r.Ok? ==> r.value < |rs| && rs[r.value].id == reservationId && rs[r.value].userId == userId
    ensures r.Ok? <==> FindOwnedReservation(rs, reservationId, userId).Some?
                       && rs[FindOwnedReservation(rs, reservationId, userId).value].state == Pending
                       && ValidCardNumber(card) && ValidCvv(cvv)
    ensures r == Err(ReservationNotFound) <==> FindOwnedReservation(rs, reservationId, userId).None?
    ensures r == Err(AlreadyProcessed) <==> FindOwnedReservation(rs, reservationId, userId).Some?
                                             && rs[FindOwnedReservation(rs, reservationId, userId).value].state != Pending
    ensures r == Err(InvalidCardNumber) <==> FindOwnedReservation(rs, reservationId, userId).Some?
                                              && rs[FindOwnedReservation(rs, reservationId, userId).value].state == Pending
                                              && !ValidCardNumber(card)
    ensures r == Err(InvalidCvv) <==> FindOwnedReservation(rs, reservationId, userId).Some?
                                       && rs[FindOwnedReservation(rs, reservationId, userId).value].state == Pending
                                       && ValidCardNumber(card) && !ValidCvv(cvv)
    ensures r.Err? ==> r.error in {ReservationNotFound, AlreadyProcessed, InvalidCardNumber, InvalidCvv}
  {
    match FindOwnedReservation(rs, reservationId, userId)
    case None => Err(ReservationNotFound)
    case Some(k) =>
      if rs[k].state != Pending then Err(AlreadyProcessed)
      else if !ValidCardNumber(card) then Err(InvalidCardNumber)
      else if !ValidCvv(cvv) then Err(InvalidCvv)
      else Ok(k)
  }

  /** Number of `pagos` rows for one reservation. */
  function PaymentCount(ps: seq<Payment>, reservationId: int): (n: nat)
    ensures n <= |ps|
  {
    if ps == [] then 0
    else PaymentCount(ps[..|ps| - 1], reservationId)
         + (if ps[|ps| - 1].reservationId == reservationId then 1 else 0)
  }

  lemma {:induction false} PaymentCountNone(ps: seq<Payment>, reservationId: int)
    requires forall i :: 0 <= i < |ps| ==> ps[i].reservationId != reservationId
    ensures PaymentCount(ps, reservationId) == 0
  {
    if ps != [] {
      PaymentCountNone(ps[..|ps| - 1], reservationId);
    }
  }

  /** The payment bookkeeping: every row is approved, belongs to an existing reservation and
      charges its total; a reservation has one payment when confirmed and none when pending;
      transaction codes are unique. */
  ghost predicate PaymentsConsistent(ps: seq<Payment>, rs: seq<Reservation>) {
    && (forall i :: 0 <= i < |ps| ==>
          && ps[i].id == i + 1
          && ps[i].status == Approved
          && 1 <= ps[i].reservationId <= |rs|
          && ps[i].amount == rs[ps[i].reservationId - 1].totalPrice)
    && (forall k :: 0 <= k < |rs| ==>
          PaymentCount(ps, k + 1) == if rs[k].state == Confirmed then 1 else 0)
    && (forall i, j :: 0 <= i < j < |ps| ==> ps[i].transactionCode != ps[j].transactionCode)
  }

  /** A new pending reservation appended to the table needs no payment. */
  lemma NewReservationKeepsConsistency(ps: seq<Payment>, rs: seq<Reservation>, r: Reservation)
    requires PaymentsConsistent(ps, rs)
    requires r.state == Pending
    ensures PaymentsConsistent(ps, rs + [r])
  {
    PaymentCountNone(ps, |rs| + 1);
  }

  /** Recording an approved payment for a pending reservation and confirming it keeps the
      bookkeeping (so no other reservation gains a payment). */
  lemma PaymentKeepsConsistency(ps: seq<Payment>, rs: seq<Reservation>, k: nat, p: Payment)
    requires PaymentsConsistent(ps, rs)
    requires k < |rs| && rs[k].state == Pending
    requires p.id == |ps| + 1 && p.reservationId == k + 1 && p.amount == rs[k].totalPrice
    requires p.status == Approved
    requires forall i :: 0 <= i < |ps| ==> ps[i].transactionCode != p.transactionCode
    ensures PaymentsConsistent(ps + [p], rs[k := rs[k].(state := Confirmed)])
  {
    var ps' := ps + [p];
    assert ps'[..|ps'| - 1] == ps;
  }

  /** Once confirmed, a reservation refuses every further payment attempt with "already processed". */
  lemma SecondPaymentRejected(rs: seq<Reservation>, k: nat, userId: int, card: string, cvv: string)
    requires ReservationsNumbered(rs)
    requires k < |rs| && rs[k].userId == userId
    ensures PaymentDecision(rs[k := rs[k].(state := Confirmed)], k + 1, userId, card, cvv) == Err(AlreadyProcessed)
  {
    OwnedLookupNumbered(rs[k := rs[k].(state := Confirmed)], k + 1, userId);
  }
}

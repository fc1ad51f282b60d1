/** Records of the booking store (the five tables of the hotel database) and the
    typed outcomes that replace the HTTP exceptions of the booking endpoints. */
module BookingTypes {

  /** A calendar date as a whole-day number; `end - start` is the number of nights. */
  type Day = int

  /** A point on the store's clock, in seconds. */
  type Instant = int

  /** A session lives seven days from login. */
  const SessionLifetime: int := 7 * 24 * 60 * 60

  datatype Option<T> = None | Some(value: T)

  /** Table `usuarios`. */
  datatype User = User(id: int, email: string, passwordHash: string, firstName: string,
                       lastName: string, phone: string, active: bool)

  /** Table `sesiones`. */
  datatype Session = Session(id: int, userId: int, token: string, createdAt: Instant,
                             expiresAt: Instant, active: bool)

  /** Table `habitaciones`; `kind` is the `tipo` column ("simple", "doble", "suite"). */
  datatype Room = Room(id: int, number: string, kind: string, capacity: int,
                       nightlyRate: real, description: string, available: bool)

  /** The two values the store ever writes into `reservas.estado`. */
  datatype ReservationState = Pending | Confirmed

  /** Table `reservas`: the stay is the half-open interval [start, end). */
  datatype Reservation = Reservation(id: int, userId: int, roomId: int, start: Day, end: Day,
                                     guests: int, totalPrice: real, state: ReservationState,
                                     createdAt: Instant)

  /** `pagos.estado`: the column defaults to "procesando", every recorded payment is "aprobado". */
  datatype PaymentStatus = Processing | Approved

  /** Table `pagos`. */
  datatype Payment = Payment(id: int, reservationId: int, amount: real, payMethod: string,
                             lastFour: string, status: PaymentStatus, paidAt: Instant,
                             transactionCode: string)

  /** The errors the booking endpoints raise, one constructor per distinct status and message. */
  datatype Failure =
    | InvalidCredentials
    | InvalidToken
    | EndNotAfterStart
    | PastDates
    | InvalidDates
    | RoomUnavailable
    | RoomNotFound
    | InsufficientCapacity
    | ReservationNotFound
    | AlreadyProcessed
    | InvalidCardNumber
    | InvalidCvv
      /** A UNIQUE column refused the insert; the connection rolls back, re-raises the
          database error, and no handler catches it. This is the model's own label for that
          unhandled error. */
    | DuplicateKey
  {
    /** The HTTP status the endpoint answers with: the `status_code` of the raise, or the
        framework's 500 for the unhandled database error. */
    function Status(): (s: int)
      ensures s in {400, 401, 404, 409, 500}
      ensures s == 500 <==> this.DuplicateKey?
    {
      match this
      case InvalidCredentials | InvalidToken => 401
      case RoomUnavailable => 409
      case RoomNotFound | ReservationNotFound => 404
      case DuplicateKey => 500
      case _ => 400
    }

    /** The text of the endpoint's answer: the `detail` of the raise, or the framework's
        plain "Internal Server Error" body, which has no `detail`, for the unhandled error. */
    function Detail(): (d: string)
      ensures |d| > 0
      ensures d == "Internal Server Error" <==> this.DuplicateKey?
    {
      match this
      case InvalidCredentials => "Credenciales inválidas"
      case InvalidToken => "Token inválido o expirado"
      case EndNotAfterStart => "La fecha de fin debe ser posterior a la fecha de inicio"
      case PastDates => "No se pueden buscar fechas pasadas"
      case InvalidDates => "Fechas inválidas"
      case RoomUnavailable => "Habitación no disponible en las fechas seleccionadas"
      case RoomNotFound => "Habitación no encontrada"
      case InsufficientCapacity => "La habitación no tiene capacidad suficiente"
      case ReservationNotFound => "Reserva no encontrada"
      case AlreadyProcessed => "La reserva ya fue procesada"
      case InvalidCardNumber => "Número de tarjeta inválido"
      case InvalidCvv => "CVV inválido"
      case DuplicateKey => "Internal Server Error"
    }
  }

  datatype Result<T> = Ok(value: T) | Err(error: Failure)

  /** First position of a room with the given id (`SELECT ... FROM habitaciones WHERE id = ?`). */
  function FindRoom(rooms: seq<Room>, roomId: int): (k: Option<nat>)
    ensures k.Some? ==> k.value < |rooms| && rooms[k.value].id == roomId
    ensures k.Some? ==> forall i :: 0 <= i < k.value ==> rooms[i].id != roomId
    ensures k.None? ==> forall i :: 0 <= i < |rooms| ==> rooms[i].id != roomId
  {
    if rooms == [] then None
    else if rooms[0].id == roomId then Some(0)
    else match FindRoom(rooms[1..], roomId)
      case None => None
      case Some(j) => Some(j + 1)
  }

  /** The price of a stay: the nightly rate times the number of nights. */
  function StayPrice(rate: real, nights: int): real {
    rate * nights as real
  }

  /** Room ids are a primary key. */
  ghost predicate RoomIdsUnique(rooms: seq<Room>) {
    forall i, j :: 0 <= i < j < |rooms| ==> rooms[i].id != rooms[j].id
  }

  /** The ten rooms `init_database` inserts into an empty `habitaciones` table, with ids 1 to 10. */
  function SeedRooms(): (rooms: seq<Room>)
    ensures |rooms| == 10
    ensures forall k :: 0 <= k < 10 ==> rooms[k].id == k + 1 && rooms[k].available
    ensures forall k :: 0 <= k < 10 ==> rooms[k].capacity >= 1 && rooms[k].nightlyRate > 0.0
    ensures RoomIdsUnique(rooms)
  {
    [ Room(1, "101", "simple", 1, 50.0, "Habitación individual con cama simple", true),
      Room(2, "102", "simple", 1, 50.0, "Habitación individual con cama simple", true),
      Room(3, "201", "doble", 2, 80.0, "Habitación doble con dos camas individuales", true),
      Room(4, "202", "doble", 2, 85.0, "Habitación doble con cama matrimonial", true),
      Room(5, "203", "doble", 2, 80.0, "Habitación doble con vista al jardín", true),
      Room(6, "301", "suite", 4, 150.0, "Suite presidencial con sala y jacuzzi", true),
      Room(7, "302", "suite", 3, 130.0, "Suite junior con balcón", true),
      Room(8, "103", "simple", 1, 55.0, "Habitación individual premium", true),
      Room(9, "204", "doble", 2, 90.0, "Habitación doble deluxe", true),
      Room(10, "303", "suite", 4, 160.0, "Suite familiar con dos habitaciones", true) ]
  }
}

/** Bearer-token sessions: the credential lookup of `login` and the checks of
    `verificar_token`. */
module Sessions {
  import opened BookingTypes

  /** What `verificar_token` hands to the protected endpoints. */
  datatype UserContext = UserContext(userId: int, email: string, firstName: string)

  /** A row the login query `WHERE email = ? AND password_hash = ? AND activo = 1` selects. */
  predicate AcceptsLogin(u: User, email: string, passwordHash: string) {
    u.email == email && u.passwordHash == passwordHash && u.active
  }

  /** The first user row the login query returns. */
  function FindLoginUser(users: seq<User>, email: string, passwordHash: string): (k: Option<nat>)
    ensures k.Some? ==> k.value < |users| && AcceptsLogin(users[k.value], email, passwordHash)
    ensures k.None? <==> forall i :: 0 <= i < |users| ==> !AcceptsLogin(users[i], email, passwordHash)
  {
    if users == [] then None
    else if AcceptsLogin(users[0], email, passwordHash) then Some(0)
    else match FindLoginUser(users[1..], email, passwordHash)
      case None => None
      case Some(j) => Some(j + 1)
  }

  /** The first user row with the given id (the `JOIN usuarios u ON s.usuario_id = u.id`). */
  function FindUser(users: seq<User>, userId: int): (k: Option<nat>)
    ensures k.Some? ==> k.value < |users| && users[k.value].id == userId
    ensures k.None? <==> forall i :: 0 <= i < |users| ==> users[i].id != userId
  {
    if users == [] then None
    else if users[0].id == userId then Some(0)
    else match FindUser(users[1..], userId)
      case None => None
      case Some(j) => Some(j + 1)
  }

  /** The session row login inserts: active, expiring seven days after `now`. */
  function NewSession(id: int, userId: int, token: string, now: Instant): (s: Session)
    ensures s.active && s.token == token && s.userId == userId
    ensures s.expiresAt - s.createdAt == SessionLifetime && s.createdAt == now
  {
    Session(id, userId, token, now, now + SessionLifetime, true)
  }

  /** `s.token = ? AND s.activa = 1 AND s.fecha_expiracion > datetime('now')`, with a user to join. */
  predicate Admits(s: Session, users: seq<User>, token: string, now: Instant) {
    s.token == token && s.active && s.expiresAt > now && FindUser(users, s.userId).Some?
  }

  /** The first session row the token query returns. */
  function FindLiveSession(sessions: seq<Session>, users: seq<User>, token: string, now: Instant): (k: Option<nat>)
    ensures k.Some? ==> k.value < |sessions| && Admits(sessions[k.value], users, token, now)
    ensures k.None? <==> forall i :: 0 <= i < |sessions| ==> !Admits(sessions[i], users, token, now)
  {
    if sessions == [] then None
    else if Admits(sessions[0], users, token, now) then Some(0)
    else match FindLiveSession(sessions[1..], users, token, now)
      case None => None
      case Some(j) => Some(j + 1)
  }

  /** `verificar_token`: the caller's identity, or 401 when no active unexpired session has the token. */
  function VerifyToken(sessions: seq<Session>, users: seq<User>, token: string, now: Instant): (r: Result<UserContext>)
    ensures r.Err? ==> r.error == InvalidToken
    ensures r.Ok? <==> exists i :: 0 <= i < |sessions| && Admits(sessions[i], users, token, now)
    ensures r.Ok? ==> exists i :: 0 <= i < |sessions| && Admits(sessions[i], users, token, now)
                                  && r.value.userId == sessions[i].userId
  {
    match FindLiveSession(sessions, users, token, now)
    case None => Err(InvalidToken)
    case Some(k) =>
      var u := users[FindUser(users, sessions[k].userId).value];
      Ok(UserContext(sessions[k].userId, u.email, u.firstName))
  }

  /** Tokens are a UNIQUE column. */
  ghost predicate TokensUnique(sessions: seq<Session>) {
    forall i, j :: 0 <= i < j < |sessions| ==> sessions[i].token != sessions[j].token
  }

  /** With unique tokens, an active session of an existing user authenticates its
      owner exactly while the clock is before its expiry. */
  lemma TokenValidUntilExpiry(sessions: seq<Session>, users: seq<User>, k: nat, now: Instant)
    requires TokensUnique(sessions)
    requires k < |sessions| && sessions[k].active
    requires FindUser(users, sessions[k].userId).Some?
    ensures VerifyToken(sessions, users, sessions[k].token, now).Ok? <==> now < sessions[k].expiresAt
    ensures VerifyToken(sessions, users, sessions[k].token, now).Ok? ==>
              VerifyToken(sessions, users, sessions[k].token, now).value.userId == sessions[k].userId
  {
    var r := VerifyToken(sessions, users, sessions[k].token, now);
    if r.Ok? {
      var i :| 0 <= i < |sessions| && Admits(sessions[i], users, sessions[k].token, now)
               && r.value.userId == sessions[i].userId;
      assert i == k;
    } else {
      assert !Admits(sessions[k], users, sessions[k].token, now);
    }
  }

  /** A session created at `created` authenticates at `now` exactly when `now` is less
      than seven days after `created`: valid on creation, invalid from its expiry on. */
  lemma FreshSessionLifetime(sessions: seq<Session>, users: seq<User>, userId: int, token: string,
                             created: Instant, now: Instant)
    requires TokensUnique(sessions)
    requires forall i :: 0 <= i < |sessions| ==> sessions[i].token != token
    requires FindUser(users, userId).Some?
    ensures var sessions' := sessions + [NewSession(|sessions| + 1, userId, token, created)];
            VerifyToken(sessions', users, token, now).Ok? <==> now < created + SessionLifetime
  {
    var sessions' := sessions + [NewSession(|sessions| + 1, userId, token, created)];
    TokenValidUntilExpiry(sessions', users, |sessions|, now);
  }
}

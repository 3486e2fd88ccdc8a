/**
 * The identity and authorization guards of `lib/auth.ts`. The session (a
 * signed next-auth token, whose signature and expiry are checked outside this
 * model) arrives as its decoded claims; the `users` table as its rows; a
 * failing `SELECT` as a flag. `redirect(...)` ends the request, so it is an
 * outcome here rather than a return.
 */
module Auth {
  import opened Wrappers
  import opened Text
  import opened Seqs
  import opened Db

  /** The user claims a session carries, and the user object the guards return. */
  datatype Identity = Identity(
    id: string,
    name: string,
    email: string,
    role: string,
    address: Option<string>,
    city: Option<string>,
    state: Option<string>,
    zip: Option<string>)

  /** A decoded session; `user` may be absent. */
  datatype Session = Session(user: Option<Identity>)

  /** Either the request is sent elsewhere, or it proceeds as `user`. */
  datatype Guard = Redirect(location: string) | Proceed(user: Identity)

  const SignInPage := "/auth/signin"
  const DashboardPage := "/dashboard"

  /**
   * `SELECT * FROM users WHERE id = ?` with the claim's id, taken here as the
   * row's id written in canonical decimal: the id the sign-in callback puts
   * in the session. MySQL's numeric conversion of other texts ("07", "7.0")
   * is not modelled.
   */
  predicate IdMatches(row: UserRow, claimId: string) {
    DecimalString(row.id) == claimId
  }

  /** The user object built from a `users` row, with the id stringified. */
  function FromRow(row: UserRow): (u: Identity)
    ensures IdMatches(row, u.id)
    ensures u.role == row.role && u.email == row.email
  {
    Identity(DecimalString(row.id), row.name, row.email, row.role, row.address, row.city, row.state, row.zip)
  }

  /** `getCurrentUser`: the session's user claims, as issued; the `users` table is not consulted. */
  function GetCurrentUser(session: Option<Session>): (u: Option<Identity>)
    ensures u.Some? <==> session.Some? && session.value.user.Some?
    ensures u.Some? ==> u == session.value.user
  {
    if session.Some? then session.value.user else None
  }

  /** The check every admin API route makes on `getCurrentUser()`: `user && user.role === "admin"`. */
  predicate IsAdmin(user: Option<Identity>) {
    user.Some? && user.value.role == "admin"
  }

  /**
   * `requireAuth`: without a session user, redirect to the sign-in page;
   * otherwise the stored `users` row with the claim's id wins over the
   * claims, which are the fallback when no row matches or the query throws.
   */
  function RequireAuth(session: Option<Session>, users: seq<UserRow>, queryFails: bool): (g: Guard)
    ensures g.Redirect? <==> GetCurrentUser(session).None?
    ensures g.Redirect? ==> g.location == SignInPage
    ensures GetCurrentUser(session).Some? && (queryFails || forall i :: 0 <= i < |users| ==> !IdMatches(users[i], GetCurrentUser(session).value.id)) ==>
              g == Proceed(GetCurrentUser(session).value)
    ensures GetCurrentUser(session).Some? && !queryFails && (exists i :: 0 <= i < |users| && IdMatches(users[i], GetCurrentUser(session).value.id)) ==>
              exists j :: 0 <= j < |users| && IdMatches(users[j], GetCurrentUser(session).value.id) && g == Proceed(FromRow(users[j]))
    ensures g.Proceed? && !queryFails ==>
              g.user == GetCurrentUser(session).value
              || exists i :: 0 <= i < |users| && g.user == FromRow(users[i]) && IdMatches(users[i], GetCurrentUser(session).value.id)
  {
    match GetCurrentUser(session)
    case None => Redirect(SignInPage)
    case Some(claims) =>
      if queryFails then Proceed(claims)
      else
        match FindFirst(users, (row: UserRow) => IdMatches(row, claims.id))
        case Some(row) => Proceed(FromRow(row))
        case None => Proceed(claims)
  }

  /** `requireAdmin`: whatever `requireAuth` resolves, sent to the dashboard unless its role is "admin". */
  function RequireAdmin(session: Option<Session>, users: seq<UserRow>, queryFails: bool): (g: Guard)
    ensures g.Proceed? <==> RequireAuth(session, users, queryFails).Proceed? && RequireAuth(session, users, queryFails).user.role == "admin"
    ensures g.Proceed? ==> g == RequireAuth(session, users, queryFails)
    ensures RequireAuth(session, users, queryFails).Redirect? ==> g == RequireAuth(session, users, queryFails)
    ensures RequireAuth(session, users, queryFails).Proceed? && RequireAuth(session, users, queryFails).user.role != "admin" ==>
              g == Redirect(DashboardPage)
  {
    match RequireAuth(session, users, queryFails)
    case Redirect(location) => Redirect(location)
    case Proceed(user) => if user.role != "admin" then Redirect(DashboardPage) else Proceed(user)
  }

  /**
   * When the table holds one row with the claimed id (the id is the primary
   * key), `requireAuth` returns that row's user, not the session's claims.
   */
  lemma StoredRowWins(session: Option<Session>, users: seq<UserRow>, row: UserRow)
    requires GetCurrentUser(session).Some?
    requires row in users && IdMatches(row, GetCurrentUser(session).value.id)
    requires forall r :: r in users && IdMatches(r, GetCurrentUser(session).value.id) ==> r == row
    ensures RequireAuth(session, users, false) == Proceed(FromRow(row))
  {
    var claims := GetCurrentUser(session).value;
    var found := FindFirst(users, (r: UserRow) => IdMatches(r, claims.id));
    assert found.Some?;
  }

  /**
   * The stored role decides: a user whose row says "customer" is sent to the
   * dashboard by `requireAdmin`, whatever role the session still claims.
   */
  lemma DemotionTakesEffect(session: Option<Session>, users: seq<UserRow>, row: UserRow)
    requires GetCurrentUser(session).Some?
    requires row in users && IdMatches(row, GetCurrentUser(session).value.id)
    requires forall r :: r in users && IdMatches(r, GetCurrentUser(session).value.id) ==> r.role == row.role
    requires row.role != "admin"
    ensures RequireAdmin(session, users, false) == Redirect(DashboardPage)
  {
    var claims := GetCurrentUser(session).value;
    var found := FindFirst(users, (r: UserRow) => IdMatches(r, claims.id));
    assert found.Some?;
  }

  /**
   * The API routes do not share that guarantee: `getCurrentUser` trusts the
   * claims, so a session issued while the user was an admin still passes the
   * API admin check after the row has been demoted, while `requireAdmin`
   * turns the same session away.
   */
  lemma StaleClaimPassesApiCheck(claims: Identity, row: UserRow)
    requires claims.role == "admin" && IdMatches(row, claims.id) && row.role == "customer"
    ensures IsAdmin(GetCurrentUser(Some(Session(Some(claims)))))
    ensures RequireAdmin(Some(Session(Some(claims))), [row], false) == Redirect(DashboardPage)
  {
    DemotionTakesEffect(Some(Session(Some(claims))), [row], row);
  }
}

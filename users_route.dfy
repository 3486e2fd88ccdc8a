/**
 * `GET` and `POST /api/users`: listing users, optionally by role, and an
 * admin creating a user. The bcrypt hash is the parameter `hash`, and the
 * AUTO_INCREMENT id the insert receives is the parameter `newId`.
 */
module UsersRoute {
  import opened Wrappers
  import opened Js
  import opened Text
  import opened Db
  import opened Auth

  const SelectUsers := "SELECT id, name FROM users"
  const RoleFilter := " WHERE role = " + "?"

  lemma RoleFilterPlaceholders()
    ensures Count(RoleFilter, '?') == 1
  {
    CountThenChar(" WHERE role = ", '?');
  }

  /** The placeholders of the two query texts. */
  lemma QueryPlaceholders()
    ensures Count(SelectUsers, '?') == 0
    ensures Count(SelectUsers + RoleFilter, '?') == 1
  {
    CountAbsent(SelectUsers, '?');
    RoleFilterPlaceholders();
    CountAppend(SelectUsers, RoleFilter, '?');
  }

  /**
   * The query `GET` builds with `query +=` and `params.push`: the role
   * filter and its one parameter appear together, exactly when the role is
   * a non-empty string, so the placeholders and parameters always match.
   */
  method ListQuery(role: Option<string>) returns (s: Statement)
    ensures Truthy(role) ==> s == Statement(SelectUsers + RoleFilter, [role.value])
    ensures !Truthy(role) ==> s == Statement(SelectUsers, [])
    ensures Count(s.sql, '?') == |s.params|
  {
    QueryPlaceholders();
    var query := SelectUsers;
    var params: seq<string> := [];
    if Truthy(role) {
      query := query + RoleFilter;
      params := params + [role.value];
      assert Count(query, '?') == 1 && |params| == 1;
    }
    return Statement(query, params);
  }

  /** `GET`: anyone but an admin gets 401; otherwise the listing query runs. */
  method Get(user: Option<Identity>, role: Option<string>) returns (r: Listing)
    ensures r.Refused? <==> !IsAdmin(user)
    ensures r.Refused? ==> r.reply == Unauthorized
    ensures r.Runs? && Truthy(role) ==> r.statement == Statement(SelectUsers + RoleFilter, [role.value])
    ensures r.Runs? && !Truthy(role) ==> r.statement == Statement(SelectUsers, [])
    ensures r.Runs? ==> Count(r.statement.sql, '?') == |r.statement.params|
                        && (|r.statement.params| == 1 <==> Truthy(role))
  {
    if !IsAdmin(user) {
      return Refused(Unauthorized);
    }
    var s := ListQuery(role);
    return Runs(s);
  }

  /** The JSON body of `POST`; `None` is an absent field. */
  datatype NewUser = NewUser(
    name: Option<string>,
    email: Option<string>,
    password: Option<string>,
    role: Option<string>,
    address: Option<string>,
    city: Option<string>,
    state: Option<string>,
    zip: Option<string>)

  /** A reply and the `users` table after the request. */
  datatype Outcome = Outcome(reply: Reply, users: seq<UserRow>)

  const MissingFields: Reply := Reply(400, "Missing required fields")
  const UserExists: Reply := Reply(409, "User already exists")
  const UserCreated: Reply := Reply(201, "User created successfully")

  /** The stored role: the given one, or "customer" when it is absent or empty. */
  function RoleOf(req: NewUser): (role: string)
    ensures Truthy(req.role) ==> role == req.role.value
    ensures !Truthy(req.role) ==> role == "customer"
  {
    OrElse(req.role, "customer")
  }

  predicate EmailTaken(users: seq<UserRow>, email: string) {
    exists i :: 0 <= i < |users| && users[i].email == email
  }

  /**
   * The request's effect: 401 for anyone but an admin, 400 for a falsy
   * name, email or password, 409 for a registered email, all with the table
   * untouched; otherwise one row is appended, with the password hashed and
   * the role defaulted, and the reply is 201.
   */
  function CreateUser(user: Option<Identity>, users: seq<UserRow>, req: NewUser, newId: nat,
                      hash: string -> string): (o: Outcome)
    ensures !IsAdmin(user) ==> o == Outcome(Unauthorized, users)
    ensures IsAdmin(user) && (!Truthy(req.name) || !Truthy(req.email) || !Truthy(req.password)) ==>
              o == Outcome(MissingFields, users)
    ensures IsAdmin(user) && Truthy(req.name) && Truthy(req.email) && Truthy(req.password) && EmailTaken(users, req.email.value) ==>
              o == Outcome(UserExists, users)
    ensures o.reply == UserCreated <==>
              IsAdmin(user) && Truthy(req.name) && Truthy(req.email) && Truthy(req.password) && !EmailTaken(users, req.email.value)
    ensures o.reply == UserCreated ==>
              o.users == users + [UserRow(newId, req.name.value, req.email.value, hash(req.password.value), RoleOf(req),
                                          req.address, req.city, req.state, req.zip)]
    ensures o.reply != UserCreated ==> o.users == users
  {
    if !IsAdmin(user) then Outcome(Unauthorized, users)
    else if !Truthy(req.name) || !Truthy(req.email) || !Truthy(req.password) then Outcome(MissingFields, users)
    else if EmailTaken(users, req.email.value) then Outcome(UserExists, users)
    else
      var row := UserRow(newId, req.name.value, req.email.value, hash(req.password.value), RoleOf(req),
                         req.address, req.city, req.state, req.zip);
      Outcome(UserCreated, users + [row])
  }

  /** `POST`: the checks in order, then the insert. */
  method Post(user: Option<Identity>, users: Table<UserRow>, req: NewUser, newId: nat, hash: string -> string)
    returns (reply: Reply)
    modifies users
    ensures Outcome(reply, users.rows) == CreateUser(user, old(users.rows), req, newId, hash)
  {
    if !IsAdmin(user) {
      return Unauthorized;
    }
    if !Truthy(req.name) || !Truthy(req.email) || !Truthy(req.password) {
      return MissingFields;
    }
    if EmailTaken(users.rows, req.email.value) {
      return UserExists;
    }
    var hashedPassword := hash(req.password.value);
    users.Insert(UserRow(newId, req.name.value, req.email.value, hashedPassword, RoleOf(req),
                         req.address, req.city, req.state, req.zip));
    return UserCreated;
  }

  /**
   * Emails stay unique through this route: if no two rows share an email
   * before, none do after.
   */
  lemma CreateKeepsEmailsUnique(user: Option<Identity>, users: seq<UserRow>, req: NewUser, newId: nat,
                                hash: string -> string)
    requires forall i, j :: 0 <= i < j < |users| ==> users[i].email != users[j].email
    ensures var after := CreateUser(user, users, req, newId, hash).users;
            forall i, j :: 0 <= i < j < |after| ==> after[i].email != after[j].email
  {
  }
}

/** The account service's `register` and `login` handlers: a user table with
    unique usernames, role normalisation, the order of the error answers, the
    token payload and the token lifetime. Password hashing, password checking,
    token signing and duration parsing are parameters. */
module Auth {
  import opened Common

  datatype Role = User | GameMaster

  /** A `user` row; `password` holds the hash. */
  datatype UserRecord = UserRecord(id: string, username: string, password: string, role: Role)

  /** What `register` answers: the row without its password. */
  datatype PublicUser = PublicUser(id: string, username: string, role: Role)

  /** The fields of a register or login body. */
  datatype Credentials = Credentials(username: Option<string>, password: Option<string>, role: Option<string>)

  /** The claims put in a token. */
  datatype Payload = Payload(userId: string, role: Role)

  /** Only the exact string "GameMaster" asks for the game-master role;
      anything else, or nothing, gives an ordinary user. */
  function NormalizeRole(requested: Option<string>): (r: Role)
    ensures r == GameMaster <==> requested == Some("GameMaster")
  {
    if requested == Some("GameMaster") then GameMaster else User
  }

  /** The token lifetime in seconds: the setting's duration in milliseconds,
      rounded down to whole seconds, when the setting is present and parses to
      a non-zero duration; no lifetime otherwise. `ms` stands for the duration
      parser, `None` for a string it cannot read. */
  function ExpiresIn(setting: Option<string>, ms: string -> Option<int>): (r: Option<int>)
    ensures r.Some? <==> Truthy(setting) && ms(setting.value).Some? && ms(setting.value).value != 0
    ensures r.Some? ==> r.value * 1000 <= ms(setting.value).value < r.value * 1000 + 1000
  {
    if Truthy(setting) then
      var msValue := ms(setting.value);
      if msValue.Some? && msValue.value != 0 then Some(msValue.value / 1000) else None
    else None
  }

  /** The answer of `login` on a table: credentials must be present, the user
      must exist and the password must check against its hash (both failures
      give the same answer), and only then is the secret needed; the token
      carries exactly the user's id and role. `verify` stands for the
      password check, `sign` for token signing (`None` when it throws). */
  function Login(users: map<string, UserRecord>, req: Credentials, secret: Option<string>,
                 expiresSetting: Option<string>, verify: (string, string) -> bool,
                 ms: string -> Option<int>, sign: (Payload, string, Option<int>) -> Option<string>)
    : (r: Result<string>)
    ensures !(Truthy(req.username) && Truthy(req.password)) ==>
              r == Err(HttpError(400, "Username and password required"))
    ensures Truthy(req.username) && Truthy(req.password) ==>
              (r == Err(HttpError(401, "Invalid credentials")) <==>
                 req.username.value !in users
                 || !verify(req.password.value, users[req.username.value].password))
    ensures r == Err(HttpError(500, "JWT secret not configured")) <==>
              && Truthy(req.username) && Truthy(req.password) && req.username.value in users
              && verify(req.password.value, users[req.username.value].password) && !Truthy(secret)
    ensures r.Ok? ==>
              && Truthy(req.username) && Truthy(req.password) && req.username.value in users
              && verify(req.password.value, users[req.username.value].password) && Truthy(secret)
              && var u := users[req.username.value];
              Some(r.value) == sign(Payload(u.id, u.role), secret.value, ExpiresIn(expiresSetting, ms))
  {
    if !Truthy(req.username) || !Truthy(req.password) then
      Err(HttpError(400, "Username and password required"))
    else if req.username.value !in users then
      Err(HttpError(401, "Invalid credentials"))
    else
      var user := users[req.username.value];
      if !verify(req.password.value, user.password) then
        Err(HttpError(401, "Invalid credentials"))
      else if !Truthy(secret) then
        Err(HttpError(500, "JWT secret not configured"))
      else
        match sign(Payload(user.id, user.role), secret.value, ExpiresIn(expiresSetting, ms))
        case None => Err(HttpError(500, "Internal server error"))
        case Some(token) => Ok(token)
  }

  /** The `user` table, by username. */
  class UserTable {
    var users: map<string, UserRecord>

    /** Each row is filed under its own username, and no two rows share an
        id (the primary key of `user`). */
    ghost predicate Valid()
      reads this
    {
      && (forall name :: name in users ==> users[name].username == name)
      && (forall a, b :: a in users && b in users && a != b ==> users[a].id != users[b].id)
    }

    constructor ()
      ensures Valid() && users == map[]
    {
      users := map[];
    }

    /** POST /register. Missing credentials are refused before the table is
        read, a taken username next; otherwise the hash of the password (never
        the password) is stored with the normalised role, and the answer
        leaves the password out. `hash` stands for the password hashing. */
    method Register(req: Credentials, newId: string, hash: string -> string)
      returns (r: Result<PublicUser>)
      requires Valid() && forall name :: name in users ==> users[name].id != newId
      modifies this
      ensures Valid()
      ensures !(Truthy(req.username) && Truthy(req.password)) ==>
                r == Err(HttpError(400, "Username and password required"))
      ensures Truthy(req.username) && Truthy(req.password) && req.username.value in old(users) ==>
                r == Err(HttpError(409, "User already exists"))
      ensures r.Err? ==> users == old(users)
      ensures r.Ok? ==>
                && Truthy(req.username) && Truthy(req.password) && req.username.value !in old(users)
                && var role := NormalizeRole(req.role);
                && users == old(users)[req.username.value := UserRecord(newId, req.username.value,
                                                                        hash(req.password.value), role)]
                && r.value == PublicUser(newId, req.username.value, role)
      ensures r.Ok? <==> Truthy(req.username) && Truthy(req.password) && req.username.value !in old(users)
    {
      if !Truthy(req.username) || !Truthy(req.password) {
        return Err(HttpError(400, "Username and password required"));
      }
      var username := req.username.value;
      if username in users {
        return Err(HttpError(409, "User already exists"));
      }
      var hashedPassword := hash(req.password.value);
      var user := UserRecord(newId, username, hashedPassword, NormalizeRole(req.role));
      users := users[username := user];
      r := Ok(PublicUser(user.id, user.username, user.role));
    }
  }

  /** A user who has just registered can log in with the same password (when
      the password check accepts a password against its own hash), and the
      token carries the new id and the normalised role. */
  lemma RegisterThenLogin(users: map<string, UserRecord>, username: string, password: string,
                          requestedRole: Option<string>, newId: string, hash: string -> string,
                          secret: string, expiresSetting: Option<string>, verify: (string, string) -> bool,
                          ms: string -> Option<int>, sign: (Payload, string, Option<int>) -> Option<string>)
    requires username != "" && password != "" && secret != ""
    requires verify(password, hash(password))
    requires sign(Payload(newId, NormalizeRole(requestedRole)), secret, ExpiresIn(expiresSetting, ms)).Some?
    ensures var after := users[username := UserRecord(newId, username, hash(password), NormalizeRole(requestedRole))];
            Login(after, Credentials(Some(username), Some(password), None), Some(secret),
                  expiresSetting, verify, ms, sign)
            == Ok(sign(Payload(newId, NormalizeRole(requestedRole)), secret, ExpiresIn(expiresSetting, ms)).value)
  {
  }
}

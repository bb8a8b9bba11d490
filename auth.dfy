/** The auth routes (`/api/auth`): register, login and `/me`. bcrypt and the
    JWT signer are parameters: `hash` stands for `bcrypt.hash`, `verify` for
    `bcrypt.compare` and `sign` for `jwt.sign({ userId })`; `isEmail` is zod's
    email-format check. */
module Auth {
  import opened Common
  import opened Db

  const UserExists: string := "User already exists"
  const InvalidCredentials: string := "Invalid credentials"
  const UserNotFound: string := "User not found"

  /** The user as register and `/me` select it: no password. */
  datatype Profile = Profile(id: Id, email: string, username: string, createdAt: int)

  /** The user as login returns it: id, email and username only. */
  datatype LoginUser = LoginUser(id: Id, email: string, username: string)

  /** `{ user, token }`. */
  datatype Session<U> = Session(user: U, token: string)

  /** `registerSchema`: an email, a username of 3 to 20 characters and a
      password of at least 8. */
  predicate RegisterOk(isEmail: string -> bool, email: string, username: string, password: string)
  {
    isEmail(email) && 3 <= Utf16Length(username) <= 20 && Utf16Length(password) >= 8
  }

  /** `findFirst({ where: { OR: [{ email }, { username }] } })` finds a user. */
  predicate Taken(users: seq<User>, email: string, username: string)
  {
    exists i :: 0 <= i < |users| && (users[i].email == email || users[i].username == username)
  }

  /** `POST /api/auth/register { email, username, password }`. Invalid input
      gives 400; an email or a username already in use gives 400 and creates
      nobody; otherwise exactly one user is created, holding `hash(password)`
      and not the password, and the reply carries its profile and a token
      signed for its id. */
  method Register(db: Database, isEmail: string -> bool, hash: string -> string, sign: Id -> string,
                  email: string, username: string, password: string, now: int)
    returns (r: Reply<Session<Profile>>)
    requires db.Valid()
    modifies db
    ensures db.Valid()
    ensures db.games == old(db.games) && db.userGames == old(db.userGames) && db.reviews == old(db.reviews)
    ensures !RegisterOk(isEmail, email, username, password) ==> r == Fail(400, InvalidInput)
    ensures RegisterOk(isEmail, email, username, password) && Taken(old(db.users), email, username) ==>
              r == Fail(400, UserExists)
    ensures r.Fail? ==> db.users == old(db.users)
    ensures r.Ok? <==> RegisterOk(isEmail, email, username, password) && !Taken(old(db.users), email, username)
    ensures r.Ok? ==>
              && r.body.user.id !in UserIds(old(db.users))
              && db.users == old(db.users) + [User(r.body.user.id, email, username, hash(password), now)]
              && r.body == Session(Profile(r.body.user.id, email, username, now), sign(r.body.user.id))
  {
    if !RegisterOk(isEmail, email, username, password) {
      return Fail(400, InvalidInput);
    }
    var existing := FindFirst(db.users, (u: User) => u.email == email || u.username == username);
    if existing.Some? {
      return Fail(400, UserExists);
    }
    var id := NewId(UserIds(db.users));
    var user := User(id, email, username, hash(password), now);
    forall i, j | 0 <= i < j < |db.users + [user]|
      ensures (db.users + [user])[i].id != (db.users + [user])[j].id
    {
      assert UserIds(db.users)[i] == db.users[i].id;
    }
    db.users := db.users + [user];
    r := Ok(Session(Profile(id, email, username, now), sign(id)));
  }

  /** `POST /api/auth/login { email, password }`. A malformed email gives 400.
      An unknown email and a wrong password give the same 401; otherwise the
      reply carries the user's id, email and username and a token signed for
      its id. */
  function Login(users: seq<User>, isEmail: string -> bool, verify: (string, string) -> bool, sign: Id -> string,
                 email: string, password: string): (r: Reply<Session<LoginUser>>)
    requires UsersValid(users)
    ensures !isEmail(email) ==> r == Fail(400, InvalidInput)
    ensures isEmail(email) && (forall i :: 0 <= i < |users| ==> users[i].email != email) ==>
              r == Fail(401, InvalidCredentials)
    ensures forall i :: 0 <= i < |users| && users[i].email == email && isEmail(email) ==>
              r == if verify(password, users[i].password)
                   then Ok(Session(LoginUser(users[i].id, email, users[i].username), sign(users[i].id)))
                   else Fail(401, InvalidCredentials)
  {
    if !isEmail(email) then Fail(400, InvalidInput)
    else
      match FindFirst(users, (u: User) => u.email == email)
      case None => Fail(401, InvalidCredentials)
      case Some(i) =>
        if !verify(password, users[i].password) then Fail(401, InvalidCredentials)
        else Ok(Session(LoginUser(users[i].id, users[i].email, users[i].username), sign(users[i].id)))
  }

  /** An unknown email and a known email with a wrong password get the very
      same reply, so a client cannot tell which accounts exist. */
  lemma LoginHidesAccounts(users: seq<User>, isEmail: string -> bool, verify: (string, string) -> bool, sign: Id -> string,
                           unknown: string, known: nat, password: string, wrong: string)
    requires UsersValid(users)
    requires isEmail(unknown) && forall i :: 0 <= i < |users| ==> users[i].email != unknown
    requires known < |users| && isEmail(users[known].email) && !verify(wrong, users[known].password)
    ensures Login(users, isEmail, verify, sign, unknown, password)
         == Login(users, isEmail, verify, sign, users[known].email, wrong)
         == Fail(401, InvalidCredentials)
  {
  }

  /** After a registration, logging in with the same email and password
      succeeds for the new user, provided `verify` accepts a password against
      its own hash. */
  lemma {:induction false} LoginAfterRegister(users: seq<User>, isEmail: string -> bool, hash: string -> string,
                                              verify: (string, string) -> bool, sign: Id -> string,
                                              id: Id, email: string, username: string, password: string, now: int)
    requires UsersValid(users + [User(id, email, username, hash(password), now)])
    requires isEmail(email)
    requires verify(password, hash(password))
    ensures Login(users + [User(id, email, username, hash(password), now)], isEmail, verify, sign, email, password)
         == Ok(Session(LoginUser(id, email, username), sign(id)))
  {
    var us := users + [User(id, email, username, hash(password), now)];
    assert us[|users|].email == email;
  }

  /** `GET /api/auth/me`: the profile of the token's user, or 404 when that id
      has no user. */
  function Me(users: seq<User>, userId: Id): (r: Reply<Profile>)
    ensures r.Fail? <==> userId !in UserIds(users)
    ensures r.Fail? ==> r == Fail(404, UserNotFound)
    ensures r.Ok? ==> exists i :: 0 <= i < |users| && users[i].id == userId
                        && r.body == Profile(userId, users[i].email, users[i].username, users[i].createdAt)
  {
    assert forall k :: 0 <= k < |users| ==> UserIds(users)[k] == users[k].id;
    match FindFirst(users, (u: User) => u.id == userId)
    case None => Fail(404, UserNotFound)
    case Some(i) => Ok(Profile(users[i].id, users[i].email, users[i].username, users[i].createdAt))
  }
}

/**
 * The account routes of `app/api/v1/auth.py` that change or expose the
 * user and login-record tables: `login`, `logout`, `get_users`,
 * `delete_users` and `update_user`. Each method is the body of its route;
 * the admin-only ones run only when `Decorators.AdminRequired` lets them.
 * A raised exception ends the request before `db.commit()`, so on every
 * error path the tables are left as they were.
 */
module AuthApi {
  import opened Wrappers
  import opened Text
  import opened Security
  import opened Models
  import opened Users

  /** The `user` object of a login response. */
  datatype Profile = Profile(id: int, username: string, email: string, role: Role, status: Status)

  /** The body of a successful login. */
  datatype LoginResponse = LoginResponse(accessToken: string, tokenType: string, expiresIn: int, user: Profile)

  /** One entry of `get_users`: the user row without its password digest. */
  datatype UserListing = UserListing(id: int, username: string, email: string, role: Role, status: Status, createdAt: int)

  /** The body of a successful `update_user`. */
  datatype UpdatedUser = UpdatedUser(id: int, username: string, email: string, role: Role, createdAt: int)

  function ProfileOf(u: User): Profile
  {
    Profile(u.id, u.username, u.email, u.role, u.status)
  }

  function ListingOf(u: User): UserListing
  {
    UserListing(u.id, u.username, u.email, u.role, u.status, u.createdAt)
  }

  /** Some stored user has this email and the password verifies against that user's digest. */
  predicate CredentialsMatch(env: Env, users: map<int, User>, email: string, password: string)
  {
    exists id :: id in users && users[id].email == email && VerifyPassword(env, users[id], password)
  }

  /** Some login record already holds this token. */
  predicate TokenInUse(logins: map<int, LoginRecord>, token: string)
  {
    exists id :: id in logins && logins[id].token == token
  }

  /** A user other than `userId` holds `email`. */
  predicate EmailHeldByOther(users: map<int, User>, email: string, userId: int)
  {
    exists id :: id in users && id != userId && users[id].email == email
  }

  /** A user other than `userId` holds `username`. */
  predicate UsernameHeldByOther(users: map<int, User>, username: string, userId: int)
  {
    exists id :: id in users && id != userId && users[id].username == username
  }

  /** Changing a user's status keeps the user and login tables' constraints. */
  lemma StatusChangeKeepsTables(users: map<int, User>, logins: map<int, LoginRecord>, nextUserId: int,
                                nextLoginId: int, id: int, status: Status)
    requires UserTable(users, nextUserId) && LoginTable(logins, users, nextLoginId) && id in users
    ensures var users' := users[id := users[id].(status := status)];
      UserTable(users', nextUserId) && LoginTable(logins, users', nextLoginId)
  {
    var users' := users[id := users[id].(status := status)];
    assert forall k :: k in users' ==> users'[k].username == users[k].username && users'[k].email == users[k].email;
  }

  /**
   * `login`: unknown email or wrong password is a 401 and writes nothing.
   * Otherwise one login record is added for the user, holding the new token
   * and expiring `ACCESS_TOKEN_EXPIRE_MINUTES` later, and the user's status
   * becomes active. A token longer than its column, or equal to a stored
   * one, is refused at commit.
   */
  method Login(db: AuthTables, env: Env, email: string, password: string, now: int)
    returns (r: Result<LoginResponse, Failure>)
    requires db.Valid()
    modifies db
    ensures db.Valid()
    ensures !CredentialsMatch(env, old(db.users), email, password) ==> r == Err(HttpError(401, "Invalid credentials"))
    ensures CredentialsMatch(env, old(db.users), email, password) ==>
      r.Ok? || r == Err(ServerError(DataTooLong)) || r == Err(ServerError(IntegrityError))
    ensures db.nextUserId == old(db.nextUserId)
    ensures r.Err? ==> db.users == old(db.users) && db.logins == old(db.logins) && db.nextLoginId == old(db.nextLoginId)
    ensures r.Ok? ==>
      var id := r.value.user.id;
      var record := LoginRecord(old(db.nextLoginId), id, r.value.accessToken, Active, now,
                                now + env.accessTokenExpireMinutes * 60);
      && id in old(db.users) && old(db.users)[id].email == email
      && VerifyPassword(env, old(db.users)[id], password)
      && r.value.accessToken == env.createJwt(id, RoleName(old(db.users)[id].role), now)
      && !TokenInUse(old(db.logins), r.value.accessToken)
      && db.users == old(db.users)[id := old(db.users)[id].(status := Active)]
      && db.logins == old(db.logins)[record.id := record]
      && db.nextLoginId == old(db.nextLoginId) + 1
      && r.value == LoginResponse(r.value.accessToken, "bearer", env.accessTokenExpireMinutes * 60,
                                  ProfileOf(db.users[id]))
      && r.value.user.status == Active
    ensures r == Err(ServerError(DataTooLong)) ==>
      exists id :: id in old(db.users) && old(db.users)[id].email == email
        && VerifyPassword(env, old(db.users)[id], password)
        && |env.createJwt(id, RoleName(old(db.users)[id].role), now)| > TokenWidth
    ensures r == Err(ServerError(IntegrityError)) ==>
      exists id :: id in old(db.users) && old(db.users)[id].email == email
        && VerifyPassword(env, old(db.users)[id], password)
        && TokenInUse(old(db.logins), env.createJwt(id, RoleName(old(db.users)[id].role), now))
  {
    if !exists id :: id in db.users && db.users[id].email == email {
      return Err(HttpError(401, "Invalid credentials"));
    }
    var id :| id in db.users && db.users[id].email == email;
    var user := db.users[id];
    if !VerifyPassword(env, user, password) {
      return Err(HttpError(401, "Invalid credentials"));
    }
    var token := env.createJwt(user.id, RoleName(user.role), now);
    var record := LoginRecord(db.nextLoginId, user.id, token, Active, now, now + env.accessTokenExpireMinutes * 60);
    if |token| > TokenWidth {
      return Err(ServerError(DataTooLong));
    }
    if TokenInUse(db.logins, token) {
      return Err(ServerError(IntegrityError));
    }
    StatusChangeKeepsTables(db.users, db.logins, db.nextUserId, db.nextLoginId, id, Active);
    db.users := db.users[id := user.(status := Active)];
    db.logins := db.logins[record.id := record];
    db.nextLoginId := db.nextLoginId + 1;
    r := Ok(LoginResponse(token, "bearer", env.accessTokenExpireMinutes * 60, ProfileOf(db.users[id])));
  }

  /** What `auth_header.split(" ")[1] if auth_header else None` gives. */
  datatype TokenField = NoHeader | NoSecondField | Field(token: string)

  function LogoutToken(authorization: Option<string>): (f: TokenField)
    ensures f.Field? ==> authorization.Some? && |Split(authorization.value)| >= 2 && f.token == Split(authorization.value)[1]
    ensures authorization.Some? && "Bearer " <= authorization.value ==> f.Field?
    ensures f.NoHeader? <==> authorization.None? || authorization.value == ""
    ensures f.NoSecondField? <==>
      authorization.Some? && authorization.value != "" && |Split(authorization.value)| < 2
  {
    if authorization.None? || authorization.value == "" then NoHeader
    else
      var parts := Split(authorization.value);
      if "Bearer " <= authorization.value then
        var rest := authorization.value[|"Bearer "|..];
        assert authorization.value == "Bearer" + " " + rest;
        SplitAfterWord("Bearer", rest);
        Field(parts[1])
      else if |parts| < 2 then NoSecondField
      else Field(parts[1])
  }

  /** `for user in users: user.status = "suspended"`, on the records named by `ids`. */
  method SuspendRecords(logins: map<int, LoginRecord>, ids: seq<int>) returns (out: map<int, LoginRecord>)
    requires forall i :: 0 <= i < |ids| ==> ids[i] in logins
    ensures out.Keys == logins.Keys
    ensures forall id :: id in logins && id in ids ==> out[id] == logins[id].(status := Suspended)
    ensures forall id :: id in logins && id !in ids ==> out[id] == logins[id]
  {
    out := logins;
    for i := 0 to |ids|
      invariant out.Keys == logins.Keys
      invariant forall id :: id in logins && id in ids[..i] ==> out[id] == logins[id].(status := Suspended)
      invariant forall id :: id in logins && id !in ids[..i] ==> out[id] == logins[id]
    {
      assert ids[..i + 1] == ids[..i] + [ids[i]];
      out := out[ids[i] := out[ids[i]].(status := Suspended)];
    }
  }

  /** Suspending login records keeps the login table's constraints. */
  lemma SuspendKeepsLoginTable(logins: map<int, LoginRecord>, out: map<int, LoginRecord>,
                               users: map<int, User>, nextId: int, owner: int)
    requires LoginTable(logins, users, nextId)
    requires out.Keys == logins.Keys
    requires forall id :: id in logins ==> out[id] == logins[id] || out[id] == logins[id].(status := Suspended)
    ensures LoginTable(out, users, nextId)
  {
    assert forall id :: id in out ==> out[id].token == logins[id].token && out[id].userId == logins[id].userId;
  }

  /**
   * The tail of `logout`: every login record of `owner`, as the query on
   * `user_id` lists them, and the owner's row become suspended.
   */
  method SuspendOwner(db: AuthTables, owner: int)
    requires db.Valid() && owner in db.users
    modifies db
    ensures db.Valid()
    ensures db.nextUserId == old(db.nextUserId) && db.nextLoginId == old(db.nextLoginId)
    ensures db.users == old(db.users)[owner := old(db.users)[owner].(status := Suspended)]
    ensures db.logins.Keys == old(db.logins).Keys
    ensures forall id :: id in old(db.logins) && old(db.logins)[id].userId == owner ==>
      db.logins[id] == old(db.logins)[id].(status := Suspended)
    ensures forall id :: id in old(db.logins) && old(db.logins)[id].userId != owner ==>
      db.logins[id] == old(db.logins)[id]
  {
    var ids := SortedKeys(set id | id in db.logins && db.logins[id].userId == owner);
    var suspended := SuspendRecords(db.logins, ids);
    SuspendKeepsLoginTable(db.logins, suspended, db.users, db.nextLoginId, owner);
    StatusChangeKeepsTables(db.users, suspended, db.nextUserId, db.nextLoginId, owner, Suspended);
    db.logins := suspended;
    db.users := db.users[owner := db.users[owner].(status := Suspended)];
  }

  /**
   * `logout`: the token is the second space-separated field of the header.
   * No header (or an empty field) is a 401. A token with no record fails
   * when the record's owner is read at line 189, before the `None` check.
   * A record already suspended is a 400. Otherwise every record of the
   * owner, not just the presented one, and the owner's row become suspended.
   * The message names `caller`, the user the gate attached to the request.
   */
  method Logout(db: AuthTables, authorization: Option<string>, caller: User)
    returns (r: Result<string, Failure>, ghost owner: int)
    requires db.Valid()
    modifies db
    ensures db.Valid()
    ensures r.Err? ==> db.users == old(db.users) && db.logins == old(db.logins)
    ensures db.nextUserId == old(db.nextUserId) && db.nextLoginId == old(db.nextLoginId)
    ensures LogoutToken(authorization).NoHeader? || LogoutToken(authorization) == Field("") ==>
      r == Err(HttpError(401, "Token missing"))
    ensures LogoutToken(authorization).NoSecondField? ==> r == Err(ServerError(IndexError))
    ensures var f := LogoutToken(authorization);
      f.Field? && f.token != "" && !TokenInUse(old(db.logins), f.token) ==> r == Err(ServerError(NoneAttribute))
    ensures var f := LogoutToken(authorization);
      (f.Field? && (exists id :: id in old(db.logins) && old(db.logins)[id].token == f.token
                                && old(db.logins)[id].status == Suspended)) ==>
        f.token == "" || r == Err(HttpError(400, "Check for login record and user can be suspended"))
    ensures var f := LogoutToken(authorization);
      (f.Field? && f.token != "" && (exists id :: id in old(db.logins) && old(db.logins)[id].token == f.token
                                                && old(db.logins)[id].status == Active)) ==> r.Ok?
    ensures r.Ok? ==>
      && LogoutToken(authorization).Field?
      && (exists id :: id in old(db.logins) && old(db.logins)[id].token == LogoutToken(authorization).token
                       && old(db.logins)[id].userId == owner && old(db.logins)[id].status == Active)
      && owner in old(db.users)
      && db.users == old(db.users)[owner := old(db.users)[owner].(status := Suspended)]
      && db.logins.Keys == old(db.logins).Keys
      && (forall id :: id in old(db.logins) && old(db.logins)[id].userId == owner ==>
            db.logins[id] == old(db.logins)[id].(status := Suspended))
      && (forall id :: id in old(db.logins) && old(db.logins)[id].userId != owner ==>
            db.logins[id] == old(db.logins)[id])
      && r.value == "User '" + caller.username + "' logged out successfully"
  {
    owner := 0;
    var field := LogoutToken(authorization);
    if field.NoSecondField? {
      return Err(ServerError(IndexError)), owner;
    }
    if field.NoHeader? || field.token == "" {
      return Err(HttpError(401, "Token missing")), owner;
    }
    var token := field.token;
    if !TokenInUse(db.logins, token) {
      return Err(ServerError(NoneAttribute)), owner;
    }
    var recordId :| recordId in db.logins && db.logins[recordId].token == token;
    var record := db.logins[recordId];
    var uid := record.userId;
    owner := uid;
    if record.status == Suspended {
      return Err(HttpError(400, "Check for login record and user can be suspended")), owner;
    }
    if uid !in db.users {
      return Err(HttpError(404, "User not found")), owner;
    }
    SuspendOwner(db, uid);
    r := Ok("User '" + caller.username + "' logged out successfully");
  }

  /** `get_users`: every stored user once, in key order, without the password digest. */
  method GetUsers(db: AuthTables) returns (listing: seq<UserListing>)
    requires db.Valid()
    ensures forall i :: 0 <= i < |listing| ==> listing[i].id in db.users && listing[i] == ListingOf(db.users[listing[i].id])
    ensures forall id :: id in db.users ==> ListingOf(db.users[id]) in listing
    ensures forall i, j :: 0 <= i < j < |listing| ==> listing[i].id < listing[j].id
  {
    var service := new UserService(db);
    var all := service.ListUsers();
    listing := seq(|all|, i requires 0 <= i < |all| => ListingOf(all[i]));
    forall id | id in db.users ensures ListingOf(db.users[id]) in listing {
      var i :| 0 <= i < |all| && all[i] == db.users[id];
      assert listing[i] == ListingOf(db.users[id]);
    }
  }

  /**
   * `delete_users`: an unknown id is a 404. Otherwise exactly that row is
   * removed, and the database's cascade removes that user's login records.
   */
  method DeleteUsers(db: AuthTables, userId: int) returns (r: Result<User, Failure>)
    requires db.Valid()
    modifies db
    ensures db.Valid()
    ensures db.nextUserId == old(db.nextUserId) && db.nextLoginId == old(db.nextLoginId)
    ensures userId !in old(db.users) ==>
      r == Err(HttpError(404, "User not found")) && db.users == old(db.users) && db.logins == old(db.logins)
    ensures userId in old(db.users) ==>
      && r == Ok(old(db.users)[userId])
      && db.users == old(db.users) - {userId}
      && (forall id :: id in db.logins <==> id in old(db.logins) && old(db.logins)[id].userId != userId)
      && (forall id :: id in db.logins ==> db.logins[id] == old(db.logins)[id])
  {
    if userId !in db.users {
      return Err(HttpError(404, "User not found"));
    }
    var deleted := db.users[userId];
    db.logins := map id | id in db.logins && db.logins[id].userId != userId :: db.logins[id];
    db.users := db.users - {userId};
    r := Ok(deleted);
  }

  /**
   * `update_user`, checks in the source's order: the stored role is read
   * before the row is known to exist (a missing row fails there), a role
   * other than the stored one is a 403, an email held by another user a
   * 400, a weak password a 400. Then username, email and digest are
   * replaced; the role stays. A value wider than its column, then a
   * username held by another user, is refused at commit.
   */
  method UpdateUser(db: AuthTables, env: Env, userId: int, username: string, email: string,
                    role: string, password: string)
    returns (r: Result<UpdatedUser, Failure>)
    requires db.Valid()
    modifies db
    ensures db.Valid()
    ensures db.logins == old(db.logins)
    ensures db.nextUserId == old(db.nextUserId) && db.nextLoginId == old(db.nextLoginId)
    ensures r.Err? ==> db.users == old(db.users)
    ensures userId !in old(db.users) ==> r == Err(ServerError(NoneAttribute))
    ensures userId in old(db.users) && RoleName(old(db.users)[userId].role) != role ==>
      r == Err(HttpError(403, "Cannot change the role"))
    ensures userId in old(db.users) && RoleName(old(db.users)[userId].role) == role &&
            EmailHeldByOther(old(db.users), email, userId) ==>
      r == Err(HttpError(400, "Error with the email"))
    ensures userId in old(db.users) && RoleName(old(db.users)[userId].role) == role &&
            !EmailHeldByOther(old(db.users), email, userId) && !env.isStrongPassword(password) ==>
      r == Err(HttpError(400, WeakPasswordDetail))
    ensures userId in old(db.users) && RoleName(old(db.users)[userId].role) == role &&
            !EmailHeldByOther(old(db.users), email, userId) && env.isStrongPassword(password) ==>
      if !UserFits(username, email, env.hashPassword(password)) then r == Err(ServerError(DataTooLong))
      else if UsernameHeldByOther(old(db.users), username, userId) then r == Err(ServerError(IntegrityError))
      else r.Ok?
    ensures r.Ok? ==>
      var old_ := old(db.users)[userId];
      var new_ := old_.(username := username, email := email, password := env.hashPassword(password));
      && db.users == old(db.users)[userId := new_]
      && r.value == UpdatedUser(userId, username, email, old_.role, old_.createdAt)
  {
    if userId !in db.users {
      return Err(ServerError(NoneAttribute));
    }
    var existing := db.users[userId];
    if RoleName(existing.role) != role {
      return Err(HttpError(403, "Cannot change the role"));
    }
    if EmailHeldByOther(db.users, email, userId) {
      return Err(HttpError(400, "Error with the email"));
    }
    if !env.isStrongPassword(password) {
      return Err(HttpError(400, WeakPasswordDetail));
    }
    var hashed := env.hashPassword(password);
    var updated := existing.(username := username, email := email, password := hashed,
                             role := ParseRole(role).value);
    if !UserFits(username, email, hashed) {
      return Err(ServerError(DataTooLong));
    }
    if UsernameHeldByOther(db.users, username, userId) {
      return Err(ServerError(IntegrityError));
    }
    UpdateKeepsTables(db.users, db.logins, db.nextUserId, db.nextLoginId, updated);
    db.users := db.users[userId := updated];
    r := Ok(UpdatedUser(userId, updated.username, updated.email, updated.role, updated.createdAt));
  }

  /** Replacing a user's username and email with values no other user holds keeps the tables' constraints. */
  lemma UpdateKeepsTables(users: map<int, User>, logins: map<int, LoginRecord>, nextUserId: int,
                          nextLoginId: int, updated: User)
    requires UserTable(users, nextUserId) && LoginTable(logins, users, nextLoginId)
    requires updated.id in users
    requires !EmailHeldByOther(users, updated.email, updated.id)
    requires !UsernameHeldByOther(users, updated.username, updated.id)
    requires UserFits(updated.username, updated.email, updated.password)
    ensures UserTable(users[updated.id := updated], nextUserId)
    ensures LoginTable(logins, users[updated.id := updated], nextLoginId)
  {
    var users' := users[updated.id := updated];
    forall a, b | a in users' && b in users' && a != b
      ensures users'[a].username != users'[b].username && users'[a].email != users'[b].email
    {
      if a == updated.id {
        assert users'[b] == users[b];
      } else if b == updated.id {
        assert users'[a] == users[a];
      }
    }
  }
}

/**
 * `UserService` (`app/services/user.py`): registration and the user list,
 * over the user table it reaches through its database session.
 * `UserRepository` is not part of this model; its lookups are taken as
 * plain queries on the table and `create` as an insert followed by a commit.
 */
module Users {
  import opened Wrappers
  import opened Security
  import opened Models

  const WeakPasswordDetail := "Password too weak. Must be 8+ chars, include uppercase, lowercase, number & special char."

  /** `repo.get_by_email(email)` finds a row. */
  predicate EmailTaken(users: map<int, User>, email: string)
  {
    exists id :: id in users && users[id].email == email
  }

  /** Some row already holds this username (the unique constraint would refuse another). */
  predicate UsernameTaken(users: map<int, User>, username: string)
  {
    exists id :: id in users && users[id].username == username
  }

  /** Inserting `user` under a fresh key keeps the user table's constraints. */
  lemma InsertKeepsUserTable(users: map<int, User>, nextId: int, user: User)
    requires UserTable(users, nextId)
    requires user.id == nextId
    requires !EmailTaken(users, user.email) && !UsernameTaken(users, user.username)
    requires UserFits(user.username, user.email, user.password)
    ensures UserTable(users[user.id := user], nextId + 1)
  {
    var users' := users[user.id := user];
    forall a, b | a in users' && b in users' && a != b
      ensures users'[a].username != users'[b].username && users'[a].email != users'[b].email
    {
      if a == user.id {
        assert users'[b] == users[b];
      } else if b == user.id {
        assert users'[a] == users[a];
      }
    }
  }

  class UserService {
    /** The database session the service was created with. */
    const db: AuthTables

    constructor (db: AuthTables)
      ensures this.db == db
    {
      this.db := db;
    }

    /**
     * `create_user`: a taken email is refused before the password strength
     * is looked at; the password is stored hashed; username and role are
     * stored as given, and only the table refuses, at commit, a value
     * wider than its column, an unknown role or a taken username.
     */
    method CreateUser(env: Env, username: string, email: string, role: string, password: string, now: int)
      returns (r: Result<User, Failure>)
      requires db.Valid()
      modifies db
      ensures db.Valid()
      ensures db.logins == old(db.logins) && db.nextLoginId == old(db.nextLoginId)
      ensures EmailTaken(old(db.users), email) ==> r == Err(HttpError(400, "Email already exists"))
      ensures !EmailTaken(old(db.users), email) && !env.isStrongPassword(password) ==>
        r == Err(HttpError(400, WeakPasswordDetail))
      ensures !EmailTaken(old(db.users), email) && env.isStrongPassword(password) &&
              !UserFits(username, email, env.hashPassword(password)) ==>
        r == Err(ServerError(DataTooLong))
      ensures !EmailTaken(old(db.users), email) && env.isStrongPassword(password) &&
              UserFits(username, email, env.hashPassword(password)) &&
              (ParseRole(role).None? || UsernameTaken(old(db.users), username)) ==>
        r == Err(ServerError(IntegrityError))
      // Registration succeeds when none of the checks above refuses it.
      ensures (&& !EmailTaken(old(db.users), email) && env.isStrongPassword(password)
               && UserFits(username, email, env.hashPassword(password))
               && ParseRole(role).Some? && !UsernameTaken(old(db.users), username)) ==> r.Ok?
      ensures r.Err? ==> db.users == old(db.users) && db.nextUserId == old(db.nextUserId)
      ensures r.Ok? ==>
        && r.value == User(old(db.nextUserId), username, email, ParseRole(role).value,
                           env.hashPassword(password), Active, now)
        && db.users == old(db.users)[r.value.id := r.value]
        && db.nextUserId == old(db.nextUserId) + 1
    {
      if EmailTaken(db.users, email) {
        return Err(HttpError(400, "Email already exists"));
      }
      if !env.isStrongPassword(password) {
        return Err(HttpError(400, WeakPasswordDetail));
      }
      if !UserFits(username, email, env.hashPassword(password)) {
        return Err(ServerError(DataTooLong));
      }
      var parsed := ParseRole(role);
      if parsed.None? || UsernameTaken(db.users, username) {
        return Err(ServerError(IntegrityError));
      }
      var user := User(db.nextUserId, username, email, parsed.value, env.hashPassword(password), Active, now);
      InsertKeepsUserTable(db.users, db.nextUserId, user);
      db.users := db.users[user.id := user];
      db.nextUserId := db.nextUserId + 1;
      r := Ok(user);
    }

    /** `list_users`: every stored user exactly once, in key order. */
    method ListUsers() returns (all: seq<User>)
      requires db.Valid()
      ensures forall i :: 0 <= i < |all| ==> all[i].id in db.users && db.users[all[i].id] == all[i]
      ensures forall id :: id in db.users ==> db.users[id] in all
      ensures forall i, j :: 0 <= i < j < |all| ==> all[i].id < all[j].id
    {
      var users := db.users;
      assert forall id :: id in users ==> users[id].id == id;
      all := Rows(users);
      ghost var ks := SortedKeys(users.Keys);
      assert forall i :: 0 <= i < |all| ==> all[i] == users[ks[i]];
      forall id | id in users ensures users[id] in all {
        var i :| 0 <= i < |ks| && ks[i] == id;
        assert all[i] == users[id];
      }
    }
  }
}

/**
 * The tables of `app/models/user.py` that the core reads and writes:
 * users, login records, reviews, review likes and the rating column of
 * movies, with their column domains and unique/check/foreign-key
 * constraints stated as predicates over in-memory tables.
 */
module Models {
  import opened Wrappers
  import opened Security

  /** Column `User.role`: `Enum('admin', 'user')`. */
  datatype Role = AdminRole | UserRole

  /** Column `status` of `User` and `User_Logins`: `Enum('active', 'suspended')`. */
  datatype Status = Active | Suspended

  /** The string a role is stored and compared as. */
  function RoleName(role: Role): (s: string)
    ensures ParseRole(s) == Some(role)
  {
    match role
    case AdminRole => "admin"
    case UserRole => "user"
  }

  /** Which strings the role enum accepts: exactly "admin" and "user". */
  function ParseRole(s: string): (r: Option<Role>)
    ensures r.Some? <==> s == "admin" || s == "user"
  {
    if s == "admin" then Some(AdminRole)
    else if s == "user" then Some(UserRole)
    else None
  }

  /** A row of `User`; `password` holds the digest, never the plain text. */
  datatype User = User(
    id: int,
    username: string,
    email: string,
    role: Role,
    password: string,
    status: Status,
    createdAt: int)

  /** `User.verify_password`: delegates to the hashing library on the stored digest. */
  predicate VerifyPassword(env: Env, user: User, plain: string)
  {
    env.verifyPassword(plain, user.password)
  }

  /** A row of `User_Logins`: one issued token. */
  datatype LoginRecord = LoginRecord(
    id: int,
    userId: int,
    token: string,
    status: Status,
    createdAt: int,
    expirationDate: int)

  /**
   * A row of `Reviews`. Ratings arrive through an integer schema field, so
   * the stored float is always integral and is kept as an `int`;
   * `updatedAt` is rewritten by every UPDATE of the row; `likeCount` is a
   * nullable column with no default.
   */
  datatype Review = Review(
    id: int,
    movieId: int,
    userId: int,
    rating: int,
    comment: Option<string>,
    createdAt: int,
    updatedAt: int,
    likeCount: Option<int>,
    sentimentScore: Option<real>)

  /** A row of `Review_Liked`, identified by its (review, user) pair. */
  datatype Like = Like(reviewId: int, userId: int)

  /** Why an unhandled exception ended a request (answered with status 500). */
  datatype Cause =
    | NoneAttribute   // attribute read on `None` (AttributeError)
    | IntegrityError  // a unique, check, enum or foreign-key constraint refused the commit
    | DataTooLong     // a value longer than its VARCHAR column refused the commit (MySQL strict mode)
    | InvalidQuery    // the database refused the statement (negative OFFSET or LIMIT)
    | IndexError      // a list index past the end

  /** How a request fails: a raised `HTTPException`, or an unhandled exception. */
  datatype Failure = HttpError(status: int, detail: string) | ServerError(cause: Cause)

  // ---------- Table constraints ----------

  /** Declared widths: `User.username` is `String(100)`; `User.email`, `User.password` and `User_Logins.token` are `String(255)`. */
  const UsernameWidth := 100
  const EmailWidth := 255
  const PasswordWidth := 255
  const TokenWidth := 255

  /** A user row's strings fit their columns. */
  predicate UserFits(username: string, email: string, passwordHash: string)
  {
    |username| <= UsernameWidth && |email| <= EmailWidth && |passwordHash| <= PasswordWidth
  }

  /** `User`: primary keys, every string within its column, and `username` and `email` each unique. */
  predicate UserTable(users: map<int, User>, nextId: int)
  {
    && (forall id :: id in users ==> users[id].id == id && id < nextId)
    && (forall id :: id in users ==> UserFits(users[id].username, users[id].email, users[id].password))
    && (forall a, b :: a in users && b in users && a != b ==> users[a].username != users[b].username)
    && (forall a, b :: a in users && b in users && a != b ==> users[a].email != users[b].email)
  }

  /** `User_Logins`: primary keys, `user_id` references an existing user, `token` within its column and unique. */
  predicate LoginTable(logins: map<int, LoginRecord>, users: map<int, User>, nextId: int)
  {
    && (forall id :: id in logins ==> logins[id].id == id && id < nextId && logins[id].userId in users)
    && (forall id :: id in logins ==> |logins[id].token| <= TokenWidth)
    && (forall a, b :: a in logins && b in logins && a != b ==> logins[a].token != logins[b].token)
  }

  /** Check constraint `rating_range_check`. */
  predicate RatingInRange(rating: int)
  {
    0 <= rating <= 10
  }

  /**
   * `Reviews`: primary keys in increasing order below the next key, so the
   * sequence is the table in key order, at most one review
   * per (user, movie) (`unique_user_movie_review`), every rating in range.
   */
  predicate ReviewTable(reviews: seq<Review>, nextId: int)
  {
    && (forall i :: 0 <= i < |reviews| ==> reviews[i].id < nextId && RatingInRange(reviews[i].rating))
    && (forall i, j :: 0 <= i < j < |reviews| ==> reviews[i].id < reviews[j].id)
    && (forall i, j :: 0 <= i < j < |reviews| ==>
          (reviews[i].userId, reviews[i].movieId) != (reviews[j].userId, reviews[j].movieId))
  }

  /** `review.like_count or 0`. */
  function LikeTotal(review: Review): int
  {
    if review.likeCount.Some? then review.likeCount.value else 0
  }

  /** The like rows of one review. */
  function LikesOf(likes: set<Like>, reviewId: int): set<Like>
  {
    set l | l in likes && l.reviewId == reviewId
  }

  /**
   * `Review_Liked`: rows never point at a review key not yet handed out
   * (so a new review starts with no likes), and every review's counter
   * equals the number of its like rows. At most one row per (review, user)
   * holds by construction, since the rows form a set of such pairs.
   */
  predicate LikeTable(likes: set<Like>, reviews: seq<Review>, nextReviewId: int)
  {
    && (forall l :: l in likes ==> l.reviewId < nextReviewId)
    && (forall i :: 0 <= i < |reviews| ==> LikeTotal(reviews[i]) == |LikesOf(likes, reviews[i].id)|)
  }

  // ---------- Table scans ----------

  /** A non-empty set has an element. */
  lemma HasElement(keys: set<int>)
    requires keys != {}
    ensures exists k :: k in keys
  {
    if forall k :: k !in keys {
      assert false;
    }
  }

  ghost function LeastKey(keys: set<int>): (k: int)
    requires keys != {}
    ensures k in keys && forall x :: x in keys ==> k <= x
    decreases |keys|
  {
    HasElement(keys);
    var y :| y in keys;
    if keys == {y} then y
    else
      var m := LeastKey(keys - {y});
      assert forall x :: x in keys ==> x == y || x in keys - {y};
      if y < m then y else m
  }

  /** The smallest key of a non-empty table. */
  function MinKey(keys: set<int>): (k: int)
    requires keys != {}
    ensures k in keys && forall x :: x in keys ==> k <= x
  {
    var least := LeastKey(keys);
    var k :| k in keys && forall x :: x in keys ==> k <= x;
    k
  }

  /**
   * The keys of a table in increasing order: the order in which a scan of
   * the primary-key index meets the rows when a query asks for no order.
   */
  function SortedKeys(keys: set<int>): (ks: seq<int>)
    ensures forall i :: 0 <= i < |ks| ==> ks[i] in keys
    ensures forall k :: k in keys ==> k in ks
    ensures forall i, j :: 0 <= i < j < |ks| ==> ks[i] < ks[j]
    decreases |keys|
  {
    if keys == {} then []
    else
      var k := MinKey(keys);
      [k] + SortedKeys(keys - {k})
  }

  /** `query(...).all()` over a whole table: its rows in key order. */
  function Rows<T>(table: map<int, T>): seq<T>
  {
    var ks := SortedKeys(table.Keys);
    seq(|ks|, i requires 0 <= i < |ks| => table[ks[i]])
  }

  /** The user and login-record tables of the database. */
  class AuthTables {
    var users: map<int, User>
    var logins: map<int, LoginRecord>
    var nextUserId: int
    var nextLoginId: int

    ghost predicate Valid()
      reads this
    {
      UserTable(users, nextUserId) && LoginTable(logins, users, nextLoginId)
    }

    constructor ()
      ensures Valid()
      ensures users == map[] && logins == map[]
    {
      users, logins := map[], map[];
      nextUserId, nextLoginId := 1, 1;
    }
  }

  /** The review, like and movie-rating tables of the database. */
  class ReviewTables {
    /** `Movies.id` to `Movies.rating`; movies are created outside the core. */
    var movies: map<int, real>
    /** `Reviews`, in key order. */
    var reviews: seq<Review>
    var likes: set<Like>
    var nextReviewId: int

    ghost predicate Valid()
      reads this
    {
      ReviewTable(reviews, nextReviewId) && LikeTable(likes, reviews, nextReviewId)
    }

    constructor (movies: map<int, real>)
      ensures Valid()
      ensures this.movies == movies && reviews == [] && likes == {}
    {
      this.movies := movies;
      reviews, likes := [], {};
      nextReviewId := 1;
    }
  }
}

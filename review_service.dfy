/**
 * The review operations of `app/services/user_reviews.py`: recomputing a
 * movie's rating, adding, updating and deleting a review, and liking one.
 * Each writes the review tables in place; a raised exception ends the call
 * before the commit, so an error leaves the tables as they were.
 */
module ReviewService {
  import opened Wrappers
  import opened Models

  // ---------- Sentiment ----------

  /**
   * `_sentiment_placeholder`: no score for a missing or empty comment,
   * otherwise whatever the keyword scorer `score` gives.
   */
  function Sentiment(score: string -> real, comment: Option<string>): (s: Option<real>)
    ensures s.None? <==> comment.None? || comment.value == ""
    ensures s.Some? ==> s.value == score(comment.value)
  {
    if comment.None? || comment.value == "" then None else Some(score(comment.value))
  }

  // ---------- Movie rating ----------

  /** The indices of the reviews of one movie. */
  ghost function ReviewsOf(reviews: seq<Review>, movieId: int): set<int>
  {
    set i | 0 <= i < |reviews| && reviews[i].movieId == movieId
  }

  /**
   * The ratings of one movie's reviews, in key order: one entry per review
   * of that movie, each that review's rating, and nothing else.
   */
  function RatingsOf(reviews: seq<Review>, movieId: int): (rs: seq<int>)
    ensures forall i :: 0 <= i < |reviews| && reviews[i].movieId == movieId ==> reviews[i].rating in rs
    ensures forall x :: x in rs ==> exists i :: 0 <= i < |reviews| && reviews[i].movieId == movieId && reviews[i].rating == x
    decreases |reviews|
  {
    if reviews == [] then []
    else
      var n := |reviews| - 1;
      var init := reviews[..n];
      var rest := RatingsOf(init, movieId);
      assert forall i :: 0 <= i < n ==> init[i] == reviews[i];
      if reviews[n].movieId == movieId then rest + [reviews[n].rating] else rest
  }

  /** There is exactly one rating per review of the movie. */
  lemma {:induction false} RatingsOfCount(reviews: seq<Review>, movieId: int)
    ensures |RatingsOf(reviews, movieId)| == |ReviewsOf(reviews, movieId)|
    decreases |reviews|
  {
    if reviews == [] {
      assert ReviewsOf(reviews, movieId) == {};
    } else {
      var n := |reviews| - 1;
      RatingsOfCount(reviews[..n], movieId);
      ReviewsOfLast(reviews, movieId);
    }
  }

  /** The reviews of a movie among a non-empty sequence: those before the last one, plus possibly the last. */
  lemma ReviewsOfLast(reviews: seq<Review>, movieId: int)
    requires reviews != []
    ensures var n := |reviews| - 1;
      && n !in ReviewsOf(reviews[..n], movieId)
      && ReviewsOf(reviews, movieId)
         == ReviewsOf(reviews[..n], movieId) + (if reviews[n].movieId == movieId then {n} else {})
  {
    var n := |reviews| - 1;
    var init := reviews[..n];
    assert forall i :: 0 <= i < n ==> init[i] == reviews[i];
  }

  /** The indices of the reviews of one movie that carry rating `x`. */
  ghost function RatedAs(reviews: seq<Review>, movieId: int, x: int): set<int>
  {
    set i | 0 <= i < |reviews| && reviews[i].movieId == movieId && reviews[i].rating == x
  }

  /**
   * Each value occurs in a movie's ratings exactly as often as there are
   * reviews of that movie with that rating, so the list is the movie's
   * ratings up to order and fixes their sum.
   */
  lemma {:induction false} RatingsOfOccurrences(reviews: seq<Review>, movieId: int, x: int)
    ensures multiset(RatingsOf(reviews, movieId))[x] == |RatedAs(reviews, movieId, x)|
    decreases |reviews|
  {
    if reviews == [] {
      assert RatedAs(reviews, movieId, x) == {};
    } else {
      var n := |reviews| - 1;
      RatingsOfOccurrences(reviews[..n], movieId, x);
      RatedAsLast(reviews, movieId, x);
    }
  }

  /** The reviews of a movie rated `x` among a non-empty sequence: those before the last one, plus possibly the last. */
  lemma RatedAsLast(reviews: seq<Review>, movieId: int, x: int)
    requires reviews != []
    ensures var n := |reviews| - 1;
      && n !in RatedAs(reviews[..n], movieId, x)
      && RatedAs(reviews, movieId, x)
         == RatedAs(reviews[..n], movieId, x)
            + (if reviews[n].movieId == movieId && reviews[n].rating == x then {n} else {})
  {
    var n := |reviews| - 1;
    var init := reviews[..n];
    assert forall i :: 0 <= i < n ==> init[i] == reviews[i];
  }

  function Sum(xs: seq<int>): int
  {
    if xs == [] then 0 else xs[0] + Sum(xs[1..])
  }

  /** The mean of a list of ratings, or 0.0 for none: a value that, times their number, gives their sum. */
  function Mean(rs: seq<int>): (a: real)
    ensures rs == [] ==> a == 0.0
    ensures rs != [] ==> a * |rs| as real == Sum(rs) as real
  {
    if |rs| == 0 then 0.0
    else
      MeanTimesCount(Sum(rs) as real, |rs| as real);
      Sum(rs) as real / |rs| as real
  }

  /** A mean times the count it was taken over gives back the total. */
  lemma MeanTimesCount(total: real, n: real)
    requires n != 0.0
    ensures (total / n) * n == total
  {
  }

  /** `func.avg(Reviews.rating)` over one movie, or 0.0 when it has no reviews. */
  function Average(reviews: seq<Review>, movieId: int): (a: real)
    ensures var rs := RatingsOf(reviews, movieId);
      && (rs == [] ==> a == 0.0)
      && (rs != [] ==> a * |rs| as real == Sum(rs) as real)
  {
    var rs := RatingsOf(reviews, movieId);
    var m := Mean(rs);
    assert rs != [] ==> m * |rs| as real == Sum(rs) as real;
    m
  }

  lemma {:induction false} SumBounds(xs: seq<int>)
    requires forall i :: 0 <= i < |xs| ==> 0 <= xs[i] <= 10
    ensures 0 <= Sum(xs) <= 10 * |xs|
  {
    if xs != [] {
      SumBounds(xs[1..]);
    }
  }

  lemma {:induction false} SumAppend(xs: seq<int>, x: int)
    ensures Sum(xs + [x]) == Sum(xs) + x
  {
    if xs != [] {
      assert (xs + [x])[1..] == xs[1..] + [x];
      SumAppend(xs[1..], x);
    }
  }

  /** With every stored rating in 0..10, as the check constraint ensures, a movie's rating is in 0..10. */
  lemma AverageInRange(reviews: seq<Review>, nextId: int, movieId: int)
    requires ReviewTable(reviews, nextId)
    ensures 0.0 <= Average(reviews, movieId) <= 10.0
  {
    var rs := RatingsOf(reviews, movieId);
    forall i | 0 <= i < |rs| ensures 0 <= rs[i] <= 10 {
      assert rs[i] in rs;
    }
    SumBounds(rs);
    if |rs| > 0 {
      MeanBound(Sum(rs) as real, |rs| as real);
    }
  }

  lemma MeanBound(total: real, n: real)
    requires n > 0.0 && 0.0 <= total <= 10.0 * n
    ensures 0.0 <= total / n <= 10.0
  {
  }

  lemma {:induction false} RatingsOfAppend(reviews: seq<Review>, r: Review, movieId: int)
    ensures RatingsOf(reviews + [r], movieId)
         == RatingsOf(reviews, movieId) + (if r.movieId == movieId then [r.rating] else [])
  {
    assert (reviews + [r])[..|reviews|] == reviews;
  }

  /**
   * Adding a review moves only its own movie's rating, to the mean of the
   * old ratings and the new one; every other movie keeps its rating.
   */
  lemma AverageAfterInsert(reviews: seq<Review>, r: Review, movieId: int)
    ensures movieId != r.movieId ==> Average(reviews + [r], movieId) == Average(reviews, movieId)
    ensures movieId == r.movieId ==>
      Average(reviews + [r], movieId)
        == (Sum(RatingsOf(reviews, movieId)) + r.rating) as real / (|RatingsOf(reviews, movieId)| + 1) as real
  {
    RatingsOfAppend(reviews, r, movieId);
    if movieId == r.movieId {
      var rs := RatingsOf(reviews, movieId);
      SumAppend(rs, r.rating);
      assert RatingsOf(reviews + [r], movieId) == rs + [r.rating];
      assert |rs + [r.rating]| == |rs| + 1;
    } else {
      assert RatingsOf(reviews, movieId) + [] == RatingsOf(reviews, movieId);
    }
  }

  /**
   * `recalc_movie_rating`: the value returned is the movie's mean rating
   * (0.0 with no reviews); it is written to the movie only when the movie
   * exists. Nothing else changes.
   */
  method RecalcMovieRating(db: ReviewTables, movieId: int) returns (avg: real)
    modifies db
    ensures avg == Average(db.reviews, movieId)
    ensures db.reviews == old(db.reviews) && db.likes == old(db.likes) && db.nextReviewId == old(db.nextReviewId)
    ensures movieId in old(db.movies) ==> db.movies == old(db.movies)[movieId := avg]
    ensures movieId !in old(db.movies) ==> db.movies == old(db.movies)
  {
    avg := Average(db.reviews, movieId);
    if movieId in db.movies {
      db.movies := db.movies[movieId := avg];
    }
  }

  // ---------- Adding ----------

  /** The user already has a review of this movie. */
  predicate HasReviewFor(reviews: seq<Review>, userId: int, movieId: int)
  {
    exists i :: 0 <= i < |reviews| && reviews[i].userId == userId && reviews[i].movieId == movieId
  }

  /**
   * The duplicate filter as written at line 37: Python's `and` applied to
   * two column comparisons yields the first one, so only `user_id` is
   * compared.
   */
  predicate HasReviewBy(reviews: seq<Review>, userId: int): (b: bool)
    ensures b <==> exists movieId :: HasReviewFor(reviews, userId, movieId)
  {
    if exists i :: 0 <= i < |reviews| && reviews[i].userId == userId then
      var i :| 0 <= i < |reviews| && reviews[i].userId == userId;
      assert HasReviewFor(reviews, userId, reviews[i].movieId);
      true
    else false
  }

  /** A new review by a user who may review this movie keeps the review and like tables' constraints. */
  lemma InsertKeepsTables(reviews: seq<Review>, likes: set<Like>, nextId: int, r: Review)
    requires ReviewTable(reviews, nextId) && LikeTable(likes, reviews, nextId)
    requires r.id == nextId && RatingInRange(r.rating) && r.likeCount.None?
    requires !HasReviewFor(reviews, r.userId, r.movieId)
    ensures ReviewTable(reviews + [r], nextId + 1) && LikeTable(likes, reviews + [r], nextId + 1)
  {
    var reviews' := reviews + [r];
    assert LikesOf(likes, r.id) == {} by {
      forall l | l in likes ensures l.reviewId != r.id {
      }
    }
    assert forall i :: 0 <= i < |reviews| ==> reviews'[i] == reviews[i];
  }

  /**
   * The corrected duplicate test is exactly the unique constraint on
   * (user, movie): a new row with a fresh key and a rating in range keeps
   * the review table's constraints if and only if the user has no review
   * of that movie.
   */
  lemma HasReviewForIffConflict(reviews: seq<Review>, nextId: int, r: Review)
    requires ReviewTable(reviews, nextId) && r.id == nextId && RatingInRange(r.rating)
    ensures ReviewTable(reviews + [r], nextId + 1) <==> !HasReviewFor(reviews, r.userId, r.movieId)
  {
    var reviews' := reviews + [r];
    if HasReviewFor(reviews, r.userId, r.movieId) {
      var i :| 0 <= i < |reviews| && reviews[i].userId == r.userId && reviews[i].movieId == r.movieId;
      assert reviews'[i] == reviews[i] && reviews'[|reviews|] == r;
    } else {
      assert forall i :: 0 <= i < |reviews| ==> reviews'[i] == reviews[i];
    }
  }

  /**
   * As written, a user who has reviewed movie 1 is refused for movie 2,
   * though the table would accept that row.
   */
  lemma AsWrittenRefusesSecondMovie()
    ensures var reviews := [Review(1, 1, 7, 8, None, 0, 0, None, None)];
      && HasReviewBy(reviews, 7)
      && !HasReviewFor(reviews, 7, 2)
      && ReviewTable(reviews + [Review(2, 2, 7, 8, None, 0, 0, None, None)], 3)
  {
    var reviews := [Review(1, 1, 7, 8, None, 0, 0, None, None)];
    assert reviews[0].userId == 7;
    HasReviewForIffConflict(reviews, 2, Review(2, 2, 7, 8, None, 0, 0, None, None));
  }

  /** Insert the review row (one commit), then recompute the movie's rating. */
  method StoreReview(db: ReviewTables, score: string -> real, userId: int, movieId: int, rating: int,
                     comment: Option<string>, now: int) returns (review: Review)
    requires db.Valid() && RatingInRange(rating) && !HasReviewFor(db.reviews, userId, movieId)
    requires movieId in db.movies
    modifies db
    ensures db.Valid()
    ensures review == Review(old(db.nextReviewId), movieId, userId, rating, comment, now, now, None,
                             Sentiment(score, comment))
    ensures db.reviews == old(db.reviews) + [review] && db.likes == old(db.likes)
    ensures db.movies == old(db.movies)[movieId := Average(db.reviews, movieId)]
    ensures db.nextReviewId == old(db.nextReviewId) + 1
  {
    review := Review(db.nextReviewId, movieId, userId, rating, comment, now, now, None, Sentiment(score, comment));
    InsertKeepsTables(db.reviews, db.likes, db.nextReviewId, review);
    db.reviews := db.reviews + [review];
    db.nextReviewId := db.nextReviewId + 1;
    var _ := RecalcMovieRating(db, movieId);
  }

  /**
   * `add_review` as written: an unknown movie is a 404; a user with any
   * review at all is a 400; a rating outside 0..10 is refused by the check
   * constraint. Otherwise one review is added and the movie's rating is
   * recomputed.
   */
  method AddReviewAsWritten(db: ReviewTables, score: string -> real, userId: int, movieId: int, rating: int,
                            comment: Option<string>, now: int) returns (r: Result<Review, Failure>)
    requires db.Valid()
    modifies db
    ensures db.Valid()
    ensures movieId !in old(db.movies) ==> r == Err(HttpError(404, "Movie not found"))
    ensures movieId in old(db.movies) && HasReviewBy(old(db.reviews), userId) ==>
      r == Err(HttpError(400, "You already reviewed this movie"))
    ensures movieId in old(db.movies) && !HasReviewBy(old(db.reviews), userId) ==>
      if RatingInRange(rating) then r.Ok? else r == Err(ServerError(IntegrityError))
    ensures r.Err? ==> db.reviews == old(db.reviews) && db.movies == old(db.movies) && db.likes == old(db.likes)
                       && db.nextReviewId == old(db.nextReviewId)
    ensures r.Ok? ==>
      && r.value == Review(old(db.nextReviewId), movieId, userId, rating, comment, now, now, None,
                           Sentiment(score, comment))
      && db.reviews == old(db.reviews) + [r.value] && db.likes == old(db.likes)
      && db.movies == old(db.movies)[movieId := Average(db.reviews, movieId)]
      && db.nextReviewId == old(db.nextReviewId) + 1
  {
    if movieId !in db.movies {
      return Err(HttpError(404, "Movie not found"));
    }
    if HasReviewBy(db.reviews, userId) {
      return Err(HttpError(400, "You already reviewed this movie"));
    }
    if !RatingInRange(rating) {
      return Err(ServerError(IntegrityError));
    }
    assert !HasReviewFor(db.reviews, userId, movieId);
    var review := StoreReview(db, score, userId, movieId, rating, comment, now);
    r := Ok(review);
  }

  /**
   * `add_review` with the duplicate filter the unique constraint calls
   * for: only a review of the same movie by the same user is a 400.
   */
  method AddReview(db: ReviewTables, score: string -> real, userId: int, movieId: int, rating: int,
                   comment: Option<string>, now: int) returns (r: Result<Review, Failure>)
    requires db.Valid()
    modifies db
    ensures db.Valid()
    ensures movieId !in old(db.movies) ==> r == Err(HttpError(404, "Movie not found"))
    ensures movieId in old(db.movies) && HasReviewFor(old(db.reviews), userId, movieId) ==>
      r == Err(HttpError(400, "You already reviewed this movie"))
    ensures movieId in old(db.movies) && !HasReviewFor(old(db.reviews), userId, movieId) ==>
      if RatingInRange(rating) then r.Ok? else r == Err(ServerError(IntegrityError))
    ensures r.Err? ==> db.reviews == old(db.reviews) && db.movies == old(db.movies) && db.likes == old(db.likes)
                       && db.nextReviewId == old(db.nextReviewId)
    ensures r.Ok? ==>
      && r.value == Review(old(db.nextReviewId), movieId, userId, rating, comment, now, now, None,
                           Sentiment(score, comment))
      && db.reviews == old(db.reviews) + [r.value] && db.likes == old(db.likes)
      && db.movies == old(db.movies)[movieId := Average(db.reviews, movieId)]
      && db.nextReviewId == old(db.nextReviewId) + 1
  {
    if movieId !in db.movies {
      return Err(HttpError(404, "Movie not found"));
    }
    if HasReviewFor(db.reviews, userId, movieId) {
      return Err(HttpError(400, "You already reviewed this movie"));
    }
    if !RatingInRange(rating) {
      return Err(ServerError(IntegrityError));
    }
    var review := StoreReview(db, score, userId, movieId, rating, comment, now);
    r := Ok(review);
  }

  // ---------- Updating and deleting ----------

  /** The review with this key exists and belongs to this user. */
  predicate Owns(reviews: seq<Review>, reviewId: int, userId: int)
  {
    exists i :: 0 <= i < |reviews| && reviews[i].id == reviewId && reviews[i].userId == userId
  }

  /** Changing a row's rating (within range), comment, sentiment or timestamps keeps the tables' constraints. */
  lemma ReplaceKeepsTables(reviews: seq<Review>, likes: set<Like>, nextId: int, i: int, r: Review)
    requires ReviewTable(reviews, nextId) && LikeTable(likes, reviews, nextId) && 0 <= i < |reviews|
    requires r.id == reviews[i].id && r.userId == reviews[i].userId && r.movieId == reviews[i].movieId
    requires RatingInRange(r.rating) && r.likeCount == reviews[i].likeCount
    ensures ReviewTable(reviews[i := r], nextId) && LikeTable(likes, reviews[i := r], nextId)
  {
  }

  /**
   * `update_review`: only a review with this key and this owner is found,
   * otherwise 404. A `None` rating keeps the rating; a `None` comment keeps
   * the comment and its sentiment. A rating outside 0..10 is refused by the
   * check constraint. The row's `updated_at` moves only when a column
   * changes. The movie's rating is then recomputed.
   */
  method UpdateReview(db: ReviewTables, score: string -> real, reviewId: int, userId: int,
                      rating: Option<int>, comment: Option<string>, now: int) returns (r: Result<Review, Failure>)
    requires db.Valid()
    modifies db
    ensures db.Valid()
    ensures db.nextReviewId == old(db.nextReviewId)
    ensures !Owns(old(db.reviews), reviewId, userId) ==> r == Err(HttpError(404, "Review not found"))
    ensures Owns(old(db.reviews), reviewId, userId) ==>
      if rating.None? || RatingInRange(rating.value) then r.Ok? else r == Err(ServerError(IntegrityError))
    ensures r.Err? ==> db.reviews == old(db.reviews) && db.movies == old(db.movies) && db.likes == old(db.likes)
    ensures r.Ok? ==>
      exists i :: 0 <= i < |old(db.reviews)| && old(db.reviews)[i].id == reviewId && (
        var before := old(db.reviews)[i];
        && before.userId == userId
        && r.value.id == reviewId && r.value.userId == userId && r.value.movieId == before.movieId
        && r.value.rating == (if rating.Some? then rating.value else before.rating)
        && r.value.comment == (if comment.Some? then comment else before.comment)
        && r.value.sentimentScore == (if comment.Some? then Sentiment(score, comment) else before.sentimentScore)
        && r.value.likeCount == before.likeCount && r.value.createdAt == before.createdAt
        && r.value.updatedAt == (if r.value.(updatedAt := before.updatedAt) == before then before.updatedAt else now)
        && db.reviews == old(db.reviews)[i := r.value]
        && db.movies == (if before.movieId in old(db.movies)
                         then old(db.movies)[before.movieId := Average(db.reviews, before.movieId)]
                         else old(db.movies)))
    ensures db.likes == old(db.likes)
  {
    if !Owns(db.reviews, reviewId, userId) {
      return Err(HttpError(404, "Review not found"));
    }
    var i :| 0 <= i < |db.reviews| && db.reviews[i].id == reviewId && db.reviews[i].userId == userId;
    var before := db.reviews[i];
    var after := before;
    if rating.Some? {
      after := after.(rating := rating.value);
    }
    if comment.Some? {
      after := after.(comment := comment, sentimentScore := Sentiment(score, comment));
    }
    if !RatingInRange(after.rating) {
      return Err(ServerError(IntegrityError));
    }
    if after != before {
      after := after.(updatedAt := now);
    }
    ReplaceKeepsTables(db.reviews, db.likes, db.nextReviewId, i, after);
    db.reviews := db.reviews[i := after];
    var _ := RecalcMovieRating(db, after.movieId);
    r := Ok(after);
  }

  /** Removing a row keeps the tables' constraints; its like rows stay, matching no remaining review. */
  lemma RemoveKeepsTables(reviews: seq<Review>, likes: set<Like>, nextId: int, i: int)
    requires ReviewTable(reviews, nextId) && LikeTable(likes, reviews, nextId) && 0 <= i < |reviews|
    ensures ReviewTable(reviews[..i] + reviews[i + 1..], nextId)
    ensures LikeTable(likes, reviews[..i] + reviews[i + 1..], nextId)
  {
    var rest := reviews[..i] + reviews[i + 1..];
    assert forall k :: 0 <= k < |rest| ==> rest[k] == if k < i then reviews[k] else reviews[k + 1];
  }

  /**
   * `delete_review`: only a review with this key and this owner is found,
   * otherwise 404. That one row is removed and the movie's rating
   * recomputed; like rows are not touched (the like table has no foreign
   * key).
   */
  method DeleteReview(db: ReviewTables, reviewId: int, userId: int) returns (r: Result<bool, Failure>)
    requires db.Valid()
    modifies db
    ensures db.Valid()
    ensures db.likes == old(db.likes)
    ensures db.nextReviewId == old(db.nextReviewId)
    ensures !Owns(old(db.reviews), reviewId, userId) ==>
      r == Err(HttpError(404, "Review not found")) && db.reviews == old(db.reviews) && db.movies == old(db.movies)
    ensures Owns(old(db.reviews), reviewId, userId) ==> r == Ok(true)
    ensures r.Ok? ==>
      exists i :: 0 <= i < |old(db.reviews)| && old(db.reviews)[i].id == reviewId && (
        var movieId := old(db.reviews)[i].movieId;
        && old(db.reviews)[i].userId == userId
        && db.reviews == old(db.reviews)[..i] + old(db.reviews)[i + 1..]
        && db.movies == (if movieId in old(db.movies) then old(db.movies)[movieId := Average(db.reviews, movieId)]
                         else old(db.movies)))
  {
    if !Owns(db.reviews, reviewId, userId) {
      return Err(HttpError(404, "Review not found"));
    }
    var i :| 0 <= i < |db.reviews| && db.reviews[i].id == reviewId && db.reviews[i].userId == userId;
    var movieId := db.reviews[i].movieId;
    RemoveKeepsTables(db.reviews, db.likes, db.nextReviewId, i);
    db.reviews := db.reviews[..i] + db.reviews[i + 1..];
    var _ := RecalcMovieRating(db, movieId);
    r := Ok(true);
  }

  // ---------- Liking ----------

  /** The body of `like_review`. */
  datatype LikeOutcome = LikeOutcome(message: string, likeCount: Option<int>)

  /** A review with this key exists. */
  predicate Exists(reviews: seq<Review>, reviewId: int)
  {
    exists i :: 0 <= i < |reviews| && reviews[i].id == reviewId
  }

  /** Adding a new like row and bumping that review's counter keeps the tables' constraints. */
  lemma LikeKeepsTables(reviews: seq<Review>, likes: set<Like>, nextId: int, i: int, like: Like, now: int)
    requires ReviewTable(reviews, nextId) && LikeTable(likes, reviews, nextId) && 0 <= i < |reviews|
    requires like.reviewId == reviews[i].id && like !in likes
    ensures var bumped := reviews[i].(likeCount := Some(LikeTotal(reviews[i]) + 1), updatedAt := now);
      ReviewTable(reviews[i := bumped], nextId) && LikeTable(likes + {like}, reviews[i := bumped], nextId)
  {
    var bumped := reviews[i].(likeCount := Some(LikeTotal(reviews[i]) + 1), updatedAt := now);
    var reviews' := reviews[i := bumped];
    var likes' := likes + {like};
    assert LikesOf(likes', like.reviewId) == LikesOf(likes, like.reviewId) + {like};
    forall k | 0 <= k < |reviews'| ensures LikeTotal(reviews'[k]) == |LikesOf(likes', reviews'[k].id)| {
      if k != i {
        assert reviews[k].id != like.reviewId;
        assert LikesOf(likes', reviews[k].id) == LikesOf(likes, reviews[k].id);
      }
    }
  }

  /** The counter of the review with key `reviewId`, from the like rows. */
  lemma CountOfLiked(reviews: seq<Review>, likes: set<Like>, nextId: int, i: int, like: Like)
    requires LikeTable(likes, reviews, nextId) && 0 <= i < |reviews| && like in likes && like.reviewId == reviews[i].id
    ensures reviews[i].likeCount == Some(|LikesOf(likes, reviews[i].id)|)
  {
    assert like in LikesOf(likes, reviews[i].id);
  }

  /**
   * `like_review`: an unknown review is a 404. A user who already liked it
   * gets "Already liked" and nothing changes, so liking is idempotent.
   * Otherwise one like row is added and the counter goes up by exactly one
   * (a null counter counting as 0). Either way the reported count is the
   * number of like rows of that review.
   */
  method LikeReview(db: ReviewTables, reviewId: int, userId: int, now: int) returns (r: Result<LikeOutcome, Failure>)
    requires db.Valid()
    modifies db
    ensures db.Valid()
    ensures db.movies == old(db.movies)
    ensures db.nextReviewId == old(db.nextReviewId)
    ensures !Exists(old(db.reviews), reviewId) ==> r == Err(HttpError(404, "Review not found"))
    ensures r.Err? ==> db.reviews == old(db.reviews) && db.likes == old(db.likes)
    ensures Exists(old(db.reviews), reviewId) && Like(reviewId, userId) in old(db.likes) ==>
      r.Ok? && r.value.message == "Already liked" && db.reviews == old(db.reviews) && db.likes == old(db.likes)
    ensures Exists(old(db.reviews), reviewId) && Like(reviewId, userId) !in old(db.likes) ==>
      && r.Ok? && r.value.message == "Review liked"
      && db.likes == old(db.likes) + {Like(reviewId, userId)}
      && exists i :: 0 <= i < |old(db.reviews)| && old(db.reviews)[i].id == reviewId &&
           db.reviews == old(db.reviews)[i := old(db.reviews)[i].(likeCount := Some(LikeTotal(old(db.reviews)[i]) + 1),
                                                                updatedAt := now)]
    ensures r.Ok? ==> Like(reviewId, userId) in db.likes && r.value.likeCount == Some(|LikesOf(db.likes, reviewId)|)
  {
    if !Exists(db.reviews, reviewId) {
      return Err(HttpError(404, "Review not found"));
    }
    var i :| 0 <= i < |db.reviews| && db.reviews[i].id == reviewId;
    var review := db.reviews[i];
    var like := Like(reviewId, userId);
    if like in db.likes {
      CountOfLiked(db.reviews, db.likes, db.nextReviewId, i, like);
      return Ok(LikeOutcome("Already liked", review.likeCount));
    }
    var count := LikeTotal(review) + 1;
    LikeKeepsTables(db.reviews, db.likes, db.nextReviewId, i, like, now);
    db.likes := db.likes + {like};
    db.reviews := db.reviews[i := review.(likeCount := Some(count), updatedAt := now)];
    CountOfLiked(db.reviews, db.likes, db.nextReviewId, i, like);
    r := Ok(LikeOutcome("Review liked", Some(count)));
  }
}

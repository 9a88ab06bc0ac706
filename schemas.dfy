/**
 * The request and response shapes of the review endpoints
 * (`app/schemas/reviews.py`): the field bounds the framework enforces
 * before a service function is called, and the page envelope.
 */
module Schemas {
  import opened Wrappers
  import opened Text
  import opened Models

  const MaxCommentLength := 2000

  /** A comment as the schema delivers it: stripped of surrounding whitespace and at most 2000 characters. */
  predicate CommentValid(comment: Option<string>)
  {
    comment.None? || (Strip(comment.value) == comment.value && |comment.value| <= MaxCommentLength)
  }

  /** `ReviewCreate`, after validation. */
  datatype ReviewCreate = ReviewCreate(movieId: int, rating: int, comment: Option<string>)

  /** `ReviewUpdate`, after validation; an absent field is `None`. */
  datatype ReviewUpdate = ReviewUpdate(rating: Option<int>, comment: Option<string>)

  /** `PaginatedReviews`: what `list_reviews_by_movie` returns. */
  datatype PaginatedReviews = PaginatedReviews(total: int, page: int, size: int, reviews: seq<Review>)

  predicate CreateValid(c: ReviewCreate)
  {
    RatingInRange(c.rating) && CommentValid(c.comment)
  }

  predicate UpdateValid(u: ReviewUpdate)
  {
    (u.rating.None? || RatingInRange(u.rating.value)) && CommentValid(u.comment)
  }

  /**
   * `constr(strip_whitespace=True, max_length=2000)` on an optional field:
   * strip first, then check the length of what remains.
   */
  function ParseComment(raw: Option<string>): (r: Option<Option<string>>)
    ensures r.Some? <==> raw.None? || |Strip(raw.value)| <= MaxCommentLength
    ensures r.Some? ==> CommentValid(r.value)
    ensures r.Some? && raw.Some? ==> r.value == Some(Strip(raw.value))
  {
    if raw.None? then Some(None)
    else
      var s := Strip(raw.value);
      StripIdempotent(raw.value);
      if |s| <= MaxCommentLength then Some(Some(s)) else None
  }

  /** Validating a `ReviewCreate` body: `rating` in 0..10, the comment as above. */
  function ParseReviewCreate(movieId: int, rating: int, comment: Option<string>): (r: Option<ReviewCreate>)
    ensures r.Some? <==> RatingInRange(rating) && ParseComment(comment).Some?
    ensures r.Some? ==> CreateValid(r.value) && r.value.movieId == movieId && r.value.rating == rating
    ensures r.Some? ==> r.value.comment == (if comment.None? then None else Some(Strip(comment.value)))
  {
    var c := ParseComment(comment);
    if RatingInRange(rating) && c.Some? then Some(ReviewCreate(movieId, rating, c.value)) else None
  }

  /** Validating a `ReviewUpdate` body: both fields optional, same bounds when present. */
  function ParseReviewUpdate(rating: Option<int>, comment: Option<string>): (r: Option<ReviewUpdate>)
    ensures r.Some? <==> (rating.None? || RatingInRange(rating.value)) && ParseComment(comment).Some?
    ensures r.Some? ==> UpdateValid(r.value) && r.value.rating == rating
    ensures r.Some? ==> r.value.comment == (if comment.None? then None else Some(Strip(comment.value)))
  {
    var c := ParseComment(comment);
    if (rating.None? || RatingInRange(rating.value)) && c.Some? then Some(ReviewUpdate(rating, c.value)) else None
  }

  /** A body that already satisfies the bounds passes validation unchanged. */
  lemma ParseReviewCreateAccepts(c: ReviewCreate)
    requires CreateValid(c)
    ensures ParseReviewCreate(c.movieId, c.rating, c.comment) == Some(c)
  {
    assert ParseComment(c.comment) == Some(c.comment);
  }

  /** Validating twice is the same as validating once. */
  lemma ParseReviewUpdateIdempotent(rating: Option<int>, comment: Option<string>)
    requires ParseReviewUpdate(rating, comment).Some?
    ensures var u := ParseReviewUpdate(rating, comment).value;
      ParseReviewUpdate(u.rating, u.comment) == Some(u)
  {
  }
}

/**
 * `list_reviews_by_movie` (`app/services/user_reviews.py`): filter the
 * reviews of one movie, count them, order them by a named column and
 * return one page. The database's ORDER BY is modelled as a stable
 * insertion sort over the rows in key order, specified by sortedness and
 * permutation.
 */
module ReviewListing {
  import opened Wrappers
  import opened Text
  import opened Models
  import opened Schemas

  // ---------- Filtering ----------

  /**
   * The query's WHERE clause: the movie always; `rating >= ratingFrom`
   * unless `ratingFrom` is falsy (0.0); `user_id == userId` unless `userId`
   * is falsy (None or 0).
   */
  predicate Matches(review: Review, movieId: int, ratingFrom: real, userId: Option<int>)
  {
    && review.movieId == movieId
    && (ratingFrom == 0.0 || review.rating as real >= ratingFrom)
    && (userId.None? || userId.value == 0 || review.userId == userId.value)
  }

  /** The matching rows, in key order. */
  function Where(reviews: seq<Review>, movieId: int, ratingFrom: real, userId: Option<int>): (rows: seq<Review>)
    ensures |rows| <= |reviews|
    ensures forall r :: r in rows <==> r in reviews && Matches(r, movieId, ratingFrom, userId)
    ensures multiset(rows) <= multiset(reviews)
  {
    if reviews == [] then []
    else
      var rest := Where(reviews[1..], movieId, ratingFrom, userId);
      assert reviews == [reviews[0]] + reviews[1..];
      if Matches(reviews[0], movieId, ratingFrom, userId) then [reviews[0]] + rest else rest
  }

  /** With both optional filters falsy, the query keeps exactly the movie's reviews. */
  lemma {:induction false} FalsyFiltersSkipped(reviews: seq<Review>, movieId: int, userId: Option<int>)
    requires userId.None? || userId.value == 0
    ensures Where(reviews, movieId, 0.0, userId) == Where(reviews, movieId, 0.0, None)
    ensures forall r :: r in Where(reviews, movieId, 0.0, userId) <==> r in reviews && r.movieId == movieId
  {
    if reviews != [] {
      FalsyFiltersSkipped(reviews[1..], movieId, userId);
    }
  }

  // ---------- Ordering ----------

  /** The columns a page can be ordered by. */
  datatype Column = Id | MovieId | UserId | Rating | Comment | CreatedAt | UpdatedAt | LikeCount | SentimentScore

  /**
   * `"helpful"` orders by `like_count`; a column attribute name orders by
   * that column; anything else falls back to `created_at`.
   */
  function SortColumn(sort: string): (c: Column)
    ensures sort == "helpful" ==> c == LikeCount
    ensures sort == "created_at" ==> c == CreatedAt
    ensures sort == "like_count" ==> c == LikeCount
    ensures c == Id <==> sort == "id"
    ensures c == Rating <==> sort == "rating"
    ensures c == Comment <==> sort == "comment"
    ensures c == MovieId <==> sort == "movie_id"
    ensures c == UserId <==> sort == "user_id"
    ensures c == UpdatedAt <==> sort == "updated_at"
    ensures c == SentimentScore <==> sort == "sentiment_score"
    ensures (sort !in {"helpful", "id", "movie_id", "user_id", "rating", "comment", "created_at",
                       "updated_at", "like_count", "sentiment_score"}) ==> c == CreatedAt
  {
    if sort == "helpful" then LikeCount
    else if sort == "id" then Id
    else if sort == "movie_id" then MovieId
    else if sort == "user_id" then UserId
    else if sort == "rating" then Rating
    else if sort == "comment" then Comment
    else if sort == "updated_at" then UpdatedAt
    else if sort == "like_count" then LikeCount
    else if sort == "sentiment_score" then SentimentScore
    else CreatedAt
  }

  /** A column value as the database compares it; NULL sorts first. */
  datatype SortValue = Null | Num(n: real) | Text(t: string)

  /** The value `column` holds in row `r`; the nullable columns give NULL when unset. */
  function KeyOf(column: Column, r: Review): SortValue
  {
    match column
    case Id => Num(r.id as real)
    case MovieId => Num(r.movieId as real)
    case UserId => Num(r.userId as real)
    case Rating => Num(r.rating as real)
    case Comment => if r.comment.Some? then Text(r.comment.value) else Null
    case CreatedAt => Num(r.createdAt as real)
    case UpdatedAt => Num(r.updatedAt as real)
    case LikeCount => if r.likeCount.Some? then Num(r.likeCount.value as real) else Null
    case SentimentScore => if r.sentimentScore.Some? then Num(r.sentimentScore.value) else Null
  }

  /** Lexicographic order on code points. */
  predicate TextLe(a: string, b: string)
  {
    a == [] || (b != [] && (a[0] < b[0] || (a[0] == b[0] && TextLe(a[1..], b[1..]))))
  }

  lemma {:induction false} TextLeTotal(a: string, b: string)
    ensures TextLe(a, b) || TextLe(b, a)
  {
    if a != [] && b != [] && a[0] == b[0] {
      TextLeTotal(a[1..], b[1..]);
    }
  }

  lemma {:induction false} TextLeTransitive(a: string, b: string, c: string)
    requires TextLe(a, b) && TextLe(b, c)
    ensures TextLe(a, c)
  {
    if a != [] && a[0] == b[0] && b[0] == c[0] {
      TextLeTransitive(a[1..], b[1..], c[1..]);
    }
  }

  /** MySQL's ascending order on one column's values: NULL first, numbers by value, text by code point. */
  predicate ValueLe(a: SortValue, b: SortValue)
  {
    match (a, b)
    case (Null, _) => true
    case (_, Null) => false
    case (Num(x), Num(y)) => x <= y
    case (Num(_), Text(_)) => true
    case (Text(_), Num(_)) => false
    case (Text(x), Text(y)) => TextLe(x, y)
  }

  lemma ValueLeTotal(a: SortValue, b: SortValue)
    ensures ValueLe(a, b) || ValueLe(b, a)
  {
    if a.Text? && b.Text? {
      TextLeTotal(a.t, b.t);
    }
  }

  lemma ValueLeTransitive(a: SortValue, b: SortValue, c: SortValue)
    requires ValueLe(a, b) && ValueLe(b, c)
    ensures ValueLe(a, c)
  {
    if a.Text? && b.Text? && c.Text? {
      TextLeTransitive(a.t, b.t, c.t);
    }
  }

  /** `x` may come before `y` under ORDER BY `column` (DESC when `descending`). */
  predicate Before(column: Column, descending: bool, x: Review, y: Review)
  {
    if descending then ValueLe(KeyOf(column, y), KeyOf(column, x)) else ValueLe(KeyOf(column, x), KeyOf(column, y))
  }

  lemma BeforeTotal(column: Column, descending: bool, x: Review, y: Review)
    ensures Before(column, descending, x, y) || Before(column, descending, y, x)
  {
    ValueLeTotal(KeyOf(column, x), KeyOf(column, y));
  }

  lemma BeforeTransitive(column: Column, descending: bool, x: Review, y: Review, z: Review)
    requires Before(column, descending, x, y) && Before(column, descending, y, z)
    ensures Before(column, descending, x, z)
  {
    if descending {
      ValueLeTransitive(KeyOf(column, z), KeyOf(column, y), KeyOf(column, x));
    } else {
      ValueLeTransitive(KeyOf(column, x), KeyOf(column, y), KeyOf(column, z));
    }
  }

  predicate Sorted(rows: seq<Review>, column: Column, descending: bool)
  {
    forall i, j :: 0 <= i < j < |rows| ==> Before(column, descending, rows[i], rows[j])
  }

  /** Place `x` after every row that must come before it. */
  function Insert(x: Review, rows: seq<Review>, column: Column, descending: bool): (out: seq<Review>)
    ensures multiset(out) == multiset(rows) + multiset{x}
    ensures Sorted(rows, column, descending) ==> Sorted(out, column, descending)
  {
    if rows == [] then [x]
    else if Before(column, descending, x, rows[0]) then
      assert Sorted(rows, column, descending) ==> Sorted([x] + rows, column, descending) by {
        if Sorted(rows, column, descending) {
          SortedPrepend(x, rows, column, descending);
        }
      }
      [x] + rows
    else
      var rest := Insert(x, rows[1..], column, descending);
      assert rows == [rows[0]] + rows[1..];
      BeforeTotal(column, descending, x, rows[0]);
      assert Sorted(rows, column, descending) ==> Sorted([rows[0]] + rest, column, descending) by {
        if Sorted(rows, column, descending) {
          SortedAfterHead(x, rows, rest, column, descending);
        }
      }
      [rows[0]] + rest
  }

  /** A row that may precede the head of a sorted sequence may precede all of it. */
  lemma SortedPrepend(x: Review, rows: seq<Review>, column: Column, descending: bool)
    requires rows != [] && Sorted(rows, column, descending) && Before(column, descending, x, rows[0])
    ensures Sorted([x] + rows, column, descending)
  {
    forall i | 0 < i < |rows| ensures Before(column, descending, x, rows[i]) {
      BeforeTransitive(column, descending, x, rows[0], rows[i]);
    }
  }

  /**
   * The head of a sorted sequence may precede the tail with `x` inserted,
   * when it may precede `x`.
   */
  lemma SortedAfterHead(x: Review, rows: seq<Review>, rest: seq<Review>, column: Column, descending: bool)
    requires rows != [] && Sorted(rows, column, descending) && Before(column, descending, rows[0], x)
    requires multiset(rest) == multiset(rows[1..]) + multiset{x} && Sorted(rest, column, descending)
    ensures Sorted([rows[0]] + rest, column, descending)
  {
    forall j | 0 <= j < |rest| ensures Before(column, descending, rows[0], rest[j]) {
      assert rest[j] in multiset(rest);
      if rest[j] != x {
        assert rest[j] in multiset(rows[1..]);
        var k :| 0 <= k < |rows[1..]| && rows[1..][k] == rest[j];
        assert rows[k + 1] == rest[j];
      }
    }
  }

  /** ORDER BY `column`, ascending or descending: the same rows, sorted. */
  function OrderBy(rows: seq<Review>, column: Column, descending: bool): (out: seq<Review>)
    ensures multiset(out) == multiset(rows)
    ensures Sorted(out, column, descending)
  {
    if rows == [] then []
    else
      assert rows == [rows[0]] + rows[1..];
      Insert(rows[0], OrderBy(rows[1..], column, descending), column, descending)
  }

  // ---------- Paging ----------

  /** The first row of page `page`, as OFFSET `(page - 1) * size`. */
  function Offset(page: int, size: int): int
  {
    (page - 1) * size
  }

  lemma NextOffset(page: int, size: int)
    ensures Offset(page + 1, size) == Offset(page, size) + size
  {
  }

  function Min(a: int, b: int): int
  {
    if a <= b then a else b
  }

  /** OFFSET `lo` LIMIT `size` over rows already filtered and ordered. */
  function Window(rows: seq<Review>, lo: int, size: int): (w: seq<Review>)
    requires lo >= 0 && size >= 0
    ensures |w| == (if lo <= |rows| then Min(size, |rows| - lo) else 0)
    ensures forall k :: 0 <= k < |w| ==> w[k] == rows[lo + k]
  {
    if lo <= |rows| then rows[lo..Min(lo + size, |rows|)] else []
  }

  /**
   * The whole query: a negative OFFSET or LIMIT is refused by the database;
   * otherwise `total` counts the filtered rows before paging, and the page
   * is the slice of the ordered rows starting at the offset, at most `size`
   * long. The order direction is DESC exactly when `order.lower()` is
   * `"desc"`.
   */
  function ListReviewsByMovie(reviews: seq<Review>, movieId: int, page: int, size: int, ratingFrom: real,
                              userId: Option<int>, sort: string, order: string): (r: Result<PaginatedReviews, Failure>)
    ensures r.Err? <==> Offset(page, size) < 0 || size < 0
    ensures r.Err? ==> r.error == ServerError(InvalidQuery)
    ensures r.Ok? ==>
      var rows := Where(reviews, movieId, ratingFrom, userId);
      && r.value.total == |rows|
      && r.value.page == page && r.value.size == size
      && r.value.reviews == Window(OrderBy(rows, SortColumn(sort), Lower(order) == "desc"), Offset(page, size), size)
      && |r.value.reviews| <= size
      && (forall x :: x in r.value.reviews ==> x in reviews && Matches(x, movieId, ratingFrom, userId))
  {
    var lo := Offset(page, size);
    if lo < 0 || size < 0 then Err(ServerError(InvalidQuery))
    else
      var rows := Where(reviews, movieId, ratingFrom, userId);
      var ordered := OrderBy(rows, SortColumn(sort), Lower(order) == "desc");
      var w := Window(ordered, lo, size);
      assert forall x :: x in w ==> x in rows by {
        forall x | x in w ensures x in rows {
          assert x in multiset(ordered);
        }
      }
      Ok(PaginatedReviews(|rows|, page, size, w))
  }

  /** Adjacent windows of the same size join into one window of twice the size. */
  lemma AdjacentWindows(rows: seq<Review>, lo: int, size: int)
    requires 0 <= lo <= |rows| && size >= 0
    ensures Window(rows, lo, size) + Window(rows, lo + size, size) == rows[lo..Min(lo + 2 * size, |rows|)]
  {
    var mid := Min(lo + size, |rows|);
    var hi := Min(lo + 2 * size, |rows|);
    if lo + size > |rows| {
      assert Window(rows, lo + size, size) == [];
    } else {
      assert Window(rows, lo + size, size) == rows[mid..hi];
    }
    assert rows[lo..mid] + rows[mid..hi] == rows[lo..hi];
  }

  lemma OffsetNonNegative(page: int, size: int)
    requires page >= 1 && size >= 0
    ensures Offset(page, size) >= 0
  {
    assert (page - 1) * size >= 0 by {
      if size > 0 {
        assert (page - 1) * size >= 0 * size;
      }
    }
  }

  /** The filtered rows in the order the query asks for. */
  function OrderedRows(reviews: seq<Review>, movieId: int, ratingFrom: real, userId: Option<int>,
                       sort: string, order: string): seq<Review>
  {
    OrderBy(Where(reviews, movieId, ratingFrom, userId), SortColumn(sort), Lower(order) == "desc")
  }

  /** For a page number from 1 on and a non-negative size, the query succeeds and returns that window. */
  lemma PageWindow(reviews: seq<Review>, movieId: int, page: int, size: int, ratingFrom: real,
                   userId: Option<int>, sort: string, order: string)
    requires page >= 1 && size >= 0
    ensures Offset(page, size) >= 0
    ensures ListReviewsByMovie(reviews, movieId, page, size, ratingFrom, userId, sort, order)
      == Ok(PaginatedReviews(|Where(reviews, movieId, ratingFrom, userId)|, page, size,
              Window(OrderedRows(reviews, movieId, ratingFrom, userId, sort, order), Offset(page, size), size)))
  {
    OffsetNonNegative(page, size);
  }

  /** Two consecutive pages together are the ordered rows from the first page's offset on, `2 * size` of them at most. */
  lemma ConsecutivePages(reviews: seq<Review>, movieId: int, page: int, size: int, ratingFrom: real,
                         userId: Option<int>, sort: string, order: string, ordered: seq<Review>)
    requires page >= 1 && size >= 0
    requires ordered == OrderedRows(reviews, movieId, ratingFrom, userId, sort, order)
    requires Offset(page, size) <= |ordered|
    ensures ListReviewsByMovie(reviews, movieId, page, size, ratingFrom, userId, sort, order).Ok?
    ensures ListReviewsByMovie(reviews, movieId, page + 1, size, ratingFrom, userId, sort, order).Ok?
    ensures ListReviewsByMovie(reviews, movieId, page, size, ratingFrom, userId, sort, order).value.reviews
          + ListReviewsByMovie(reviews, movieId, page + 1, size, ratingFrom, userId, sort, order).value.reviews
          == ordered[Offset(page, size)..Min(Offset(page, size) + 2 * size, |ordered|)]
  {
    PageWindow(reviews, movieId, page, size, ratingFrom, userId, sort, order);
    PageWindow(reviews, movieId, page + 1, size, ratingFrom, userId, sort, order);
    NextOffset(page, size);
    AdjacentWindows(ordered, Offset(page, size), size);
  }
}

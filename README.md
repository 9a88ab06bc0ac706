# Movie management backend: authentication core and review bookkeeping

A Dafny model of the core of a FastAPI backend for movies and reviews.
It covers:

- the request gate that every request passes (`JWTAuthMiddleware.dispatch`);
- the route guards `login_required` and `admin_required`;
- the account routes `login`, `logout`, `get_users`, `delete_users` and
  `update_user`, and `UserService.create_user` / `list_users`;
- the review operations `add_review`, `update_review`, `delete_review`,
  `like_review`, `recalc_movie_rating` and `list_reviews_by_movie`;
- the column domains and unique/check/foreign-key constraints of the user,
  login-record, review and like tables;
- the review request schemas (`ReviewCreate`, `ReviewUpdate`,
  `PaginatedReviews`).

Layout, one module per file:

| file | module | models |
|---|---|---|
| `wrappers.dfy` | `Wrappers` | `Option`, `Result` |
| `text.dfy` | `Text` | Python `str.split(" ")`, `" ".join`, `strip()`, `lower()` |
| `security.dfy` | `Security` | the JWT, hashing and password-strength helpers as function-valued fields of `Env` |
| `models.dfy` | `Models` | rows, column domains, table constraints, key-order scans, the classes `AuthTables` and `ReviewTables` |
| `schemas.dfy` | `Schemas` | review request bounds and the page envelope |
| `middleware.dfy` | `AuthMiddleware` | the gate, as a total function |
| `decorators.dfy` | `Decorators` | the two guards, as decision functions |
| `user_service.dfy` | `Users` | class `UserService` over the user table |
| `auth_api.dfy` | `AuthApi` | the account routes, as methods that update `AuthTables` in place |
| `review_service.dfy` | `ReviewService` | the review operations, as methods that update `ReviewTables` in place |
| `listing.dfy` | `ReviewListing` | `list_reviews_by_movie`: filter, count, order, page |

Conventions:

- The database is a pair of objects whose fields are the tables. `AuthTables`
  holds the users and login records as maps from primary key to row.
  `ReviewTables` holds the movie ratings, the reviews in key order and the
  like rows. Each class's `Valid()` is the conjunction of the table
  constraints, and every operation keeps it.
- An `HTTPException` is `Failure.HttpError(status, detail)`. Any other
  exception that escapes a route is `Failure.ServerError(cause)`, answered with
  status 500. Causes: an attribute read on `None`, a constraint refused at
  commit, a value longer than its VARCHAR column refused at commit (MySQL's
  strict mode), a negative OFFSET/LIMIT, an index past the end of a list. Every
  failure is raised before the commit, so the tables are left unchanged.
- `now` is a parameter wherever the source reads the clock or relies on a
  server-side timestamp default.

Three places where the code fails, or answers, differently from what its own checks suggest; the model follows the code:

- `logout` with a token that has no record dereferences `None` at
  `app/api/v1/auth.py:189`, before the check on line 191. The model therefore
  answers with a server error, not the 400 that the check would give.
- `update_user` on an unknown id reads `existing_user.role` at line 257,
  before the existence check on line 264. The model therefore answers with a
  server error, not a 404.
- A duplicate username is refused by the table's unique constraint at commit
  (`app/models/user.py:11`), which gives a server error, not a 400.

## Model

| member | source | states |
|---|---|---|
| Text.Split | app/middleware/auth_middleware.py:30 | `split(" ")` always yields at least one field and no field contains a space |
| Text.Join | app/middleware/auth_middleware.py:30 | `" ".join` opens with the first part, followed by a space when more parts come; the two round trips below make it the inverse of the split |
| Text.JoinSplit | app/middleware/auth_middleware.py:30 | joining the fields of `split(" ")` with single spaces gives back the input, so the split loses nothing |
| Text.SplitAfterWord | app/middleware/auth_middleware.py:24-30 | a space-free word followed by a space splits off as field 0, and the rest splits as before, so the token of `"Bearer " + t` is field 0 of `split(t)` |
| Text.SplitJoin | app/middleware/auth_middleware.py:30 | splitting a join of space-free fields gives back those fields |
| Text.NoSpaceSplit | app/api/v1/auth.py:177 | a header without a space is a single field, so `[1]` does not exist |
| Text.TrimStart | app/schemas/reviews.py:8 | the result is a suffix of the input, everything cut off before it is whitespace, and it starts with a non-whitespace character or is empty |
| Text.TrimEnd | app/schemas/reviews.py:8 | the result is a prefix of the input, everything cut off after it is whitespace, and it ends with a non-whitespace character or is empty |
| Text.Strip | app/schemas/reviews.py:8 | `strip()` returns the input with only whitespace removed before and after it, and the result neither starts nor ends with whitespace |
| Text.StripIdempotent | app/schemas/reviews.py:8 | stripping twice is the same as stripping once |
| Text.IsSpace | app/schemas/reviews.py:8 | exactly the characters Python's `str.isspace()` accepts (the ASCII controls 9-13 and 28-31, space, U+0085, U+00A0 and the Unicode space, line and paragraph separators), which `strip_whitespace` removes |
| Text.Lower | app/services/user_reviews.py:104 | `lower()` on ASCII letters: each letter A-Z becomes its lower-case form and every other character is kept |
| Text.LowerIsDesc | app/services/user_reviews.py:104 | an order string lower-cases to "desc" exactly when it is one of the case variants of "desc" |
| Models.RoleName | app/models/user.py:13 | the stored name of every role is accepted back by the role enum as that role |
| Models.ParseRole | app/models/user.py:13 | the role enum accepts "admin" and "user" and nothing else under exact comparison (MySQL's default collation would also accept case variants such as "Admin"; see Left out) |
| Models.MinKey | app/models/user.py:10 | the first key a primary-key scan meets is in the table and not greater than any other key |
| Models.VerifyPassword | app/models/user.py:26-27 | a plain password matches a user exactly when the hashing library accepts it against the stored digest |
| Models.UserTable | app/models/user.py:10-14 | the user table's constraints: each row is stored under its own key, below the next key, its username fits `String(100)` and its email and password digest fit `String(255)`, and no two rows share a username or an email |
| Models.LoginTable | app/models/user.py:34-36 | the login-record table's constraints: each row under its own key, below the next key, its user existing, its token fitting `String(255)`, and no two rows sharing a token |
| Models.ReviewTable | app/models/user.py:74-89 | the review table's constraints: keys increasing along the sequence (so it is the table in key order) and below the next key, at most one review per (user, movie), every rating in 0..10 |
| Models.LikeTable | app/models/user.py:81 | the like table's invariant: no like row names a key not yet handed out, and every review's counter equals its number of like rows |
| Models.AuthTables.Valid | app/models/user.py:10-37 | the user and login-record tables together satisfy their constraints |
| Models.ReviewTables.Valid | app/models/user.py:81-100 | the review and like tables together satisfy their constraints |
| Models.SortedKeys | app/services/user.py:31-33 | a full-table scan meets every key of the table exactly once, in strictly increasing order |
| Schemas.ParseComment | app/schemas/reviews.py:8 | an absent comment is accepted as absent; a present one is accepted exactly when its stripped form is at most 2000 characters, and the stripped form is stored |
| Schemas.ParseReviewCreate | app/schemas/reviews.py:5-8 | a create body is accepted exactly when the rating is in 0..10 and the comment is accepted; the result satisfies the bounds, keeps the movie and rating, and holds the stripped comment (or none when none was sent) |
| Schemas.ParseReviewUpdate | app/schemas/reviews.py:10-12 | an update body is accepted exactly when a present rating is in 0..10 and the comment is accepted; the result satisfies the bounds, keeps the rating, and holds the stripped comment (or none when none was sent) |
| Schemas.ParseReviewCreateAccepts | app/schemas/reviews.py:5-8 | a body already within the bounds passes validation unchanged |
| Schemas.ParseReviewUpdateIdempotent | app/schemas/reviews.py:10-12 | validating a validated update body again changes nothing |
| AuthMiddleware.IsPublicPath | app/middleware/auth_middleware.py:12-19 | a path is public exactly when it starts with one of "/auth/login", "/auth/register", "/openapi.json", "/docs", "/redoc" |
| AuthMiddleware.LookupUser | app/middleware/auth_middleware.py:43 | the lookup finds the row stored under the claimed user id, and finds nothing when the claim has no user id or no row has that key |
| AuthMiddleware.BearerToken | app/middleware/auth_middleware.py:24-30 | for a header starting with "Bearer ", field 0 is "Bearer", field 1 exists, and the token is field 1 and contains no space |
| AuthMiddleware.HasBearer | app/middleware/auth_middleware.py:23-24 | the header passes the check exactly when it is present, non-empty and starts with "Bearer " |
| Security.IsFalsy | app/middleware/auth_middleware.py:33-34 | `not payload` holds exactly for no claims (`None`) and an empty claim dictionary; a dictionary with any key, even one naming no user, is truthy |
| AuthMiddleware.AuthenticatesAs | app/middleware/auth_middleware.py:23-53 | a request authenticates as `user` when its header passes the Bearer check, the token's claims are truthy, their user id names `user` in the table, and `user` is not suspended |
| AuthMiddleware.Dispatch | app/middleware/auth_middleware.py:10-57 | the handler runs exactly for a path with a public prefix or a request that authenticates as a stored, non-suspended user; its response is returned unchanged; every rejection is a 401; a public path is never inspected; an admitted protected request carries its authenticated user |
| AuthMiddleware.RejectionOrder | app/middleware/auth_middleware.py:22-53 | the rejection detail is decided by the first failing check (header, token, user lookup, status), and the looked-up user (possibly `None`) is attached before the last two checks |
| AuthMiddleware.RoleClaimIgnored | app/middleware/auth_middleware.py:33-43 | two token verifiers that differ only in the role claim's value give the same gate outcome |
| AuthMiddleware.ClaimsWithoutUser | app/middleware/auth_middleware.py:33-49 | a non-empty claim set without a user id passes the truthiness check, is attached as `None` and is refused "User not found" |
| AuthMiddleware.StatusDecides | app/middleware/auth_middleware.py:41-56 | for a token that verifies and names a stored user, admission holds exactly when that user's row is active; login records are never consulted |
| Decorators.LoginRequired | app/utils/decorators.py:6-14 | the handler runs exactly when `request.state.user` was assigned, even to `None`; its result is returned (awaited if awaitable); otherwise 401 "Authentication required here" |
| Decorators.FirstRequest | app/utils/decorators.py:30-32 | no request is found exactly when no positional argument is a request; otherwise the first such argument is returned |
| Decorators.FindRequest | app/utils/decorators.py:30-32 | the keyword argument `request`, when given, wins; otherwise the first positional request, or none |
| Decorators.AdminRequired | app/utils/decorators.py:26-55 | 500 when no request is found; an exact public route runs the handler; otherwise 401 with no user and 403 for a non-admin, in that order, and the handler runs for an admin |
| Decorators.AdminRequiredInvokesIff | app/utils/decorators.py:26-55 | the handler runs if and only if a request is found and its path is an exact public route or its user is an admin |
| Decorators.PublicRoutesArePublicPaths | app/utils/decorators.py:18-24 | every exact public route of the guard also passes the gate's prefix test |
| Decorators.LoginRequiredBehindGate | app/utils/decorators.py:8-14 | behind the gate, a protected path runs the handler exactly when the request authenticates; a public-prefix path is always refused by the guard |
| Decorators.AdminRequiredBehindGate | app/utils/decorators.py:37-55 | behind the gate, a protected path runs the handler exactly for an authenticated admin; a path that only starts with a public prefix (like "/docs/x") passes the gate and is refused 401 |
| Users.InsertKeepsUserTable | app/models/user.py:10-12 | a new row under a fresh key, with an email and a username no row holds, keeps the user table's constraints |
| Users.UserService.CreateUser | app/services/user.py:12-29 | a taken email is a 400 before the password strength is looked at; a weak password is a 400 and stores nothing; at commit, a username over 100 characters or an email or digest over 255 is refused first, then a role other than exactly "admin" or "user" or a taken username; when the email is free, the password strong, every value within its column, the role exactly "admin" or "user" and the username free, registration succeeds and adds exactly one active user under the next key, holding the password's hash |
| Users.UserService.ListUsers | app/services/user.py:31-33 | every stored user appears, each entry is a stored row, and the entries come in increasing key order |
| AuthApi.StatusChangeKeepsTables | app/api/v1/auth.py:119 | changing a user's status keeps the user and login-record constraints |
| AuthApi.Login | app/api/v1/auth.py:100-144 | unknown email or wrong password is 401 "Invalid credentials" and writes nothing; success adds exactly one active login record for that user, with the token issued for the user's id and role and an expiry `now + minutes * 60`, sets the user active, and reports `expires_in = minutes * 60` and status active; a token longer than 255 characters, then a reused token, is refused at commit |
| AuthApi.LogoutToken | app/api/v1/auth.py:176-177 | no header or an empty one counts as missing; a non-empty header whose `split(" ")` has fewer than two fields has no field 1; otherwise the token is field 1, and a header starting with "Bearer " always has one |
| AuthApi.SuspendRecords | app/api/v1/auth.py:198-199 | the loop keeps the record keys, suspends every listed record and leaves every other record as it was |
| AuthApi.SuspendOwner | app/api/v1/auth.py:190-205 | every login record of the owner, as the query on `user_id` lists them, becomes suspended, every other record stays, and the owner's row becomes suspended; the tables keep their constraints |
| AuthApi.SuspendKeepsLoginTable | app/api/v1/auth.py:198-199 | suspending records keeps the login-record constraints |
| AuthApi.Logout | app/api/v1/auth.py:176-216 | no header or an empty token is 401; a header without a space fails on the index; a token with no record fails at line 189; a suspended record is 400; an active record suspends the owner's row and every record of the owner, leaves other users' records untouched, and names the caller in the message; errors write nothing |
| AuthApi.GetUsers | app/api/v1/auth.py:65-84 | every stored user is listed once, in key order, as its row without the password |
| AuthApi.DeleteUsers | app/api/v1/auth.py:229-238 | an unknown id is 404 and writes nothing; otherwise exactly that row is removed and returned, and the cascade removes exactly that user's login records |
| AuthApi.UpdateUser | app/api/v1/auth.py:252-310 | checks in order: unknown id fails on the role read, a different role is 403, an email held by another user is 400, a weak password is 400, then at commit a username over 100 characters or an email or digest over 255 is refused, then a username held by another user; success replaces username, email and password hash and keeps the role and creation time |
| AuthApi.UpdateKeepsTables | app/models/user.py:11-12 | replacing a user's username and email with values no other user holds keeps both tables' constraints |
| ReviewListing.Where | app/services/user_reviews.py:93-97 | a row is kept exactly when it is a stored row matching the movie, the rating lower bound and the user filter |
| ReviewListing.FalsyFiltersSkipped | app/services/user_reviews.py:94-97 | with `ratingFrom` 0.0 and `userId` `None` or 0, exactly the movie's reviews are kept |
| ReviewListing.SortColumn | app/services/user_reviews.py:100-103 | "helpful" and "like_count" order by the like count; each of "id", "movie_id", "user_id", "rating", "comment", "updated_at", "sentiment_score" orders by that column and is the only name that does; "created_at" and every other name order by `created_at` |
| ReviewListing.TextLeTotal | app/services/user_reviews.py:104-107 | any two texts are comparable |
| ReviewListing.TextLeTransitive | app/services/user_reviews.py:104-107 | text order is transitive |
| ReviewListing.KeyOf | app/services/user_reviews.py:100-107 | the value the sort column holds in a row; the nullable columns `comment`, `like_count` and `sentiment_score` give NULL when unset |
| ReviewListing.ValueLe | app/services/user_reviews.py:104-107 | MySQL's ascending order on one column's values: NULL before every value, numbers by value, text by code point |
| ReviewListing.ValueLeTotal | app/services/user_reviews.py:104-107 | any two column values, NULL included, are comparable |
| ReviewListing.ValueLeTransitive | app/services/user_reviews.py:104-107 | column-value order is transitive |
| ReviewListing.BeforeTotal | app/services/user_reviews.py:104-107 | under either direction, one of any two rows may come first |
| ReviewListing.BeforeTransitive | app/services/user_reviews.py:104-107 | the row order, ascending or descending, is transitive |
| ReviewListing.Insert | app/services/user_reviews.py:104-107 | inserting a row adds exactly that row and keeps a sorted sequence sorted |
| ReviewListing.OrderBy | app/services/user_reviews.py:104-107 | ORDER BY yields a permutation of its rows, sorted by the column in the requested direction |
| ReviewListing.Window | app/services/user_reviews.py:108 | OFFSET/LIMIT returns the contiguous run of rows starting at the offset, `size` long or up to the end, and nothing past the end |
| ReviewListing.ListReviewsByMovie | app/services/user_reviews.py:91-109 | a negative offset or size is refused by the database; otherwise `total` counts the filtered rows before paging, the page is the window at `(page - 1) * size` of the ordered rows, is at most `size` long, and holds only matching stored rows |
| ReviewListing.NextOffset | app/services/user_reviews.py:108 | the next page starts `size` rows later |
| ReviewListing.OffsetNonNegative | app/services/user_reviews.py:108 | pages from 1 on with a non-negative size have a non-negative offset |
| ReviewListing.AdjacentWindows | app/services/user_reviews.py:108 | two adjacent windows of one size join into the window of twice that size |
| ReviewListing.PageWindow | app/services/user_reviews.py:108-109 | a page from 1 on with a non-negative size always succeeds and returns its window |
| ReviewListing.ConsecutivePages | app/services/user_reviews.py:108 | pages `p` and `p + 1` together are the ordered rows from page `p`'s offset, `2 * size` at most, so pages neither overlap nor skip rows |
| ReviewService.Sentiment | app/services/user_reviews.py:11-13 | there is no score exactly for a missing or empty comment; otherwise the score is the scorer's value |
| ReviewService.RatingsOf | app/services/user_reviews.py:21 | every review of the movie contributes its rating, and every entry is the rating of a review of that movie (counts are in the next two rows) |
| ReviewService.RatingsOfCount | app/services/user_reviews.py:21 | the ratings list has exactly one entry per review of the movie |
| ReviewService.RatingsOfOccurrences | app/services/user_reviews.py:21 | each value occurs in the ratings list exactly as many times as the movie has reviews with that rating, so the list is the movie's ratings as a multiset |
| ReviewService.Mean | app/services/user_reviews.py:21-22 | the mean of no ratings is 0.0; otherwise the mean times the number of ratings is their sum |
| ReviewService.Average | app/services/user_reviews.py:21-22 | a movie without reviews gets 0.0; otherwise the value times the number of ratings is their sum |
| ReviewService.HasReviewBy | app/services/user_reviews.py:37 | the filter as written finds a review exactly when the user has reviewed some movie, whichever one |
| ReviewService.SumBounds | app/models/user.py:89 | a sum of ratings in 0..10 lies between 0 and 10 times their number |
| ReviewService.SumAppend | app/services/user_reviews.py:21 | adding a rating adds it to the sum |
| ReviewService.MeanBound | app/services/user_reviews.py:21-22 | a mean of values in 0..10 lies in 0..10 |
| ReviewService.AverageInRange | app/services/user_reviews.py:20-22 | with every stored rating in 0..10, a movie's recomputed rating is in 0..10 |
| ReviewService.RatingsOfAppend | app/services/user_reviews.py:21 | a new review adds its rating to its own movie's ratings only |
| ReviewService.AverageAfterInsert | app/services/user_reviews.py:20-29 | a new review changes only its movie's mean, to the mean of the old ratings and the new one |
| ReviewService.RecalcMovieRating | app/services/user_reviews.py:20-29 | returns the movie's mean rating (0.0 with no reviews); writes it to the movie only when the movie exists; changes nothing else |
| ReviewService.StoreReview | app/services/user_reviews.py:41-46 | the new review takes the next key, the given fields, no likes and the comment's sentiment, is appended to the table, and the movie's rating becomes the mean including it; the review counter advances by one |
| ReviewService.InsertKeepsTables | app/models/user.py:87-100 | a new review under a fresh key, in range, for a (user, movie) pair with no review, keeps the review and like constraints |
| ReviewService.HasReviewForIffConflict | app/models/user.py:87-88 | a new row keeps the review table's constraints if and only if its user has no review of that movie |
| ReviewService.AsWrittenRefusesSecondMovie | app/services/user_reviews.py:37-40 | as written, a user with a review of movie 1 is refused for movie 2, a row the table would accept |
| ReviewService.AddReviewAsWritten | app/services/user_reviews.py:31-48 | unknown movie is 404; a user with any review is 400; a rating out of range is refused at commit; otherwise exactly one review with the given fields and no likes is added and the movie's rating becomes the new mean; errors write nothing |
| ReviewService.AddReview | app/services/user_reviews.py:31-48 | as the source intends: only a review of the same movie by the same user is 400; otherwise as above |
| ReviewService.ReplaceKeepsTables | app/models/user.py:87-90 | changing a review's rating (in range), comment, sentiment or timestamps keeps the constraints |
| ReviewService.UpdateReview | app/services/user_reviews.py:50-65 | only a review with that key and that owner is found, else 404; a `None` rating keeps the rating; a `None` comment keeps the comment and its sentiment; a rating out of range is refused at commit; `updated_at` moves only when a column changes; the movie's rating becomes the new mean |
| ReviewService.RemoveKeepsTables | app/models/user.py:87-100 | removing a review keeps the constraints |
| ReviewService.DeleteReview | app/services/user_reviews.py:67-78 | only a review with that key and that owner is found, else 404; exactly that row is removed, like rows stay, and the movie's rating becomes the new mean |
| ReviewService.LikeKeepsTables | app/services/user_reviews.py:119-121 | a new like row with a counter bumped by one keeps the counter equal to the number of like rows |
| ReviewService.CountOfLiked | app/models/user.py:100 | a liked review's counter is present and equals its number of like rows |
| ReviewService.LikeReview | app/services/user_reviews.py:111-126 | unknown review is 404; a repeated like returns "Already liked" and changes nothing; a first like adds one (review, user) row and bumps the counter by one (null counts as 0); the reported count always equals the number of like rows |

## Left out

- Logging and the `print` calls write output only and are not modelled.
- Async scheduling, concurrent requests and transaction isolation are not modelled. `await` is folded into `Decorators.Resolve`.
- The code of `JWTManager`, `PasswordManager` and `pwd_context` is not part of this model. Token creation and verification, hashing, verification and the strength rule are arbitrary functions in `Security.Env`. Real hashing is salted, which this model does not capture.
- The keyword scoring of `_sentiment_placeholder` uses floating point and is not modelled. `ReviewService.Sentiment` takes the scorer as a parameter and models only its empty-comment case.
- Movie ratings and the mean are exact `real` values, not IEEE doubles.
- MySQL compares strings case-insensitively under its default collation. The model uses exact equality for emails, usernames, tokens and the role enum's values, and code-point order when sorting by `comment`.
- The `register` and `me` routes are not modelled separately. `register` only calls `UserService.create_user`, and `me` only projects the attached user.
- `UserRepository` is not part of this model. Its email lookup is a query on the email column. `list` is a key-order scan. `create` is an insert and a commit.
- AuthApi.DeleteUsers: the delete also cascades to the user's reviews, movies, watchlist and other rows. The model removes only the user and their login records, because reviews are kept in a separate set of tables.
- AuthApi.UpdateUser: the "User details not found" 404 on line 264 is not modelled, because line 257 has already failed for a missing row. An explicit JSON `null` role, which always differs from the stored role, is not modelled, and `updated_at` of the user row is not kept.
- Users.UserService.CreateUser: an explicit `null` role is not modelled. The role arrives as a string and the model accepts only "admin" and "user" exactly; a case variant such as "Admin" is refused at commit in the model, where MySQL may store it as admin.
- AuthApi.Login: the token's own expiry claim is left to `createJwt`. Only the record's expiration date is stated.
- ReviewListing.ListReviewsByMovie: rows with equal sort keys keep key order, where the database promises no order. Sort names that are attributes of the model class but not columns fall back to `created_at`, where the source would pass them to `order_by`. Upper bounds on OFFSET and LIMIT are not modelled.
- Text.Lower: only the ASCII letters are lower-cased. Python also lower-cases other cased letters, some into ASCII letters (U+212A KELVIN SIGN becomes "k") and some into two characters (U+0130), so a non-ASCII order string that Python maps to "desc" sorts ascending here.
- Users.UserService.CreateUser, AuthApi.UpdateUser, AuthApi.Login: when a row breaks several constraints at once, which error MySQL reports first is not modelled; the model reports an over-long value first. Every such failure is a 500 and writes nothing either way. Widths are counted in characters, as `VARCHAR` in a multi-byte character set counts them.
- `EmailStr` validation and other pydantic field checks of the user schemas belong to the validation library and are not modelled.
- Tables the core never reads or writes are not modelled: the other movie columns, watchlist, platforms, regions, availability, activity logs, recommendations and review history.

## Findings

| source | as written | input that shows it | evidently intended | confidence | as-written member | corrected member |
|---|---|---|---|---|---|---|
| app/services/user_reviews.py:37 | the duplicate filter joins its two comparisons with Python `and`. That yields the first comparison, so only `user_id` is compared and a user with any review is refused for every other movie | a user with a review of movie 1 adds a review of movie 2 (an existing movie): 400 "You already reviewed this movie" | refuse only a second review of the same movie by the same user, matching the unique constraint `unique_user_movie_review` | not executed | ReviewService.AddReviewAsWritten (with ReviewService.AsWrittenRefusesSecondMovie) | ReviewService.AddReview (with ReviewService.HasReviewForIffConflict) |

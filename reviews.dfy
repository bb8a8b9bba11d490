/** The review routes (`/api/reviews`): a game's reviews, the caller's
    reviews, and create / update / delete with 404 and 403 checks. */
module Reviews {
  import opened Common
  import opened Db
  import opened Sorting

  const AlreadyReviewed: string := "Already reviewed this game"
  const ReviewNotFound: string := "Review not found"
  const Forbidden: string := "Forbidden"

  function CreatedAt(v: Review): int
  {
    v.createdAt
  }

  /** `where: { gameId }`, in table order. */
  function OfGame(reviews: seq<Review>, gameId: Id): (r: seq<Review>)
    ensures forall v :: v in r <==> v in reviews && v.gameId == gameId
    ensures forall v: Review :: v.gameId == gameId ==> multiset(r)[v] == multiset(reviews)[v]
  {
    Filter(reviews, (v: Review) => v.gameId == gameId)
  }

  /** `where: { userId }`, in table order. */
  function OfUser(reviews: seq<Review>, userId: Id): (r: seq<Review>)
    ensures forall v :: v in r <==> v in reviews && v.userId == userId
    ensures forall v: Review :: v.userId == userId ==> multiset(r)[v] == multiset(reviews)[v]
  {
    Filter(reviews, (v: Review) => v.userId == userId)
  }

  /** `GET /api/reviews/game/:gameId?limit=&offset=`: the game's reviews, newest
      first, `offset` skipped and at most `limit` kept (defaults 20 and 0);
      `total` counts all of the game's reviews. */
  function ListGameReviews(reviews: seq<Review>, gameId: Id, limit: Option<nat>, offset: Option<nat>): (p: Page<Review>)
    ensures IsPage(p, SortDesc(OfGame(reviews, gameId), CreatedAt), limit, offset)
    ensures p.total == |OfGame(reviews, gameId)|
    ensures forall v :: v in p.items ==> v in reviews && v.gameId == gameId
    ensures Descending(p.items, CreatedAt)
  {
    SortedPage(OfGame(reviews, gameId), CreatedAt, limit, offset)
  }

  /** `total` is the number of the game's reviews. */
  lemma GameReviewsTotal(reviews: seq<Review>, gameId: Id, limit: Option<nat>, offset: Option<nat>)
    ensures ListGameReviews(reviews, gameId, limit, offset).total == CountFor(reviews, gameId)
  {
    TotalIsCount(reviews, gameId);
  }

  /** The number of reviews of `gameId`, counted one row at a time. */
  function CountFor(reviews: seq<Review>, gameId: Id): nat
  {
    if reviews == [] then 0
    else (if reviews[0].gameId == gameId then 1 else 0) + CountFor(reviews[1..], gameId)
  }

  lemma {:induction false} TotalIsCount(reviews: seq<Review>, gameId: Id)
    ensures |OfGame(reviews, gameId)| == CountFor(reviews, gameId)
  {
    if reviews != [] {
      TotalIsCount(reviews[1..], gameId);
    }
  }

  /** `GET /api/reviews/me`: every review of the caller and no other, each as
      often as in the table, newest first. */
  function MyReviews(reviews: seq<Review>, userId: Id): (r: seq<Review>)
    ensures forall v :: v in r <==> v in reviews && v.userId == userId
    ensures forall v: Review :: v.userId == userId ==> multiset(r)[v] == multiset(reviews)[v]
    ensures Descending(r, CreatedAt)
  {
    var mine := OfUser(reviews, userId);
    var r := SortDesc(mine, CreatedAt);
    assert multiset(r) == multiset(mine);
    r
  }

  // ---- POST /api/reviews ----

  /** `createReviewSchema`: rating in 1..10, content at most 2000 characters. */
  predicate CreateOk(rating: real, content: Option<string>)
  {
    RatingOk(rating) && ContentOk(content)
  }

  /** `updateReviewSchema`: the same bounds, each field optional. */
  predicate UpdateOk(rating: Option<real>, content: Option<string>)
  {
    (rating.None? || RatingOk(rating.value)) && ContentOk(content)
  }

  /** The user has reviewed `gameId`. */
  predicate HasReview(reviews: seq<Review>, userId: Id, gameId: Id)
  {
    exists i :: 0 <= i < |reviews| && reviews[i].userId == userId && reviews[i].gameId == gameId
  }

  /** Inserting a valid review with a fresh id, for an existing game and a pair
      `(userId, gameId)` with no review yet, keeps the table's constraints. */
  lemma AddReviewKeepsValid(reviews: seq<Review>, games: seq<Game>, v: Review)
    requires ReviewsValid(reviews, games)
    requires v.id !in ReviewIds(reviews) && v.gameId in GameIds(games)
    requires RatingOk(v.rating) && ContentOk(v.content)
    requires !HasReview(reviews, v.userId, v.gameId)
    ensures ReviewsValid(reviews + [v], games)
  {
    var r := reviews + [v];
    forall i, j | 0 <= i < j < |r|
      ensures r[i].id != r[j].id && (r[i].userId != r[j].userId || r[i].gameId != r[j].gameId)
    {
      if j == |reviews| {
        assert ReviewIds(reviews)[i] == reviews[i].id;
      }
    }
  }

  /** `POST /api/reviews { gameId, rating, content? }`. The body is validated
      (400), then 404 when no game has `gameId`, then 400 when the caller has
      already reviewed that game; otherwise exactly one review is added with
      the caller's id and the given fields. Owning the game is not required. */
  method CreateReview(db: Database, userId: Id, gameId: Id, rating: real, content: Option<string>, now: int)
    returns (r: Reply<Review>)
    requires db.Valid()
    modifies db
    ensures db.Valid()
    ensures db.users == old(db.users) && db.games == old(db.games) && db.userGames == old(db.userGames)
    ensures !CreateOk(rating, content) ==> r == Fail(400, InvalidInput)
    ensures CreateOk(rating, content) && gameId !in GameIds(db.games) ==> r == Fail(404, GameNotFound)
    ensures CreateOk(rating, content) && gameId in GameIds(db.games) && HasReview(old(db.reviews), userId, gameId) ==>
              r == Fail(400, AlreadyReviewed)
    ensures r.Fail? ==> db.reviews == old(db.reviews)
    ensures r.Ok? <==> CreateOk(rating, content) && gameId in GameIds(db.games) && !HasReview(old(db.reviews), userId, gameId)
    ensures r.Ok? ==>
              && db.reviews == old(db.reviews) + [r.body]
              && r.body.userId == userId && r.body.gameId == gameId
              && r.body.rating == rating && r.body.content == content && r.body.createdAt == now
              && r.body.id !in ReviewIds(old(db.reviews))
  {
    if !CreateOk(rating, content) {
      return Fail(400, InvalidInput);
    }
    if FindGame(db.games, gameId).None? {
      return Fail(404, GameNotFound);
    }
    if FindReviewBy(db.reviews, userId, gameId).Some? {
      return Fail(400, AlreadyReviewed);
    }
    var review := Review(NewId(ReviewIds(db.reviews)), userId, gameId, rating, content, now);
    AddReviewKeepsValid(db.reviews, db.games, review);
    db.reviews := db.reviews + [review];
    r := Ok(review);
  }

  // ---- PATCH /api/reviews/:reviewId ----

  /** Prisma's `update` with `data`: only the supplied fields change. */
  function Revise(v: Review, rating: Option<real>, content: Option<string>): (v': Review)
    ensures v'.id == v.id && v'.userId == v.userId && v'.gameId == v.gameId && v'.createdAt == v.createdAt
    ensures v'.rating == if rating.Some? then rating.value else v.rating
    ensures v'.content == if content.Some? then content else v.content
  {
    v.(rating := rating.GetOr(v.rating), content := if content.Some? then content else v.content)
  }

  /** Replacing a review by one with the same id, user and game that still
      meets the schema bounds keeps the table's constraints. */
  lemma ReviseKeepsValid(reviews: seq<Review>, games: seq<Game>, i: nat, v: Review)
    requires ReviewsValid(reviews, games) && i < |reviews|
    requires v.id == reviews[i].id && v.userId == reviews[i].userId && v.gameId == reviews[i].gameId
    requires RatingOk(v.rating) && ContentOk(v.content)
    ensures ReviewsValid(reviews[i := v], games)
  {
    var r := reviews[i := v];
    forall a, b | 0 <= a < b < |r|
      ensures r[a].id != r[b].id && (r[a].userId != r[b].userId || r[a].gameId != r[b].gameId)
    {
      assert r[a].id == reviews[a].id && r[a].userId == reviews[a].userId && r[a].gameId == reviews[a].gameId;
      assert r[b].id == reviews[b].id && r[b].userId == reviews[b].userId && r[b].gameId == reviews[b].gameId;
    }
  }

  /** `PATCH /api/reviews/:reviewId { rating?, content? }`. The body is
      validated first (400); then 404 for an unknown review id and 403 when the
      review belongs to someone else, both leaving the table as it was;
      otherwise that review gets the supplied fields and nothing else changes. */
  method UpdateReview(db: Database, userId: Id, reviewId: Id, rating: Option<real>, content: Option<string>)
    returns (r: Reply<Review>)
    requires db.Valid()
    modifies db
    ensures db.Valid()
    ensures db.users == old(db.users) && db.games == old(db.games) && db.userGames == old(db.userGames)
    ensures !UpdateOk(rating, content) ==> r == Fail(400, InvalidInput)
    ensures UpdateOk(rating, content) && reviewId !in ReviewIds(old(db.reviews)) ==> r == Fail(404, ReviewNotFound)
    ensures r.Fail? ==> db.reviews == old(db.reviews)
    ensures forall i :: 0 <= i < |old(db.reviews)| && old(db.reviews)[i].id == reviewId && UpdateOk(rating, content) ==>
              if old(db.reviews)[i].userId != userId then r == Fail(403, Forbidden)
              else db.reviews == old(db.reviews)[i := Revise(old(db.reviews)[i], rating, content)] && r == Ok(db.reviews[i])
  {
    if !UpdateOk(rating, content) {
      return Fail(400, InvalidInput);
    }
    var found := FindReview(db.reviews, reviewId);
    if found.None? {
      return Fail(404, ReviewNotFound);
    }
    var i := found.value;
    assert forall j :: 0 <= j < |db.reviews| && db.reviews[j].id == reviewId ==> j == i;
    if db.reviews[i].userId != userId {
      return Fail(403, Forbidden);
    }
    var updated := Revise(db.reviews[i], rating, content);
    ReviseKeepsValid(db.reviews, db.games, i, updated);
    db.reviews := db.reviews[i := updated];
    r := Ok(updated);
  }

  // ---- DELETE /api/reviews/:reviewId ----

  /** `DELETE /api/reviews/:reviewId`: 404 for an unknown id and 403 for
      someone else's review, both leaving the table as it was; otherwise
      exactly that review is removed and `{ success: true }` is sent. */
  method DeleteReview(db: Database, userId: Id, reviewId: Id) returns (r: Reply<bool>)
    requires db.Valid()
    modifies db
    ensures db.Valid()
    ensures db.users == old(db.users) && db.games == old(db.games) && db.userGames == old(db.userGames)
    ensures reviewId !in ReviewIds(old(db.reviews)) ==> r == Fail(404, ReviewNotFound)
    ensures r.Fail? ==> db.reviews == old(db.reviews)
    ensures forall i :: 0 <= i < |old(db.reviews)| && old(db.reviews)[i].id == reviewId ==>
              if old(db.reviews)[i].userId != userId then r == Fail(403, Forbidden)
              else r == Ok(true) && db.reviews == RemoveAt(old(db.reviews), i)
    ensures r.Ok? ==> reviewId !in ReviewIds(db.reviews)
  {
    var found := FindReview(db.reviews, reviewId);
    if found.None? {
      return Fail(404, ReviewNotFound);
    }
    var i := found.value;
    if db.reviews[i].userId != userId {
      return Fail(403, Forbidden);
    }
    ghost var rows := db.reviews;
    RemoveReviewKeepsValid(db.reviews, db.games, i);
    db.reviews := RemoveAt(db.reviews, i);
    forall k | 0 <= k < |db.reviews| ensures ReviewIds(db.reviews)[k] != reviewId {
      var k' := if k < i then k else k + 1;
      assert db.reviews[k] == rows[k'] && k' != i;
    }
    r := Ok(true);
  }
}

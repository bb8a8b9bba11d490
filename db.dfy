/** The Prisma tables the route handlers read and write, held in memory:
    `User`, `Game`, `UserGame` (collection entries) and `Review`. Each table is
    a sequence in insertion order. A query without `orderBy` is taken to
    return rows in that order; the database itself promises no order. The
    database's unique and foreign-key constraints are the class invariant
    `Valid()`. */
module Db {
  import opened Common
  import opened Upstream

  /** Prisma's string ids (`cuid()`). */
  type Id = string

  datatype User = User(id: Id, email: string, username: string, password: string, createdAt: int)

  datatype Game = Game(
    id: Id,
    rawgId: int,
    name: string,
    slug: string,
    description: string,
    released: Option<string>,
    rating: real,
    metacritic: Option<int>,
    imageUrl: string,
    genres: seq<string>,
    platforms: seq<string>)

  /** A collection entry: one user's tracked relationship to one game. */
  datatype UserGame = UserGame(id: Id, userId: Id, gameId: Id, status: Status, playtime: Option<real>, addedAt: int)

  datatype Review = Review(id: Id, userId: Id, gameId: Id, rating: real, content: Option<string>, createdAt: int)

  // ---- Field rules of the request schemas ----

  /** `playtime: z.number().min(0).optional()`. */
  predicate PlaytimeOk(p: Option<real>)
  {
    p.None? || p.value >= 0.0
  }

  /** `rating: z.number().min(1).max(10)`. */
  predicate RatingOk(r: real)
  {
    1.0 <= r <= 10.0
  }

  /** `content: z.string().max(2000).optional()`, counted in UTF-16 code units. */
  predicate ContentOk(c: Option<string>)
  {
    c.None? || Utf16Length(c.value) <= 2000
  }

  /** The `Game` row created from a RAWG payload: genres and platforms missing
      from the payload become empty lists, and an absent or empty release date
      becomes null. */
  function GameFromRawg(id: Id, rawgId: int, data: RawgGame): (g: Game)
    ensures g.id == id && g.rawgId == rawgId && g.name == data.name
    ensures data.genres.None? ==> g.genres == []
    ensures data.genres.Some? ==> g.genres == data.genres.value
    ensures data.platforms.None? ==> g.platforms == []
    ensures data.platforms.Some? ==> g.platforms == data.platforms.value
    ensures g.released.Some? <==> data.released.Some? && data.released.value != ""
    ensures g.released.Some? ==> g.released == data.released
    ensures g.slug == data.slug && g.description == data.descriptionRaw && g.rating == data.rating
    ensures g.metacritic == data.metacritic && g.imageUrl == data.backgroundImage
  {
    Game(id, rawgId, data.name, data.slug, data.descriptionRaw,
         if data.released.Some? && data.released.value != "" then data.released else None,
         data.rating, data.metacritic, data.backgroundImage,
         data.genres.GetOr([]), data.platforms.GetOr([]))
  }

  // ---- Ids ----

  function GameIds(games: seq<Game>): seq<Id>
  {
    seq(|games|, i requires 0 <= i < |games| => games[i].id)
  }

  function EntryIds(entries: seq<UserGame>): seq<Id>
  {
    seq(|entries|, i requires 0 <= i < |entries| => entries[i].id)
  }

  function ReviewIds(reviews: seq<Review>): seq<Id>
  {
    seq(|reviews|, i requires 0 <= i < |reviews| => reviews[i].id)
  }

  function UserIds(users: seq<User>): seq<Id>
  {
    seq(|users|, i requires 0 <= i < |users| => users[i].id)
  }

  function MaxLen(ids: seq<Id>): (m: nat)
    ensures forall i :: 0 <= i < |ids| ==> |ids[i]| <= m
  {
    if ids == [] then 0
    else
      var rest := MaxLen(ids[1..]);
      assert forall i :: 1 <= i < |ids| ==> ids[i] == ids[1..][i - 1];
      if |ids[0]| <= rest then rest else |ids[0]|
  }

  /** A fresh id for a new row: longer than every id in use, so unused. It
      stands for the random `cuid()` Prisma generates. */
  function NewId(ids: seq<Id>): (id: Id)
    ensures id !in ids
  {
    seq(MaxLen(ids) + 1, _ => 'c')
  }

  // ---- Constraints ----

  /** `User.id`, `User.email` and `User.username` are unique. */
  ghost predicate UsersValid(users: seq<User>)
  {
    forall i, j :: 0 <= i < j < |users| ==>
      users[i].id != users[j].id && users[i].email != users[j].email && users[i].username != users[j].username
  }

  /** `Game.id` and `Game.rawgId` are unique. */
  ghost predicate GamesValid(games: seq<Game>)
  {
    forall i, j :: 0 <= i < j < |games| ==> games[i].id != games[j].id && games[i].rawgId != games[j].rawgId
  }

  /** `UserGame.id` is unique, `(userId, gameId)` is unique, every entry points
      at an existing game, and playtimes are not negative. */
  ghost predicate EntriesValid(entries: seq<UserGame>, games: seq<Game>)
  {
    && (forall i, j :: 0 <= i < j < |entries| ==>
          entries[i].id != entries[j].id
          && (entries[i].userId != entries[j].userId || entries[i].gameId != entries[j].gameId))
    && (forall i :: 0 <= i < |entries| ==> entries[i].gameId in GameIds(games) && PlaytimeOk(entries[i].playtime))
  }

  /** `Review.id` is unique, `(userId, gameId)` is unique, every review points
      at an existing game and passed the schema's rating and content bounds. */
  ghost predicate ReviewsValid(reviews: seq<Review>, games: seq<Game>)
  {
    && (forall i, j :: 0 <= i < j < |reviews| ==>
          reviews[i].id != reviews[j].id
          && (reviews[i].userId != reviews[j].userId || reviews[i].gameId != reviews[j].gameId))
    && (forall i :: 0 <= i < |reviews| ==>
          reviews[i].gameId in GameIds(games) && RatingOk(reviews[i].rating) && ContentOk(reviews[i].content))
  }

  // ---- Lookups ----

  /** `prisma.game.findUnique({ where: { id } })`. */
  function FindGame(games: seq<Game>, id: Id): (r: Option<nat>)
    ensures r.Some? ==> r.value < |games| && games[r.value].id == id
    ensures r.None? <==> id !in GameIds(games)
  {
    var r := FindFirst(games, (g: Game) => g.id == id);
    assert forall k :: 0 <= k < |games| ==> GameIds(games)[k] == games[k].id;
    r
  }

  /** `prisma.game.findUnique({ where: { rawgId } })`. */
  function FindGameByRawgId(games: seq<Game>, rawgId: int): (r: Option<nat>)
    ensures r.Some? ==> r.value < |games| && games[r.value].rawgId == rawgId
    ensures r.None? ==> forall i :: 0 <= i < |games| ==> games[i].rawgId != rawgId
  {
    FindFirst(games, (g: Game) => g.rawgId == rawgId)
  }

  /** `prisma.userGame.findFirst({ where: { userId, gameId } })`. */
  function FindEntry(entries: seq<UserGame>, userId: Id, gameId: Id): (r: Option<nat>)
    ensures r.Some? ==> r.value < |entries| && entries[r.value].userId == userId && entries[r.value].gameId == gameId
    ensures r.None? ==> forall i :: 0 <= i < |entries| ==> !(entries[i].userId == userId && entries[i].gameId == gameId)
  {
    FindFirst(entries, (e: UserGame) => e.userId == userId && e.gameId == gameId)
  }

  /** `prisma.review.findUnique({ where: { id } })`. */
  function FindReview(reviews: seq<Review>, id: Id): (r: Option<nat>)
    ensures r.Some? ==> r.value < |reviews| && reviews[r.value].id == id
    ensures r.None? <==> id !in ReviewIds(reviews)
  {
    var r := FindFirst(reviews, (v: Review) => v.id == id);
    assert forall k :: 0 <= k < |reviews| ==> ReviewIds(reviews)[k] == reviews[k].id;
    r
  }

  /** `prisma.review.findUnique({ where: { userId_gameId: { userId, gameId } } })`. */
  function FindReviewBy(reviews: seq<Review>, userId: Id, gameId: Id): (r: Option<nat>)
    ensures r.Some? ==> r.value < |reviews| && reviews[r.value].userId == userId && reviews[r.value].gameId == gameId
    ensures r.None? ==> forall i :: 0 <= i < |reviews| ==> !(reviews[i].userId == userId && reviews[i].gameId == gameId)
  {
    FindFirst(reviews, (v: Review) => v.userId == userId && v.gameId == gameId)
  }

  /** `s` without its element at `i`: Prisma's `delete` by id. */
  function RemoveAt<T>(s: seq<T>, i: nat): (r: seq<T>)
    requires i < |s|
    ensures |r| == |s| - 1
    ensures forall k :: 0 <= k < i ==> r[k] == s[k]
    ensures forall k :: i <= k < |r| ==> r[k] == s[k + 1]
  {
    s[..i] + s[i + 1..]
  }

  // ---- Constraint preservation ----

  /** Deleting a row keeps every constraint of the row's table. */
  lemma RemoveEntryKeepsValid(entries: seq<UserGame>, games: seq<Game>, i: nat)
    requires EntriesValid(entries, games) && i < |entries|
    ensures EntriesValid(RemoveAt(entries, i), games)
  {
    var r := RemoveAt(entries, i);
    forall a, b | 0 <= a < b < |r|
      ensures r[a].id != r[b].id && (r[a].userId != r[b].userId || r[a].gameId != r[b].gameId)
    {
      var a', b' := if a < i then a else a + 1, if b < i then b else b + 1;
      assert r[a] == entries[a'] && r[b] == entries[b'];
    }
    forall a | 0 <= a < |r| ensures r[a].gameId in GameIds(games) && PlaytimeOk(r[a].playtime) {
      assert r[a] == entries[if a < i then a else a + 1];
    }
  }

  lemma RemoveReviewKeepsValid(reviews: seq<Review>, games: seq<Game>, i: nat)
    requires ReviewsValid(reviews, games) && i < |reviews|
    ensures ReviewsValid(RemoveAt(reviews, i), games)
  {
    var r := RemoveAt(reviews, i);
    forall a, b | 0 <= a < b < |r|
      ensures r[a].id != r[b].id && (r[a].userId != r[b].userId || r[a].gameId != r[b].gameId)
    {
      var a', b' := if a < i then a else a + 1, if b < i then b else b + 1;
      assert r[a] == reviews[a'] && r[b] == reviews[b'];
    }
    forall a | 0 <= a < |r|
      ensures r[a].gameId in GameIds(games) && RatingOk(r[a].rating) && ContentOk(r[a].content)
    {
      assert r[a] == reviews[if a < i then a else a + 1];
    }
  }

  /** Adding a game with a fresh id and an unused `rawgId` keeps every
      constraint, and existing rows still find their games. */
  lemma AddGameKeepsValid(games: seq<Game>, entries: seq<UserGame>, reviews: seq<Review>, g: Game)
    requires GamesValid(games) && EntriesValid(entries, games) && ReviewsValid(reviews, games)
    requires g.id !in GameIds(games)
    requires forall i :: 0 <= i < |games| ==> games[i].rawgId != g.rawgId
    ensures GamesValid(games + [g])
    ensures EntriesValid(entries, games + [g]) && ReviewsValid(reviews, games + [g])
    ensures GameIds(games + [g]) == GameIds(games) + [g.id]
  {
    var gs := games + [g];
    assert GameIds(gs) == GameIds(games) + [g.id];
    forall i, j | 0 <= i < j < |gs| ensures gs[i].id != gs[j].id && gs[i].rawgId != gs[j].rawgId {
      if j == |games| {
        assert GameIds(games)[i] == games[i].id;
      }
    }
  }

  /** The database: one table per Prisma model. */
  class Database {
    var users: seq<User>
    var games: seq<Game>
    var userGames: seq<UserGame>
    var reviews: seq<Review>

    ghost predicate Valid()
      reads this
    {
      UsersValid(users) && GamesValid(games) && EntriesValid(userGames, games) && ReviewsValid(reviews, games)
    }

    constructor ()
      ensures Valid()
      ensures users == [] && games == [] && userGames == [] && reviews == []
    {
      users, games, userGames, reviews := [], [], [], [];
    }
  }
}

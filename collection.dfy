/** The collection routes (`/api/collection`): list, add, update and remove
    the caller's entries. The caller's `userId` is the one the bearer token
    carries; RAWG is the `Catalog` oracle. */
module Collection {
  import opened Common
  import opened Db
  import opened Upstream
  import opened Sorting

  const AlreadyInCollection: string := "Game already in collection"
  const NotInCollection: string := "Game not in collection"

  /** `where: { userId }`, plus `status` when the filter is given. */
  predicate Matches(e: UserGame, userId: Id, status: Option<Status>)
  {
    e.userId == userId && (status.None? || e.status == status.value)
  }

  /** The rows that match the filter, in table order. */
  function Matching(rows: seq<UserGame>, userId: Id, status: Option<Status>): (r: seq<UserGame>)
    ensures forall e :: e in r <==> e in rows && Matches(e, userId, status)
    ensures forall e :: Matches(e, userId, status) ==> multiset(r)[e] == multiset(rows)[e]
    ensures |r| <= |rows|
  {
    Filter(rows, (e: UserGame) => Matches(e, userId, status))
  }

  function AddedAt(e: UserGame): int
  {
    e.addedAt
  }

  /** `GET /api/collection?status=&limit=&offset=`: the caller's entries (only
      those with the given status when one is given), most recently added first,
      `offset` skipped and at most `limit` kept; `total` counts every match. */
  function ListCollection(rows: seq<UserGame>, userId: Id, status: Option<Status>, limit: Option<nat>, offset: Option<nat>): (p: Page<UserGame>)
    ensures IsPage(p, SortDesc(Matching(rows, userId, status), AddedAt), limit, offset)
    ensures p.total == |Matching(rows, userId, status)|
    ensures forall e :: e in p.items ==> e in rows && Matches(e, userId, status)
    ensures Descending(p.items, AddedAt)
  {
    SortedPage(Matching(rows, userId, status), AddedAt, limit, offset)
  }

  /** A user with no entries gets an empty page with `total` 0 and no more pages. */
  lemma FreshUserListsNothing(rows: seq<UserGame>, userId: Id, status: Option<Status>, limit: Option<nat>, offset: Option<nat>)
    requires forall i :: 0 <= i < |rows| ==> rows[i].userId != userId
    ensures ListCollection(rows, userId, status, limit, offset).items == []
    ensures ListCollection(rows, userId, status, limit, offset).total == 0
    ensures !ListCollection(rows, userId, status, limit, offset).hasMore
  {
  }

  /** A first page that reports no more pages holds every matching entry. */
  lemma FirstPageHoldsAll(rows: seq<UserGame>, userId: Id, status: Option<Status>, limit: Option<nat>)
    requires !ListCollection(rows, userId, status, limit, None).hasMore
    ensures multiset(ListCollection(rows, userId, status, limit, None).items)
         == multiset(Matching(rows, userId, status))
  {
    var sorted := SortDesc(Matching(rows, userId, status), AddedAt);
    LastPageHoldsRest(sorted, limit, None);
    assert sorted[0..] == sorted;
  }

  // ---- POST /api/collection ----

  /** The game row `gameId` exists and has this `rawgId`. */
  predicate LinksRawg(games: seq<Game>, gameId: Id, rawgId: int)
  {
    exists k :: 0 <= k < |games| && games[k].id == gameId && games[k].rawgId == rawgId
  }

  /** The user already has an entry whose game has this `rawgId`. */
  predicate InCollection(rows: seq<UserGame>, games: seq<Game>, userId: Id, rawgId: int)
  {
    exists i :: 0 <= i < |rows| && rows[i].userId == userId && LinksRawg(games, rows[i].gameId, rawgId)
  }

  /** Some game row has this `rawgId`. */
  predicate KnownRawg(games: seq<Game>, rawgId: int)
  {
    exists k :: 0 <= k < |games| && games[k].rawgId == rawgId
  }

  /** `prisma.userGame.findFirst({ where: { userId, game: { rawgId } } })`. */
  function FindByRawgId(rows: seq<UserGame>, games: seq<Game>, userId: Id, rawgId: int): (r: Option<nat>)
    ensures r.Some? <==> InCollection(rows, games, userId, rawgId)
  {
    FindFirst(rows, (e: UserGame) => e.userId == userId && LinksRawg(games, e.gameId, rawgId))
  }

  /** A game found by `rawgId` has a unique id, so rows pointing at it are its. */
  lemma LinksFoundGame(games: seq<Game>, k: nat, gameId: Id)
    requires GamesValid(games) && k < |games| && games[k].id == gameId
    ensures forall rawgId :: LinksRawg(games, gameId, rawgId) <==> rawgId == games[k].rawgId
  {
  }

  lemma LinkedIsListed(games: seq<Game>, gameId: Id, rawgId: int)
    requires LinksRawg(games, gameId, rawgId)
    ensures gameId in GameIds(games)
  {
    var k :| 0 <= k < |games| && games[k].id == gameId && games[k].rawgId == rawgId;
    assert GameIds(games)[k] == gameId;
  }

  /** Inserting an entry with a fresh id for an existing game and a pair
      `(userId, gameId)` not yet present keeps the table's constraints. */
  lemma AddEntryKeepsValid(rows: seq<UserGame>, games: seq<Game>, e: UserGame)
    requires EntriesValid(rows, games)
    requires e.id !in EntryIds(rows) && e.gameId in GameIds(games) && PlaytimeOk(e.playtime)
    requires forall i :: 0 <= i < |rows| ==> !(rows[i].userId == e.userId && rows[i].gameId == e.gameId)
    ensures EntriesValid(rows + [e], games)
  {
    var r := rows + [e];
    forall i, j | 0 <= i < j < |r|
      ensures r[i].id != r[j].id && (r[i].userId != r[j].userId || r[i].gameId != r[j].gameId)
    {
      if j == |rows| {
        assert EntryIds(rows)[i] == rows[i].id;
      }
    }
  }

  /** `POST /api/collection { rawgId, status?, playtime? }`. A negative
      playtime is rejected (400); a `rawgId` the user already has is rejected
      (400) before anything else happens; otherwise the game row with that
      `rawgId` is reused, or fetched from RAWG and created when there is none
      (a failed fetch gives 404 and creates nothing); then exactly one entry is
      inserted, with status BACKLOG when none is given. */
  method AddToCollection(db: Database, catalog: Catalog, userId: Id, rawgId: int, status: Option<Status>, playtime: Option<real>, now: int)
    returns (r: Reply<UserGame>)
    requires db.Valid()
    modifies db, catalog
    ensures db.Valid()
    ensures db.users == old(db.users) && db.reviews == old(db.reviews)
    ensures !PlaytimeOk(playtime) ==> r == Fail(400, InvalidInput)
    ensures PlaytimeOk(playtime) && InCollection(old(db.userGames), old(db.games), userId, rawgId) ==>
              r == Fail(400, AlreadyInCollection)
    ensures PlaytimeOk(playtime) && !InCollection(old(db.userGames), old(db.games), userId, rawgId)
            && !KnownRawg(old(db.games), rawgId) && catalog.game(rawgId).Failed? ==>
              r == Fail(404, GameNotFound)
    ensures r.Fail? ==> db.games == old(db.games) && db.userGames == old(db.userGames)
    ensures r.Ok? <==> PlaytimeOk(playtime) && !InCollection(old(db.userGames), old(db.games), userId, rawgId)
                       && (KnownRawg(old(db.games), rawgId) || catalog.game(rawgId).Fetched?)
    ensures r.Ok? ==>
              && db.userGames == old(db.userGames) + [r.body]
              && r.body.userId == userId && r.body.status == status.GetOr(Backlog)
              && r.body.playtime == playtime && r.body.addedAt == now
              && LinksRawg(db.games, r.body.gameId, rawgId)
    ensures KnownRawg(old(db.games), rawgId) ==> db.games == old(db.games)
    ensures r.Ok? && !KnownRawg(old(db.games), rawgId) ==>
              db.games == old(db.games) + [GameFromRawg(NewId(GameIds(old(db.games))), rawgId, catalog.game(rawgId).data)]
    ensures catalog.fetches == old(catalog.fetches) +
              if PlaytimeOk(playtime) && !InCollection(old(db.userGames), old(db.games), userId, rawgId)
                 && !KnownRawg(old(db.games), rawgId) then 1 else 0
  {
    if !PlaytimeOk(playtime) {
      return Fail(400, InvalidInput);
    }
    var existing := FindByRawgId(db.userGames, db.games, userId, rawgId);
    if existing.Some? {
      return Fail(400, AlreadyInCollection);
    }
    var found := FindGameByRawgId(db.games, rawgId);
    var game: Game;
    if found.Some? {
      game := db.games[found.value];
      LinksFoundGame(db.games, found.value, game.id);
    } else {
      var response := catalog.FetchGame(rawgId);
      if response.Failed? {
        return Fail(404, GameNotFound);
      }
      game := GameFromRawg(NewId(GameIds(db.games)), rawgId, response.data);
      AddGameKeepsValid(db.games, db.userGames, db.reviews, game);
      db.games := db.games + [game];
      assert game == db.games[|db.games| - 1];
    }
    assert LinksRawg(db.games, game.id, rawgId);
    LinkedIsListed(db.games, game.id, rawgId);
    var entry := UserGame(NewId(EntryIds(db.userGames)), userId, game.id, status.GetOr(Backlog), playtime, now);
    AddEntryKeepsValid(db.userGames, db.games, entry);
    db.userGames := db.userGames + [entry];
    r := Ok(entry);
  }

  // ---- PATCH /api/collection/:gameId ----

  /** The user has an entry for `gameId`. */
  predicate HasEntry(rows: seq<UserGame>, userId: Id, gameId: Id)
  {
    exists i :: 0 <= i < |rows| && rows[i].userId == userId && rows[i].gameId == gameId
  }

  /** The partial update `data`: only the supplied fields change. */
  function Patch(e: UserGame, status: Option<Status>, playtime: Option<real>): (e': UserGame)
    ensures e'.id == e.id && e'.userId == e.userId && e'.gameId == e.gameId && e'.addedAt == e.addedAt
    ensures e'.status == if status.Some? then status.value else e.status
    ensures e'.playtime == if playtime.Some? then playtime else e.playtime
  {
    e.(status := status.GetOr(e.status), playtime := if playtime.Some? then playtime else e.playtime)
  }

  /** `PATCH /api/collection/:gameId { status?, playtime? }`. The body is
      validated first (400 for a negative playtime); then 404 when the user has
      no entry for `gameId`; otherwise that one entry gets the supplied fields. */
  method UpdateEntry(db: Database, userId: Id, gameId: Id, status: Option<Status>, playtime: Option<real>)
    returns (r: Reply<UserGame>)
    requires db.Valid()
    modifies db
    ensures db.Valid()
    ensures db.users == old(db.users) && db.games == old(db.games) && db.reviews == old(db.reviews)
    ensures !PlaytimeOk(playtime) ==> r == Fail(400, InvalidInput)
    ensures PlaytimeOk(playtime) && !HasEntry(old(db.userGames), userId, gameId) ==> r == Fail(404, NotInCollection)
    ensures r.Fail? ==> db.userGames == old(db.userGames)
    ensures r.Ok? <==> PlaytimeOk(playtime) && HasEntry(old(db.userGames), userId, gameId)
    ensures forall i :: 0 <= i < |old(db.userGames)| && old(db.userGames)[i].userId == userId
                        && old(db.userGames)[i].gameId == gameId && PlaytimeOk(playtime) ==>
              && db.userGames == old(db.userGames)[i := Patch(old(db.userGames)[i], status, playtime)]
              && r == Ok(db.userGames[i])
  {
    if !PlaytimeOk(playtime) {
      return Fail(400, InvalidInput);
    }
    var found := FindEntry(db.userGames, userId, gameId);
    if found.None? {
      return Fail(404, NotInCollection);
    }
    var i := found.value;
    var updated := Patch(db.userGames[i], status, playtime);
    ghost var rows := db.userGames;
    db.userGames := db.userGames[i := updated];
    assert EntriesValid(db.userGames, db.games) by {
      forall a, b | 0 <= a < b < |db.userGames|
        ensures db.userGames[a].id != db.userGames[b].id
        ensures db.userGames[a].userId != db.userGames[b].userId || db.userGames[a].gameId != db.userGames[b].gameId
      {
        assert rows[a].id == db.userGames[a].id && rows[a].userId == db.userGames[a].userId && rows[a].gameId == db.userGames[a].gameId;
        assert rows[b].id == db.userGames[b].id && rows[b].userId == db.userGames[b].userId && rows[b].gameId == db.userGames[b].gameId;
      }
    }
    r := Ok(updated);
  }

  // ---- DELETE /api/collection/:gameId ----

  /** `DELETE /api/collection/:gameId`: 404 when the user has no entry for
      `gameId`, otherwise exactly that entry is deleted and `{ success: true }`
      is sent. Afterwards the user has no entry for `gameId`, so a second
      delete gets 404. */
  method RemoveEntry(db: Database, userId: Id, gameId: Id) returns (r: Reply<bool>)
    requires db.Valid()
    modifies db
    ensures db.Valid()
    ensures db.users == old(db.users) && db.games == old(db.games) && db.reviews == old(db.reviews)
    ensures !HasEntry(old(db.userGames), userId, gameId) ==> r == Fail(404, NotInCollection) && db.userGames == old(db.userGames)
    ensures HasEntry(old(db.userGames), userId, gameId) ==> r == Ok(true)
    ensures forall i :: 0 <= i < |old(db.userGames)| && old(db.userGames)[i].userId == userId
                        && old(db.userGames)[i].gameId == gameId ==>
              db.userGames == RemoveAt(old(db.userGames), i)
    ensures !HasEntry(db.userGames, userId, gameId)
  {
    var found := FindEntry(db.userGames, userId, gameId);
    if found.None? {
      return Fail(404, NotInCollection);
    }
    var i := found.value;
    ghost var rows := db.userGames;
    RemoveEntryKeepsValid(db.userGames, db.games, i);
    db.userGames := RemoveAt(db.userGames, i);
    forall k | 0 <= k < |db.userGames| ensures !(db.userGames[k].userId == userId && db.userGames[k].gameId == gameId) {
      var k' := if k < i then k else k + 1;
      assert db.userGames[k] == rows[k'] && k' != i;
    }
    r := Ok(true);
  }
}

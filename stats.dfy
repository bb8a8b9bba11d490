/** The stats routes (`/api/stats`): the caller's collection statistics and
    the site-wide statistics, each computed from the tables on a cache miss
    and kept in Redis for a fixed number of seconds. */
module Stats {
  import opened Common
  import opened Db
  import opened Sorting
  import opened Frequency
  import opened TtlCache
  import Reviews

  // ---- User statistics ----

  /** The snapshot `GET /api/stats/me` returns. */
  datatype UserStats = UserStats(
    totalGames: nat,
    totalPlaytime: real,
    statusCount: StatusCount,
    topGenres: seq<KeyCount>,
    totalReviews: nat,
    averageRating: real)

  /** `prisma.userGame.findMany({ where: { userId } })`. */
  function EntriesOf(userGames: seq<UserGame>, userId: Id): (r: seq<UserGame>)
    ensures forall e :: e in r <==> e in userGames && e.userId == userId
    ensures forall e: UserGame :: e.userId == userId ==> multiset(r)[e] == multiset(userGames)[e]
  {
    Filter(userGames, (e: UserGame) => e.userId == userId)
  }

  /** `ug.playtime || 0`. */
  function Playtime(e: UserGame): real
  {
    if e.playtime.Some? then e.playtime.value else 0.0
  }

  /** `userGames.reduce((sum, ug) => sum + (ug.playtime || 0), 0)`. */
  function TotalPlaytime(rows: seq<UserGame>): (t: real)
    ensures (forall i :: 0 <= i < |rows| ==> PlaytimeOk(rows[i].playtime)) ==> t >= 0.0
    ensures (forall i :: 0 <= i < |rows| ==> rows[i].playtime.None?) ==> t == 0.0
  {
    if rows == [] then 0.0 else TotalPlaytime(rows[..|rows| - 1]) + Playtime(rows[|rows| - 1])
  }

  /** The total of a concatenation is the sum of the totals, so the order in
      which the rows are summed does not matter. */
  lemma {:induction false} TotalPlaytimeConcat(a: seq<UserGame>, b: seq<UserGame>)
    ensures TotalPlaytime(a + b) == TotalPlaytime(a) + TotalPlaytime(b)
  {
    if b == [] {
      assert a + b == a;
    } else {
      var init := b[..|b| - 1];
      assert (a + b)[..|a + b| - 1] == a + init;
      TotalPlaytimeConcat(a, init);
    }
  }

  /** With every playtime absent or non-negative, the total is at least the
      playtime of any one entry. */
  lemma {:induction false} TotalPlaytimeAtLeastEach(rows: seq<UserGame>, i: nat)
    requires i < |rows|
    requires forall j :: 0 <= j < |rows| ==> PlaytimeOk(rows[j].playtime)
    ensures TotalPlaytime(rows) >= Playtime(rows[i])
  {
    var init := rows[..|rows| - 1];
    assert forall j :: 0 <= j < |init| ==> init[j] == rows[j];
    if i < |rows| - 1 {
      TotalPlaytimeAtLeastEach(init, i);
    }
  }

  function Statuses(rows: seq<UserGame>): (s: seq<Status>)
    ensures |s| == |rows|
  {
    seq(|rows|, i requires 0 <= i < |rows| => rows[i].status)
  }

  /** The `statusCount` object: exactly the four statuses, each with a count. */
  datatype StatusCount = StatusCount(backlog: nat, playing: nat, completed: nat, dropped: nat)
  {
    function Get(st: Status): nat
    {
      match st
      case Backlog => backlog
      case Playing => playing
      case Completed => completed
      case Dropped => dropped
    }

    /** `statusCount[st]++`. */
    function Inc(st: Status): (c: StatusCount)
      ensures c.Get(st) == Get(st) + 1
      ensures forall other :: other != st ==> c.Get(other) == Get(other)
    {
      match st
      case Backlog => this.(backlog := backlog + 1)
      case Playing => this.(playing := playing + 1)
      case Completed => this.(completed := completed + 1)
      case Dropped => this.(dropped := dropped + 1)
    }

    function Total(): nat
    {
      backlog + playing + completed + dropped
    }
  }

  /** Each status paired with its number of entries in `rows`. */
  function StatusCounts(rows: seq<UserGame>): (c: StatusCount)
    ensures forall st :: c.Get(st) == multiset(Statuses(rows))[st]
  {
    var m := multiset(Statuses(rows));
    StatusCount(m[Backlog], m[Playing], m[Completed], m[Dropped])
  }

  lemma {:induction false} StatusOccurrences(s: seq<Status>)
    ensures multiset(s)[Backlog] + multiset(s)[Playing] + multiset(s)[Completed] + multiset(s)[Dropped] == |s|
  {
    if s != [] {
      var init := s[..|s| - 1];
      StatusOccurrences(init);
      assert s == init + [s[|s| - 1]];
      assert multiset(s) == multiset(init) + multiset{s[|s| - 1]};
      match s[|s| - 1]
      case Backlog =>
      case Playing =>
      case Completed =>
      case Dropped =>
    }
  }

  /** The four status counts add up to the number of entries. */
  lemma StatusCountsSum(rows: seq<UserGame>)
    ensures StatusCounts(rows).Total() == |rows|
  {
    StatusOccurrences(Statuses(rows));
  }

  /** The `statusCount` loop: start every status at 0 and add one per entry. */
  method CountStatuses(rows: seq<UserGame>) returns (counts: StatusCount)
    ensures counts == StatusCounts(rows)
  {
    counts := StatusCount(0, 0, 0, 0);
    var i := 0;
    while i < |rows|
      invariant 0 <= i <= |rows|
      invariant counts == StatusCounts(rows[..i])
    {
      assert Statuses(rows[..i + 1]) == Statuses(rows[..i]) + [rows[i].status];
      counts := counts.Inc(rows[i].status);
      i := i + 1;
    }
    assert rows[..i] == rows;
  }

  /** `ug.game.genres`: the genres of the entry's game. */
  function GenresOf(games: seq<Game>, e: UserGame): seq<string>
  {
    match FindGame(games, e.gameId)
    case Some(k) => games[k].genres
    case None => []
  }

  /** Every genre of every entry's game, entry by entry, in list order. */
  function AllGenres(rows: seq<UserGame>, games: seq<Game>): seq<string>
  {
    if rows == [] then [] else AllGenres(rows[..|rows| - 1], games) + GenresOf(games, rows[|rows| - 1])
  }

  lemma TallySnoc(s: seq<string>, g: string)
    ensures Tally(s + [g]) == Bump(Tally(s), g)
  {
    assert (s + [g])[..|s|] == s;
  }

  /** The inner `forEach`: counts each genre of one game into `counts`. */
  method BumpAll(counts: seq<KeyCount>, ghost seen: seq<string>, genres: seq<string>) returns (c: seq<KeyCount>)
    requires counts == Tally(seen)
    ensures c == Tally(seen + genres)
  {
    c := counts;
    ghost var counted := seen;
    var j := 0;
    while j < |genres|
      invariant 0 <= j <= |genres|
      invariant counted == seen + genres[..j]
      invariant c == Tally(counted)
    {
      TallySnoc(counted, genres[j]);
      c := Bump(c, genres[j]);
      counted := counted + [genres[j]];
      assert genres[..j + 1] == genres[..j] + [genres[j]];
      j := j + 1;
    }
    assert genres[..j] == genres;
  }

  /** The two nested `forEach` loops that fill `genreCounts`. */
  method CountGenres(rows: seq<UserGame>, games: seq<Game>) returns (counts: seq<KeyCount>)
    ensures counts == Tally(AllGenres(rows, games))
  {
    counts := [];
    var i := 0;
    while i < |rows|
      invariant 0 <= i <= |rows|
      invariant counts == Tally(AllGenres(rows[..i], games))
    {
      counts := BumpAll(counts, AllGenres(rows[..i], games), GenresOf(games, rows[i]));
      assert rows[..i + 1][..i] == rows[..i];
      i := i + 1;
    }
    assert rows[..i] == rows;
  }

  /** `Object.entries(genreCounts).sort((a, b) => b - a).slice(0, 5)`. */
  function TopGenres(counts: seq<KeyCount>): (r: seq<KeyCount>)
    ensures |r| == Min(5, |counts|)
    ensures Descending(r, Count)
    ensures multiset(r) <= multiset(counts)
  {
    Top(counts, Count, 5)
  }

  /** Each pair among the first `n` of a tally is an element of the counted
      sequence paired with its number of occurrences. */
  lemma TopOfTally(s: seq<string>, n: nat)
    ensures forall kc :: kc in Top(Tally(s), Count, n) ==> kc.key in s && kc.count == multiset(s)[kc.key] >= 1
  {
    var t := Tally(s);
    TallyKeys(s);
    forall kc | kc in Top(t, Count, n) ensures kc.key in s && kc.count == multiset(s)[kc.key] >= 1 {
      assert kc in multiset(Top(t, Count, n));
      assert kc in multiset(t);
      var i :| 0 <= i < |t| && t[i] == kc;
      TallyEntry(s, i);
      assert Keys(t)[i] == kc.key;
    }
  }

  /** `reviews.reduce((sum, r) => sum + r.rating, 0)`. */
  function SumRatings(vs: seq<Review>): real
  {
    if vs == [] then 0.0 else SumRatings(vs[..|vs| - 1]) + vs[|vs| - 1].rating
  }

  lemma {:induction false} SumRatingsBounds(vs: seq<Review>)
    requires forall i :: 0 <= i < |vs| ==> RatingOk(vs[i].rating)
    ensures |vs| as real <= SumRatings(vs) <= 10.0 * |vs| as real
  {
    if vs != [] {
      SumRatingsBounds(vs[..|vs| - 1]);
    }
  }

  lemma MeanBounds(sum: real, n: real)
    requires n > 0.0 && n <= sum <= 10.0 * n
    ensures 1.0 <= sum / n <= 10.0
  {
    var q := sum / n;
    assert q * n == sum;
    assert (10.0 - q) * n == 10.0 * n - sum >= 0.0;
    assert (q - 1.0) * n == sum - n >= 0.0;
  }

  /** `Math.round(x * 10) / 10`: `x` to one decimal, halves rounded up. */
  function Round1(x: real): (y: real)
    ensures (y * 10.0).Floor as real == y * 10.0
    ensures -0.05 < y - x <= 0.05
    ensures 1.0 <= x <= 10.0 ==> 1.0 <= y <= 10.0
  {
    ((x * 10.0 + 0.5).Floor as real) / 10.0
  }

  /** `averageRating`: 0 with no reviews, otherwise the mean rating rounded to
      one decimal, which then lies within the rating scale 1..10. */
  function AverageRating(vs: seq<Review>): (a: real)
    ensures |vs| == 0 ==> a == 0.0
    ensures (a * 10.0).Floor as real == a * 10.0
    ensures |vs| > 0 ==> -0.05 < a - SumRatings(vs) / |vs| as real <= 0.05
    ensures |vs| > 0 && (forall v :: v in vs ==> RatingOk(v.rating)) ==> 1.0 <= a <= 10.0
  {
    if |vs| == 0 then 0.0
    else
      var mean := SumRatings(vs) / |vs| as real;
      assert (forall v :: v in vs ==> RatingOk(v.rating)) ==> 1.0 <= mean <= 10.0 by {
        if forall v :: v in vs ==> RatingOk(v.rating) {
          SumRatingsBounds(vs);
          MeanBounds(SumRatings(vs), |vs| as real);
        }
      }
      Round1(mean)
  }

  /** The statistics of one user, computed from the tables. */
  function UserStatsOf(userGames: seq<UserGame>, games: seq<Game>, reviews: seq<Review>, userId: Id): (s: UserStats)
    ensures s.totalGames == |EntriesOf(userGames, userId)|
    ensures s.totalPlaytime == TotalPlaytime(EntriesOf(userGames, userId))
    ensures s.statusCount == StatusCounts(EntriesOf(userGames, userId))
    ensures s.statusCount.Total() == s.totalGames
    ensures s.topGenres == Top(Tally(AllGenres(EntriesOf(userGames, userId), games)), Count, 5)
    ensures |s.topGenres| <= 5 && Descending(s.topGenres, Count)
    ensures forall kc :: kc in s.topGenres ==> kc.count == multiset(AllGenres(EntriesOf(userGames, userId), games))[kc.key] >= 1
    ensures s.totalReviews == |Reviews.OfUser(reviews, userId)|
    ensures s.averageRating == AverageRating(Reviews.OfUser(reviews, userId))
    ensures s.totalReviews == 0 ==> s.averageRating == 0.0
    ensures s.totalReviews > 0 ==>
              -0.05 < s.averageRating - SumRatings(Reviews.OfUser(reviews, userId)) / s.totalReviews as real <= 0.05
    ensures s.totalReviews > 0 && (forall v :: v in Reviews.OfUser(reviews, userId) ==> RatingOk(v.rating)) ==>
              1.0 <= s.averageRating <= 10.0
  {
    var mine := EntriesOf(userGames, userId);
    var genres := AllGenres(mine, games);
    var theirs := Reviews.OfUser(reviews, userId);
    StatusCountsSum(mine);
    TopOfTally(genres, 5);
    UserStats(|mine|, TotalPlaytime(mine), StatusCounts(mine), TopGenres(Tally(genres)), |theirs|, AverageRating(theirs))
  }

  /** The body of the `/me` handler after a cache miss, with its loops. */
  method ComputeUserStats(userGames: seq<UserGame>, games: seq<Game>, reviews: seq<Review>, userId: Id) returns (s: UserStats)
    ensures s == UserStatsOf(userGames, games, reviews, userId)
  {
    var mine := EntriesOf(userGames, userId);
    var statusCount := CountStatuses(mine);
    var genreCounts := CountGenres(mine, games);
    var theirs := Reviews.OfUser(reviews, userId);
    s := UserStats(|mine|, TotalPlaytime(mine), statusCount, TopGenres(genreCounts), |theirs|, AverageRating(theirs));
  }

  const UserStatsTtl: nat := 10
  const GlobalStatsTtl: nat := 600
  const GlobalKey: string := "stats:global"

  function UserStatsKey(userId: Id): (k: string)
    ensures |k| == 6 + |userId| && k[..6] == "stats:" && k[6..] == userId
    ensures k == GlobalKey <==> userId == "global"
  {
    "stats:" + userId
  }

  /** `GET /api/stats/me`: a cached snapshot under `stats:<userId>` is returned
      as stored; otherwise the snapshot is computed and stored for 10 seconds. */
  method UserStatsHandler(cache: Cache<UserStats>, userGames: seq<UserGame>, games: seq<Game>, reviews: seq<Review>,
                          userId: Id, now: int) returns (s: UserStats)
    modifies cache
    ensures Lookup(old(cache.entries), UserStatsKey(userId), now).Some? ==>
              s == Lookup(old(cache.entries), UserStatsKey(userId), now).value && cache.entries == old(cache.entries)
    ensures Lookup(old(cache.entries), UserStatsKey(userId), now).None? ==>
              s == UserStatsOf(userGames, games, reviews, userId)
              && cache.entries == Store(old(cache.entries), UserStatsKey(userId), UserStatsTtl, s, now)
  {
    var key := UserStatsKey(userId);
    var cached := cache.Get(key, now);
    if cached.Some? {
      return cached.value;
    }
    s := ComputeUserStats(userGames, games, reviews, userId);
    cache.SetEx(key, UserStatsTtl, s, now);
  }

  // ---- Global statistics ----

  /** One element of `popularGames`: the game row (null when missing) and its
      number of collection entries. */
  datatype PopularGame = PopularGame(game: Option<Game>, userCount: nat)

  datatype GlobalStats = GlobalStats(
    totalUsers: nat,
    totalGames: nat,
    totalReviews: nat,
    totalCollections: nat,
    popularGames: seq<PopularGame>)

  function EntryGameIds(rows: seq<UserGame>): (ids: seq<Id>)
    ensures |ids| == |rows|
  {
    seq(|rows|, i requires 0 <= i < |rows| => rows[i].gameId)
  }

  /** `prisma.game.findUnique({ where: { id } })` as a value. */
  function GameById(games: seq<Game>, id: Id): (r: Option<Game>)
    ensures r.Some? ==> r.value.id == id && r.value in games
    ensures r.None? <==> id !in GameIds(games)
  {
    match FindGame(games, id)
    case Some(k) => Some(games[k])
    case None => None
  }

  lemma EntryGamesExist(rows: seq<UserGame>, games: seq<Game>)
    ensures EntriesValid(rows, games) ==> forall x :: x in EntryGameIds(rows) ==> x in GameIds(games)
  {
    if EntriesValid(rows, games) {
      forall x | x in EntryGameIds(rows) ensures x in GameIds(games) {
        var i :| 0 <= i < |rows| && EntryGameIds(rows)[i] == x;
      }
    }
  }

  /** `groupBy gameId` with `_count`, most entries first, `take: 10`, each
      joined with its game row. */
  function PopularGames(rows: seq<UserGame>, games: seq<Game>): (r: seq<PopularGame>)
    ensures |r| == Min(10, |Tally(EntryGameIds(rows))|)
    ensures forall i :: 0 < i < |r| ==> r[i - 1].userCount >= r[i].userCount
    ensures forall i :: 0 <= i < |r| ==> r[i].userCount >= 1
    ensures forall i :: 0 <= i < |r| && r[i].game.Some? ==>
              r[i].userCount == multiset(EntryGameIds(rows))[r[i].game.value.id]
    ensures EntriesValid(rows, games) ==> forall i :: 0 <= i < |r| ==> r[i].game.Some?
  {
    var ids := EntryGameIds(rows);
    var top := Top(Tally(ids), Count, 10);
    TopOfTally(ids, 10);
    EntryGamesExist(rows, games);
    JoinGamesFacts(top, ids, games, EntriesValid(rows, games));
    JoinGames(top, games)
  }

  /** The ten are the most collected games: a game that has entries but is
      not among them has no more entries than any game listed. */
  lemma PopularIsMostCollected(rows: seq<UserGame>, games: seq<Game>, i: nat, x: Id)
    requires EntriesValid(rows, games)
    requires i < |PopularGames(rows, games)|
    requires x in EntryGameIds(rows)
    requires forall j :: 0 <= j < |PopularGames(rows, games)| ==>
               PopularGames(rows, games)[j].game.Some? && PopularGames(rows, games)[j].game.value.id != x
    ensures PopularGames(rows, games)[i].userCount >= multiset(EntryGameIds(rows))[x]
  {
    var ids := EntryGameIds(rows);
    var t := Tally(ids);
    var top := Top(t, Count, 10);
    var r := PopularGames(rows, games);
    assert r == JoinGames(top, games);
    TallyKeys(ids);
    assert x in Keys(t);
    var k :| 0 <= k < |t| && Keys(t)[k] == x;
    TallyEntry(ids, k);
    forall m | 0 <= m < |top| ensures top[m].key != t[k].key {
      assert r[m].game.value.id == top[m].key;
    }
    LeftOutRanksBelow(t, 10, k, i);
  }

  /** A group left out of the first `n` has no larger count than any group kept. */
  lemma LeftOutRanksBelow(t: seq<KeyCount>, n: nat, k: nat, j: nat)
    requires k < |t| && j < |Top(t, Count, n)|
    requires forall m :: 0 <= m < |Top(t, Count, n)| ==> Top(t, Count, n)[m].key != t[k].key
    ensures Top(t, Count, n)[j].count >= t[k].count
  {
    var top := Top(t, Count, n);
    assert t[k] !in top;
    assert t[k] in multiset(t);
    assert t[k] in multiset(t) - multiset(top);
    assert top[j] in top;
    TopHoldsLargest(t, Count, n, t[k], top[j]);
  }

  /** No game is listed twice. */
  lemma PopularGamesDistinct(rows: seq<UserGame>, games: seq<Game>)
    ensures forall i, j :: 0 <= i < j < |PopularGames(rows, games)| ==>
              PopularGames(rows, games)[i].game.Some? && PopularGames(rows, games)[j].game.Some? ==>
              PopularGames(rows, games)[i].game.value.id != PopularGames(rows, games)[j].game.value.id
  {
    var ids := EntryGameIds(rows);
    var t := Tally(ids);
    var top := Top(t, Count, 10);
    var r := PopularGames(rows, games);
    assert r == JoinGames(top, games);
    TallyKeys(ids);
    TopKeysDistinct(t, 10);
    forall i, j | 0 <= i < j < |r| && r[i].game.Some? && r[j].game.Some?
      ensures r[i].game.value.id != r[j].game.value.id
    {
      assert r[i].game.value.id == top[i].key && r[j].game.value.id == top[j].key;
    }
  }

  /** The first `n` groups of a table with distinct keys have distinct keys. */
  lemma TopKeysDistinct(t: seq<KeyCount>, n: nat)
    requires DistinctKeys(t)
    ensures DistinctKeys(Top(t, Count, n))
  {
    var top := Top(t, Count, n);
    assert Distinct(t) by {
      forall i, j | 0 <= i < j < |t| ensures t[i] != t[j] {
        assert t[i].key != t[j].key;
      }
    }
    TopDistinct(t, Count, n);
    forall i, j | 0 <= i < j < |top| ensures top[i].key != top[j].key {
      assert top[i] in multiset(top) && top[j] in multiset(top);
      var a :| 0 <= a < |t| && t[a] == top[i];
      var b :| 0 <= b < |t| && t[b] == top[j];
      assert a != b;
    }
  }

  /** What `PopularGames` needs of the join, from what is known of the groups. */
  lemma JoinGamesFacts(top: seq<KeyCount>, ids: seq<Id>, games: seq<Game>, known: bool)
    requires forall kc :: kc in top ==> kc.key in ids && kc.count == multiset(ids)[kc.key] >= 1
    requires known ==> forall x :: x in ids ==> x in GameIds(games)
    ensures forall i :: 0 <= i < |top| ==> JoinGames(top, games)[i].userCount >= 1
    ensures forall i :: 0 <= i < |top| && JoinGames(top, games)[i].game.Some? ==>
              JoinGames(top, games)[i].userCount == multiset(ids)[JoinGames(top, games)[i].game.value.id]
    ensures known ==> forall i :: 0 <= i < |top| ==> JoinGames(top, games)[i].game.Some?
  {
    var r := JoinGames(top, games);
    forall i | 0 <= i < |top|
      ensures r[i].userCount >= 1
      ensures r[i].game.Some? ==> r[i].userCount == multiset(ids)[r[i].game.value.id]
      ensures known ==> r[i].game.Some?
    {
      assert top[i] in top;
    }
  }

  /** Pairs each `(gameId, count)` group with its game row. */
  function JoinGames(top: seq<KeyCount>, games: seq<Game>): (r: seq<PopularGame>)
    ensures |r| == |top|
    ensures forall i :: 0 <= i < |r| ==> r[i] == PopularGame(GameById(games, top[i].key), top[i].count)
  {
    seq(|top|, i requires 0 <= i < |top| => PopularGame(GameById(games, top[i].key), top[i].count))
  }

  /** The global snapshot: row counts of the four tables and the popular games. */
  function GlobalStatsOf(users: seq<User>, games: seq<Game>, userGames: seq<UserGame>, reviews: seq<Review>)
    : (g: GlobalStats)
    ensures g.totalUsers == |users| && g.totalGames == |games|
    ensures g.totalReviews == |reviews| && g.totalCollections == |userGames|
    ensures g.popularGames == PopularGames(userGames, games)
    ensures |g.popularGames| == Min(10, |Tally(EntryGameIds(userGames))|)
  {
    GlobalStats(|users|, |games|, |reviews|, |userGames|, PopularGames(userGames, games))
  }

  /** `GET /api/stats/global`: a cached snapshot under `stats:global` is
      returned as stored; otherwise the snapshot is computed and stored for
      600 seconds. */
  method GlobalStatsHandler(cache: Cache<GlobalStats>, users: seq<User>, games: seq<Game>, userGames: seq<UserGame>,
                            reviews: seq<Review>, now: int) returns (s: GlobalStats)
    modifies cache
    ensures Lookup(old(cache.entries), GlobalKey, now).Some? ==>
              s == Lookup(old(cache.entries), GlobalKey, now).value && cache.entries == old(cache.entries)
    ensures Lookup(old(cache.entries), GlobalKey, now).None? ==>
              s == GlobalStatsOf(users, games, userGames, reviews)
              && cache.entries == Store(old(cache.entries), GlobalKey, GlobalStatsTtl, s, now)
  {
    var cached := cache.Get(GlobalKey, now);
    if cached.Some? {
      return cached.value;
    }
    s := GlobalStatsOf(users, games, userGames, reviews);
    cache.SetEx(GlobalKey, GlobalStatsTtl, s, now);
  }
}

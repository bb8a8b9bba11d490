# gamevault core, modelled in Dafny

gamevault is a video-game tracker. Its API (Fastify, Prisma over
PostgreSQL, Redis) lets a user keep a collection of games with a status
(BACKLOG, PLAYING, COMPLETED, DROPPED) and a playtime, review games on a
1..10 scale, and read per-user and site-wide statistics. It also searches
the RAWG catalog through a response cache, and it limits each client to a
fixed number of requests per route and time window. The web client keeps
the signed-in user and token in a small store mirrored into `localStorage`.

This project models the request handlers of that API and the client's auth
store. Each request is one atomic step over:

- the Prisma tables, held as sequences in insertion order inside a
  `Database` object whose invariant `Valid()` states the unique and
  foreign-key constraints;
- Redis, a map from keys to values with an expiry time, read and written
  at an explicit time `now` in seconds;
- RAWG, an oracle object `Catalog` with fixed answers per request and a
  ghost counter of the calls made to it.

Modules, one per source file plus shared ones:

| module | file | models |
|---|---|---|
| `Common` | common.dfy | Option/Reply types, the status enum, `findFirst`, `where` filters, offset/limit pagination, string splitting |
| `Sorting` | sorting.dfy | stable descending order by a key and "the first n" of it |
| `Frequency` | tally.dfy | a JavaScript object used as a counter, in key insertion order |
| `TtlCache` | ttl_cache.dfy | Redis `GET` / `SETEX` |
| `Upstream` | upstream.dfy | the RAWG API |
| `Db` | db.dfy | the four Prisma tables and their constraints |
| `Collection` | collection.dfy | `apps/api/src/routes/collection.routes.ts` |
| `Reviews` | reviews.dfy | `apps/api/src/routes/reviews.routes.ts` |
| `Auth` | auth.dfy | `apps/api/src/routes/auth.routes.ts` |
| `Stats` | stats.dfy | `apps/api/src/routes/stats.routes.ts` |
| `Games` | games.dfy | `apps/api/src/routes/games.routes.ts` |
| `RateLimit` | rate_limit.dfy | `apps/api/src/middlewares/rateLimit.middleware.ts` |
| `AuthStore` | auth_store.dfy | `apps/web/lib/store.ts` |

The Prisma schema is not part of this model. The table constraints in
`Db.Valid` are the ones the handlers rely on:

- unique `Game.rawgId`, looked up with `findUnique`;
- the compound key `userId_gameId` on reviews;
- one collection entry per (user, game), which the add handler's duplicate
  check guarantees;
- every entry and every review points at an existing game.

Points where the code's behaviour may surprise, each modelled as the code
does it:

- **Review create.** A second review of the same game gets 400 "Already
  reviewed this game" (`apps/api/src/routes/reviews.routes.ts:121-129`).
  The handler does not check that the caller has the game in their
  collection.
- **User-stats TTL.** The comment at `apps/api/src/routes/stats.routes.ts:78`
  says "Cache for 5 minutes", but the `setex` on the next line stores the
  snapshot for 10 seconds. The model uses 10 seconds.
- **Search cache key.** The key at `apps/api/src/routes/games.routes.ts:30`
  is built from the raw `q` and `page` texts.
- **Search validation.** `Games.Search` accepts any `page` text, as the
  schema does. The digit-only check lives in a separate handler,
  `Games.SearchChecked` (see Findings).
- **Length limits.** zod's `min`/`max` on strings count UTF-16 code units,
  so `Db.ContentOk` and `Auth.RegisterOk` measure `Common.Utf16Length`, not
  the number of code points.

## Model

| member | source | states |
|---|---|---|
| `Common.FindFirst` | apps/api/src/routes/collection.routes.ts:202-204 | the first row satisfying the condition, or none when no row does |
| `Common.Utf16Length` | apps/api/src/routes/reviews.routes.ts:8 | the number of UTF-16 code units: between the number of code points and twice it, and equal to it when every code point is in the basic plane |
| `Common.Filter` | apps/api/src/routes/collection.routes.ts:49-52 | exactly the rows satisfying the `where` condition, each as often as in the table |
| `Common.FilterConcat` | apps/api/src/routes/collection.routes.ts:49-52 | filtering keeps table order: the filter of two concatenated tables is the concatenation of their filters |
| `Common.Paginate` | apps/api/src/routes/collection.routes.ts:45-73 | `IsPage`: limit/offset default to 20/0; `total` is the number of matches; the page holds `min(limit, total - offset)` items (none from `offset >= total` on), item `i` being match `offset + i`; `hasMore` iff `offset + limit < total` |
| `Common.ConsecutivePagesTile` | apps/api/src/routes/collection.routes.ts:60-62 | the page at `offset` followed by the page at `offset + limit` is the double page at `offset`, so paging visits every match once |
| `Common.LastPageHoldsRest` | apps/api/src/routes/collection.routes.ts:73 | a page with `hasMore` false holds every match from `offset` on |
| `Sorting.SortDesc` | apps/api/src/routes/collection.routes.ts:60 | `orderBy ... 'desc'`: a permutation of the input with keys never increasing |
| `Sorting.InsertDescPerm` | apps/api/src/routes/collection.routes.ts:60 | inserting an element into the order adds exactly that element |
| `Sorting.InsertDescSorted` | apps/api/src/routes/collection.routes.ts:60 | inserting into a descending order keeps it descending |
| `Sorting.SortDescStable` | apps/api/src/routes/stats.routes.ts:55-56 | the sort is stable: the elements with any given key keep their input order |
| `Sorting.SortedPage` | apps/api/src/routes/collection.routes.ts:53-64 | `findMany` with `orderBy ... 'desc'`, `skip` and `take`: a page (`IsPage`) of the descending order of the rows, sorted and holding only those rows |
| `Sorting.PageOfDescending` | apps/api/src/routes/collection.routes.ts:60-62 | a page cut from a sorted listing is sorted and holds only listed elements |
| `Sorting.Top` | apps/api/src/routes/stats.routes.ts:55-58 | `sort(...).slice(0, n)`: `min(n, length)` elements, keys never increasing, drawn from the input |
| `Sorting.TopHoldsLargest` | apps/api/src/routes/stats.routes.ts:55-58 | nothing left out of the first `n` has a larger key than anything kept |
| `Sorting.TopDistinct` | apps/api/src/routes/stats.routes.ts:107-118 | the first `n` of a sequence without repeats has no repeats |
| `Sorting.TopKeepsTieOrder` | apps/api/src/routes/stats.routes.ts:55-58 | among equal keys, the kept elements are the first ones of the input, in input order |
| `Frequency.TallyCountOf` | apps/api/src/routes/stats.routes.ts:48-53 | the count stored for each key equals its number of occurrences |
| `Frequency.TallyKeys` | apps/api/src/routes/stats.routes.ts:48-55 | the table's keys are the distinct counted values, each once, in order of first occurrence |
| `Frequency.TallyEntry` | apps/api/src/routes/stats.routes.ts:48-58 | each pair holds its key's number of occurrences, at least 1 |
| `Frequency.TallyTotal` | apps/api/src/routes/stats.routes.ts:48-53 | the counts add up to the number of counted values |
| `Frequency.BumpCountOf` | apps/api/src/routes/stats.routes.ts:50 | `counts[x] = (counts[x] \|\| 0) + 1` raises the count of `x` by one and no other count |
| `TtlCache.StoreThenLookup` | apps/api/src/routes/games.routes.ts:49 | a value stored with TTL `ttl` reads back for exactly `ttl` seconds, and storing changes no other key |
| `TtlCache.Cache.Get` | apps/api/src/routes/games.routes.ts:31 | `GET` answers the stored value while it has not expired |
| `TtlCache.Cache.SetEx` | apps/api/src/routes/games.routes.ts:49 | `SETEX` stores the value under the key with expiry `now + ttl` |
| `Upstream.Catalog.FetchGame` | apps/api/src/routes/collection.routes.ts:114-120 | the RAWG answer for the id, one more upstream call |
| `Upstream.Catalog.FetchSearch` | apps/api/src/routes/games.routes.ts:38-44 | the RAWG answer for the query and page, one more upstream call |
| `Upstream.Catalog.FetchDetail` | apps/api/src/routes/games.routes.ts:84-90 | the RAWG answer for the id, one more upstream call |
| `Db.PlaytimeOk` | apps/api/src/routes/collection.routes.ts:8 | `playtime: z.number().min(0).optional()`: absent or at least 0 |
| `Db.RatingOk` | apps/api/src/routes/reviews.routes.ts:7 | `rating: z.number().min(1).max(10)`: within 1..10 |
| `Db.ContentOk` | apps/api/src/routes/reviews.routes.ts:8 | `content: z.string().max(2000).optional()`: absent or at most 2000 UTF-16 code units |
| `Db.GameFromRawg` | apps/api/src/routes/collection.routes.ts:137-150 | the new game row: `rawgId`, name, slug, description, rating, metacritic and image are RAWG's; genre and platform names are RAWG's, or empty lists when missing; the release date is RAWG's, or null when absent or empty |
| `Db.NewId` | apps/api/src/routes/collection.routes.ts:154-160 | a generated id is not in use |
| `Db.FindGame` | apps/api/src/routes/reviews.routes.ts:116-119 | the game with that id, none exactly when no game has it |
| `Db.FindGameByRawgId` | apps/api/src/routes/collection.routes.ts:110 | the game with that `rawgId`, or none when no game has it |
| `Db.FindEntry` | apps/api/src/routes/collection.routes.ts:245-247 | the user's entry for the game, or none when there is none |
| `Db.FindReview` | apps/api/src/routes/reviews.routes.ts:186-188 | the review with that id, none exactly when no review has it |
| `Db.FindReviewBy` | apps/api/src/routes/reviews.routes.ts:122-126 | the user's review of the game, or none when there is none |
| `Db.RemoveAt` | apps/api/src/routes/collection.routes.ts:253-255 | the table without exactly the deleted row, the others in order |
| `Db.RemoveEntryKeepsValid` | apps/api/src/routes/collection.routes.ts:253-255 | deleting an entry keeps the entry constraints |
| `Db.RemoveReviewKeepsValid` | apps/api/src/routes/reviews.routes.ts:251-253 | deleting a review keeps the review constraints |
| `Db.Database.Valid` | apps/api/src/routes/collection.routes.ts:100-110 | the table constraints the handlers rely on: unique ids, unique user email and username, unique `rawgId` (looked up with `findUnique`), one entry and one review per (user, game), every entry and review pointing at an existing game, and the schema bounds on playtime, rating and content |
| `Db.AddGameKeepsValid` | apps/api/src/routes/collection.routes.ts:110-150 | creating a game with a fresh id and an unused `rawgId` keeps `rawgId` unique and every existing row's game reference |
| `Collection.Matching` | apps/api/src/routes/collection.routes.ts:49-52 | exactly the caller's entries, with the given status when one is given, each as often as in the table |
| `Collection.ListCollection` | apps/api/src/routes/collection.routes.ts:41-76 | `IsPage` of the caller's (filtered) entries in newest-first order: `total` counts them all; the page holds `min(limit, total - offset)` of them (none from `offset >= total` on), item `i` being entry `offset + i` of that order; `hasMore` iff `offset + limit < total`; every item is a matching entry |
| `Collection.FreshUserListsNothing` | apps/api/src/__tests__/integration/collection.test.ts:60-73 | a user without entries gets an empty page with total 0 and no more pages |
| `Collection.FirstPageHoldsAll` | apps/api/src/routes/collection.routes.ts:60-73 | a first page without more pages holds every matching entry |
| `Collection.FindByRawgId` | apps/api/src/routes/collection.routes.ts:101-103 | an entry is found exactly when the user already has a game with that `rawgId` |
| `Collection.AddEntryKeepsValid` | apps/api/src/routes/collection.routes.ts:154-160 | a new entry with a fresh id, an existing game and a new (user, game) pair keeps the entry constraints |
| `Collection.AddToCollection` | apps/api/src/routes/collection.routes.ts:95-173 | 400 for a negative playtime; 400 with no change for a `rawgId` already collected; the existing game is reused, otherwise fetched and created; 404 with nothing created when the fetch fails; otherwise exactly one entry is added, with status BACKLOG by default and the given playtime; RAWG is called only when no game has the `rawgId`; constraints kept |
| `Collection.Patch` | apps/api/src/routes/collection.routes.ts:210-212 | only the supplied status and playtime change; id, user, game and `addedAt` stay |
| `Collection.UpdateEntry` | apps/api/src/routes/collection.routes.ts:196-225 | 400 for invalid input before any lookup; 404 with no change when the user has no entry for the game; otherwise exactly that entry is patched |
| `Collection.RemoveEntry` | apps/api/src/routes/collection.routes.ts:241-258 | 404 with no change when there is no entry; otherwise exactly that entry is deleted; afterwards the user has no entry for the game, so a second remove gets 404 |
| `Reviews.OfGame` | apps/api/src/routes/reviews.routes.ts:44 | exactly the reviews of the game, each as often as in the table |
| `Reviews.ListGameReviews` | apps/api/src/routes/reviews.routes.ts:35-69 | `IsPage` of the game's reviews in newest-first order: `total` counts them all; defaults 20/0; the page holds `min(limit, total - offset)` of them (none from `offset >= total` on), item `i` being review `offset + i` of that order; `hasMore` iff `offset + limit < total`; every item is a review of the game |
| `Reviews.GameReviewsTotal` | apps/api/src/routes/reviews.routes.ts:57 | `total` equals `count({ where: { gameId } })` |
| `Reviews.TotalIsCount` | apps/api/src/routes/reviews.routes.ts:57 | the number of listed matches equals the row count of the game's reviews |
| `Reviews.OfUser` | apps/api/src/routes/stats.routes.ts:61-63 | exactly the user's reviews, each as often as in the table (shared by `/api/reviews/me` and the user statistics) |
| `Reviews.MyReviews` | apps/api/src/routes/reviews.routes.ts:79-91 | all of the caller's reviews and no others, each as often as in the table, newest first |
| `Reviews.CreateOk` | apps/api/src/routes/reviews.routes.ts:5-9 | `createReviewSchema`: rating within 1..10 and content absent or at most 2000 UTF-16 code units |
| `Reviews.UpdateOk` | apps/api/src/routes/reviews.routes.ts:11-14 | `updateReviewSchema`: the same bounds on whichever fields are given |
| `Reviews.AddReviewKeepsValid` | apps/api/src/routes/reviews.routes.ts:132-138 | a valid review with a fresh id for an existing game and a new (user, game) pair keeps the review constraints |
| `Reviews.CreateReview` | apps/api/src/routes/reviews.routes.ts:110-157 | 400 unless rating is 1..10 and content has at most 2000 characters; 404 when the game is missing; 400 when the caller already reviewed it; otherwise exactly one review with the caller's id and the given fields is added; failures change nothing |
| `Reviews.Revise` | apps/api/src/routes/reviews.routes.ts:198-200 | only the supplied rating and content change |
| `Reviews.ReviseKeepsValid` | apps/api/src/routes/reviews.routes.ts:198-200 | revising a review within the schema bounds keeps the review constraints |
| `Reviews.UpdateReview` | apps/api/src/routes/reviews.routes.ts:180-219 | 400 for invalid input; 404 for an unknown id; 403 for someone else's review; these leave the table unchanged; otherwise exactly that review is revised |
| `Reviews.DeleteReview` | apps/api/src/routes/reviews.routes.ts:235-256 | 404 for an unknown id and 403 for someone else's review, both with no change; otherwise exactly that review is deleted and its id is gone |
| `Auth.RegisterOk` | apps/api/src/routes/auth.routes.ts:6-10 | `registerSchema`: a valid email, a username of 3..20 UTF-16 code units and a password of at least 8 |
| `Auth.Taken` | apps/api/src/routes/auth.routes.ts:37-43 | some user already has the email or the username |
| `Auth.Register` | apps/api/src/routes/auth.routes.ts:32-73 | 400 unless the email is valid, the username has 3..20 characters and the password at least 8; 400 with no user created when the email or the username is taken; otherwise exactly one user is added, storing `hash(password)`; the reply has no password and a token for the new id |
| `Auth.Login` | apps/api/src/routes/auth.routes.ts:89-124 | 400 for a malformed email; 401 "Invalid credentials" for an unknown email or a wrong password; otherwise id, email and username and a token for that id |
| `Auth.LoginHidesAccounts` | apps/api/src/routes/auth.routes.ts:94-105 | an unknown email and a wrong password get the identical 401 reply |
| `Auth.LoginAfterRegister` | apps/api/src/__tests__/integration/auth.test.ts:96-126 | logging in with the registered email and password succeeds for the new user |
| `Auth.Me` | apps/api/src/routes/auth.routes.ts:134-150 | the token user's profile without password, 404 exactly when no user has that id |
| `Stats.EntriesOf` | apps/api/src/routes/stats.routes.ts:25-30 | exactly the user's collection entries, each as often as in the table |
| `Stats.TotalPlaytime` | apps/api/src/routes/stats.routes.ts:34 | the sum of the playtimes, a missing one counting 0: at least 0 when every playtime is valid, 0 when every playtime is missing |
| `Stats.TotalPlaytimeConcat` | apps/api/src/routes/stats.routes.ts:34 | the playtime total of two lists is the sum of their totals |
| `Stats.TotalPlaytimeAtLeastEach` | apps/api/src/routes/stats.routes.ts:34 | with valid playtimes the total is at least the playtime of every single entry |
| `Stats.StatusCount.Inc` | apps/api/src/routes/stats.routes.ts:44 | `statusCount[st]++` raises that status by one and no other |
| `Stats.StatusCounts` | apps/api/src/routes/stats.routes.ts:36-45 | each of the four statuses with its number of entries |
| `Stats.StatusCountsSum` | apps/api/src/routes/stats.routes.ts:33-45 | the four counts add up to `totalGames` |
| `Stats.CountStatuses` | apps/api/src/routes/stats.routes.ts:36-45 | the loop builds exactly the status counts |
| `Stats.BumpAll` | apps/api/src/routes/stats.routes.ts:49-51 | the inner loop extends the frequency table by one game's genres, as if they had been counted with the rest |
| `Stats.CountGenres` | apps/api/src/routes/stats.routes.ts:48-53 | the nested loops build exactly the frequency table of all genres of the user's games |
| `Stats.TopGenres` | apps/api/src/routes/stats.routes.ts:55-58 | `min(5, genres)` pairs, counts never increasing, drawn from the frequency table |
| `Stats.TopOfTally` | apps/api/src/routes/stats.routes.ts:55-58 | every pair among the first `n` of a frequency table is a counted value with its number of occurrences, at least 1 |
| `Stats.Round1` | apps/api/src/routes/stats.routes.ts:75 | the result is a whole number of tenths within 0.05 of the input (the input rounded half-up to one decimal), and stays within 1..10 when the input does |
| `Stats.AverageRating` | apps/api/src/routes/stats.routes.ts:65-75 | 0 with no reviews; always a whole number of tenths; otherwise within 0.05 of the mean rating, and within 1..10 when every rating is valid |
| `Stats.UserStatsOf` | apps/api/src/routes/stats.routes.ts:33-76 | over the user's entries: `totalGames` is their number and the sum of the status counts, `totalPlaytime` their playtime total, `statusCount` their status counts, `topGenres` the first 5 of their genre frequency table (each pair a genre with its number of occurrences); over the user's reviews: `totalReviews` is their number and `averageRating` is 0 without reviews, otherwise within 0.05 of their mean rating, and within 1..10 when each of the user's own ratings is valid |
| `Stats.ComputeUserStats` | apps/api/src/routes/stats.routes.ts:25-76 | the handler's loops compute exactly that snapshot |
| `Stats.UserStatsKey` | apps/api/src/routes/stats.routes.ts:17 | `stats:<userId>`, equal to the global key exactly for the id `global` |
| `Stats.UserStatsHandler` | apps/api/src/routes/stats.routes.ts:13-82 | a cached snapshot under `stats:<userId>` is returned as stored with the cache unchanged; otherwise the snapshot is computed and stored for 10 seconds |
| `Stats.GameById` | apps/api/src/routes/stats.routes.ts:122-124 | the game with that id, null exactly when there is none |
| `Stats.PopularGames` | apps/api/src/routes/stats.routes.ts:107-130 | exactly `min(10, number of collected games)` items, `userCount` never increasing and at least 1, each `userCount` the game's number of entries; with valid references every game is found |
| `Stats.PopularIsMostCollected` | apps/api/src/routes/stats.routes.ts:107-118 | a collected game left out of the list has no more entries than any listed game |
| `Stats.PopularGamesDistinct` | apps/api/src/routes/stats.routes.ts:107-118 | no game is listed twice |
| `Stats.GlobalStatsOf` | apps/api/src/routes/stats.routes.ts:99-138 | the four counts are the table sizes, and `popularGames` is `Stats.PopularGames` of the entries: the most-collected games, `min(10, number of collected games)` of them, counts non-increasing and exact |
| `Stats.GlobalStatsHandler` | apps/api/src/routes/stats.routes.ts:90-144 | a cached snapshot under `stats:global` is returned as stored; otherwise the snapshot is computed and stored for 600 seconds |
| `Games.ValidateSearchAsWritten` | apps/api/src/routes/games.routes.ts:7-10 | `q` required and not empty, `page` any text defaulting to "1" |
| `Games.SearchKey` | apps/api/src/routes/games.routes.ts:30 | `search:<q>:<page>`: the prefix, then `q`, a `:` and `page` |
| `Games.DetailKey` | apps/api/src/routes/games.routes.ts:76 | `game:<id>`: the prefix followed by `id` |
| `Games.SearchKeyCollides` | apps/api/src/routes/games.routes.ts:30 | two different valid searches share the key `search:a:1:2` |
| `Games.ValidateSearch` | apps/api/src/routes/games.routes.ts:7-10 | as the schema, with `page` restricted to decimal digits |
| `Games.SearchKeyInjective` | apps/api/src/routes/games.routes.ts:30 | with digit-only pages, equal search keys mean equal (query, page) |
| `Games.SearchValid` | apps/api/src/routes/games.routes.ts:30-51 | a cache hit under `search:<q>:<page>` is returned as stored without calling RAWG; a miss calls RAWG once, then stores and returns the payload for 3600 seconds, or returns RAWG's status with the cache unchanged |
| `Games.Search` | apps/api/src/routes/games.routes.ts:25-59 | the schema as written (`ValidateSearchAsWritten`): 400 with nothing changed when `q` is missing or empty; otherwise the cache-aside read for `q` and the given or default page |
| `Games.SearchChecked` | apps/api/src/routes/games.routes.ts:7-10 | the corrected route: 400 with nothing changed unless `ValidateSearch` accepts; otherwise the page is digits only and the same cache-aside read follows |
| `Games.Detail` | apps/api/src/routes/games.routes.ts:72-98 | the same cache-aside read under `game:<id>` with TTL 86400 and error "Game not found" |
| `Games.DetailServedFromCache` | apps/api/src/routes/games.routes.ts:95 | a payload stored on a miss is served for the next 86400 seconds |
| `RateLimit.RateKey` | apps/api/src/middlewares/rateLimit.middleware.ts:12 | `ratelimit:<ip>:<url>`: the prefix, then the ip, a `:` and the route |
| `RateLimit.RateKeyInjective` | apps/api/src/middlewares/rateLimit.middleware.ts:12 | distinct (ip, route) pairs have distinct counters |
| `RateLimit.WindowSeconds` | apps/api/src/middlewares/rateLimit.middleware.ts:19 | `ceil(windowMs / 1000)` |
| `RateLimit.Admit` | apps/api/src/middlewares/rateLimit.middleware.ts:14-27 | at the limit: 429 with `retryAfter` the window in seconds and nothing changed; below it: pass and add one without resetting the expiry; no live counter: pass and start at 1 with the window as TTL; other keys untouched |
| `RateLimit.AdmitKeepsBound` | apps/api/src/middlewares/rateLimit.middleware.ts:16-26 | no counter ever exceeds `maxRequests` (1 when the limit is below 1) |
| `RateLimit.LiveWindowPasses` | apps/api/src/middlewares/rateLimit.middleware.ts:16-24 | while a counter holding `v` is live, at most `maxRequests - v` more requests pass |
| `RateLimit.FreshWindowPasses` | apps/api/src/middlewares/rateLimit.middleware.ts:14-27 | at most `maxRequests` requests (1 when the limit is below 1) pass in a window opened on an expired key |
| `RateLimit.RateLimiter.Handle` | apps/api/src/middlewares/rateLimit.middleware.ts:10-28 | one request is exactly `Admit` on the stored counters, and the bound is kept |
| `RateLimit.ServerLimit` | apps/api/src/server.ts:85 | with the server's 100 requests per 15 minutes, at most 100 requests per route pass in each 900-second window |
| `AuthStore.Restored` | apps/web/lib/store.ts:37-47 | the fields change only when both keys hold text in a browser, and then take the stored values when the user parses; a user that fails to parse changes nothing |
| `AuthStore.Store.constructor` | apps/web/lib/store.ts:21-22 | user and token start null |
| `AuthStore.Store.SetAuth` | apps/web/lib/store.ts:23-28 | both fields set; in a browser both storage keys written |
| `AuthStore.Store.Logout` | apps/web/lib/store.ts:30-35 | both fields null; in a browser both storage keys removed |
| `AuthStore.Store.Initialize` | apps/web/lib/store.ts:37-47 | the fields become `Restored(...)` and storage is untouched |
| `AuthStore.SetAuthThenRestore` | apps/web/lib/store.ts:23-43 | after `setAuth(u, t)` a reload restores `u` and `t` |
| `AuthStore.LogoutThenRestore` | apps/web/lib/store.ts:30-43 | after `logout()` a reload stays signed out |

## Left out

- The HTTP layer is not modelled: Fastify wiring, JSON schemas, Swagger, CORS and logging. The `authenticate` hook is also out; the caller's `userId` is an input.
- A zod error list is abstracted to one `InvalidInput` text with status 400.
- Field types and the status enum are enforced by Dafny's types. Email format is the parameter `isEmail`.
- `limit` and `offset` are `Option<nat>`. `parseInt` of a non-numeric or negative query value is not modelled.
- An unknown `status` filter text is not modelled either. The route's querystring schema (`apps/api/src/routes/collection.routes.ts:34`) answers 400 before the handler runs; the model types the filter as the status enum.
- Prisma's `include` joins (`game`, `user { id, username }`) are left out of replies. Replies carry the rows themselves.
- Row order is up to the database wherever the source does not fix it. The model takes table (insertion) order in three places:
  - ties under `orderBy ... 'desc'`;
  - `groupBy` ordering, where table order means the order of each game's first entry;
  - a `findMany` without `orderBy`, as in the user-statistics query (`apps/api/src/routes/stats.routes.ts:25-30`). That order decides the insertion order of the genre frequency table, and so which of several genres with equal counts make it into `topGenres`. `Stats.UserStatsOf` pins that choice to table order; the source leaves it to the database.
- Fresh ids are deterministic (`Db.NewId`) rather than random cuids.
- `createdAt`/`addedAt` are the request time `now`.
- The `released` date stays opaque text.
- Numbers are exact `real`s. IEEE rounding in sums, in the mean and in `Math.round` is not modelled.
- bcrypt salting is not modelled: `hash`, `verify` and `sign` are deterministic functions given as parameters.
- `JSON.stringify`/`JSON.parse` around cached values are taken as the identity.
- The stats caches are two `Cache` objects, one per value type. In Redis, `stats:<userId>` and `stats:global` share one key space; the model does not capture a user whose id is `global`.
- Concurrency is out: `Promise.all` fan-out and races between the duplicate check and the insert, or between `GET` and `INCR`. Each request is atomic.
- Thrown errors answered with 500 are out: network failures of `fetch` and database errors.
- The rate limiter's `routeOptions.url` is taken to be a route path. Unmatched routes with an undefined url are not modelled.
- `RateLimit.RateLimiter.constructor` requires `windowMs > 0`, because Redis refuses a zero TTL.
- JavaScript object key order puts integer-like keys first. Genre names are taken not to be integer-like, so `Frequency` keeps plain insertion order.
- The persist middleware's own `auth-storage` key is not modelled.
- A stored user that parses to `null` is not modelled.
- The Bull queues, health routes, all React/Next UI and the axios client are out.

## Findings

| source | as written | input that shows it | evidently intended | confidence | as-written member | corrected member |
|---|---|---|---|---|---|---|
| apps/api/src/routes/games.routes.ts:30 | the cache key `search:${q}:${page}` is built from two free texts joined by `:`, and `page` accepts any text | `q = "a:1", page = "2"` and `q = "a", page = "1:2"` both give `search:a:1:2`, so one search is answered with the other's cached results | one cache entry per (query, page); `page` is a page number | medium, not executed | `Games.SearchKeyCollides` | `Games.SearchKeyInjective` |

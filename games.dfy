/** The catalog routes (`/api/games`): search and detail, each a cache-aside
    read in front of RAWG. A cached payload is sent back as stored without
    calling RAWG; on a miss a successful RAWG payload is stored with a TTL and
    sent back, and a failed call passes RAWG's status on and stores nothing. */
module Games {
  import opened Common
  import opened Upstream
  import opened TtlCache

  const SearchTtl: nat := 3600
  const DetailTtl: nat := 86400
  const SearchFailed: string := "Failed to fetch games"

  /** `search:<q>:<page>`, built from the raw query text. */
  function SearchKey(q: string, page: string): (k: string)
    ensures |k| == 8 + |q| + |page|
    ensures k[..7] == "search:" && k[7..7 + |q|] == q && k[7 + |q|] == ':' && k[8 + |q|..] == page
  {
    "search:" + q + ":" + page
  }

  /** `game:<id>`. */
  function DetailKey(id: string): (k: string)
    ensures |k| == 5 + |id|
    ensures k[..5] == "game:" && k[5..] == id
  {
    "game:" + id
  }

  /** `searchSchema` as the source writes it: `q` is required and not empty,
      `page` is any text and defaults to "1". */
  function ValidateSearchAsWritten(q: Option<string>, page: Option<string>): (r: Option<(string, string)>)
    ensures r.Some? <==> q.Some? && q.value != ""
    ensures r.Some? ==> r.value.0 == q.value
    ensures r.Some? ==> r.value.1 == if page.Some? then page.value else "1"
  {
    if q.None? || q.value == "" then None else Some((q.value, page.GetOr("1")))
  }

  /** With the schema as written, two different searches share a cache key:
      `q = "a:1", page = "2"` and `q = "a", page = "1:2"` both use
      `search:a:1:2`, so the second is answered with the first one's results. */
  lemma SearchKeyCollides()
    ensures ValidateSearchAsWritten(Some("a:1"), Some("2")) == Some(("a:1", "2"))
    ensures ValidateSearchAsWritten(Some("a"), Some("1:2")) == Some(("a", "1:2"))
    ensures SearchKey("a:1", "2") == SearchKey("a", "1:2")
  {
  }

  predicate IsDigits(s: string)
  {
    forall i :: 0 <= i < |s| ==> '0' <= s[i] <= '9'
  }

  /** The schema with `page` restricted to decimal digits, as a page number is. */
  function ValidateSearch(q: Option<string>, page: Option<string>): (r: Option<(string, string)>)
    ensures r.Some? <==> q.Some? && q.value != "" && (page.None? || IsDigits(page.value))
    ensures r.Some? ==> r.value.0 == q.value && IsDigits(r.value.1)
    ensures r.Some? ==> r.value.1 == if page.Some? then page.value else "1"
  {
    if q.None? || q.value == "" then None
    else if page.Some? && !IsDigits(page.value) then None
    else Some((q.value, page.GetOr("1")))
  }

  /** Once `page` holds only digits, the cache key determines the search:
      different searches never share a cached payload. */
  lemma {:induction false} SearchKeyInjective(q1: string, page1: string, q2: string, page2: string)
    requires IsDigits(page1) && IsDigits(page2)
    requires SearchKey(q1, page1) == SearchKey(q2, page2)
    ensures q1 == q2 && page1 == page2
  {
    assert ':' !in page1 && ':' !in page2;
    assert SearchKey(q1, page1) == ("search:" + q1) + [':'] + page1;
    assert SearchKey(q2, page2) == ("search:" + q2) + [':'] + page2;
    SplitAtLast("search:" + q1, page1, "search:" + q2, page2, ':');
    assert q1 == ("search:" + q1)[7..] && q2 == ("search:" + q2)[7..];
  }

  /** The cache-aside read both routes make, as a relation between the cache
      before and after, the number of RAWG calls made and the reply: a live
      cached payload is returned as stored with no call; otherwise RAWG is
      called once, and its payload is stored for `ttl` seconds and returned,
      or its failure status is returned with `error` and the cache unchanged. */
  ghost predicate CacheAside(before: map<string, Slot<Json>>, after: map<string, Slot<Json>>, calls: int,
                             key: string, ttl: nat, answer: Response<Json>, error: string, now: int, r: Reply<Json>)
  {
    var cached := Lookup(before, key, now);
    && (cached.Some? ==> r == Ok(cached.value) && after == before && calls == 0)
    && (cached.None? ==> calls == 1)
    && (cached.None? && answer.Fetched? ==> r == Ok(answer.data) && after == Store(before, key, ttl, answer.data, now))
    && (cached.None? && answer.Failed? ==> r == Fail(answer.status, error) && after == before)
  }

  /** The search route after validation: a cache-aside read of
      `search:<q>:<page>`, stored for an hour. */
  method SearchValid(cache: Cache<Json>, catalog: Catalog, q: string, page: string, now: int) returns (r: Reply<Json>)
    modifies cache, catalog
    ensures CacheAside(old(cache.entries), cache.entries, catalog.fetches - old(catalog.fetches),
                       SearchKey(q, page), SearchTtl, catalog.search(q, page), SearchFailed, now, r)
  {
    var key := SearchKey(q, page);
    var cached := cache.Get(key, now);
    if cached.Some? {
      return Ok(cached.value);
    }
    var response := catalog.FetchSearch(q, page);
    if response.Failed? {
      return Fail(response.status, SearchFailed);
    }
    cache.SetEx(key, SearchTtl, response.data, now);
    r := Ok(response.data);
  }

  /** `GET /api/games/search?q=&page=` as written: 400 unless `q` is given and
      not empty, any `page` text accepted; then the cache-aside read. */
  method Search(cache: Cache<Json>, catalog: Catalog, q: Option<string>, page: Option<string>, now: int)
    returns (r: Reply<Json>)
    modifies cache, catalog
    ensures ValidateSearchAsWritten(q, page).None? ==>
              r == Fail(400, InvalidInput) && cache.entries == old(cache.entries) && catalog.fetches == old(catalog.fetches)
    ensures ValidateSearchAsWritten(q, page).Some? ==>
              var (q', page') := ValidateSearchAsWritten(q, page).value;
              CacheAside(old(cache.entries), cache.entries, catalog.fetches - old(catalog.fetches),
                         SearchKey(q', page'), SearchTtl, catalog.search(q', page'), SearchFailed, now, r)
  {
    var valid := ValidateSearchAsWritten(q, page);
    if valid.None? {
      return Fail(400, InvalidInput);
    }
    r := SearchValid(cache, catalog, valid.value.0, valid.value.1, now);
  }

  /** The search route with `page` restricted to digits: a `page` such as
      "1:2" gets 400, so no two accepted searches share a cache entry. */
  method SearchChecked(cache: Cache<Json>, catalog: Catalog, q: Option<string>, page: Option<string>, now: int)
    returns (r: Reply<Json>)
    modifies cache, catalog
    ensures ValidateSearch(q, page).None? ==>
              r == Fail(400, InvalidInput) && cache.entries == old(cache.entries) && catalog.fetches == old(catalog.fetches)
    ensures ValidateSearch(q, page).Some? ==>
              var (q', page') := ValidateSearch(q, page).value;
              IsDigits(page') &&
              CacheAside(old(cache.entries), cache.entries, catalog.fetches - old(catalog.fetches),
                         SearchKey(q', page'), SearchTtl, catalog.search(q', page'), SearchFailed, now, r)
  {
    var valid := ValidateSearch(q, page);
    if valid.None? {
      return Fail(400, InvalidInput);
    }
    r := SearchValid(cache, catalog, valid.value.0, valid.value.1, now);
  }

  /** `GET /api/games/:id`: the same cache-aside read under `game:<id>`,
      stored for a day. */
  method Detail(cache: Cache<Json>, catalog: Catalog, id: string, now: int) returns (r: Reply<Json>)
    modifies cache, catalog
    ensures CacheAside(old(cache.entries), cache.entries, catalog.fetches - old(catalog.fetches),
                       DetailKey(id), DetailTtl, catalog.detail(id), GameNotFound, now, r)
  {
    var key := DetailKey(id);
    var cached := cache.Get(key, now);
    if cached.Some? {
      return Ok(cached.value);
    }
    var response := catalog.FetchDetail(id);
    if response.Failed? {
      return Fail(response.status, GameNotFound);
    }
    cache.SetEx(key, DetailTtl, response.data, now);
    r := Ok(response.data);
  }

  /** A payload fetched on a miss is served from the cache, without calling
      RAWG, to every request made before its TTL runs out. */
  lemma {:induction false} DetailServedFromCache(entries: map<string, Slot<Json>>, id: string, data: Json, now: int, later: int)
    requires now <= later < now + DetailTtl
    ensures Lookup(Store(entries, DetailKey(id), DetailTtl, data, now), DetailKey(id), later) == Some(data)
  {
    StoreThenLookup(entries, DetailKey(id), DetailTtl, data, now, later, DetailKey(id));
  }
}

/** The RAWG catalog API as the route handlers see it: an oracle that answers
    each `fetch` with a parsed payload or a non-2xx status. The answers are
    fixed functions of the request; a ghost counter records how many requests
    were made, so that the cache-aside paths can state when they call out. */
module Upstream {
  import opened Common

  /** `response.ok` with its parsed body, or the status of a failed response. */
  datatype Response<T> = Fetched(data: T) | Failed(status: nat)

  /** An upstream JSON payload, returned to the client unchanged. */
  datatype Json = Json(text: string)

  /** The fields of `GET /api/games/{id}` that the collection handler reads;
      `None` is a field the payload leaves out. `released` is the raw date text,
      genres and platforms are already reduced to their names. */
  datatype RawgGame = RawgGame(
    name: string,
    slug: string,
    descriptionRaw: string,
    released: Option<string>,
    rating: real,
    metacritic: Option<int>,
    backgroundImage: string,
    genres: Option<seq<string>>,
    platforms: Option<seq<string>>)

  class Catalog {
    /** `GET /api/games/{rawgId}`, parsed into the fields above. */
    const game: int -> Response<RawgGame>
    /** `GET /api/games?search={q}&page={page}&page_size=20`. */
    const search: (string, string) -> Response<Json>
    /** `GET /api/games/{id}`, as raw JSON. */
    const detail: string -> Response<Json>
    ghost var fetches: nat

    constructor (game: int -> Response<RawgGame>, search: (string, string) -> Response<Json>, detail: string -> Response<Json>)
      ensures this.game == game && this.search == search && this.detail == detail
      ensures fetches == 0
    {
      this.game := game;
      this.search := search;
      this.detail := detail;
      fetches := 0;
    }

    method FetchGame(rawgId: int) returns (r: Response<RawgGame>)
      modifies this
      ensures r == game(rawgId) && fetches == old(fetches) + 1
    {
      r := game(rawgId);
      fetches := fetches + 1;
    }

    method FetchSearch(q: string, page: string) returns (r: Response<Json>)
      modifies this
      ensures r == search(q, page) && fetches == old(fetches) + 1
    {
      r := search(q, page);
      fetches := fetches + 1;
    }

    method FetchDetail(id: string) returns (r: Response<Json>)
      modifies this
      ensures r == detail(id) && fetches == old(fetches) + 1
    {
      r := detail(id);
      fetches := fetches + 1;
    }
  }
}

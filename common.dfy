/** Vocabulary shared by the API's route handlers: optional values, HTTP
    replies, the collection status enum, first-match lookup (Prisma's
    `findFirst`/`findUnique`), offset/limit pagination and two facts about
    splitting a string at a separator, used for cache-key injectivity. */
module Common {

  datatype Option<T> = None | Some(value: T) {
    function GetOr(default: T): T
    {
      if Some? then value else default
    }
  }

  /** What a handler sends: a 2xx body, or an error status with its `error` text. */
  datatype Reply<T> = Ok(body: T) | Fail(status: nat, error: string)

  /** Stands for the list of field errors that zod produces; handlers send it with status 400. */
  const InvalidInput: string := "invalid input"

  /** The 404 text the collection, review and game routes share. */
  const GameNotFound: string := "Game not found"

  /** `s.length` in JavaScript: UTF-16 code units, two for a character
      outside the Basic Multilingual Plane. zod's `.min`/`.max` on strings
      count these. */
  function Utf16Length(s: string): (n: nat)
    ensures |s| <= n <= 2 * |s|
    ensures (forall i :: 0 <= i < |s| ==> (s[i] as int) < 0x1_0000) ==> n == |s|
  {
    if s == [] then 0
    else (if (s[0] as int) < 0x1_0000 then 1 else 2) + Utf16Length(s[1..])
  }

  /** `UserGame.status`: BACKLOG | PLAYING | COMPLETED | DROPPED. */
  datatype Status = Backlog | Playing | Completed | Dropped

  function Min(a: int, b: int): int
  {
    if a <= b then a else b
  }

  /** Index of the first element satisfying `p`, as Prisma's `findFirst` does over a table. */
  function FindFirst<T>(s: seq<T>, p: T -> bool): (r: Option<nat>)
    ensures r.Some? ==> r.value < |s| && p(s[r.value])
    ensures r.Some? ==> forall i :: 0 <= i < r.value ==> !p(s[i])
    ensures r.None? ==> forall i :: 0 <= i < |s| ==> !p(s[i])
  {
    if s == [] then None
    else if p(s[0]) then Some(0)
    else
      match FindFirst(s[1..], p)
      case None =>
        assert forall i :: 1 <= i < |s| ==> s[i] == s[1..][i - 1];
        None
      case Some(k) =>
        assert forall i :: 1 <= i <= k ==> s[i] == s[1..][i - 1];
        Some(k + 1)
  }

  /** The elements of `s` satisfying `p`, in their order in `s`: a Prisma `where`. */
  function Filter<T(!new)>(s: seq<T>, p: T -> bool): (r: seq<T>)
    ensures forall x :: x in r <==> x in s && p(x)
    ensures forall x :: p(x) ==> multiset(r)[x] == multiset(s)[x]
    ensures |r| <= |s|
    ensures (forall i :: 0 <= i < |s| ==> !p(s[i])) ==> r == []
  {
    if s == [] then []
    else
      assert s == [s[0]] + s[1..];
      assert forall i :: 1 <= i < |s| ==> s[1..][i - 1] == s[i];
      (if p(s[0]) then [s[0]] else []) + Filter(s[1..], p)
  }

  /** Filtering a concatenation filters each part and keeps them in order, so
      the result lists the kept rows in table order. */
  lemma {:induction false} FilterConcat<T(!new)>(a: seq<T>, b: seq<T>, p: T -> bool)
    ensures Filter(a + b, p) == Filter(a, p) + Filter(b, p)
  {
    if a == [] {
      assert a + b == b;
    } else {
      assert (a + b)[0] == a[0] && (a + b)[1..] == a[1..] + b;
      FilterConcat(a[1..], b, p);
    }
  }

  /** One page of a listing, with the `pagination` block the handlers return. */
  datatype Page<T> = Page(items: seq<T>, total: nat, limit: nat, offset: nat, hasMore: bool)

  /** `p` is the page of the ordered `matching` rows that the handlers return:
      `limit` and `offset` default to 20 and 0, `total` counts every match,
      the items are the `limit` matches from `offset` on (fewer at the end,
      none past it), and `hasMore` says whether `offset + limit < total`. */
  ghost predicate IsPage<T>(p: Page<T>, matching: seq<T>, limit: Option<nat>, offset: Option<nat>)
  {
    && p.limit == limit.GetOr(20) && p.offset == offset.GetOr(0)
    && p.total == |matching|
    && |p.items| == (if p.offset >= p.total then 0 else Min(p.limit, p.total - p.offset))
    && (forall i :: 0 <= i < |p.items| ==> p.offset + i < |matching| && p.items[i] == matching[p.offset + i])
    && (p.hasMore <==> p.offset + p.limit < p.total)
  }

  /** Prisma's `skip: offset, take: limit` over the ordered matches. */
  function Paginate<T>(matching: seq<T>, limit: Option<nat>, offset: Option<nat>): (p: Page<T>)
    ensures IsPage(p, matching, limit, offset)
  {
    var l := limit.GetOr(20);
    var o := offset.GetOr(0);
    var lo := Min(o, |matching|);
    var hi := Min(o + l, |matching|);
    Page(matching[lo..hi], |matching|, l, o, o + l < |matching|)
  }

  /** The page at `offset` followed by the page at `offset + limit` is the page
      of twice the size at `offset`: walking the pages visits every match once. */
  lemma {:induction false} ConsecutivePagesTile<T>(matching: seq<T>, limit: nat, offset: nat)
    ensures Paginate(matching, Some(limit), Some(offset)).items
            + Paginate(matching, Some(limit), Some(offset + limit)).items
         == Paginate(matching, Some(2 * limit), Some(offset)).items
  {
    var a := Paginate(matching, Some(limit), Some(offset)).items;
    var b := Paginate(matching, Some(limit), Some(offset + limit)).items;
    var c := Paginate(matching, Some(2 * limit), Some(offset)).items;
    assert |a + b| == |c|;
    forall i | 0 <= i < |c| ensures (a + b)[i] == c[i] {
      if i >= |a| {
        assert |a| == limit;
        assert (a + b)[i] == b[i - limit];
      }
    }
  }

  /** When `hasMore` is false, the page holds every match from `offset` on. */
  lemma LastPageHoldsRest<T>(matching: seq<T>, limit: Option<nat>, offset: Option<nat>)
    requires !Paginate(matching, limit, offset).hasMore
    requires offset.GetOr(0) <= |matching|
    ensures Paginate(matching, limit, offset).items == matching[offset.GetOr(0)..]
  {
    var p := Paginate(matching, limit, offset);
    assert |p.items| == |matching[p.offset..]|;
    forall i | 0 <= i < |p.items| ensures p.items[i] == matching[p.offset..][i] { }
  }

  /** Cutting `a + [c] + b` at the first `c` recovers `a` and `b`. */
  lemma {:induction false} SplitAtFirst(a: string, b: string, a': string, b': string, c: char)
    requires c !in a && c !in a'
    requires a + [c] + b == a' + [c] + b'
    ensures a == a' && b == b'
  {
    var s := a + [c] + b;
    var s' := a' + [c] + b';
    assert s[|a|] == c && s'[|a'|] == c;
    assert forall k :: 0 <= k < |a| ==> s[k] == a[k] && s[k] != c;
    assert forall k :: 0 <= k < |a'| ==> s'[k] == a'[k] && s'[k] != c;
    assert |a| == |a'|;
    assert a == s[..|a|] && a' == s'[..|a'|];
    assert b == s[|a| + 1..] && b' == s'[|a'| + 1..];
  }

  /** Cutting `a + [c] + b` at the last `c` recovers `a` and `b`. */
  lemma {:induction false} SplitAtLast(a: string, b: string, a': string, b': string, c: char)
    requires c !in b && c !in b'
    requires a + [c] + b == a' + [c] + b'
    ensures a == a' && b == b'
  {
    var s := a + [c] + b;
    var s' := a' + [c] + b';
    assert s[|a|] == c && s'[|a'|] == c;
    assert forall k :: |a| < k < |s| ==> s[k] == b[k - |a| - 1] && s[k] != c;
    assert forall k :: |a'| < k < |s'| ==> s'[k] == b'[k - |a'| - 1] && s'[k] != c;
    assert |b| == |b'|;
    assert a == s[..|a|] && a' == s'[..|a'|];
    assert b == s[|a| + 1..] && b' == s'[|a'| + 1..];
  }
}

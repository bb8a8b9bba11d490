/** The fixed-window rate limiter that runs before every request: one Redis
    counter per (client ip, route), created at 1 with a TTL of the window
    length, incremented by each admitted request without touching its expiry,
    and answered with 429 once it has reached the limit. */
module RateLimit {
  import opened Common
  import opened TtlCache

  datatype Decision = Pass | TooMany(retryAfter: nat)

  /** `ratelimit:<ip>:<route url>`. */
  function RateKey(ip: string, url: string): (k: string)
    ensures |k| == 11 + |ip| + |url|
    ensures k[..10] == "ratelimit:" && k[10..10 + |ip|] == ip && k[10 + |ip|] == ':' && k[11 + |ip|..] == url
  {
    "ratelimit:" + ip + ":" + url
  }

  /** An ip has no '/', and a route url starts with one, so the key determines
      the pair even though both ips (IPv6) and routes (`/:id`) may hold ':'. */
  lemma {:induction false} RateKeyInjective(ip1: string, url1: string, ip2: string, url2: string)
    requires '/' !in ip1 && '/' !in ip2
    requires |url1| > 0 && url1[0] == '/' && |url2| > 0 && url2[0] == '/'
    requires RateKey(ip1, url1) == RateKey(ip2, url2)
    ensures ip1 == ip2 && url1 == url2
  {
    var a1, a2 := "ratelimit:" + ip1 + ":", "ratelimit:" + ip2 + ":";
    assert RateKey(ip1, url1) == a1 + ['/'] + url1[1..];
    assert RateKey(ip2, url2) == a2 + ['/'] + url2[1..];
    assert '/' !in a1 by {
      assert forall k :: 0 <= k < |a1| ==> a1[k] == if 10 <= k < 10 + |ip1| then ip1[k - 10] else a1[k];
    }
    assert '/' !in a2 by {
      assert forall k :: 0 <= k < |a2| ==> a2[k] == if 10 <= k < 10 + |ip2| then ip2[k - 10] else a2[k];
    }
    SplitAtFirst(a1, url1[1..], a2, url2[1..], '/');
    assert ip1 == a1[10..|a1| - 1] && ip2 == a2[10..|a2| - 1];
    assert url1 == [url1[0]] + url1[1..] && url2 == [url2[0]] + url2[1..];
  }

  /** `Math.ceil(windowMs / 1000)`: the window in whole seconds, rounded up. */
  function WindowSeconds(windowMs: nat): (s: nat)
    ensures s * 1000 >= windowMs
    ensures windowMs > 0 ==> (s - 1) * 1000 < windowMs && s >= 1
  {
    (windowMs + 999) / 1000
  }

  /** One request under `key` at time `now` (seconds): the decision and the
      counters afterwards. */
  function Admit(counters: map<string, Slot<nat>>, key: string, now: int, maxRequests: int, ttl: nat)
    : (r: (Decision, map<string, Slot<nat>>))
    ensures forall k :: k != key ==> (k in r.1 <==> k in counters) && (k in counters ==> r.1[k] == counters[k])
    ensures Lookup<nat>(counters, key, now).Some? && Lookup<nat>(counters, key, now).value >= maxRequests ==>
              r == (TooMany(ttl), counters)
    ensures Lookup<nat>(counters, key, now).Some? && Lookup<nat>(counters, key, now).value < maxRequests ==>
              r.0 == Pass && r.1 == counters[key := Slot(counters[key].value + 1, counters[key].expiresAt)]
    ensures Lookup<nat>(counters, key, now).None? ==> r.0 == Pass && r.1 == counters[key := Slot(1, now + ttl)]
  {
    var current := Lookup<nat>(counters, key, now);
    if current.Some? && current.value >= maxRequests then (TooMany(ttl), counters)
    else if current.Some? then (Pass, counters[key := Slot(current.value + 1, counters[key].expiresAt)])
    else (Pass, counters[key := Slot(1, now + ttl)])
  }

  /** No counter is above the limit (nor above 1 when the limit is below 1,
      since the first request of a window always passes). */
  ghost predicate Bounded(counters: map<string, Slot<nat>>, maxRequests: int)
  {
    forall k :: k in counters ==> counters[k].value <= if maxRequests >= 1 then maxRequests else 1
  }

  lemma AdmitKeepsBound(counters: map<string, Slot<nat>>, key: string, now: int, maxRequests: int, ttl: nat)
    requires Bounded(counters, maxRequests)
    ensures Bounded(Admit(counters, key, now, maxRequests, ttl).1, maxRequests)
  {
  }

  /** The number of requests under `key`, made at `times` in order, that pass. */
  function Passes(counters: map<string, Slot<nat>>, key: string, times: seq<int>, maxRequests: int, ttl: nat): nat
    decreases |times|
  {
    if times == [] then 0
    else
      var (d, next) := Admit(counters, key, times[0], maxRequests, ttl);
      (if d.Pass? then 1 else 0) + Passes(next, key, times[1..], maxRequests, ttl)
  }

  /** While a counter that already holds `v` is live, at most
      `maxRequests - v` more requests pass. */
  lemma {:induction false} LiveWindowPasses(counters: map<string, Slot<nat>>, key: string, times: seq<int>, maxRequests: int, ttl: nat)
    requires key in counters
    requires forall i :: 0 <= i < |times| ==> times[i] < counters[key].expiresAt
    ensures Passes(counters, key, times, maxRequests, ttl) <= if counters[key].value <= maxRequests then maxRequests - counters[key].value else 0
  {
    if times != [] {
      var (d, next) := Admit(counters, key, times[0], maxRequests, ttl);
      assert next[key].expiresAt == counters[key].expiresAt;
      LiveWindowPasses(next, key, times[1..], maxRequests, ttl);
    }
  }

  /** A window opened by a request at `times[0]` on an absent or expired key
      admits at most `maxRequests` requests (one when the limit is below 1)
      among those made before it expires. */
  lemma {:induction false} FreshWindowPasses(counters: map<string, Slot<nat>>, key: string, times: seq<int>, maxRequests: int, ttl: nat)
    requires |times| > 0 && Lookup<nat>(counters, key, times[0]).None?
    requires forall i :: 0 <= i < |times| ==> times[i] < times[0] + ttl
    ensures Passes(counters, key, times, maxRequests, ttl) <= if maxRequests >= 1 then maxRequests else 1
  {
    var (d, next) := Admit(counters, key, times[0], maxRequests, ttl);
    assert next[key] == Slot(1, times[0] + ttl);
    LiveWindowPasses(next, key, times[1..], maxRequests, ttl);
  }

  /** The middleware with its options and the counters it keeps in Redis. */
  class RateLimiter {
    const maxRequests: int
    const windowMs: nat
    var counters: map<string, Slot<nat>>

    ghost predicate Valid()
      reads this
    {
      windowMs > 0 && Bounded(counters, maxRequests)
    }

    /** `rateLimit({ maxRequests, windowMs })`; Redis refuses a TTL of 0, so
        the window is at least one millisecond. */
    constructor (maxRequests: int, windowMs: nat)
      requires windowMs > 0
      ensures Valid()
      ensures this.maxRequests == maxRequests && this.windowMs == windowMs && counters == map[]
    {
      this.maxRequests := maxRequests;
      this.windowMs := windowMs;
      counters := map[];
    }

    /** One request from `ip` to the route `url` at time `now` (seconds). */
    method Handle(ip: string, url: string, now: int) returns (d: Decision)
      requires Valid()
      modifies this
      ensures Valid()
      ensures (d, counters) == Admit(old(counters), RateKey(ip, url), now, maxRequests, WindowSeconds(windowMs))
    {
      var key := RateKey(ip, url);
      var ttl := WindowSeconds(windowMs);
      AdmitKeepsBound(counters, key, now, maxRequests, ttl);
      var current := Lookup<nat>(counters, key, now);
      if current.Some? && current.value >= maxRequests {
        return TooMany(ttl);
      }
      if current.Some? {
        counters := counters[key := Slot(current.value + 1, counters[key].expiresAt)];
      } else {
        counters := counters[key := Slot(1, now + ttl)];
      }
      d := Pass;
    }
  }

  /** The server's configuration: 100 requests per 15 minutes, so a client
      gets at most 100 requests through per route in each 900-second window
      and is told to retry after 900 seconds. */
  lemma {:induction false} ServerLimit(counters: map<string, Slot<nat>>, key: string, times: seq<int>)
    requires |times| > 0 && Lookup<nat>(counters, key, times[0]).None?
    requires forall i :: 0 <= i < |times| ==> times[i] < times[0] + WindowSeconds(15 * 60 * 1000)
    ensures WindowSeconds(15 * 60 * 1000) == 900
    ensures Passes(counters, key, times, 100, WindowSeconds(15 * 60 * 1000)) <= 100
  {
    FreshWindowPasses(counters, key, times, 100, WindowSeconds(15 * 60 * 1000));
  }
}

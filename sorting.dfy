/** Stable descending sort by an integer key, and "the first n" of it.
    Three places in the API order records this way: `orderBy: { addedAt: 'desc' }`
    and `orderBy: { createdAt: 'desc' }` in Prisma queries, the JavaScript
    `Array.prototype.sort((a, b) => b - a)` (stable since ES2019) on genre
    counts, and Prisma's `groupBy` ordered by count. Equal keys keep the order
    they had in the input. */
module Sorting {
  import opened Common

  /** Adjacent elements never increase. */
  ghost predicate Descending<T>(s: seq<T>, key: T -> int)
  {
    forall i :: 0 < i < |s| ==> key(s[i - 1]) >= key(s[i])
  }

  /** The elements whose key is `k`, in their order in `s`. */
  function WithKey<T>(s: seq<T>, key: T -> int, k: int): seq<T>
  {
    if s == [] then []
    else (if key(s[0]) == k then [s[0]] else []) + WithKey(s[1..], key, k)
  }

  /** Puts `x` in front of the first element whose key is not larger. */
  function InsertDesc<T>(x: T, s: seq<T>, key: T -> int): (r: seq<T>)
    ensures |r| == |s| + 1 && (r[0] == x || (|s| > 0 && r[0] == s[0]))
  {
    if s == [] || key(s[0]) <= key(x) then [x] + s
    else [s[0]] + InsertDesc(x, s[1..], key)
  }

  lemma {:induction false} InsertDescPerm<T>(x: T, s: seq<T>, key: T -> int)
    ensures multiset(InsertDesc(x, s, key)) == multiset(s) + multiset{x}
  {
    if s != [] && key(s[0]) > key(x) {
      InsertDescPerm(x, s[1..], key);
      assert s == [s[0]] + s[1..];
    }
  }

  lemma {:induction false} InsertDescSorted<T>(x: T, s: seq<T>, key: T -> int)
    requires Descending(s, key)
    ensures Descending(InsertDesc(x, s, key), key)
  {
    if s != [] && key(s[0]) > key(x) {
      var t := InsertDesc(x, s[1..], key);
      assert Descending(s[1..], key) by {
        forall i | 0 < i < |s| - 1 ensures key(s[1..][i - 1]) >= key(s[1..][i]) {
          assert s[1..][i - 1] == s[i] && s[1..][i] == s[i + 1];
        }
      }
      InsertDescSorted(x, s[1..], key);
      assert key(s[0]) >= key(t[0]) by {
        if t[0] != x {
          assert t[0] == s[1];
        }
      }
      var r := [s[0]] + t;
      assert InsertDesc(x, s, key) == r;
      forall i | 0 < i < |r| ensures key(r[i - 1]) >= key(r[i]) {
        if i > 1 {
          assert r[i - 1] == t[i - 2] && r[i] == t[i - 1];
        }
      }
    }
  }

  /** Insertion sort: `r` is `s` reordered so that keys never increase. */
  function SortDesc<T>(s: seq<T>, key: T -> int): (r: seq<T>)
    ensures multiset(r) == multiset(s) && |r| == |s|
    ensures Descending(r, key)
  {
    if s == [] then []
    else
      var t := SortDesc(s[1..], key);
      InsertDescPerm(s[0], t, key);
      InsertDescSorted(s[0], t, key);
      assert s == [s[0]] + s[1..];
      InsertDesc(s[0], t, key)
  }

  lemma {:induction false} WithKeyConcat<T>(a: seq<T>, b: seq<T>, key: T -> int, k: int)
    ensures WithKey(a + b, key, k) == WithKey(a, key, k) + WithKey(b, key, k)
  {
    if a != [] {
      assert (a + b)[1..] == a[1..] + b;
      WithKeyConcat(a[1..], b, key, k);
    } else {
      assert a + b == b;
    }
  }

  lemma WithKeyCons<T>(a: T, t: seq<T>, key: T -> int, k: int)
    ensures WithKey([a] + t, key, k) == (if key(a) == k then [a] else []) + WithKey(t, key, k)
  {
    assert ([a] + t)[1..] == t;
  }

  /** An element with a larger key and one with a smaller key cannot both
      carry the key `k`, so their `WithKey` parts commute. */
  lemma PassOver<T>(a: T, x: T, rest: seq<T>, key: T -> int, k: int)
    requires key(a) > key(x)
    ensures (if key(a) == k then [a] else []) + ((if key(x) == k then [x] else []) + rest)
         == (if key(x) == k then [x] else []) + ((if key(a) == k then [a] else []) + rest)
  {
  }

  lemma {:induction false} InsertDescWithKey<T>(x: T, s: seq<T>, key: T -> int, k: int)
    ensures WithKey(InsertDesc(x, s, key), key, k)
         == (if key(x) == k then [x] else []) + WithKey(s, key, k)
  {
    if s == [] || key(s[0]) <= key(x) {
      assert InsertDesc(x, s, key) == [x] + s;
      WithKeyCons(x, s, key, k);
    } else {
      var t, s0, tail := InsertDesc(x, s[1..], key), s[0], s[1..];
      assert InsertDesc(x, s, key) == [s0] + t;
      assert s == [s0] + tail;
      InsertDescWithKey(x, tail, key, k);
      WithKeyCons(s0, t, key, k);
      WithKeyCons(s0, tail, key, k);
      PassOver(s0, x, WithKey(tail, key, k), key, k);
    }
  }

  /** Stability: for every key, the elements carrying it appear in the sorted
      result in exactly the order they had in the input. */
  lemma {:induction false} SortDescStable<T>(s: seq<T>, key: T -> int, k: int)
    ensures WithKey(SortDesc(s, key), key, k) == WithKey(s, key, k)
  {
    if s != [] {
      InsertDescWithKey(s[0], SortDesc(s[1..], key), key, k);
      SortDescStable(s[1..], key, k);
    }
  }

  /** Adjacent order gives order between any two positions. */
  lemma {:induction false} DescendingPairwise<T>(s: seq<T>, key: T -> int, i: int, j: int)
    requires Descending(s, key)
    requires 0 <= i <= j < |s|
    ensures key(s[i]) >= key(s[j])
    decreases j - i
  {
    if i < j {
      DescendingPairwise(s, key, i + 1, j);
    }
  }

  /** A page cut from a descending sequence is descending and holds only its elements. */
  lemma PageOfDescending<T>(s: seq<T>, key: T -> int, limit: Option<nat>, offset: Option<nat>)
    requires Descending(s, key)
    ensures Descending(Paginate(s, limit, offset).items, key)
    ensures forall x :: x in Paginate(s, limit, offset).items ==> x in s
  {
    var p := Paginate(s, limit, offset);
    forall i | 0 < i < |p.items| ensures key(p.items[i - 1]) >= key(p.items[i]) {
      assert p.items[i - 1] == s[p.offset + i - 1];
    }
  }

  /** `findMany({ orderBy: { <key>: 'desc' }, skip, take })` with `count()`: a
      page of the stable descending order of `s`. */
  function SortedPage<T>(s: seq<T>, key: T -> int, limit: Option<nat>, offset: Option<nat>): (p: Page<T>)
    ensures IsPage(p, SortDesc(s, key), limit, offset)
    ensures forall x :: x in p.items ==> x in s
    ensures Descending(p.items, key)
  {
    var sorted := SortDesc(s, key);
    PageOfDescending(sorted, key, limit, offset);
    forall x | x in Paginate(sorted, limit, offset).items ensures x in s {
      assert x in multiset(sorted);
    }
    Paginate(sorted, limit, offset)
  }

  /** The first `n` elements of the stable descending order: JavaScript's
      `.sort(...).slice(0, n)` and Prisma's `orderBy ... take: n`. */
  function Top<T>(s: seq<T>, key: T -> int, n: nat): (r: seq<T>)
    ensures |r| == Min(n, |s|)
    ensures Descending(r, key)
    ensures multiset(r) <= multiset(s)
  {
    var sorted := SortDesc(s, key);
    var k := Min(n, |s|);
    assert sorted == sorted[..k] + sorted[k..];
    sorted[..k]
  }

  /** In a descending sequence, the first `k` elements outrank every element
      beyond them. */
  lemma PrefixOutranks<T>(sorted: seq<T>, key: T -> int, k: nat, x: T, y: T)
    requires Descending(sorted, key) && k <= |sorted|
    requires y in sorted[..k]
    requires x in multiset(sorted) - multiset(sorted[..k])
    ensures key(y) >= key(x)
  {
    var top, rest := sorted[..k], sorted[k..];
    assert sorted == top + rest;
    assert multiset(sorted) == multiset(top) + multiset(rest);
    assert x in rest;
    var j :| 0 <= j < |rest| && rest[j] == x;
    var i :| 0 <= i < |top| && top[i] == y;
    DescendingPairwise(sorted, key, i, k + j);
  }

  /** Nothing left out of the top `n` outranks anything in it. */
  lemma TopHoldsLargest<T>(s: seq<T>, key: T -> int, n: nat, x: T, y: T)
    requires y in Top(s, key, n)
    requires x in multiset(s) - multiset(Top(s, key, n))
    ensures key(y) >= key(x)
  {
    var sorted := SortDesc(s, key);
    var k := Min(n, |s|);
    assert Top(s, key, n) == sorted[..k];
    PrefixOutranks(sorted, key, k, x, y);
  }

  /** No element occurs twice. */
  ghost predicate Distinct<T>(s: seq<T>)
  {
    forall i, j :: 0 <= i < j < |s| ==> s[i] != s[j]
  }

  lemma {:induction false} DistinctOnce<T>(s: seq<T>, k: nat)
    requires Distinct(s) && k < |s|
    ensures multiset(s)[s[k]] == 1
  {
    var x := s[k];
    assert s == s[..k] + [x] + s[k + 1..];
    assert x !in s[..k] by {
      forall j | 0 <= j < k ensures s[..k][j] != x { assert s[..k][j] == s[j]; }
    }
    var rest := s[k + 1..];
    assert x !in rest by {
      forall j | 0 <= j < |rest| ensures rest[j] != x { assert rest[j] == s[k + 1 + j]; }
    }
  }

  lemma RepeatTwice<T>(s: seq<T>, i: nat, j: nat)
    requires i < j < |s|
    ensures s[i] == s[j] ==> multiset(s)[s[i]] >= 2
  {
    assert s == s[..j] + s[j..];
    assert s[..j][i] == s[i] && s[j..][0] == s[j];
  }

  /** Taking the first `n` of a sequence without repeats gives no repeats. */
  lemma TopDistinct<T>(s: seq<T>, key: T -> int, n: nat)
    requires Distinct(s)
    ensures Distinct(Top(s, key, n))
  {
    var r := Top(s, key, n);
    forall i, j | 0 <= i < j < |r| ensures r[i] != r[j] {
      RepeatTwice(r, i, j);
      assert r[i] in multiset(r);
      assert r[i] in s;
      var k :| 0 <= k < |s| && s[k] == r[i];
      DistinctOnce(s, k);
    }
  }

  /** Ties in the top `n` are listed in input order, and the elements with a
      given key that make it into the top are the first ones of the input. */
  lemma TopKeepsTieOrder<T>(s: seq<T>, key: T -> int, n: nat, k: int)
    ensures WithKey(Top(s, key, n), key, k) <= WithKey(s, key, k)
  {
    var sorted := SortDesc(s, key);
    var m := Min(n, |s|);
    assert sorted == sorted[..m] + sorted[m..];
    WithKeyConcat(sorted[..m], sorted[m..], key, k);
    SortDescStable(s, key, k);
  }
}

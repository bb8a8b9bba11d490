/** Frequency tables as the stats handlers build them: a JavaScript object
    `counts` updated by `counts[x] = (counts[x] || 0) + 1` and read back with
    `Object.entries`, which lists keys in the order they were first inserted.
    Prisma's `groupBy` with `_count` yields the same table. */
module Frequency {

  /** One `[key, count]` pair of `Object.entries`. */
  datatype KeyCount = KeyCount(key: string, count: nat)

  /** Sort key for ordering pairs by count. */
  function Count(kc: KeyCount): int
  {
    kc.count
  }

  function Keys(t: seq<KeyCount>): (ks: seq<string>)
    ensures |ks| == |t|
    ensures forall i :: 0 <= i < |t| ==> ks[i] == t[i].key
  {
    if t == [] then [] else [t[0].key] + Keys(t[1..])
  }

  /** `counts[x] || 0`: the count stored for `x`, or 0 when there is none. */
  function CountOf(t: seq<KeyCount>, x: string): nat
  {
    if t == [] then 0
    else if t[0].key == x then t[0].count
    else CountOf(t[1..], x)
  }

  ghost predicate DistinctKeys(t: seq<KeyCount>)
  {
    forall i, j :: 0 <= i < j < |t| ==> t[i].key != t[j].key
  }

  /** `counts[g] = (counts[g] || 0) + 1`: raise an existing key in place, or
      add a new key at the end. */
  function Bump(t: seq<KeyCount>, g: string): seq<KeyCount>
  {
    if t == [] then [KeyCount(g, 1)]
    else if t[0].key == g then [KeyCount(g, t[0].count + 1)] + t[1..]
    else [t[0]] + Bump(t[1..], g)
  }

  /** The table after counting `s` from left to right. */
  function Tally(s: seq<string>): seq<KeyCount>
  {
    if s == [] then [] else Bump(Tally(s[..|s| - 1]), s[|s| - 1])
  }

  /** The sum of the counts of a table. */
  function SumCounts(t: seq<KeyCount>): nat
  {
    if t == [] then 0 else t[0].count + SumCounts(t[1..])
  }

  /** Position of the first occurrence of `x` in `s`. */
  function IndexOf(s: seq<string>, x: string): (i: nat)
    requires x in s
    ensures i < |s| && s[i] == x && x !in s[..i]
  {
    if s[0] == x then 0 else 1 + IndexOf(s[1..], x)
  }

  lemma {:induction false} BumpKeys(t: seq<KeyCount>, g: string)
    ensures Keys(Bump(t, g)) == if g in Keys(t) then Keys(t) else Keys(t) + [g]
  {
    if t != [] {
      assert Keys(t) == [t[0].key] + Keys(t[1..]);
      if t[0].key != g {
        BumpKeys(t[1..], g);
        assert Keys(Bump(t, g)) == [t[0].key] + Keys(Bump(t[1..], g));
      } else {
        assert Keys(Bump(t, g)) == [g] + Keys(t[1..]);
      }
    }
  }

  lemma {:induction false} BumpCountOf(t: seq<KeyCount>, g: string, x: string)
    ensures CountOf(Bump(t, g), x) == CountOf(t, x) + (if x == g then 1 else 0)
  {
    if t != [] && t[0].key != g {
      BumpCountOf(t[1..], g, x);
    }
  }

  lemma {:induction false} BumpSum(t: seq<KeyCount>, g: string)
    ensures SumCounts(Bump(t, g)) == SumCounts(t) + 1
  {
    if t != [] && t[0].key != g {
      BumpSum(t[1..], g);
    }
  }

  lemma KeysDistinct(t: seq<KeyCount>)
    requires forall i, j :: 0 <= i < j < |Keys(t)| ==> Keys(t)[i] != Keys(t)[j]
    ensures DistinctKeys(t)
  {
    forall i, j | 0 <= i < j < |t| ensures t[i].key != t[j].key {
      assert Keys(t)[i] == t[i].key && Keys(t)[j] == t[j].key;
    }
  }

  /** With distinct keys, `CountOf` reads back each pair's own count. */
  lemma {:induction false} CountOfAt(t: seq<KeyCount>, i: nat)
    requires DistinctKeys(t) && i < |t|
    ensures CountOf(t, t[i].key) == t[i].count
  {
    if i > 0 {
      assert t[0].key != t[i].key;
      CountOfAt(t[1..], i - 1);
    }
  }

  /** Every tally count is the number of occurrences of its key. */
  lemma {:induction false} TallyCountOf(s: seq<string>, x: string)
    ensures CountOf(Tally(s), x) == multiset(s)[x]
  {
    if s != [] {
      var init := s[..|s| - 1];
      assert s == init + [s[|s| - 1]];
      TallyCountOf(init, x);
      BumpCountOf(Tally(init), s[|s| - 1], x);
    }
  }

  /** The keys of the tally are exactly the distinct elements of `s`, each once,
      in the order of their first occurrence. */
  lemma TallyKeys(s: seq<string>)
    ensures DistinctKeys(Tally(s))
    ensures forall x :: x in Keys(Tally(s)) <==> x in s
    ensures forall i, j :: 0 <= i < j < |Tally(s)| ==>
              IndexOf(s, Tally(s)[i].key) < IndexOf(s, Tally(s)[j].key)
  {
    TallyKeysIn(s);
    TallyDistinct(s);
    TallyOrder(s);
  }

  lemma {:induction false} TallyKeysIn(s: seq<string>)
    ensures forall x :: x in Keys(Tally(s)) <==> x in s
  {
    if s != [] {
      var init, g := s[..|s| - 1], s[|s| - 1];
      assert s == init + [g];
      TallyKeysIn(init);
      BumpKeys(Tally(init), g);
    }
  }

  lemma {:induction false} TallyDistinct(s: seq<string>)
    ensures DistinctKeys(Tally(s))
  {
    if s != [] {
      var init, g := s[..|s| - 1], s[|s| - 1];
      var t0 := Tally(init);
      assert Tally(s) == Bump(t0, g);
      TallyDistinct(init);
      BumpKeys(t0, g);
      var ks, ks0 := Keys(Tally(s)), Keys(t0);
      forall i, j | 0 <= i < j < |ks| ensures ks[i] != ks[j] {
        assert ks0[i] == t0[i].key;
        if j < |ks0| {
          assert ks0[j] == t0[j].key;
        } else {
          assert ks0[i] in ks0;
        }
      }
      KeysDistinct(Tally(s));
    }
  }

  lemma {:induction false} TallyOrder(s: seq<string>)
    ensures forall x :: x in Keys(Tally(s)) <==> x in s
    ensures forall i, j :: 0 <= i < j < |Tally(s)| ==>
              IndexOf(s, Tally(s)[i].key) < IndexOf(s, Tally(s)[j].key)
  {
    TallyKeysIn(s);
    if s != [] {
      var init, g := s[..|s| - 1], s[|s| - 1];
      var t, t0 := Tally(s), Tally(init);
      assert s == init + [g];
      assert t == Bump(t0, g);
      TallyOrder(init);
      BumpKeys(t0, g);
      forall i, j | 0 <= i < j < |t|
        ensures IndexOf(s, t[i].key) < IndexOf(s, t[j].key)
      {
        TallyStep(init, g, i, j);
      }
    }
  }

  /** One step of `TallyOrder`: the pair at `i` is an old key, and the pair at
      `j` is either an old key listed after it or the new key `g`. */
  lemma {:induction false} TallyStep(init: seq<string>, g: string, i: nat, j: nat)
    requires forall x :: x in Keys(Tally(init)) <==> x in init
    requires forall i, j :: 0 <= i < j < |Tally(init)| ==>
               IndexOf(init, Tally(init)[i].key) < IndexOf(init, Tally(init)[j].key)
    requires Keys(Bump(Tally(init), g)) == if g in Keys(Tally(init)) then Keys(Tally(init)) else Keys(Tally(init)) + [g]
    requires i < j < |Bump(Tally(init), g)|
    ensures Bump(Tally(init), g)[i].key in init + [g] && Bump(Tally(init), g)[j].key in init + [g]
    ensures IndexOf(init + [g], Bump(Tally(init), g)[i].key) < IndexOf(init + [g], Bump(Tally(init), g)[j].key)
  {
    var t0, t := Tally(init), Bump(Tally(init), g);
    var ks, ks0 := Keys(t), Keys(t0);
    assert ks[i] == t[i].key && ks[j] == t[j].key;
    assert ks0[i] == t0[i].key && ks0[i] in ks0;
    IndexOfPrefix(init, g, ks0[i]);
    if j < |ks0| {
      assert ks0[j] == t0[j].key && ks0[j] in ks0;
      IndexOfPrefix(init, g, ks0[j]);
    } else {
      IndexOfPrefix(init, g, g);
    }
  }

  lemma {:induction false} IndexOfPrefix(s: seq<string>, g: string, x: string)
    requires x in s + [g]
    ensures x in s ==> IndexOf(s + [g], x) == IndexOf(s, x)
    ensures x !in s ==> IndexOf(s + [g], x) == |s|
  {
    if s != [] {
      assert (s + [g])[1..] == s[1..] + [g];
      if s[0] != x {
        IndexOfPrefix(s[1..], g, x);
      }
    }
  }

  /** Each pair of the tally carries its key's number of occurrences, at least one. */
  lemma TallyEntry(s: seq<string>, i: nat)
    requires i < |Tally(s)|
    ensures Tally(s)[i].count == multiset(s)[Tally(s)[i].key] >= 1
  {
    TallyKeys(s);
    CountOfAt(Tally(s), i);
    TallyCountOf(s, Tally(s)[i].key);
    assert Tally(s)[i].key in Keys(Tally(s));
  }

  /** The counts add up to the number of counted items. */
  lemma {:induction false} TallyTotal(s: seq<string>)
    ensures SumCounts(Tally(s)) == |s|
  {
    if s != [] {
      TallyTotal(s[..|s| - 1]);
      BumpSum(Tally(s[..|s| - 1]), s[|s| - 1]);
    }
  }
}

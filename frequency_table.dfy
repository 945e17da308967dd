/** A table of key frequencies with a running total. The library stores the frequencies in a
    JavaScript `Map`, which remembers the order in which keys were first set; the model keeps
    that map as `keys` (the insertion order) and `freqs` (the stored value of each key). */
module FrequencyTables {
  import AbstractCollection

  /** No key appears twice. */
  predicate Distinct<K(==)>(ks: seq<K>)
  {
    forall i, j :: 0 <= i < j < |ks| ==> ks[i] != ks[j]
  }

  /** The frequency stored for k, or 0 for an absent key (`get(key) ?? 0`). */
  function FrequencyIn<K>(m: map<K, int>, k: K): int
  {
    if k in m then m[k] else 0
  }

  /** Over a map whose frequencies are all positive, the lookup is never negative and is
      positive exactly for the stored keys: an absent key reads as 0. */
  lemma FrequencyInPositive<K>(m: map<K, int>, k: K)
    requires forall x :: x in m ==> m[x] > 0
    ensures FrequencyIn(m, k) >= 0
    ensures FrequencyIn(m, k) > 0 <==> k in m
    ensures k !in m ==> FrequencyIn(m, k) == 0
  {
  }

  /** The sum of the frequencies of the listed keys. */
  function Sum<K>(ks: seq<K>, m: map<K, int>): int
  {
    if ks == [] then 0 else Sum(ks[..|ks| - 1], m) + FrequencyIn(m, ks[|ks| - 1])
  }

  /** ks without k, the others in their order (`Map.delete` on the insertion order). */
  function Without<K(==,!new)>(ks: seq<K>, k: K): (r: seq<K>)
    ensures forall x :: x in r <==> x in ks && x != k
    ensures Distinct(ks) ==> Distinct(r)
    ensures Distinct(ks) && k in ks ==> |r| == |ks| - 1
    ensures k !in ks ==> r == ks
  {
    if ks == [] then []
    else if ks[0] == k then Without(ks[1..], k)
    else
      var rest := Without(ks[1..], k);
      assert Distinct(ks) ==> ks[0] !in ks[1..] && ks[0] !in rest;
      [ks[0]] + rest
  }

  /** Dropping a key that occurs only at position p cuts it out there: the keys before
      and after it keep their order. In a list of distinct keys every key occurs only at
      its own position. */
  lemma {:induction false} WithoutKeepsOrder<K(!new)>(ks: seq<K>, k: K, p: nat)
    requires p < |ks| && ks[p] == k
    requires forall i :: 0 <= i < |ks| && i != p ==> ks[i] != k
    ensures Without(ks, k) == ks[..p] + ks[p + 1..]
  {
    var rest := ks[1..];
    if p == 0 {
      assert k !in rest;
    } else {
      WithoutKeepsOrder(rest, k, p - 1);
      assert ks[..p] == [ks[0]] + rest[..p - 1];
      assert ks[p + 1..] == rest[p..];
    }
  }

  lemma {:induction false} SumAppend<K>(ks: seq<K>, k: K, m: map<K, int>)
    ensures Sum(ks + [k], m) == Sum(ks, m) + FrequencyIn(m, k)
  {
    assert (ks + [k])[..|ks + [k]| - 1] == ks;
  }

  /** The sum only looks at the listed keys. */
  lemma {:induction false} SumIgnores<K>(ks: seq<K>, m: map<K, int>, k: K, v: int)
    requires k !in ks
    ensures Sum(ks, m[k := v]) == Sum(ks, m)
    ensures Sum(ks, m - {k}) == Sum(ks, m)
  {
    if ks != [] {
      SumIgnores(ks[..|ks| - 1], m, k, v);
    }
  }

  /** Changing the frequency of a key listed once changes the sum by the difference. */
  lemma {:induction false} SumUpdate<K>(ks: seq<K>, m: map<K, int>, k: K, v: int)
    requires Distinct(ks) && k in ks
    ensures Sum(ks, m[k := v]) == Sum(ks, m) + v - FrequencyIn(m, k)
  {
    var init, last := ks[..|ks| - 1], ks[|ks| - 1];
    assert ks == init + [last];
    if last == k {
      assert k !in init;
      SumIgnores(init, m, k, v);
    } else {
      assert k in init;
      SumUpdate(init, m, k, v);
    }
  }

  /** Dropping a listed key from both the order and the map lowers the sum by its frequency. */
  lemma {:induction false} SumWithout<K(!new)>(ks: seq<K>, m: map<K, int>, k: K)
    requires Distinct(ks)
    ensures Sum(Without(ks, k), m - {k}) == Sum(ks, m) - (if k in ks then FrequencyIn(m, k) else 0)
  {
    if ks == [] {
    } else {
      var rest := ks[1..];
      assert ks == [ks[0]] + rest;
      SumWithout(rest, m, k);
      SumCons(ks[0], rest, m);
      if ks[0] == k {
        assert k !in rest;
        SumIgnores(rest, m, k, 0);
      } else {
        SumCons(ks[0], Without(rest, k), m - {k});
      }
    }
  }

  /** The sum read from the front. */
  lemma {:induction false} SumCons<K>(k: K, ks: seq<K>, m: map<K, int>)
    ensures Sum([k] + ks, m) == FrequencyIn(m, k) + Sum(ks, m)
    decreases |ks|
  {
    if ks == [] {
      assert [k] + ks == [k];
      assert Sum([k], m) == Sum([], m) + FrequencyIn(m, k);
    } else {
      var init, last := ks[..|ks| - 1], ks[|ks| - 1];
      assert [k] + ks == ([k] + init) + [last];
      SumAppend([k] + init, last, m);
      SumCons(k, init, m);
      SumAppend(init, last, m);
      assert ks == init + [last];
    }
  }

  /** A sum of positive frequencies is at least the number of keys summed. */
  lemma {:induction false} SumAtLeastLength<K>(ks: seq<K>, m: map<K, int>)
    requires forall k :: k in ks ==> k in m && m[k] > 0
    ensures Sum(ks, m) >= |ks|
  {
    if ks != [] {
      SumAtLeastLength(ks[..|ks| - 1], m);
    }
  }

  /** A list without repeats has as many elements as its set of keys. */
  lemma {:induction false} DistinctCardinality<K>(ks: seq<K>)
    requires Distinct(ks)
    ensures |set k | k in ks| == |ks|
  {
    if ks != [] {
      var init, last := ks[..|ks| - 1], ks[|ks| - 1];
      assert ks == init + [last];
      DistinctCardinality(init);
      assert (set k | k in ks) == (set k | k in init) + {last};
      assert last !in (set k | k in init);
    }
  }

  class FrequencyTable<K(==,!new)> {
    var keys: seq<K>          // the Map's insertion order
    var freqs: map<K, int>    // the Map's entries
    var total: int

    /** Every stored frequency is positive, the order lists each stored key once, and
        `total` is the sum of the stored frequencies. */
    ghost predicate Valid()
      reads this
    {
      && Distinct(keys)
      && (forall k :: k in freqs <==> k in keys)
      && (forall k :: k in freqs ==> freqs[k] > 0)
      && total == Sum(keys, freqs)
    }

    /** `new FrequencyTable()`. */
    constructor ()
      ensures Valid() && keys == [] && freqs == map[] && total == 0
    {
      keys, freqs, total := [], map[], 0;
    }

    /** `count`: the number of stored keys. */
    function Count(): (n: nat)
      reads this
      requires Valid()
      ensures n == |freqs.Keys|
    {
      DistinctCardinality(keys);
      assert freqs.Keys == (set k | k in keys);
      |keys|
    }

    /** The stored keys are exactly the keys with a positive frequency, so `count` is the
        number of keys whose frequency is positive. */
    lemma CountIsPositiveKeys()
      requires Valid()
      ensures Count() == |set k | k in freqs && freqs[k] > 0|
      ensures forall k :: FrequencyOf(k) > 0 <==> k in freqs
    {
      assert (set k | k in freqs && freqs[k] > 0) == freqs.Keys;
    }

    /** `isEmpty`, as the shared collection behaviour defines it from `count`. */
    predicate IsEmpty()
      reads this
      requires Valid()
      ensures IsEmpty() <==> freqs == map[]
    {
      assert freqs == map[] <==> |freqs.Keys| == 0;
      AbstractCollection.IsEmpty(Count())
    }

    /** `total`: the sum of the frequencies of all the keys. */
    function Total(): (t: int)
      reads this
      requires Valid()
      ensures t == Sum(keys, freqs)
    {
      total
    }

    /** Every stored frequency is at least 1, so the total is never below the count, and it
        is zero exactly when the table is empty. */
    lemma TotalAtLeastCount()
      requires Valid()
      ensures Total() >= Count()
      ensures Total() == 0 <==> IsEmpty()
    {
      SumAtLeastLength(keys, freqs);
    }

    /** `frequencyOf(key)`: the stored frequency, or 0 for an absent key; never negative. */
    function FrequencyOf(key: K): (f: int)
      reads this
      requires Valid()
      ensures f >= 0
      ensures f > 0 <==> key in freqs
      ensures key in freqs ==> f == freqs[key]
    {
      FrequencyIn(freqs, key)
    }

    /** The iterator (`#map.entries()`): each stored (key, frequency) pair once, in insertion
        order. */
    function Entries(): (es: seq<(K, int)>)
      reads this
      requires Valid()
      ensures |es| == Count()
      ensures forall i :: 0 <= i < |es| ==> es[i].0 == keys[i]
      ensures forall k, f :: (k, f) in es <==> k in freqs && freqs[k] == f
    {
      var ks, m := keys, freqs;
      var es := seq(|ks|, i requires 0 <= i < |ks| && ks[i] in m => (ks[i], m[ks[i]]));
      assert forall k :: k in freqs ==> exists i :: 0 <= i < |keys| && keys[i] == k && es[i] == (k, freqs[k]);
      es
    }

    /** `toArray()`: a new array of the (key, frequency) pairs in iteration order. */
    method ToArray() returns (arr: array<(K, int)>)
      requires Valid()
      ensures fresh(arr) && arr[..] == Entries()
    {
      arr := AbstractCollection.ToArray(Count(), Entries());
    }

    /** `clear()`. */
    method Clear()
      modifies this
      ensures Valid() && freqs == map[] && total == 0 && Count() == 0
    {
      keys, freqs, total := [], map[], 0;
    }

    /** `increment(key)`: the key's frequency rises by 1 (a new key enters at 1, at the end of
        the insertion order) and so does the total; no other key changes. */
    method Increment(key: K)
      requires Valid()
      modifies this
      ensures Valid()
      ensures freqs == old(freqs)[key := FrequencyIn(old(freqs), key) + 1]
      ensures keys == if key in old(freqs) then old(keys) else old(keys) + [key]
      ensures Total() == old(Total()) + 1
      ensures Count() == old(Count()) + (if key in old(freqs) then 0 else 1)
    {
      var prev := FrequencyOf(key);
      if key in freqs {
        SumUpdate(keys, freqs, key, prev + 1);
      } else {
        SumIgnores(keys, freqs, key, prev + 1);
        SumAppend(keys, key, freqs[key := prev + 1]);
        keys := keys + [key];
      }
      freqs := freqs[key := prev + 1];
      total := total + 1;
    }

    /** `decrement(key)`: a frequency of 1 removes the key, a larger one drops by 1, and in
        both cases the total drops by 1. An absent key is left alone: nothing changes. */
    method Decrement(key: K)
      requires Valid()
      modifies this
      ensures Valid()
      ensures FrequencyIn(old(freqs), key) == 1 ==> freqs == old(freqs) - {key} && keys == Without(old(keys), key)
      ensures FrequencyIn(old(freqs), key) > 1 ==> freqs == old(freqs)[key := FrequencyIn(old(freqs), key) - 1] && keys == old(keys)
      ensures FrequencyIn(old(freqs), key) == 0 ==> freqs == old(freqs) && keys == old(keys) && total == old(total)
      ensures Total() == old(Total()) - (if key in old(freqs) then 1 else 0)
      ensures Count() == old(Count()) - (if FrequencyIn(old(freqs), key) == 1 then 1 else 0)
    {
      var prev := FrequencyOf(key);
      if prev == 1 {
        SumWithout(keys, freqs, key);
        keys := Without(keys, key);
        freqs := freqs - {key};
        total := total - 1;
      } else if prev > 1 {
        SumUpdate(keys, freqs, key, prev - 1);
        freqs := freqs[key := prev - 1];
        total := total - 1;
      }
    }
  }
}

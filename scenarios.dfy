/** Client code replaying the library's test scenarios. Each method is proved from the
    contracts of the operations alone, which shows that the contracts pin down the results
    the tests expect. */
module Scenarios {
  import opened Errors
  import Queues
  import FrequencyTables
  import StringBuilders
  import Decimal
  import Retriable

  /** Enqueue 1, 2, 3; dequeue twice; enqueue 4, 5; dequeue three times: 1..5 come out. */
  method QueueFifoOrder(v: Queues.QueueVariant) returns (out: seq<int>)
    ensures out == [1, 2, 3, 4, 5]
  {
    var q := new Queues.SLLQueue<int>(v);
    var _ := q.Enqueue(1);
    var _ := q.Enqueue(2);
    var _ := q.Enqueue(3);
    var a := q.Dequeue();
    var b := q.Dequeue();
    var _ := q.Enqueue(4);
    var _ := q.Enqueue(5);
    var c := q.Dequeue();
    var d := q.Dequeue();
    var e := q.Dequeue();
    out := [a.value, b.value, c.value, d.value, e.value];
  }

  /** An empty queue, fresh or drained, refuses `dequeue` and `peek` with the variant's
      error; peeking leaves the count alone. */
  method QueueEmptyAccess(v: Queues.QueueVariant) returns (d: Result<int>, p: Result<int>, peeked: Result<int>, count: nat)
    ensures d == Failure(Queues.EmptyAccessError(v)) && p == Failure(Queues.EmptyAccessError(v))
    ensures peeked == Success(1) && count == 2
  {
    var q := new Queues.SLLQueue<int>(v);
    d := q.Dequeue();
    var _ := q.Enqueue(1);
    var _ := q.Dequeue();
    p := q.Peek();
    var _ := q.Enqueue(1);
    var _ := q.Enqueue(2);
    peeked := q.Peek();
    count := q.Count();
  }

  /** The frequencies after n increments of k. */
  function Bumped<K>(m: map<K, int>, k: K, n: nat): map<K, int>
  {
    if n == 0 then m else var b := Bumped(m, k, n - 1); b[k := FrequencyTables.FrequencyIn(b, k) + 1]
  }

  /** n increments of k raise its frequency by n and leave every other key alone. */
  lemma {:induction false} BumpedIs<K>(m: map<K, int>, k: K, n: nat)
    ensures n > 0 ==> Bumped(m, k, n) == m[k := FrequencyTables.FrequencyIn(m, k) + n]
    ensures n == 0 ==> Bumped(m, k, n) == m
  {
    if n > 1 {
      BumpedIs(m, k, n - 1);
    }
  }

  lemma BumpedStep<K>(m: map<K, int>, k: K, p: nat, n: nat)
    requires n == p + 1
    ensures Bumped(m, k, n) == Bumped(m, k, p)[k := FrequencyTables.FrequencyIn(Bumped(m, k, p), k) + 1]
  {
  }

  /** The tests' `createFrequencyTable` helper, for one key: n increments of key. */
  method IncrementTimes<K(==,!new)>(ft: FrequencyTables.FrequencyTable<K>, key: K, n: nat)
    requires ft.Valid()
    modifies ft
    ensures ft.Valid()
    ensures ft.freqs == Bumped(old(ft.freqs), key, n)
    ensures ft.keys == if key in old(ft.freqs) || n == 0 then old(ft.keys) else old(ft.keys) + [key]
    ensures ft.total == old(ft.total) + n
  {
    ghost var keys0, freqs0, t0 := ft.keys, ft.freqs, ft.total;
    var i := 0;
    while i < n
      invariant 0 <= i <= n && ft.Valid()
      invariant ft.freqs == Bumped(freqs0, key, i)
      invariant ft.keys == if key in freqs0 || i == 0 then keys0 else keys0 + [key]
      invariant ft.total == t0 + i
    {
      BumpedIs(freqs0, key, i);
      ghost var p := i;
      ft.Increment(key);
      i := i + 1;
      BumpedStep(freqs0, key, p, i);
    }
  }

  /** Increment "a" twice and "b" once: total 3, count 2, "a" has 2, "z" has 0. */
  method FrequencyCounts() returns (total: int, count: nat, fa: int, fz: int)
    ensures total == 3 && count == 2 && fa == 2 && fz == 0
  {
    assert "a" != "b" && "z" != "a" && "z" != "b";
    var ft := new FrequencyTables.FrequencyTable<string>();
    IncrementTimes(ft, "a", 2);
    BumpedIs(map[], "a", 2);
    assert ft.freqs == map["a" := 2] && ft.total == 2;
    IncrementTimes(ft, "b", 1);
    BumpedIs(map["a" := 2], "b", 1);
    assert ft.freqs == map["a" := 2, "b" := 1] && ft.total == 3;
    assert "z" !in ft.freqs;
    total, count, fa, fz := ft.Total(), ft.Count(), ft.FrequencyOf("a"), ft.FrequencyOf("z");
  }

  /** A table holding 1 of "a" and 2 of "b". */
  method OneATwoBs() returns (ft: FrequencyTables.FrequencyTable<string>)
    ensures fresh(ft) && ft.Valid()
    ensures ft.keys == ["a", "b"] && ft.freqs == map["a" := 1, "b" := 2]
  {
    assert "a" != "b";
    ft := new FrequencyTables.FrequencyTable<string>();
    IncrementTimes(ft, "a", 1);
    BumpedIs(map[], "a", 1);
    assert ft.freqs == map["a" := 1] && ft.keys == ["a"];
    IncrementTimes(ft, "b", 2);
    BumpedIs(map["a" := 1], "b", 2);
  }

  /** Frequencies 1 of "a" and 2 of "b", each decremented away: the table is empty. */
  method FrequencyAllDecremented() returns (empty: bool)
    ensures empty
  {
    var ft := OneATwoBs();
    assert "a" != "b";
    ft.Decrement("a");
    assert ft.freqs == map["b" := 2];
    ft.Decrement("b");
    assert ft.freqs == map["b" := 1];
    ft.Decrement("b");
    empty := ft.IsEmpty();
  }

  /** A table holding 4 of "a" and 6 of "b". */
  method FourAsSixBs() returns (ft: FrequencyTables.FrequencyTable<string>)
    ensures fresh(ft) && ft.Valid()
    ensures ft.keys == ["a", "b"] && ft.freqs == map["a" := 4, "b" := 6] && ft.Total() == 10
  {
    assert "a" != "b";
    ft := new FrequencyTables.FrequencyTable<string>();
    IncrementTimes(ft, "a", 4);
    BumpedIs(map[], "a", 4);
    assert ft.freqs == map["a" := 4] && ft.keys == ["a"] && ft.total == 4;
    IncrementTimes(ft, "b", 6);
    BumpedIs(map["a" := 4], "b", 6);
  }

  /** Decrement "a" twice and "b" once in a table holding 4 of "a" and 6 of "b". */
  method DecrementAsAndB(ft: FrequencyTables.FrequencyTable<string>)
    requires ft.Valid() && ft.keys == ["a", "b"] && ft.freqs == map["a" := 4, "b" := 6]
    modifies ft
    ensures ft.Valid() && ft.keys == ["a", "b"] && ft.freqs == map["a" := 2, "b" := 5]
  {
    assert "a" != "b";
    ft.Decrement("a");
    assert ft.freqs == map["a" := 3, "b" := 6];
    ft.Decrement("a");
    assert ft.freqs == map["a" := 2, "b" := 6];
    ft.Decrement("b");
  }

  /** Frequencies 4 of "a" and 6 of "b"; decrement "a" twice and "b" once, then decrement
      the unknown "z": the total is 7, "a" has 2 and both keys remain. */
  method FrequencyDecrements() returns (total: int, count: nat, fa: int)
    ensures total == 7 && count == 2 && fa == 2
  {
    var ft := FourAsSixBs();
    DecrementAsAndB(ft);
    assert ft.total == 7 by {
      assert ft.keys == ["a"] + ["b"];
      FrequencyTables.SumCons("a", ["b"], ft.freqs);
      assert ["b"] == [] + ["b"];
      FrequencyTables.SumAppend([], "b", ft.freqs);
    }
    assert "z" != "a" && "z" != "b";
    ft.Decrement("z");
    total, count, fa := ft.Total(), ft.Count(), ft.FrequencyOf("a");
  }

  /** "apple", insert "b" at 1, then "cd" at 1: "acdbpple". */
  method BuilderInserts() returns (s: string, failed: Outcome)
    ensures s == "acdbpple"
    ensures failed == Fail(IndexOutOfBounds(10, 9))
  {
    var sb := new StringBuilders.StringBuilder.FromString("apple");
    var _ := sb.Insert(1, StringBuilders.Str("b"));
    assert sb.ToString() == "abpple";
    var _ := sb.Insert(1, StringBuilders.Str("cd"));
    s := sb.ToString();
    failed := sb.Insert(10, StringBuilders.Str(""));
  }

  /** `stringify(12)` is "12": both are canonical numerals of 12, and 12 has only one. */
  lemma TextOfTwelve()
    ensures StringBuilders.Stringify(StringBuilders.Num(12)) == "12"
  {
    Decimal.CanonicalUnique(StringBuilders.Stringify(StringBuilders.Num(12)));
    Decimal.CanonicalUnique("12");
  }

  /** Appending `undefined`, '' and 'a' gives 10 characters; '', 'ab', 12, an empty builder
      and 'c' give 5. */
  method BuilderAppendCounts() returns (first: nat, second: nat)
    ensures first == 10 && second == 5
  {
    var sb := new StringBuilders.StringBuilder();
    sb.Append(StringBuilders.Undefined);
    sb.Append(StringBuilders.Str(""));
    sb.Append(StringBuilders.Str("a"));
    first := sb.Count();

    var other := new StringBuilders.StringBuilder();
    var empty := new StringBuilders.StringBuilder();
    other.Append(StringBuilders.Str(""));
    other.Append(StringBuilders.Str("ab"));
    other.Append(StringBuilders.Num(12));
    TextOfTwelve();
    other.Append(StringBuilders.Builder(empty));
    other.Append(StringBuilders.Str("c"));
    second := other.Count();
  }

  /** The builder's mixed test: inserts past the end fail, deleting from an emptied builder
      fails, and `delete(2, 10)` on "abcde" clamps the end and leaves "ab". */
  method BuilderEdits() returns (r1: Outcome, r2: Outcome, s: string)
    ensures r1 == Fail(IndexOutOfBounds(1, 1))
    ensures r2 == Fail(IndexOutOfBounds(0, 0))
    ensures s == "ab"
  {
    var sb := new StringBuilders.StringBuilder();
    r1 := sb.Insert(1, StringBuilders.Str("a"));
    var _ := sb.Insert(0, StringBuilders.Str("a"));
    var _ := sb.DeleteCharAt(0);
    r2 := sb.DeleteCharAt(0);
    sb.Append(StringBuilders.Str("abcde"));
    var _ := sb.Delete(2, 10);
    s := sb.ToString();
  }

  /** A function that fails on every call never succeeds, whatever the limit, and uses up
      all its trials. */
  method RetryAlwaysFailing(maxTrialCount: int) returns (res: Retriable.RetriableResult<int, string>)
    requires maxTrialCount >= 1
    ensures !res.HasSucceeded() && res.trialCount == maxTrialCount && res.errors == []
  {
    var trials := seq(maxTrialCount, _ => Retriable.Threw("error"));
    var sleeps;
    res, sleeps := Retriable.Run(trials, maxTrialCount, Retriable.Fixed(0), false);
  }

  /** A function that succeeds on its n-th call, with `returnErrors`: with enough trials it
      succeeds after n trials with the value and n - 1 errors; with fewer it fails after
      using them all, with one error each. */
  method RetrySucceedsOnNthTrial(n: nat, maxTrialCount: int, value: int) returns (res: Retriable.RetriableResult<int, string>)
    requires n >= 1 && maxTrialCount >= 1
    ensures n <= maxTrialCount ==> res == Retriable.Succeeded(n, seq(n - 1, _ => "error"), value)
    ensures n > maxTrialCount ==> !res.HasSucceeded() && res.trialCount == maxTrialCount && |res.errors| == maxTrialCount
  {
    var len := if n > maxTrialCount then n else maxTrialCount;
    var trials := seq(len, i => if i == n - 1 then Retriable.Returned(value) else Retriable.Threw("error"));
    var sleeps;
    res, sleeps := Retriable.Run(trials, maxTrialCount, Retriable.Fixed(0), true);
    if n <= maxTrialCount {
      Retriable.PrefixFirstSuccess(trials[..maxTrialCount], n - 1);
      Retriable.ErrorsOfThrown(trials[..n - 1]);
    }
  }
}

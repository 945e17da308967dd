/** The behaviour every container shares: emptiness, conversion to an array, and the two
    protected helpers that raise the collection-level errors. A container supplies its
    `count` and the sequence its iteration yields. */
module AbstractCollection {
  import opened Errors

  /** `isEmpty`: the collection is empty exactly when its count is zero. */
  predicate IsEmpty(count: nat)
    ensures IsEmpty(count) <==> count == 0
  {
    count == 0
  }

  /** `toArray`: a new array of length `count`, filled by one pass over the iteration,
      element i of iteration going to index i. The containers guarantee that their
      iteration yields exactly `count` elements. */
  method ToArray<E>(count: nat, iteration: seq<E>) returns (arr: array<E>)
    requires |iteration| == count
    ensures fresh(arr)
    ensures arr.Length == count
    ensures forall i :: 0 <= i < count ==> arr[i] == iteration[i]
  {
    // `new Array(count)` holds no elements yet; every slot is written below
    arr := new E[count](i requires 0 <= i < count => iteration[0]);
    var i := 0;
    while i < count
      invariant 0 <= i <= count
      invariant forall j :: 0 <= j < i ==> arr[j] == iteration[j]
    {
      arr[i] := iteration[i];
      i := i + 1;
    }
  }

  /** `throwEmptyCollectionError`: always throws, with the EmptyCollection kind. */
  function ThrowEmptyCollectionError<T>(): (r: Result<T>)
    ensures r.Failure? && r.error.EmptyCollection?
  {
    Failure(EmptyCollection)
  }

  /** `throwImplementationError`: always throws, with the Implementation kind. */
  function ThrowImplementationError<T>(): (r: Result<T>)
    ensures r.Failure? && r.error.Implementation?
  {
    Failure(Implementation)
  }
}

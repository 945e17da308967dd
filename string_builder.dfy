/** A mutable sequence of characters. As in the library, the builder keeps its text as an
    array of one-character strings (`#chars`, what `s.split('')` produces); `toString()`
    joins them. The values that can be appended or inserted are the `CharSequenceLike`
    ones, which `Stringify` turns into text. The union type, `stringify` and the class
    refer to one another, so they share this module. */
module StringBuilders {
  import opened Errors
  import Decimal

  /** Every element is a string of exactly one character. */
  predicate AllSingleChars(parts: seq<string>)
  {
    forall i :: 0 <= i < |parts| ==> |parts[i]| == 1
  }

  /** `parts.join('')`. Joining single characters gives a string of the same length whose
      i-th character is the i-th element's. */
  function Join(parts: seq<string>): (s: string)
    ensures AllSingleChars(parts) ==> |s| == |parts|
    ensures AllSingleChars(parts) ==> forall i :: 0 <= i < |parts| ==> s[i] == parts[i][0]
  {
    if parts == [] then "" else parts[0] + Join(parts[1..])
  }

  /** `s.split('')`: one single-character string per character of s. */
  function Split(s: string): (parts: seq<string>)
    ensures |parts| == |s|
    ensures forall i :: 0 <= i < |s| ==> parts[i] == [s[i]]
  {
    seq(|s|, i requires 0 <= i < |s| => [s[i]])
  }

  lemma {:induction false} JoinAppend(a: seq<string>, b: seq<string>)
    ensures Join(a + b) == Join(a) + Join(b)
  {
    if a == [] {
      assert a + b == b;
    } else {
      assert (a + b)[0] == a[0] && (a + b)[1..] == a[1..] + b;
      JoinAppend(a[1..], b);
    }
  }

  /** `s.split('').join('') == s`. */
  lemma JoinSplit(s: string)
    ensures Join(Split(s)) == s
  {
    var parts := Split(s);
    assert AllSingleChars(parts);
  }

  /** An array of single characters is the split of its join. */
  lemma SplitJoin(parts: seq<string>)
    requires AllSingleChars(parts)
    ensures Split(Join(parts)) == parts
  {
    var s := Join(parts);
    forall i | 0 <= i < |parts| ensures Split(s)[i] == parts[i] {
      assert parts[i] == [parts[i][0]];
    }
  }

  /** Cutting the array at i cuts its text at i. */
  lemma JoinSlices(parts: seq<string>, i: nat)
    requires AllSingleChars(parts) && i <= |parts|
    ensures |Join(parts)| == |parts|
    ensures Join(parts[..i]) == Join(parts)[..i]
    ensures Join(parts[i..]) == Join(parts)[i..]
  {
    assert parts == parts[..i] + parts[i..];
    JoinAppend(parts[..i], parts[i..]);
    assert AllSingleChars(parts[..i]);
  }

  /** Splicing an array of pieces into an array of single characters splices the texts. */
  lemma JoinSplice(s: seq<string>, i: nat, x: seq<string>)
    requires AllSingleChars(s) && AllSingleChars(x) && i <= |s|
    ensures AllSingleChars(s[..i] + x + s[i..])
    ensures |Join(s)| == |s|
    ensures Join(s[..i] + x + s[i..]) == Join(s)[..i] + Join(x) + Join(s)[i..]
  {
    JoinAppend(s[..i] + x, s[i..]);
    JoinAppend(s[..i], x);
    JoinSlices(s, i);
  }

  /** Element k of `s[..i] + x + s[i..]`, by the three ranges the insert loop tells apart. */
  lemma SpliceAt<T>(s: seq<T>, i: nat, x: seq<T>, k: nat)
    requires i <= |s| && k < |s| + |x|
    ensures (s[..i] + x + s[i..])[k] ==
      if k < i then s[k] else if k < i + |x| then x[k - i] else s[k - |x|]
  {
  }

  /** The array `insert` builds: a new array of the combined length, filled position by
      position from s before index, then x, then the rest of s. */
  method Splice(s: seq<string>, index: nat, x: seq<string>) returns (res: seq<string>)
    requires index <= |s|
    ensures res == s[..index] + x + s[index..]
  {
    ghost var want := s[..index] + x + s[index..];
    var m := |x|;
    var a := new string[|s| + m];
    var i := 0;
    while i < a.Length
      invariant 0 <= i <= a.Length
      invariant forall k :: 0 <= k < i ==> a[k] == want[k]
    {
      if i < index {
        a[i] := s[i];
      } else if i >= index && i < index + m {
        a[i] := x[i - index];
      } else {
        a[i] := s[i - m];
      }
      SpliceAt(s, index, x, i);
      i := i + 1;
    }
    res := a[..];
  }

  /** `CharSequenceLike`: the values a builder accepts as text. Numbers are restricted to
      safe integers, the ones `toString()` writes as plain digits. */
  datatype CharSequenceLike =
    | Str(s: string)
    | Num(n: Decimal.SafeInteger)
    | Bool(b: bool)
    | Null
    | Undefined
    | Builder(builder: StringBuilder)

  /** `stringify`: the text of a `CharSequenceLike` value. A string is returned as is, an
      integer as its canonical decimal numeral (which `Decimal.CanonicalUnique` shows is
      the only one), `undefined`, booleans and `null` as their names, and
      a builder as its `toString()`. */
  function Stringify(cs: CharSequenceLike): (r: string)
    reads if cs.Builder? then {cs.builder} else {}
    ensures cs.Str? ==> r == cs.s
    ensures cs.Num? ==> Decimal.IsCanonical(r) && Decimal.Parse(r) == cs.n
    ensures cs.Builder? ==> r == cs.builder.ToString()
    ensures cs.Undefined? ==> r == "undefined"
    ensures cs.Null? ==> r == "null"
    ensures cs.Bool? ==> r == (if cs.b then "true" else "false")
  {
    match cs
    case Str(s) => s
    case Num(n) => Decimal.IntegerToString(n)
    case Undefined => "undefined"
    case Bool(b) => if b then "true" else "false"
    case Null => "null"
    case Builder(sb) => sb.ToString()
  }

  class StringBuilder {
    var chars: seq<string>

    /** Every stored element is one character, so `count` is the length of the text. */
    ghost predicate Valid()
      reads this
    {
      AllSingleChars(chars)
    }

    /** `new StringBuilder()`. */
    constructor ()
      ensures Valid() && ToString() == "" && Count() == 0
    {
      chars := [];
    }

    /** `new StringBuilder(seq)`: the text starts as seq. */
    constructor FromString(init: string)
      ensures Valid() && ToString() == init && Count() == |init|
    {
      chars := Split(init);
      new;
      JoinSplit(init);
    }

    /** `count`: the number of characters. */
    function Count(): (n: nat)
      reads this
      requires Valid()
      ensures n == |ToString()|
    {
      |chars|
    }

    /** `toString()`: the stored characters, in order, as one string. */
    function ToString(): (s: string)
      reads this
      ensures Valid() ==> |s| == |chars|
      ensures Valid() ==> forall i :: 0 <= i < |chars| ==> s[i] == chars[i][0]
    {
      Join(chars)
    }

    /** `clear()`. */
    method Clear()
      modifies this
      ensures Valid() && ToString() == "" && Count() == 0
    {
      chars := [];
    }

    /** `#validateIndex`: an index of a stored character; otherwise out of bounds with
        bound `count`. */
    function ValidateIndex(index: int): (r: Outcome)
      reads this
      ensures r.Pass? <==> 0 <= index < |chars|
      ensures r.Fail? ==> r.error == IndexOutOfBounds(index, |chars|)
    {
      if index < 0 || index >= |chars| then Fail(IndexOutOfBounds(index, |chars|)) else Pass
    }

    /** `#validateIndexEndIncluded`: an index in [0, count]; otherwise out of bounds with
        bound `count + 1`. */
    function ValidateIndexEndIncluded(index: int): (r: Outcome)
      reads this
      ensures r.Pass? <==> 0 <= index <= |chars|
      ensures r.Fail? ==> r.error == IndexOutOfBounds(index, |chars| + 1)
    {
      if index < 0 || index > |chars| then Fail(IndexOutOfBounds(index, |chars| + 1)) else Pass
    }

    /** `#validateChar`: the candidate must be exactly one character. */
    function ValidateChar(candidate: string): (r: Outcome)
      ensures r.Pass? <==> |candidate| == 1
      ensures r.Fail? ==> r.error == IllegalArgument
    {
      if |candidate| != 1 then Fail(IllegalArgument) else Pass
    }

    /** `charAt(index)`: the character at index, as a one-character string. */
    function CharAt(index: int): (r: Result<string>)
      reads this
      requires Valid()
      ensures r.Success? <==> 0 <= index < Count()
      ensures r.Failure? ==> r.error == IndexOutOfBounds(index, Count())
      ensures r.Success? ==> r.value == [ToString()[index]]
    {
      match ValidateIndex(index)
      case Fail(e) => Failure(e)
      case Pass => assert chars[index] == [chars[index][0]]; Success(chars[index])
    }

    /** `setCharAt(index, char)`: the index is checked first, then that c is one character. */
    method SetCharAt(index: int, c: string) returns (r: Outcome)
      requires Valid()
      modifies this
      ensures Valid()
      ensures r == if !(0 <= index < old(Count())) then Fail(IndexOutOfBounds(index, old(Count())))
                   else if |c| != 1 then Fail(IllegalArgument)
                   else Pass
      ensures r.Pass? ==> ToString() == old(ToString())[index := c[0]]
      ensures r.Fail? ==> chars == old(chars)
    {
      r := ValidateIndex(index);
      if r.Fail? { return; }
      r := ValidateChar(c);
      if r.Fail? { return; }
      chars := chars[index := c];
      assert c == [c[0]];
    }

    /** `delete(startIndex, endIndex)`: removes the characters from startIndex up to, but
        not including, endIndex clamped to `count`. startIndex must index a character
        (so it fails even at `count`), and must not exceed the clamped end. */
    method Delete(startIndex: int, endIndex: int) returns (r: Outcome)
      requires Valid()
      modifies this
      ensures Valid()
      ensures var n := old(Count());
        var end := if endIndex > n then n else endIndex;
        && r == (if !(0 <= startIndex < n) then Fail(IndexOutOfBounds(startIndex, n))
                 else if startIndex > end then Fail(IllegalArgument)
                 else Pass)
        && (r.Pass? ==> ToString() == old(ToString())[..startIndex] + old(ToString())[end..])
      ensures r.Fail? ==> chars == old(chars)
    {
      r := ValidateIndex(startIndex);
      if r.Fail? { return; }
      var endIdxAdjusted := if endIndex > |chars| then |chars| else endIndex;
      if startIndex > endIdxAdjusted {
        return Fail(IllegalArgument);
      }
      ghost var before := chars;
      // #chars.splice(startIndex, endIdxAdjusted - startIndex)
      chars := chars[..startIndex] + chars[endIdxAdjusted..];
      JoinAppend(before[..startIndex], before[endIdxAdjusted..]);
      JoinSlices(before, startIndex);
      JoinSlices(before, endIdxAdjusted);
    }

    /** `deleteCharAt(index)`: checks the index, then deletes [index, index + 1). */
    method DeleteCharAt(index: int) returns (r: Outcome)
      requires Valid()
      modifies this
      ensures Valid()
      ensures r == if 0 <= index < old(Count()) then Pass else Fail(IndexOutOfBounds(index, old(Count())))
      ensures r.Pass? ==> ToString() == old(ToString())[..index] + old(ToString())[index + 1..]
      ensures r.Fail? ==> chars == old(chars)
    {
      r := ValidateIndex(index);
      if r.Fail? { return; }
      r := Delete(index, index + 1);
    }

    /** `#getCharsOf(seq)`: a builder's own character array, or the split of the text. */
    function GetCharsOf(cs: CharSequenceLike): (parts: seq<string>)
      reads if cs.Builder? then {cs.builder} else {}
      requires cs.Builder? ==> cs.builder.Valid()
      ensures AllSingleChars(parts)
      ensures Join(parts) == Stringify(cs)
    {
      if cs.Builder? then cs.builder.chars
      else
        var s := Stringify(cs);
        JoinSplit(s);
        Split(s)
    }

    /** The `for ... of` loop of `append`: pushes each piece onto `#chars`, in order. */
    method PushAll(pieces: seq<string>)
      modifies this
      ensures chars == old(chars) + pieces
    {
      ghost var before := chars;
      var i := 0;
      while i < |pieces|
        invariant 0 <= i <= |pieces|
        invariant chars == before + pieces[..i]
      {
        chars := chars + [pieces[i]];
        i := i + 1;
      }
      assert pieces[..i] == pieces;
    }

    /** `append(seq)`: the text of cs is added at the end. Appending '' does nothing, and
        so does appending an empty builder to itself. Appending a non-empty builder to
        itself is excluded: there the source's copy loop reads the array it is growing and
        never ends. */
    method Append(cs: CharSequenceLike)
      requires Valid()
      requires cs.Builder? ==> cs.builder.Valid() && (cs.builder != this || chars == [])
      modifies this
      ensures Valid()
      ensures ToString() == old(ToString()) + old(Stringify(cs))
      ensures Count() == old(Count()) + |old(Stringify(cs))|
    {
      if cs != Str("") {
        var pieces: seq<string>;
        if cs.Str? {
          pieces := Split(cs.s);  // indexing a string yields its one-character strings
        } else if cs.Builder? {
          pieces := cs.builder.chars;
        } else {
          pieces := Split(Stringify(cs));
        }
        assert Join(pieces) == Stringify(cs) by {
          if cs.Str? { JoinSplit(cs.s); }
          else if !cs.Builder? { JoinSplit(Stringify(cs)); }
        }
        ghost var before := chars;
        PushAll(pieces);
        JoinAppend(before, pieces);
      }
    }

    /** `insert(index, seq)`: the text of cs is placed before position index, which may be
        `count` itself. The index is checked even when cs is ''. The source fills a new
        array of the combined length and then replaces `#chars` with it. */
    method Insert(index: int, cs: CharSequenceLike) returns (r: Outcome)
      requires Valid()
      requires cs.Builder? ==> cs.builder.Valid()
      modifies this
      ensures Valid()
      ensures r == if 0 <= index <= old(Count()) then Pass else Fail(IndexOutOfBounds(index, old(Count()) + 1))
      ensures r.Pass? ==>
        ToString() == old(ToString())[..index] + old(Stringify(cs)) + old(ToString())[index..]
      ensures r.Fail? ==> chars == old(chars)
    {
      r := ValidateIndexEndIncluded(index);
      if r.Fail? { return; }
      if cs == Str("") {
        assert old(ToString()) == old(ToString())[..index] + old(ToString())[index..];
        return;
      }
      var newSeqChars := GetCharsOf(cs);
      assert Join(newSeqChars) == old(Stringify(cs));
      ghost var before := chars;
      chars := Splice(chars, index, newSeqChars);
      JoinSplice(before, index, newSeqChars);
    }
  }
}

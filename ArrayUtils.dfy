/**
 * The neighbours of a value in an array: the element before it
 * (`getLast`) and the element after it (`getNext`), optionally wrapping
 * around at the ends.
 */
module ArrayUtils {
  import opened Wrappers
  import opened ObjectUtils

  /** `isEmpty(sourceArray)`. */
  predicate IsEmpty<T>(sourceArray: array?<T>)
  {
    sourceArray == null || sourceArray.Length == 0
  }

  /** The first position holding `value`, or -1 when there is none. */
  function FirstIndexOf<T(==)>(s: seq<T>, value: T): (r: int)
    ensures -1 <= r < |s|
    ensures r == -1 <==> value !in s
    ensures r != -1 ==> s[r] == value && value !in s[..r]
  {
    if s == [] then -1
    else if s[0] == value then 0
    else
      var k := FirstIndexOf(s[1..], value);
      assert k != -1 ==> s[..k + 1] == [s[0]] + s[1..][..k];
      if k == -1 then -1 else k + 1
  }

  /** Any position that is the first one holding `value` is FirstIndexOf. */
  lemma FirstIndexOfUnique<T>(s: seq<T>, value: T, k: int)
    requires 0 <= k < |s| && s[k] == value && value !in s[..k]
    ensures FirstIndexOf(s, value) == k
  {
  }

  /** What `getLast` returns for a non-empty array. */
  function Previous<T(==)>(s: seq<T>, value: T, defaultValue: T, isCircle: bool): T
    requires s != []
  {
    var p := FirstIndexOf(s, value);
    if p == -1 then defaultValue
    else if p == 0 then (if isCircle then s[|s| - 1] else defaultValue)
    else s[p - 1]
  }

  /** What `getNext` returns for a non-empty array. */
  function Next<T(==)>(s: seq<T>, value: T, defaultValue: T, isCircle: bool): T
    requires s != []
  {
    var p := FirstIndexOf(s, value);
    if p == -1 then defaultValue
    else if p == |s| - 1 then (if isCircle then s[0] else defaultValue)
    else s[p + 1]
  }

  predicate Distinct<T(==)>(s: seq<T>)
  {
    forall i, j :: 0 <= i < j < |s| ==> s[i] != s[j]
  }

  /** In a circular array without repeated elements, stepping back and
      then forward (or forward and then back) returns to the value. */
  lemma NextOfPrevious<T>(s: seq<T>, value: T, defaultValue: T)
    requires s != [] && Distinct(s) && value in s
    ensures Next(s, Previous(s, value, defaultValue, true), defaultValue, true) == value
    ensures Previous(s, Next(s, value, defaultValue, true), defaultValue, true) == value
  {
    var p := FirstIndexOf(s, value);
    var before := if p == 0 then |s| - 1 else p - 1;
    var after := if p == |s| - 1 then 0 else p + 1;
    FirstIndexOfUnique(s, s[before], before);
    FirstIndexOfUnique(s, s[after], after);
  }

  /** The element after the value is never the default in a circular
      array that holds the value; without wrap-around, the ends give the
      default. */
  lemma NonCircularEnds<T>(s: seq<T>, value: T, defaultValue: T)
    requires s != []
    ensures FirstIndexOf(s, value) == 0 ==> Previous(s, value, defaultValue, false) == defaultValue
    ensures FirstIndexOf(s, value) == |s| - 1 ==> Next(s, value, defaultValue, false) == defaultValue
    ensures value in s ==> Previous(s, value, defaultValue, true) in s && Next(s, value, defaultValue, true) in s
  {
  }

  /** The linear search of `getLast` and `getNext`: the first position
      where the value occurs (null-aware equality), or -1. */
  method CurrentPosition<T(==)>(sourceArray: array<Option<T>>, value: Option<T>) returns (currentPosition: int)
    ensures currentPosition == FirstIndexOf(sourceArray[..], value)
  {
    currentPosition := -1;
    var i := 0;
    while i < sourceArray.Length
      invariant 0 <= i <= sourceArray.Length
      invariant value !in sourceArray[..i]
    {
      if IsEquals(value, sourceArray[i]) {
        currentPosition := i;
        FirstIndexOfUnique(sourceArray[..], value, i);
        return;
      }
      assert sourceArray[..i + 1] == sourceArray[..i] + [sourceArray[i]];
      i := i + 1;
    }
    assert sourceArray[..i] == sourceArray[..];
  }

  /** `getLast(sourceArray, value, defaultValue, isCircle)`. */
  method GetLast<T(==)>(sourceArray: array?<Option<T>>, value: Option<T>, defaultValue: Option<T>, isCircle: bool)
    returns (r: Option<T>)
    ensures IsEmpty(sourceArray) ==> r == defaultValue
    ensures !IsEmpty(sourceArray) ==> r == Previous(sourceArray[..], value, defaultValue, isCircle)
  {
    if IsEmpty(sourceArray) {
      return defaultValue;
    }
    var currentPosition := CurrentPosition(sourceArray, value);
    if currentPosition == -1 {
      return defaultValue;
    }
    if currentPosition == 0 {
      return if isCircle then sourceArray[sourceArray.Length - 1] else defaultValue;
    }
    r := sourceArray[currentPosition - 1];
  }

  /** `getNext(sourceArray, value, defaultValue, isCircle)`. */
  method GetNext<T(==)>(sourceArray: array?<Option<T>>, value: Option<T>, defaultValue: Option<T>, isCircle: bool)
    returns (r: Option<T>)
    ensures IsEmpty(sourceArray) ==> r == defaultValue
    ensures !IsEmpty(sourceArray) ==> r == Next(sourceArray[..], value, defaultValue, isCircle)
  {
    if IsEmpty(sourceArray) {
      return defaultValue;
    }
    var currentPosition := CurrentPosition(sourceArray, value);
    if currentPosition == -1 {
      return defaultValue;
    }
    if currentPosition == sourceArray.Length - 1 {
      return if isCircle then sourceArray[0] else defaultValue;
    }
    r := sourceArray[currentPosition + 1];
  }

  /** `getLast(sourceArray, value, isCircle)`: null is the default. */
  method GetLastOrNull<T(==)>(sourceArray: array?<Option<T>>, value: Option<T>, isCircle: bool) returns (r: Option<T>)
    ensures IsEmpty(sourceArray) ==> r == None
    ensures !IsEmpty(sourceArray) ==> r == Previous(sourceArray[..], value, None, isCircle)
  {
    r := GetLast(sourceArray, value, None, isCircle);
  }

  /** `getNext(sourceArray, value, isCircle)`: null is the default. */
  method GetNextOrNull<T(==)>(sourceArray: array?<Option<T>>, value: Option<T>, isCircle: bool) returns (r: Option<T>)
    ensures IsEmpty(sourceArray) ==> r == None
    ensures !IsEmpty(sourceArray) ==> r == Next(sourceArray[..], value, None, isCircle)
  {
    r := GetNext(sourceArray, value, None, isCircle);
  }

  /** Searching the boxed array for the boxed value finds the same place. */
  lemma BoxedSearch<T>(s: seq<T>, value: T)
    ensures FirstIndexOf(Boxed(s), Some(value)) == FirstIndexOf(s, value)
  {
    var k := FirstIndexOf(s, value);
    if k == -1 {
      assert Some(value) !in Boxed(s);
    } else {
      assert Boxed(s)[..k] == Boxed(s[..k]);
      FirstIndexOfUnique(Boxed(s), Some(value), k);
    }
  }

  /** The `int` and `long` overloads of `getLast`: they box the array and
      fail on an empty one; reading the length of a null array throws
      NullPointerException. */
  method GetLastPrimitive<T(==)>(sourceArray: array?<T>, value: T, defaultValue: T, isCircle: bool) returns (r: Result<T>)
    ensures r.Err? <==> sourceArray == null || sourceArray.Length == 0
    ensures r.Err? && sourceArray == null ==> r.error == NullPointer
    ensures r.Err? && sourceArray != null ==> r.error == IllegalArgument("The length of source array must be greater than 0.")
    ensures r.Ok? ==> sourceArray != null && r.value == Previous(sourceArray[..], value, defaultValue, isCircle)
  {
    if sourceArray == null {
      return Err(NullPointer);
    }
    if sourceArray.Length == 0 {
      return Err(IllegalArgument("The length of source array must be greater than 0."));
    }
    var boxedArray := BoxArray(sourceArray);
    var boxed := GetLast(boxedArray.value, Some(value), Some(defaultValue), isCircle);
    BoxedSearch(sourceArray[..], value);
    r := Ok(boxed.value);
  }

  /** The `int` and `long` overloads of `getNext`, with the same errors. */
  method GetNextPrimitive<T(==)>(sourceArray: array?<T>, value: T, defaultValue: T, isCircle: bool) returns (r: Result<T>)
    ensures r.Err? <==> sourceArray == null || sourceArray.Length == 0
    ensures r.Err? && sourceArray == null ==> r.error == NullPointer
    ensures r.Err? && sourceArray != null ==> r.error == IllegalArgument("The length of source array must be greater than 0.")
    ensures r.Ok? ==> sourceArray != null && r.value == Next(sourceArray[..], value, defaultValue, isCircle)
  {
    if sourceArray == null {
      return Err(NullPointer);
    }
    if sourceArray.Length == 0 {
      return Err(IllegalArgument("The length of source array must be greater than 0."));
    }
    var boxedArray := BoxArray(sourceArray);
    var boxed := GetNext(boxedArray.value, Some(value), Some(defaultValue), isCircle);
    BoxedSearch(sourceArray[..], value);
    r := Ok(boxed.value);
  }
}

/**
 * Null-aware helpers on objects: equality, comparison, printing, and the
 * boxing and unboxing of primitive arrays. A Java reference that may be
 * `null` is an `Option`; `equals` of the element types is value equality.
 */
module ObjectUtils {
  import opened Wrappers

  /** `isEquals(actual, expected)`: the same reference, or a non-null
      `actual` that equals `expected`. */
  predicate IsEquals<T(==)>(actual: Option<T>, expected: Option<T>)
  {
    actual == expected || (if actual.None? then expected.None? else expected.Some? && actual.value == expected.value)
  }

  /** Null is equal only to null, and the relation is symmetric. */
  lemma IsEqualsIsEquality<T>(actual: Option<T>, expected: Option<T>)
    ensures IsEquals(actual, expected) <==> actual == expected
    ensures IsEquals(actual, expected) <==> IsEquals(expected, actual)
  {
  }

  /** An object reaching `nullStrToEmpty`: a String, or any other object
      together with the text its `toString` gives. */
  datatype JObject = JString(s: string) | JOther(asString: string)

  /** `nullStrToEmpty(str)`. */
  function NullStrToEmpty(str: Option<JObject>): (r: string)
    ensures str.None? ==> r == []
    ensures str.Some? && str.value.JString? ==> r == str.value.s
    ensures str.Some? && str.value.JOther? ==> r == str.value.asString
  {
    match str
    case None => ""
    case Some(JString(s)) => s
    case Some(JOther(text)) => text
  }

  /** `Integer.compareTo`. */
  function CompareTo(x: int, y: int): int
  {
    if x < y then -1 else if x == y then 0 else 1
  }

  /** `compare(v1, v2)` on Integers: null sorts before every value. */
  function Compare(v1: Option<int>, v2: Option<int>): (r: int)
    ensures -1 <= r <= 1
    ensures r == 0 <==> v1 == v2
    ensures r < 0 <==> (v1.None? && v2.Some?) || (v1.Some? && v2.Some? && v1.value < v2.value)
  {
    if v1.None? then (if v2.None? then 0 else -1)
    else if v2.None? then 1
    else CompareTo(v1.value, v2.value)
  }

  /** `compare` is a total order: antisymmetric and transitive. */
  lemma CompareIsOrder(a: Option<int>, b: Option<int>, c: Option<int>)
    ensures Compare(a, b) == -Compare(b, a)
    ensures Compare(a, b) <= 0 && Compare(b, c) <= 0 ==> Compare(a, c) <= 0
  {
  }

  /** A primitive array seen as an array of boxes. */
  function Boxed<T>(s: seq<T>): (r: seq<Option<T>>)
    ensures |r| == |s|
    ensures forall i :: 0 <= i < |s| ==> r[i] == Some(s[i])
  {
    if s == [] then [] else Boxed(s[..|s| - 1]) + [Some(s[|s| - 1])]
  }

  /** Unboxing fails on the first null box. */
  function Unboxed<T>(s: seq<Option<T>>): (r: Result<seq<T>>)
    ensures r.Err? <==> exists i :: 0 <= i < |s| && s[i].None?
    ensures r.Err? ==> r.error == NullPointer
    ensures r.Ok? ==> |r.value| == |s| && forall i :: 0 <= i < |s| ==> s[i] == Some(r.value[i])
  {
    if s == [] then Ok([])
    else
      var init := Unboxed(s[..|s| - 1]);
      if init.Err? then init
      else if s[|s| - 1].None? then Err(NullPointer)
      else Ok(init.value + [s[|s| - 1].value])
  }

  /** Boxing then unboxing gives back the array. */
  lemma UnboxedBoxed<T>(s: seq<T>)
    ensures Unboxed(Boxed(s)) == Ok(s)
  {
    var r := Unboxed(Boxed(s));
    assert r.Ok?;
    assert r.value == s;
  }

  /** Unboxing an array without null boxes and boxing again gives back
      the boxes. */
  lemma BoxedUnboxed<T>(s: seq<Option<T>>)
    requires Unboxed(s).Ok?
    ensures Boxed(Unboxed(s).value) == s
  {
  }

  /** `transformIntArray(int[])` and `transformLongArray(long[])`: reading
      the length of a null source throws NullPointerException. */
  method BoxArray<T>(source: array?<T>) returns (r: Result<array<Option<T>>>)
    ensures r.Err? <==> source == null
    ensures r.Err? ==> r.error == NullPointer
    ensures r.Ok? ==> fresh(r.value) && r.value[..] == Boxed(source[..])
  {
    if source == null {
      return Err(NullPointer);
    }
    var destin := new Option<T>[source.Length](_ => None);
    for i := 0 to source.Length
      invariant forall k :: 0 <= k < i ==> destin[k] == Some(source[k])
    {
      destin[i] := Some(source[i]);
    }
    r := Ok(destin);
  }

  /** `transformIntArray(Integer[])` and `transformLongArray(Long[])`: a
      null source, or a null box met by the copy, throws
      NullPointerException. */
  method UnboxArray<T(0)>(source: array?<Option<T>>) returns (r: Result<array<T>>)
    ensures r.Err? <==> source == null || Unboxed(source[..]).Err?
    ensures r.Err? ==> r.error == NullPointer
    ensures r.Ok? ==> source != null && fresh(r.value) && r.value[..] == Unboxed(source[..]).value
  {
    if source == null {
      return Err(NullPointer);
    }
    var destin := new T[source.Length];
    for i := 0 to source.Length
      invariant forall k :: 0 <= k < i ==> source[k] == Some(destin[k])
    {
      if source[i].None? {
        return Err(NullPointer);
      }
      destin[i] := source[i].value;
    }
    r := Ok(destin);
  }
}
/**
 * List helpers over a growable array list: size and emptiness with null
 * taken as empty, element-wise equality, appending entries that are not
 * yet present, removing duplicates in place, and building a reversed copy.
 */
module ListUtils {
  import opened Wrappers
  import opened JavaLang

  /** A `java.util.ArrayList`: its contents, changed in place. */
  class ArrayList<T(==)> {
    var elems: seq<T>

    constructor(initial: seq<T>)
      ensures elems == initial
    {
      elems := initial;
    }

    function Size(): (n: nat)
      reads this
      ensures n == |elems|
    {
      |elems|
    }

    predicate Contains(x: T)
      reads this
    {
      x in elems
    }

    /** `add(x)`: appends and reports true, since a list always changes. */
    method Add(x: T) returns (changed: bool)
      modifies this
      ensures elems == old(elems) + [x]
      ensures changed
    {
      elems := elems + [x];
      changed := true;
    }

    /** `remove(index)`: later elements shift down by one. */
    method RemoveAt(index: nat)
      requires index < |elems|
      modifies this
      ensures elems == old(elems[..index] + elems[index + 1..])
    {
      elems := elems[..index] + elems[index + 1..];
    }
  }

  /** `getSize`: 0 for null. */
  function GetSize<T(==)>(sourceList: ArrayList?<T>): (n: nat)
    reads sourceList
    ensures sourceList == null ==> n == 0
    ensures sourceList != null ==> n == |sourceList.elems|
  {
    if sourceList == null then 0 else sourceList.Size()
  }

  /** `isEmpty`: null or no elements. */
  predicate IsEmpty<T(==)>(sourceList: ArrayList?<T>)
    reads sourceList
  {
    sourceList == null || sourceList.Size() == 0
  }

  lemma IsEmptyIffSizeZero<T>(sourceList: ArrayList?<T>)
    ensures IsEmpty(sourceList) <==> GetSize(sourceList) == 0
  {
  }

  /** `isEquals(actual, expected)`: two nulls are equal, a null and a list
      are not, and two lists are equal when they agree position by position. */
  method IsEquals<T(==)>(actual: ArrayList?<T>, expected: ArrayList?<T>) returns (r: bool)
    ensures actual == null ==> (r <==> expected == null)
    ensures actual != null && expected == null ==> !r
    ensures actual != null && expected != null ==> (r <==> actual.elems == expected.elems)
  {
    if actual == null {
      return expected == null;
    }
    if expected == null {
      return false;
    }
    if actual.Size() != expected.Size() {
      return false;
    }
    var i := 0;
    while i < actual.Size()
      invariant 0 <= i <= |actual.elems|
      invariant actual.elems[..i] == expected.elems[..i]
    {
      if actual.elems[i] != expected.elems[i] {
        return false;
      }
      assert actual.elems[..i + 1] == actual.elems[..i] + [actual.elems[i]];
      assert expected.elems[..i + 1] == expected.elems[..i] + [expected.elems[i]];
      i := i + 1;
    }
    assert actual.elems[..i] == actual.elems;
    assert expected.elems[..i] == expected.elems;
    return true;
  }

  /** `addDistinctEntry(sourceList, entry)`. */
  method AddDistinctEntry<T(==)>(sourceList: ArrayList?<T>, entry: T) returns (added: bool)
    modifies sourceList
    ensures added <==> sourceList != null && entry !in old(sourceList.elems)
    ensures sourceList != null ==>
      sourceList.elems == if added then old(sourceList.elems) + [entry] else old(sourceList.elems)
  {
    if sourceList != null && !sourceList.Contains(entry) {
      added := sourceList.Add(entry);
    } else {
      added := false;
    }
  }

  /** The elements of `s` as a set. */
  function Elements<T>(s: seq<T>): set<T>
  {
    set x | x in s
  }

  /** The entries of `s` whose value is neither in `seen` nor earlier in `s`,
      in order: the first occurrences of the values not yet seen. */
  function Unseen<T(==)>(s: seq<T>, seen: set<T>): seq<T>
  {
    if s == [] then []
    else if s[0] in seen then Unseen(s[1..], seen)
    else [s[0]] + Unseen(s[1..], seen + {s[0]})
  }

  /** The first occurrence of every value of `s`, in order. */
  function FirstOccurrences<T(==)>(s: seq<T>): seq<T>
  {
    Unseen(s, {})
  }

  predicate Distinct<T(==)>(s: seq<T>)
  {
    forall a, b :: 0 <= a < b < |s| ==> s[a] != s[b]
  }

  /** `Unseen` keeps exactly the unseen values, each once. */
  lemma {:induction false} UnseenElements<T>(s: seq<T>, seen: set<T>)
    ensures forall x :: x in Unseen(s, seen) <==> x in s && x !in seen
    ensures Distinct(Unseen(s, seen))
  {
    if s != [] {
      var rest := s[1..];
      assert s == [s[0]] + rest;
      if s[0] in seen {
        UnseenElements(rest, seen);
      } else {
        UnseenElements(rest, seen + {s[0]});
        var u := Unseen(rest, seen + {s[0]});
        assert Unseen(s, seen) == [s[0]] + u;
        assert forall b :: 0 <= b < |u| ==> u[b] != s[0];
      }
    }
  }

  /** Nothing is dropped from a sequence without repeats whose values are
      all unseen. */
  lemma {:induction false} UnseenOfDistinct<T>(s: seq<T>, seen: set<T>)
    requires Distinct(s)
    requires forall x :: x in s ==> x !in seen
    ensures Unseen(s, seen) == s
  {
    if s != [] {
      var rest := s[1..];
      assert forall a :: 0 < a < |s| ==> s[a] != s[0];
      assert s[0] !in rest;
      UnseenOfDistinct(rest, seen + {s[0]});
    }
  }

  /** Dropping a later copy of a value that has already been seen (or
      occurs earlier) does not change `Unseen`. */
  lemma {:induction false} UnseenDropSeen<T>(s: seq<T>, seen: set<T>, j: nat)
    requires j < |s|
    requires s[j] in seen || s[j] in s[..j]
    ensures Unseen(s[..j] + s[j + 1..], seen) == Unseen(s, seen)
    decreases j
  {
    var t := s[..j] + s[j + 1..];
    if j == 0 {
      assert t == s[1..];
    } else {
      var rest := s[1..];
      assert t[0] == s[0];
      assert t[1..] == rest[..j - 1] + rest[j..];
      assert rest[j - 1] == s[j];
      assert s[..j] == [s[0]] + rest[..j - 1];
      if s[0] in seen {
        UnseenDropSeen(rest, seen, j - 1);
      } else {
        UnseenDropSeen(rest, seen + {s[0]}, j - 1);
      }
    }
  }

  /** `s` extended by `es` the way `addDistinctList` does it: each entry is
      appended unless it is already in the list. */
  function AddedDistinct<T(==)>(s: seq<T>, es: seq<T>): seq<T>
    decreases |es|
  {
    if es == [] then s
    else AddedDistinct(if es[0] in s then s else s + [es[0]], es[1..])
  }

  /** Appending distinct entries appends the first occurrences of the
      entries not yet in the list, so a list without repeats keeps none. */
  lemma {:induction false} AddedDistinctIsUnseen<T>(s: seq<T>, es: seq<T>)
    ensures AddedDistinct(s, es) == s + Unseen(es, Elements(s))
    decreases |es|
  {
    if es != [] {
      if es[0] in s {
        AddedDistinctIsUnseen(s, es[1..]);
      } else {
        AddedDistinctIsUnseen(s + [es[0]], es[1..]);
        assert Elements(s + [es[0]]) == Elements(s) + {es[0]};
      }
    }
  }

  lemma AddedDistinctKeepsDistinct<T>(s: seq<T>, es: seq<T>)
    requires Distinct(s)
    ensures Distinct(AddedDistinct(s, es))
    ensures forall x :: x in AddedDistinct(s, es) <==> x in s || x in es
  {
    AddedDistinctIsUnseen(s, es);
    UnseenElements(es, Elements(s));
    var u := Unseen(es, Elements(s));
    var r := s + u;
    forall a, b | 0 <= a < b < |r|
      ensures r[a] != r[b]
    {
      if b >= |s| && a < |s| {
        assert r[b] in u;
        assert r[a] in Elements(s);
      } else if a >= |s| {
        assert r[a] == u[a - |s|] && r[b] == u[b - |s|];
      }
    }
  }

  /** `addDistinctList(sourceList, entryList)`: the number of entries
      appended. The entries are read before the list is changed, which is
      also what happens when both arguments are the same list, since then
      every entry is already present. */
  method AddDistinctList<T(==)>(sourceList: ArrayList?<T>, entryList: ArrayList?<T>) returns (count: int)
    modifies sourceList
    ensures sourceList == null || IsEmpty(entryList) ==> count == 0
    ensures sourceList != null && IsEmpty(entryList) ==> sourceList.elems == old(sourceList.elems)
    ensures sourceList != null && !IsEmpty(entryList) ==>
      sourceList.elems == AddedDistinct(old(sourceList.elems), old(entryList.elems))
      && count == |sourceList.elems| - |old(sourceList.elems)|
  {
    if sourceList == null || IsEmpty(entryList) {
      return 0;
    }
    var sourceCount := sourceList.Size();
    var entries := entryList.elems;
    ghost var original := sourceList.elems;
    var i := 0;
    while i < |entries|
      invariant 0 <= i <= |entries|
      invariant AddedDistinct(sourceList.elems, entries[i..]) == AddedDistinct(original, entries)
      invariant |sourceList.elems| >= |original|
      invariant entryList != sourceList ==> entryList.elems == entries
    {
      assert entries[i..][1..] == entries[i + 1..];
      if !sourceList.Contains(entries[i]) {
        var _ := sourceList.Add(entries[i]);
      }
      i := i + 1;
    }
    assert entries[i..] == [];
    count := sourceList.Size() - sourceCount;
  }

  /** One removal in `distinctList`'s inner loop. */
  lemma RemoveLaterCopy<T>(s: seq<T>, i: nat, j: nat)
    requires i < j < |s| && s[i] == s[j]
    ensures FirstOccurrences(s[..j] + s[j + 1..]) == FirstOccurrences(s)
  {
    assert s[..j][i] == s[j];
    UnseenDropSeen(s, {}, j);
  }

  /** Removing a later copy of `s[i]` keeps what `distinctList`'s inner
      loop knows about the positions before and at `i`. */
  lemma RemoveKeepsScanned<T>(s: seq<T>, i: nat, j: nat)
    requires i < j < |s| && s[i] == s[j]
    requires forall a, b :: 0 <= a < i <= b < |s| ==> s[a] != s[b]
    requires forall b :: i < b < j ==> s[b] != s[i]
    ensures var t := s[..j] + s[j + 1..];
      && t[..i] == s[..i]
      && (forall a, b :: 0 <= a < i <= b < |t| ==> t[a] != t[b])
      && (forall b :: i < b < j ==> t[b] != t[i])
  {
    var t := s[..j] + s[j + 1..];
    assert forall b :: 0 <= b < |t| ==> t[b] == if b < j then s[b] else s[b + 1];
  }

  /** `distinctList(sourceList)`: the number of entries removed. For each
      position in turn, every later copy of its value is removed. */
  method DistinctList<T(==)>(sourceList: ArrayList?<T>) returns (removed: int)
    modifies sourceList
    ensures IsEmpty(sourceList) ==> removed == 0
    ensures sourceList != null ==>
      sourceList.elems == FirstOccurrences(old(sourceList.elems))
      && removed == |old(sourceList.elems)| - |sourceList.elems|
  {
    if IsEmpty(sourceList) {
      return 0;
    }
    var sourceCount := sourceList.Size();
    ghost var original := sourceList.elems;
    var i := 0;
    while i < sourceList.Size()
      invariant 0 <= i <= |sourceList.elems|
      invariant FirstOccurrences(sourceList.elems) == FirstOccurrences(original)
      invariant Distinct(sourceList.elems[..i])
      invariant forall a, b :: 0 <= a < i <= b < |sourceList.elems| ==> sourceList.elems[a] != sourceList.elems[b]
      decreases |sourceList.elems| - i
    {
      var j := i + 1;
      ghost var sizeBefore := |sourceList.elems|;
      while j < sourceList.Size()
        invariant |sourceList.elems| <= sizeBefore
        invariant i < j <= |sourceList.elems| || j == i + 1 == |sourceList.elems| + 1
        invariant i < |sourceList.elems|
        invariant FirstOccurrences(sourceList.elems) == FirstOccurrences(original)
        invariant Distinct(sourceList.elems[..i])
        invariant forall a, b :: 0 <= a < i <= b < |sourceList.elems| ==> sourceList.elems[a] != sourceList.elems[b]
        invariant forall b :: i < b < j && b < |sourceList.elems| ==> sourceList.elems[b] != sourceList.elems[i]
        decreases |sourceList.elems| - j
      {
        if sourceList.elems[i] == sourceList.elems[j] {
          RemoveLaterCopy(sourceList.elems, i, j);
          RemoveKeepsScanned(sourceList.elems, i, j);
          sourceList.RemoveAt(j);
        } else {
          j := j + 1;
        }
      }
      i := i + 1;
    }
    assert sourceList.elems[..i] == sourceList.elems;
    UnseenOfDistinct(sourceList.elems, {});
    removed := sourceCount - sourceList.Size();
  }

  /** Removing duplicates leaves every value exactly once. */
  lemma FirstOccurrencesDistinct<T>(s: seq<T>)
    ensures Distinct(FirstOccurrences(s))
    ensures forall x :: x in FirstOccurrences(s) <==> x in s
    ensures Distinct(s) ==> FirstOccurrences(s) == s
  {
    UnseenElements(s, {});
    if Distinct(s) {
      UnseenOfDistinct(s, {});
    }
  }

  /** `addListNotNullValue(sourceList, value)`. */
  method AddListNotNullValue<T(==)>(sourceList: ArrayList?<T>, value: Option<T>) returns (added: bool)
    modifies sourceList
    ensures added <==> sourceList != null && value.Some?
    ensures sourceList != null ==>
      sourceList.elems == if added then old(sourceList.elems) + [value.value] else old(sourceList.elems)
  {
    if sourceList != null && value.Some? {
      added := sourceList.Add(value.value);
    } else {
      added := false;
    }
  }

  /** `invertList(sourceList)`: an empty or null list comes back as it is,
      any other list as a new list holding its elements in reverse. */
  method InvertList<T(==)>(sourceList: ArrayList?<T>) returns (r: ArrayList?<T>)
    ensures IsEmpty(sourceList) ==> r == sourceList
    ensures !IsEmpty(sourceList) ==>
      r != null && fresh(r) && r.elems == Reversed(sourceList.elems)
  {
    if IsEmpty(sourceList) {
      return sourceList;
    }
    var n := sourceList.Size();
    var invertList := new ArrayList([]);
    var i := n - 1;
    while i >= 0
      invariant -1 <= i < n
      invariant fresh(invertList)
      invariant |invertList.elems| == n - 1 - i
      invariant forall k :: 0 <= k < |invertList.elems| ==> invertList.elems[k] == sourceList.elems[n - 1 - k]
    {
      var _ := invertList.Add(sourceList.elems[i]);
      i := i - 1;
    }
    return invertList;
  }
}

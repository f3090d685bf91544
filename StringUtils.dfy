/**
 * String helpers of the app: substrings with negative positions,
 * left/right/mid, padding, stripping, replacing and counting, comparison of
 * two strings, abbreviation, escaping and whitespace or line-separator
 * clean-up. A Java `null` string is `None`.
 */
module StringUtils {
  import opened Wrappers
  import opened JavaLang

  predicate IsSuffix(r: string, s: string) {
    |r| <= |s| && r == s[|s| - |r|..]
  }

  predicate IsPrefix(r: string, s: string) {
    |r| <= |s| && r == s[..|r|]
  }

  function Min(a: int, b: int): int { if a <= b then a else b }
  function Max(a: int, b: int): int { if a >= b then a else b }

  /** `isEmpty`: null, or nothing left after `trim`. */
  predicate IsEmpty(str: Option<string>)
  {
    str.None? || Trim(str.value) == []
  }

  /** A non-null string is empty for `isEmpty` exactly when it consists of
      characters up to U+0020 only. */
  lemma IsEmptyIff(s: string)
    ensures IsEmpty(Some(s)) <==> forall i :: 0 <= i < |s| ==> s[i] <= ' '
  {
    TrimEmptyIff(s);
  }

  // deleteWhitespace

  /** The characters of `s` that are not whitespace, in order. */
  function NonWhitespace(s: string): (r: string)
    ensures forall i :: 0 <= i < |r| ==> !IsWhitespace(r[i])
    ensures forall c :: !IsWhitespace(c) ==> multiset(r)[c] == multiset(s)[c]
    ensures forall c :: IsWhitespace(c) ==> multiset(r)[c] == 0
  {
    if s == [] then []
    else
      var n := |s| - 1;
      assert s == s[..n] + [s[n]];
      if IsWhitespace(s[n]) then NonWhitespace(s[..n]) else NonWhitespace(s[..n]) + [s[n]]
  }

  /** `deleteWhitespace`: a null string is not handled (it fails). */
  method DeleteWhitespace(str: string) returns (r: string)
    ensures r == NonWhitespace(str)
  {
    r := [];
    var i := 0;
    while i < |str|
      invariant 0 <= i <= |str|
      invariant r == NonWhitespace(str[..i])
    {
      assert str[..i + 1][..i] == str[..i];
      if !IsWhitespace(str[i]) {
        r := r + [str[i]];
      }
      i := i + 1;
    }
    assert str[..i] == str;
  }

  // substring, left, right, mid

  /** `substring(str, start)`: a negative start counts from the end (and is
      clamped to 0); a start past the end gives "". */
  function Substring(str: Option<string>, start: int): (r: Option<string>)
    ensures r.Some? <==> str.Some?
    ensures r.Some? ==> IsSuffix(r.value, str.value)
    ensures r.Some? && start < 0 ==> |r.value| == Min(-start, |str.value|)
    ensures r.Some? && start >= 0 ==> |r.value| == Max(0, |str.value| - start)
  {
    match str
    case None => None
    case Some(s) =>
      var a := if start < 0 then |s| + start else start;
      var a' := if a < 0 then 0 else a;
      if a' > |s| then Some("") else Some(s[a'..])
  }

  /** `substring(str, start, end)`: both positions may count from the end;
      the result is the part of `str` between them, "" when they cross. */
  function SubstringRange(str: Option<string>, start: int, end: int): (r: Option<string>)
    ensures r.Some? <==> str.Some?
    ensures r.Some? ==>
      var s := str.value;
      var a := if start < 0 then |s| + start else start;
      var b := if end < 0 then |s| + end else end;
      |r.value| == Max(0, Min(b, |s|) - Max(a, 0))
      && forall i :: 0 <= i < |r.value| ==> 0 <= Max(a, 0) + i < |s| && r.value[i] == s[Max(a, 0) + i]
  {
    match str
    case None => None
    case Some(s) =>
      var e := if end < 0 then |s| + end else end;
      var b := if start < 0 then |s| + start else start;
      var e' := if e > |s| then |s| else e;
      if b > e' then Some("")
      else
        var b' := if b < 0 then 0 else b;
        var e'' := if e' < 0 then 0 else e';
        Some(s[b'..e''])
  }

  /** Both substring forms agree when the end is the string's length. */
  lemma SubstringToEnd(s: string, start: int)
    ensures SubstringRange(Some(s), start, |s|) == Substring(Some(s), start)
  {
    var a := if start < 0 then |s| + start else start;
    var a' := if a < 0 then 0 else a;
    if a' <= |s| {
      assert s[a'..|s|] == s[a'..];
    }
  }

  /** The message of the IllegalArgumentException of `left`, `right` and
      `mid` for a negative length. */
  function LengthMessage(len: int): string
  {
    "Requested String length " + IntToString(len) + " is less than zero"
  }

  /** The message names the rejected length. */
  lemma LengthMessageExample()
    ensures Left(Some("abc"), -12) == Err(IllegalArgument("Requested String length -12 is less than zero"))
  {
    assert Digits(12) == "12";
  }

  /** `left`: the first `len` characters (all of them when fewer). */
  function Left(str: Option<string>, len: int): (r: Result<Option<string>>)
    ensures r.Err? <==> len < 0
    ensures r.Err? ==> r.error == IllegalArgument(LengthMessage(len))
    ensures r.Ok? ==> (r.value.Some? <==> str.Some?)
    ensures r.Ok? && str.Some? ==>
      IsPrefix(r.value.value, str.value) && |r.value.value| == Min(len, |str.value|)
  {
    if len < 0 then Err(IllegalArgument(LengthMessage(len)))
    else if str.None? || |str.value| <= len then Ok(str)
    else Ok(Some(str.value[..len]))
  }

  /** `right`: the last `len` characters (all of them when fewer). */
  function Right(str: Option<string>, len: int): (r: Result<Option<string>>)
    ensures r.Err? <==> len < 0
    ensures r.Err? ==> r.error == IllegalArgument(LengthMessage(len))
    ensures r.Ok? ==> (r.value.Some? <==> str.Some?)
    ensures r.Ok? && str.Some? ==>
      IsSuffix(r.value.value, str.value) && |r.value.value| == Min(len, |str.value|)
  {
    if len < 0 then Err(IllegalArgument(LengthMessage(len)))
    else if str.None? || |str.value| <= len then Ok(str)
    else Ok(Some(str.value[|str.value| - len..]))
  }

  /** `mid`: `len` characters from `pos` (fewer at the end of the string).
      A position outside the string is checked first, even for null. The
      end `pos + len` is Java `int` arithmetic: when it passes
      Integer.MAX_VALUE it wraps to a negative end, below `pos`, and
      `substring` throws StringIndexOutOfBoundsException. */
  function Mid(str: Option<string>, pos: int, len: int): (r: Result<Option<string>>)
    requires IsInt(pos) && IsInt(len) && (str.Some? ==> IsInt(|str.value|))
    ensures r.Err? <==> pos < 0 || (str.Some? && pos > |str.value|) || len < 0
                        || (str.Some? && pos + len > IntMax)
    ensures r.Err? && (pos < 0 || (str.Some? && pos > |str.value|)) ==> r.error == IndexOutOfBounds
    ensures r.Err? && !(pos < 0 || (str.Some? && pos > |str.value|)) && len < 0 ==>
      r.error == IllegalArgument(LengthMessage(len))
    ensures r.Err? && len >= 0 ==> r.error == IndexOutOfBounds
    ensures r.Ok? ==> (r.value.Some? <==> str.Some?)
    ensures r.Ok? && str.Some? ==>
      |r.value.value| == Min(len, |str.value| - pos)
      && r.value.value == str.value[pos..pos + |r.value.value|]
  {
    if pos < 0 || (str.Some? && pos > |str.value|) then Err(IndexOutOfBounds)
    else if len < 0 then Err(IllegalArgument(LengthMessage(len)))
    else if str.None? then Ok(None)
    else
      var end := IntAdd(pos, len);
      if |str.value| <= end then Ok(Some(str.value[pos..]))
      else if end < pos then Err(IndexOutOfBounds)
      else Ok(Some(str.value[pos..end]))
  }

  /** What `mid` is documented to do: when fewer than `len` characters
      remain, the rest of the string is returned without an exception. */
  function MidIntended(str: Option<string>, pos: int, len: int): (r: Result<Option<string>>)
    ensures r.Err? <==> pos < 0 || (str.Some? && pos > |str.value|) || len < 0
    ensures r.Err? && (pos < 0 || (str.Some? && pos > |str.value|)) ==> r.error == IndexOutOfBounds
    ensures r.Err? && !(pos < 0 || (str.Some? && pos > |str.value|)) ==>
      r.error == IllegalArgument(LengthMessage(len))
    ensures r.Ok? ==> (r.value.Some? <==> str.Some?)
    ensures r.Ok? && str.Some? ==>
      |r.value.value| == Min(len, |str.value| - pos)
      && r.value.value == str.value[pos..pos + |r.value.value|]
  {
    if pos < 0 || (str.Some? && pos > |str.value|) then Err(IndexOutOfBounds)
    else if len < 0 then Err(IllegalArgument(LengthMessage(len)))
    else if str.None? then Ok(None)
    else if |str.value| - pos <= len then Ok(Some(str.value[pos..]))
    else Ok(Some(str.value[pos..pos + len]))
  }

  /** `mid` as written does what it documents exactly when `pos + len`
      stays within `int`, or the call fails (or returns null) before the
      sum is formed. */
  lemma MidAgreesWithoutOverflow(str: Option<string>, pos: int, len: int)
    requires IsInt(pos) && IsInt(len) && (str.Some? ==> IsInt(|str.value|))
    ensures Mid(str, pos, len) == MidIntended(str, pos, len) <==>
      pos + len <= IntMax || MidIntended(str, pos, len).Err? || str.None?
  {
  }

  /** `mid("abc", 1, Integer.MAX_VALUE)` throws, where the documented
      result is "bc". */
  lemma MidOverflowExample()
    ensures Mid(Some("abc"), 1, IntMax) == Err(IndexOutOfBounds)
    ensures MidIntended(Some("abc"), 1, IntMax) == Ok(Some("bc"))
  {
    assert "abc"[1..] == "bc";
  }

  /** Left, mid and right split a string back into its parts. */
  lemma {:induction false} LeftMidRightCompose(s: string, a: nat, b: nat)
    requires a + b <= |s| && IsInt(|s|)
    ensures Left(Some(s), a).Ok? && Mid(Some(s), a, |s| - a - b).Ok? && Right(Some(s), b).Ok?
    ensures Left(Some(s), a).value.value + Mid(Some(s), a, |s| - a - b).value.value
            + Right(Some(s), b).value.value == s
  {
    var l := Left(Some(s), a).value.value;
    var m := Mid(Some(s), a, |s| - a - b).value.value;
    var r := Right(Some(s), b).value.value;
    assert l == s[..a];
    assert m == s[a..|s| - b];
    assert r == s[|s| - b..];
    assert s == s[..a] + s[a..|s| - b] + s[|s| - b..];
  }

  // chomp, prechomp

  /** `chomp(str, sep)`: everything before the last occurrence of `sep`;
      `str` itself when `sep` does not occur. */
  function Chomp(str: string, sep: string): (r: string)
    ensures IsPrefix(r, str)
    ensures (forall j :: !MatchAt(str, sep, j)) ==> r == str
    ensures (exists j :: MatchAt(str, sep, j)) ==>
      MatchAt(str, sep, |r|) && forall j :: |r| < j ==> !MatchAt(str, sep, j)
  {
    var idx := LastIndexOf(str, sep);
    if idx != -1 then str[..idx] else str
  }

  /** `chomp(str)`: up to the last newline. */
  function ChompNewline(str: string): (r: string)
    ensures IsPrefix(r, str)
    ensures '\n' !in str ==> r == str
    ensures '\n' in str ==> |r| < |str| && str[|r|] == '\n' && '\n' !in str[|r| + 1..]
  {
    var r := Chomp(str, "\n");
    assert forall j :: MatchAt(str, "\n", j) <==> 0 <= j < |str| && str[j] == '\n';
    r
  }

  /** `prechomp(str, sep)`: everything after the first occurrence of
      `sep`; `str` itself when `sep` does not occur. */
  function Prechomp(str: string, sep: string): (r: string)
    ensures IsSuffix(r, str)
    ensures (forall j :: !MatchAt(str, sep, j)) ==> r == str
    ensures (exists j :: MatchAt(str, sep, j)) ==>
      var k := |str| - |r| - |sep|;
      MatchAt(str, sep, k) && forall j :: j < k ==> !MatchAt(str, sep, j)
  {
    var idx := IndexOf(str, sep, 0);
    IndexOfIsFirst(str, sep, 0);
    if idx != -1 then str[idx + |sep|..] else str
  }

  /** Chomp and prechomp at a separator that occurs exactly once split the
      string around it. */
  lemma ChompPrechompSplit(a: string, sep: string, b: string)
    requires forall j :: MatchAt(a + sep + b, sep, j) <==> j == |a|
    ensures Chomp(a + sep + b, sep) == a && Prechomp(a + sep + b, sep) == b
  {
    assert MatchAt(a + sep + b, sep, |a|) by {
      assert (a + sep + b)[|a|..|a| + |sep|] == sep;
    }
    assert (a + sep + b)[..|a|] == a;
    assert (a + sep + b)[|a| + |sep|..] == b;
  }

  // reverse

  /** `reverse`. */
  function Reverse(str: Option<string>): (r: Option<string>)
    ensures r.Some? <==> str.Some?
    ensures r.Some? ==>
      |r.value| == |str.value|
      && forall i :: 0 <= i < |r.value| ==> r.value[i] == str.value[|str.value| - 1 - i]
  {
    match str
    case None => None
    case Some(s) => Some(Reversed(s))
  }

  lemma ReverseInvolution(str: Option<string>)
    ensures Reverse(Reverse(str)) == str
  {
    if str.Some? {
      ReversedInvolution(str.value);
    }
  }

  /** `reverseArray`: swaps from both ends towards the middle. */
  method ReverseArray<T>(a: array<T>)
    modifies a
    ensures a[..] == Reversed(old(a[..]))
  {
    var i, j := 0, a.Length - 1;
    while j > i
      invariant 0 <= i <= a.Length && j == a.Length - 1 - i
      invariant forall k :: 0 <= k < i ==> a[k] == old(a[a.Length - 1 - k]) && a[a.Length - 1 - k] == old(a[k])
      invariant forall k :: i <= k <= j ==> a[k] == old(a[k])
    {
      a[i], a[j] := a[j], a[i];
      j := j - 1;
      i := i + 1;
    }
  }

  // abbreviate

  /** The left edge `abbreviate` works with: capped at the length, then
      moved left so that at least maxWidth - 3 characters follow it. */
  function AbbreviateOffset(s: string, offset: int, maxWidth: int): int
  {
    var o := if offset > |s| then |s| else offset;
    if |s| - o < maxWidth - 3 then |s| - (maxWidth - 3) else o
  }

  /** `abbreviate(s, offset, maxWidth)`: widths below 4 are refused; a short
      enough string is returned as is; otherwise the result has exactly
      maxWidth characters and starts or ends with "...". A left edge past 4
      needs a width of at least 7. */
  function Abbreviate(s: string, offset: int, maxWidth: int): (r: Result<string>)
    decreases |s|
    ensures r.Err? <==> maxWidth < 4 || (|s| > maxWidth && AbbreviateOffset(s, offset, maxWidth) > 4 && maxWidth < 7)
    ensures r.Err? ==> r.error.IllegalArgument?
    ensures r.Ok? ==> |r.value| <= maxWidth
    ensures r.Ok? && |s| <= maxWidth ==> r.value == s
    ensures r.Ok? && |s| > maxWidth ==>
      |r.value| == maxWidth && (r.value[..3] == "..." || r.value[maxWidth - 3..] == "...")
  {
    if maxWidth < 4 then Err(IllegalArgument("Minimum abbreviation width is 4"))
    else if |s| <= maxWidth then Ok(s)
    else
      var o := AbbreviateOffset(s, offset, maxWidth);
      if o <= 4 then Ok(s[..maxWidth - 3] + "...")
      else if maxWidth < 7 then Err(IllegalArgument("Minimum abbreviation width with offset is 7"))
      else if o + (maxWidth - 3) < |s| then
        match Abbreviate(s[o..], 0, maxWidth - 3)
        case Ok(tail) => Ok("..." + tail)
        case Err(e) => Err(e)
      else Ok("..." + s[|s| - (maxWidth - 3)..])
  }

  /** `abbreviate(s, maxWidth)`: the left edge is 0, so only a width below 4
      is refused, and a long string keeps its first maxWidth - 3 characters. */
  lemma AbbreviateFromStart(s: string, maxWidth: int)
    ensures Abbreviate(s, 0, maxWidth).Err? <==> maxWidth < 4
    ensures maxWidth >= 4 && |s| > maxWidth ==>
      Abbreviate(s, 0, maxWidth) == Ok(s[..maxWidth - 3] + "...")
  {
  }

  // replace, countMatches

  /** The text from `start` on with its matches replaced, as the loop of
      `replace` does it: each round finds the next match at or after
      `start`, and `budget` (the caller's `max`) is decremented per
      replacement, the loop stopping when it reaches 0. A budget that starts
      at or below 0 therefore never stops the loop. */
  function ReplaceFrom(text: string, repl: string, with: string, start: nat, budget: int): string
    requires |repl| > 0 && start <= |text|
    decreases |text| - start
  {
    var end := IndexFrom(text, repl, start);
    if end == -1 then text[start..]
    else if budget - 1 == 0 then text[start..end] + with + text[end + |repl|..]
    else text[start..end] + with + ReplaceFrom(text, repl, with, end + |repl|, budget - 1)
  }

  /** The number of replacements ReplaceFrom makes. */
  function ReplaceCount(text: string, repl: string, start: nat, budget: int): nat
    requires |repl| > 0 && start <= |text|
    decreases |text| - start
  {
    var end := IndexFrom(text, repl, start);
    if end == -1 then 0
    else if budget - 1 == 0 then 1
    else 1 + ReplaceCount(text, repl, end + |repl|, budget - 1)
  }

  /** The count of the `countMatches` loop: leftmost non-overlapping
      occurrences from `idx` on. */
  function CountFrom(str: string, sub: string, idx: nat): nat
    requires |sub| > 0 && idx <= |str|
    decreases |str| - idx
  {
    var found := IndexFrom(str, sub, idx);
    if found == -1 then 0 else 1 + CountFrom(str, sub, found + |sub|)
  }

  /** A match found from `idx` adds one to the count from just past it. */
  lemma CountFromStep(str: string, sub: string, idx: nat)
    requires |sub| > 0 && idx <= |str| && IndexFrom(str, sub, idx) != -1
    ensures IndexFrom(str, sub, idx) + |sub| <= |str|
    ensures CountFrom(str, sub, idx) == 1 + CountFrom(str, sub, IndexFrom(str, sub, idx) + |sub|)
  {
  }

  /** Without a positive maximum every match is replaced: exactly as many
      as `countMatches` counts. */
  lemma {:induction false} ReplaceCountIsCountMatches(text: string, repl: string, start: nat, budget: int)
    requires |repl| > 0 && start <= |text| && budget <= 0
    ensures ReplaceCount(text, repl, start, budget) == CountFrom(text, repl, start)
    decreases |text| - start
  {
    var end := IndexFrom(text, repl, start);
    if end != -1 {
      ReplaceCountIsCountMatches(text, repl, end + |repl|, budget - 1);
    }
  }

  /** A positive maximum bounds the number of replacements. */
  lemma {:induction false} ReplaceCountAtMostMax(text: string, repl: string, start: nat, budget: int)
    requires |repl| > 0 && start <= |text| && budget > 0
    ensures ReplaceCount(text, repl, start, budget) <= budget
    ensures ReplaceCount(text, repl, start, budget) <= CountFrom(text, repl, start)
    decreases |text| - start
  {
    var end := IndexFrom(text, repl, start);
    if end != -1 && budget - 1 != 0 {
      ReplaceCountAtMostMax(text, repl, end + |repl|, budget - 1);
    }
  }

  /** Each replacement changes the length by |with| - |repl|. */
  lemma {:induction false} ReplaceLength(text: string, repl: string, with: string, start: nat, budget: int)
    requires |repl| > 0 && start <= |text|
    ensures |ReplaceFrom(text, repl, with, start, budget)|
            == |text| - start + ReplaceCount(text, repl, start, budget) * (|with| - |repl|)
    decreases |text| - start
  {
    if IndexFrom(text, repl, start) == -1 || budget - 1 == 0 {
      ReplaceLengthLast(text, repl, with, start, budget);
    } else {
      ReplaceLength(text, repl, with, IndexFrom(text, repl, start) + |repl|, budget - 1);
      ReplaceLengthStep(text, repl, with, start, budget);
    }
  }

  /** With no match left or the budget at its last replacement, at most one
      replacement changes the length. */
  lemma ReplaceLengthLast(text: string, repl: string, with: string, start: nat, budget: int)
    requires |repl| > 0 && start <= |text| && (IndexFrom(text, repl, start) == -1 || budget - 1 == 0)
    ensures |ReplaceFrom(text, repl, with, start, budget)|
      == |text| - start + ReplaceCount(text, repl, start, budget) * (|with| - |repl|)
  {
    ReplaceCountUnfolds(text, repl, start, budget);
    if IndexFrom(text, repl, start) == -1 {
      ReplaceFromNone(text, repl, with, start, budget);
    } else {
      ReplaceFromLast(text, repl, with, start, budget);
    }
  }

  /** One replacement followed by the rest: the length changes by one more
      |with| - |repl|. */
  lemma ReplaceLengthStep(text: string, repl: string, with: string, start: nat, budget: int)
    requires |repl| > 0 && start <= |text| && IndexFrom(text, repl, start) != -1 && budget - 1 != 0
    requires |ReplaceFrom(text, repl, with, IndexFrom(text, repl, start) + |repl|, budget - 1)|
      == |text| - (IndexFrom(text, repl, start) + |repl|)
         + ReplaceCount(text, repl, IndexFrom(text, repl, start) + |repl|, budget - 1) * (|with| - |repl|)
    ensures |ReplaceFrom(text, repl, with, start, budget)|
      == |text| - start + ReplaceCount(text, repl, start, budget) * (|with| - |repl|)
  {
    ReplaceFromMore(text, repl, with, start, budget);
    ReplaceCountUnfolds(text, repl, start, budget);
    OneMore(ReplaceCount(text, repl, IndexFrom(text, repl, start) + |repl|, budget - 1), |with| - |repl|);
  }

  /** The three ways ReplaceCount unfolds. */
  lemma ReplaceCountUnfolds(text: string, repl: string, start: nat, budget: int)
    requires |repl| > 0 && start <= |text|
    ensures IndexFrom(text, repl, start) == -1 ==> ReplaceCount(text, repl, start, budget) == 0
    ensures IndexFrom(text, repl, start) != -1 && budget - 1 == 0 ==> ReplaceCount(text, repl, start, budget) == 1
    ensures IndexFrom(text, repl, start) != -1 && budget - 1 != 0 ==>
      ReplaceCount(text, repl, start, budget) == 1 + ReplaceCount(text, repl, IndexFrom(text, repl, start) + |repl|, budget - 1)
  {
  }

  lemma OneMore(c: int, d: int)
    ensures (1 + c) * d == d + c * d
  {
  }

  /** Replacing a string by itself changes nothing. */
  lemma {:induction false} ReplaceBySelf(text: string, repl: string, start: nat, budget: int)
    requires |repl| > 0 && start <= |text|
    ensures ReplaceFrom(text, repl, repl, start, budget) == text[start..]
    decreases |text| - start
  {
    var end := IndexFrom(text, repl, start);
    if end != -1 {
      var next := end + |repl|;
      SplitAtMatch(text, repl, start);
      if budget - 1 != 0 {
        ReplaceBySelf(text, repl, next, budget - 1);
      }
    }
  }

  /** The text from `start` is what lies before the first match, the match,
      and what follows it. */
  lemma SplitAtMatch(text: string, repl: string, start: nat)
    requires |repl| > 0 && start <= |text| && IndexFrom(text, repl, start) != -1
    ensures var end := IndexFrom(text, repl, start);
      text[start..] == text[start..end] + repl + text[end + |repl|..]
  {
    var end := IndexFrom(text, repl, start);
    IndexFromMatches(text, repl, start);
    assert text[end..end + |repl|] == repl;
    assert text[start..] == text[start..end] + text[end..end + |repl|] + text[end + |repl|..];
  }

  /** The matches `countMatches` counts do not overlap, so they fit. */
  lemma {:induction false} CountFromFits(str: string, sub: string, idx: nat)
    requires |sub| > 0 && idx <= |str|
    ensures CountFrom(str, sub, idx) * |sub| <= |str| - idx
    decreases |str| - idx
  {
    var found := IndexFrom(str, sub, idx);
    if found != -1 {
      var c := CountFrom(str, sub, found + |sub|);
      assert CountFrom(str, sub, idx) == 1 + c;
      CountFromFits(str, sub, found + |sub|);
      OneMore(c, |sub|);
    }
  }

  /** The state of the `replace` loop: the output so far followed by what
      is still to be produced from `start` on makes up the whole result. */
  predicate Assembled(buf: string, t: string, p: string, w: string, start: nat, budget: int, whole: string) {
    |p| > 0 && start <= |t| && buf + ReplaceFrom(t, p, w, start, budget) == whole
  }

  /** The output so far and the rest of the text make up the whole result. */
  predicate Finished(buf: string, t: string, start: int, whole: string) {
    0 <= start <= |t| && buf + t[start..] == whole
  }

  /** One round of the `replace` loop keeps the loop state assembled, or
      completes the result when the budget runs out. */
  lemma ReplaceStep(t: string, p: string, w: string, start: nat, end: int, budget: int, buf: string, whole: string,
                    buf': string, start': int, budget': int)
    requires Assembled(buf, t, p, w, start, budget, whole) && end == IndexFrom(t, p, start) && end != -1
    requires buf' == buf + (t[start..end] + w) && start' == end + |p| && budget' == budget - 1
    ensures start <= end && start < start' <= |t|
    ensures budget' == 0 ==> Finished(buf', t, start', whole)
    ensures budget' != 0 ==> Assembled(buf', t, p, w, start', budget', whole)
  {
    var head := t[start..end] + w;
    if budget - 1 == 0 {
      ReplaceFromLast(t, p, w, start, budget);
      StepRest(buf, head, t[end + |p|..], ReplaceFrom(t, p, w, start, budget), whole);
    } else {
      ReplaceFromMore(t, p, w, start, budget);
      StepRest(buf, head, ReplaceFrom(t, p, w, start', budget'), ReplaceFrom(t, p, w, start, budget), whole);
    }
  }

  /** Regrouping the output buffer after one replacement. */
  lemma StepRest(buf: string, head: string, rest: string, from: string, whole: string)
    requires from == head + rest && buf + from == whole
    ensures (buf + head) + rest == whole
  {
    AppendAssoc(buf, head, rest);
  }

  /** With no match left, the rest of the text completes the result. */
  lemma ReplaceDone(t: string, p: string, w: string, start: nat, budget: int, buf: string, whole: string)
    requires Assembled(buf, t, p, w, start, budget, whole) && IndexFrom(t, p, start) == -1
    ensures Finished(buf, t, start, whole)
  {
    ReplaceFromNone(t, p, w, start, budget);
  }

  /** The three ways ReplaceFrom unfolds: no match left, the last
      replacement the budget allows, and a replacement with more to come. */
  lemma ReplaceFromNone(t: string, p: string, w: string, start: nat, budget: int)
    requires |p| > 0 && start <= |t| && IndexFrom(t, p, start) == -1
    ensures ReplaceFrom(t, p, w, start, budget) == t[start..]
  {
  }

  lemma ReplaceFromLast(t: string, p: string, w: string, start: nat, budget: int)
    requires |p| > 0 && start <= |t| && IndexFrom(t, p, start) != -1 && budget - 1 == 0
    ensures ReplaceFrom(t, p, w, start, budget)
      == t[start..IndexFrom(t, p, start)] + w + t[IndexFrom(t, p, start) + |p|..]
  {
  }

  lemma ReplaceFromMore(t: string, p: string, w: string, start: nat, budget: int)
    requires |p| > 0 && start <= |t| && IndexFrom(t, p, start) != -1 && budget - 1 != 0
    ensures ReplaceFrom(t, p, w, start, budget)
      == t[start..IndexFrom(t, p, start)] + w + ReplaceFrom(t, p, w, IndexFrom(t, p, start) + |p|, budget - 1)
  {
  }

  /** `replace(text, repl, with, max)`: a null argument or an empty `repl`
      leaves the text as it is. */
  method Replace(text: Option<string>, repl: Option<string>, with: Option<string>, max: int) returns (r: Option<string>)
    ensures text.None? || repl.None? || with.None? || repl.value == [] ==> r == text
    ensures text.Some? && repl.Some? && with.Some? && repl.value != [] ==>
      r == Some(ReplaceFrom(text.value, repl.value, with.value, 0, max))
  {
    if text.None? || repl.None? || with.None? || |repl.value| == 0 {
      return text;
    }
    var replaced := ReplaceMatches(text.value, repl.value, with.value, max);
    r := Some(replaced);
  }

  /** The `replace` loop: each leftmost match from `start` on is replaced,
      until no match is left or `max` matches have been replaced. */
  method ReplaceMatches(t: string, p: string, w: string, max: int) returns (r: string)
    requires |p| > 0
    ensures r == ReplaceFrom(t, p, w, 0, max)
  {
    ghost var whole := ReplaceFrom(t, p, w, 0, max);
    var buf := "";
    var start := 0;
    var budget := max;
    while true
      invariant Assembled(buf, t, p, w, start, budget, whole)
      decreases |t| - start
    {
      var end := IndexFrom(t, p, start);
      if end == -1 {
        ReplaceDone(t, p, w, start, budget, buf, whole);
        break;
      }
      ghost var (buf0, start0, budget0) := (buf, start, budget);
      buf := buf + (t[start..end] + w);
      start := end + |p|;
      budget := budget - 1;
      ReplaceStep(t, p, w, start0, end, budget0, buf0, whole, buf, start, budget);
      if budget == 0 {
        break;
      }
    }
    r := buf + t[start..];
  }

  /** `countMatches(str, sub)`: a null `sub` throws before `str` is looked
      at; 0 for an empty `sub` or a null `str`. */
  method CountMatches(str: Option<string>, sub: Option<string>) returns (r: Result<nat>)
    ensures r.Err? <==> sub.None?
    ensures r.Err? ==> r.error == NullPointer
    ensures r.Ok? && (sub.value == [] || str.None?) ==> r.value == 0
    ensures r.Ok? && sub.value != [] && str.Some? ==> r.value == CountFrom(str.value, sub.value, 0)
    ensures r.Ok? && sub.value != [] && str.Some? ==> r.value * |sub.value| <= |str.value|
  {
    if sub.None? {
      return Err(NullPointer);
    }
    var p := sub.value;
    if p == [] || str.None? {
      return Ok(0);
    }
    var s := str.value;
    var count := 0;
    var idx := 0;
    while true
      invariant 0 <= idx <= |s|
      invariant count + CountFrom(s, p, idx) == CountFrom(s, p, 0)
      decreases |s| - idx
    {
      var found := IndexFrom(s, p, idx);
      if found == -1 {
        break;
      }
      CountFromStep(s, p, idx);
      count := count + 1;
      idx := found + |p|;
    }
    CountFromFits(s, p, 0);
    return Ok(count);
  }

  // stripStart, stripEnd, strip

  /** A character the strip functions remove: whitespace when no strip set
      is given, a member of the set otherwise. */
  predicate Strippable(c: char, strip: Option<string>)
  {
    if strip.None? then IsWhitespace(c) else c in strip.value
  }

  /** `s` without its leading strippable characters. */
  function StrippedStart(s: string, strip: Option<string>): (r: string)
    ensures IsSuffix(r, s)
    ensures r == [] || !Strippable(r[0], strip)
    ensures forall i :: 0 <= i < |s| - |r| ==> Strippable(s[i], strip)
  {
    if s != [] && Strippable(s[0], strip) then StrippedStart(s[1..], strip) else s
  }

  /** `s` without its trailing strippable characters. */
  function StrippedEnd(s: string, strip: Option<string>): (r: string)
    ensures IsPrefix(r, s)
    ensures r == [] || !Strippable(r[|r| - 1], strip)
    ensures forall i :: |r| <= i < |s| ==> Strippable(s[i], strip)
  {
    if s != [] && Strippable(s[|s| - 1], strip) then StrippedEnd(s[..|s| - 1], strip) else s
  }

  /** `stripStart(str, strip)`. */
  method StripStart(str: Option<string>, strip: Option<string>) returns (r: Option<string>)
    ensures str.None? ==> r == None
    ensures str.Some? ==> r == Some(StrippedStart(str.value, strip))
  {
    if str.None? {
      return None;
    }
    var s := str.value;
    var start := 0;
    while start != |s| && Strippable(s[start], strip)
      invariant 0 <= start <= |s|
      invariant StrippedStart(s[start..], strip) == StrippedStart(s, strip)
    {
      assert s[start..][1..] == s[start + 1..];
      start := start + 1;
    }
    r := Some(s[start..]);
  }

  /** `stripEnd(str, strip)`. */
  method StripEnd(str: Option<string>, strip: Option<string>) returns (r: Option<string>)
    ensures str.None? ==> r == None
    ensures str.Some? ==> r == Some(StrippedEnd(str.value, strip))
  {
    if str.None? {
      return None;
    }
    var s := str.value;
    var end := |s|;
    assert s[..end] == s;
    while end != 0 && Strippable(s[end - 1], strip)
      invariant 0 <= end <= |s|
      invariant StrippedEnd(s[..end], strip) == StrippedEnd(s, strip)
    {
      assert s[..end][..end - 1] == s[..end - 1];
      end := end - 1;
    }
    assert StrippedEnd(s[..end], strip) == s[..end];
    r := Some(s[..end]);
  }

  /** `strip(str, delim)`: stripStart, then stripEnd. */
  method Strip(str: Option<string>, delim: Option<string>) returns (r: Option<string>)
    ensures str.None? ==> r == None
    ensures str.Some? ==> r == Some(StrippedEnd(StrippedStart(str.value, delim), delim))
  {
    var front := StripStart(str, delim);
    r := StripEnd(front, delim);
  }

  /** Stripping is idempotent at each end and for both ends together. */
  lemma StripIdempotent(s: string, strip: Option<string>)
    ensures StrippedStart(StrippedStart(s, strip), strip) == StrippedStart(s, strip)
    ensures StrippedEnd(StrippedEnd(s, strip), strip) == StrippedEnd(s, strip)
    ensures var t := StrippedEnd(StrippedStart(s, strip), strip);
      StrippedEnd(StrippedStart(t, strip), strip) == t
  {
    var t := StrippedEnd(StrippedStart(s, strip), strip);
    assert t == [] || !Strippable(t[0], strip);
    assert StrippedStart(t, strip) == t;
  }

  // repeat, leftPad, rightPad

  /** `n` copies of `str`, one after another. */
  function Repeated(str: string, n: nat): (r: string)
    ensures |r| == n * |str|
  {
    if n == 0 then [] else Repeated(str, n - 1) + str
  }

  /** `repeat(str, n)`: the builder's capacity n * |str| may not be
      negative, so a negative count fails unless `str` is empty. */
  method Repeat(str: string, repeat: int) returns (r: Result<string>)
    ensures r.Err? <==> repeat < 0 && |str| > 0
    ensures r.Err? ==> r.error == NegativeArraySize
    ensures r.Ok? ==> r.value == if repeat <= 0 then [] else Repeated(str, repeat)
  {
    if repeat * |str| < 0 {
      return Err(NegativeArraySize);
    }
    var buffer := "";
    var i := 0;
    while i < repeat
      invariant 0 <= i && (repeat >= 0 ==> i <= repeat)
      invariant buffer == Repeated(str, i)
    {
      buffer := buffer + str;
      i := i + 1;
    }
    r := Ok(buffer);
  }

  /** The number of copies of the pad string: (size - |str|) / |delim|,
      truncated toward zero, where `size - |str|` is Java `int`
      subtraction and wraps around below Integer.MIN_VALUE. */
  function PadCount(str: string, size: int, delim: string): int
    requires delim != [] && IsInt(size) && IsInt(|str|)
  {
    JavaDiv(IntSub(size, |str|), |delim|)
  }

  /** Whole copies of the pad string fill the (wrapped) gap `size - |str|`
      without passing it, and there is at least one copy exactly when one
      fits in the gap. */
  lemma PadCountFits(str: string, size: int, delim: string)
    requires delim != [] && IsInt(size) && IsInt(|str|)
    ensures var gap := IntSub(size, |str|);
      && (PadCount(str, size, delim) > 0 ==>
          gap - |delim| < PadCount(str, size, delim) * |delim| <= gap)
      && (PadCount(str, size, delim) <= 0 <==> gap < |delim|)
  {
    JavaDivFits(IntSub(size, |str|), |delim|);
  }

  /** What the pads are meant to compute: the exact gap, so a size below
      the string's length never adds anything. */
  function PadCountIntended(str: string, size: int, delim: string): int
    requires delim != []
  {
    JavaDiv(size - |str|, |delim|)
  }

  /** With the exact gap, copies are added exactly when one fits, and they
      never pass the size. */
  lemma PadCountIntendedFits(str: string, size: int, delim: string)
    requires delim != []
    ensures PadCountIntended(str, size, delim) > 0 ==>
      size - |delim| < |str| + PadCountIntended(str, size, delim) * |delim| <= size
    ensures PadCountIntended(str, size, delim) <= 0 <==> size - |str| < |delim|
  {
    JavaDivFits(size - |str|, |delim|);
  }

  /** Java's quotient by a positive divisor: a positive quotient's whole
      copies fill the dividend without passing it, and the quotient is
      positive exactly when one copy fits. */
  lemma JavaDivFits(a: int, b: int)
    requires b > 0
    ensures JavaDiv(a, b) > 0 ==> a - b < JavaDiv(a, b) * b <= a
    ensures JavaDiv(a, b) <= 0 <==> a < b
  {
    if a >= 0 {
      var q, r := a / b, a % b;
      assert a == q * b + r && 0 <= r < b;
      assert JavaDiv(a, b) == q;
      if q > 0 {
        assert q * b == (q - 1) * b + b;
        assert (q - 1) * b >= 0;
      }
    } else {
      assert JavaDiv(a, b) == -((-a) / b);
    }
  }

  /** The two counts agree unless `size - |str|` falls below
      Integer.MIN_VALUE; `rightPad("a", Integer.MIN_VALUE, " ")` asks for
      Integer.MAX_VALUE spaces where nothing should be added. */
  lemma PadCountWrapsBelowMinInt(str: string, size: int, delim: string)
    requires delim != [] && IsInt(size) && IsInt(|str|)
    ensures size - |str| >= IntMin ==> PadCount(str, size, delim) == PadCountIntended(str, size, delim)
    ensures PadCount("a", IntMin, " ") == IntMax && PadCountIntended("a", IntMin, " ") <= 0
  {
    assert |"a"| == 1 && |" "| == 1;
    assert IntSub(IntMin, 1) == IntMax;
    assert JavaDiv(IntMax, 1) == IntMax;
    assert JavaDiv(IntMin - 1, 1) == IntMin - 1;
  }

  /** `rightPad(str, size, delim)`: as many whole copies of `delim` as the
      count gives are appended. A null `str` or `delim` throws
      NullPointerException, an empty `delim` divides by zero. */
  method RightPad(str: Option<string>, size: int, delim: Option<string>) returns (r: Result<string>)
    requires IsInt(size) && (str.Some? ==> IsInt(|str.value|))
    ensures str.None? || delim.None? ==> r == Err(NullPointer)
    ensures str.Some? && delim == Some([]) ==> r == Err(ArithmeticDivideByZero)
    ensures str.Some? && delim.Some? && delim.value != [] ==>
      var (st, d) := (str.value, delim.value);
      && r.Ok? && IsPrefix(st, r.value)
      && (PadCount(st, size, d) > 0 ==> r.value == st + Repeated(d, PadCount(st, size, d)))
      && (PadCount(st, size, d) <= 0 ==> r.value == st)
      && (size - |st| >= |d| ==> size - |d| < |r.value| <= size)
  {
    if str.None? || delim.None? {
      return Err(NullPointer);
    }
    var st, d := str.value, delim.value;
    if d == [] {
      return Err(ArithmeticDivideByZero);
    }
    PadCountFits(st, size, d);
    var count := JavaDiv(IntSub(size, |st|), |d|);
    var padded := st;
    if count > 0 {
      var pad := Repeat(d, count);
      padded := st + pad.value;
    }
    r := Ok(padded);
  }

  /** `leftPad(str, size, delim)`: the same copies, put in front. */
  method LeftPad(str: Option<string>, size: int, delim: Option<string>) returns (r: Result<string>)
    requires IsInt(size) && (str.Some? ==> IsInt(|str.value|))
    ensures str.None? || delim.None? ==> r == Err(NullPointer)
    ensures str.Some? && delim == Some([]) ==> r == Err(ArithmeticDivideByZero)
    ensures str.Some? && delim.Some? && delim.value != [] ==>
      var (st, d) := (str.value, delim.value);
      && r.Ok? && IsSuffix(st, r.value)
      && (PadCount(st, size, d) > 0 ==> r.value == Repeated(d, PadCount(st, size, d)) + st)
      && (PadCount(st, size, d) <= 0 ==> r.value == st)
      && (size - |st| >= |d| ==> size - |d| < |r.value| <= size)
  {
    if str.None? || delim.None? {
      return Err(NullPointer);
    }
    var st, d := str.value, delim.value;
    if d == [] {
      return Err(ArithmeticDivideByZero);
    }
    PadCountFits(st, size, d);
    var count := JavaDiv(IntSub(size, |st|), |d|);
    var padded := st;
    if count > 0 {
      var pad := Repeat(d, count);
      padded := pad.value + st;
    }
    r := Ok(padded);
  }

  /** The one-argument pads use a single space: one space per unit of the
      (wrapped) gap, so up to the size whenever the gap is exact. */
  method RightPadSpaces(str: Option<string>, size: int) returns (r: Result<string>)
    requires IsInt(size) && (str.Some? ==> IsInt(|str.value|))
    ensures str.None? ==> r == Err(NullPointer)
    ensures str.Some? ==>
      && r.Ok? && IsPrefix(str.value, r.value)
      && (forall i :: |str.value| <= i < |r.value| ==> r.value[i] == ' ')
      && |r.value| == |str.value| + Max(0, IntSub(size, |str.value|))
      && (size - |str.value| >= IntMin ==> |r.value| == Max(size, |str.value|))
  {
    r := RightPad(str, size, Some(" "));
    if str.Some? {
      RepeatedSpaces(Max(0, IntSub(size, |str.value|)));
    }
  }

  method LeftPadSpaces(str: Option<string>, size: int) returns (r: Result<string>)
    requires IsInt(size) && (str.Some? ==> IsInt(|str.value|))
    ensures str.None? ==> r == Err(NullPointer)
    ensures str.Some? ==>
      && r.Ok? && IsSuffix(str.value, r.value)
      && (forall i :: 0 <= i < |r.value| - |str.value| ==> r.value[i] == ' ')
      && |r.value| == |str.value| + Max(0, IntSub(size, |str.value|))
      && (size - |str.value| >= IntMin ==> |r.value| == Max(size, |str.value|))
  {
    r := LeftPad(str, size, Some(" "));
    if str.Some? {
      RepeatedSpaces(Max(0, IntSub(size, |str.value|)));
    }
  }

  lemma {:induction false} RepeatedSpaces(n: nat)
    ensures forall i :: 0 <= i < |Repeated(" ", n)| ==> Repeated(" ", n)[i] == ' '
  {
    if n > 0 {
      RepeatedSpaces(n - 1);
    }
  }

  // differenceAt, difference

  /** `differenceAt(s1, s2)`: -1 when the strings are equal, otherwise the
      first index where they differ or where the shorter one ends. */
  method DifferenceAt(s1: string, s2: string) returns (at: int)
    ensures at == -1 <==> s1 == s2
    ensures at != -1 ==>
      0 <= at <= |s1| && at <= |s2| && s1[..at] == s2[..at]
      && (at == |s1| || at == |s2| || s1[at] != s2[at])
  {
    var i := 0;
    while i < |s1| && i < |s2|
      invariant 0 <= i <= |s1| && i <= |s2|
      invariant s1[..i] == s2[..i]
    {
      if s1[i] != s2[i] {
        break;
      }
      i := i + 1;
    }
    if i < |s2| || i < |s1| {
      return i;
    }
    assert s1 == s1[..i] && s2 == s2[..i];
    at := -1;
  }

  /** `difference(s1, s2)`: the rest of s2 from where it stops agreeing with
      s1; "" for equal strings. */
  method Difference(s1: string, s2: string) returns (r: string)
    ensures s1 == s2 ==> r == []
    ensures s1 != s2 ==> IsSuffix(r, s2)
    ensures s1 != s2 ==> var at := |s2| - |r|;
      at <= |s1| && s1[..at] == s2[..at] && (at == |s1| || at == |s2| || s1[at] != s2[at])
  {
    var at := DifferenceAt(s1, s2);
    if at == -1 {
      return [];
    }
    r := s2[at..];
  }

  // escape

  /** Every character of the set is preceded by the escape character. */
  function Escaped(s: string, chars: set<char>, escapeChar: char): string
  {
    if s == [] then []
    else (if s[0] in chars then [escapeChar, s[0]] else [s[0]]) + Escaped(s[1..], chars, escapeChar)
  }

  lemma {:induction false} EscapedAppend(a: string, b: string, chars: set<char>, escapeChar: char)
    ensures Escaped(a + b, chars, escapeChar) == Escaped(a, chars, escapeChar) + Escaped(b, chars, escapeChar)
  {
    if a == [] {
      assert a + b == b;
    } else {
      assert (a + b)[1..] == a[1..] + b;
      EscapedAppend(a[1..], b, chars, escapeChar);
      var head := if a[0] in chars then [escapeChar, a[0]] else [a[0]];
      AppendAssoc(head, Escaped(a[1..], chars, escapeChar), Escaped(b, chars, escapeChar));
    }
  }

  /** Drops an escape character in front of a character of the set. */
  function Unescaped(s: string, chars: set<char>, escapeChar: char): string
  {
    if s == [] then []
    else if |s| >= 2 && s[0] == escapeChar && s[1] in chars then [s[1]] + Unescaped(s[2..], chars, escapeChar)
    else [s[0]] + Unescaped(s[1..], chars, escapeChar)
  }

  /** When the escape character is itself escaped, escaping can be undone. */
  lemma {:induction false} UnescapeEscape(s: string, chars: set<char>, escapeChar: char)
    requires escapeChar in chars
    ensures Unescaped(Escaped(s, chars, escapeChar), chars, escapeChar) == s
  {
    if s != [] {
      UnescapeEscape(s[1..], chars, escapeChar);
      var rest := Escaped(s[1..], chars, escapeChar);
      if s[0] in chars {
        assert ([escapeChar, s[0]] + rest)[2..] == rest;
      } else {
        assert ([s[0]] + rest)[1..] == rest;
      }
    }
  }

  /** `escape(source, escapedChars, escapeChar)`. A null source gives null
      before the array is looked at; a null array then throws
      NullPointerException when it is copied. The sorted copy and binary
      search of the source only decide membership, stated here directly. */
  method Escape(source: Option<string>, escapedCharsOrNull: Option<seq<char>>, escapeChar: char) returns (r: Result<Option<string>>)
    ensures source.None? ==> r == Ok(None)
    ensures source.Some? && escapedCharsOrNull.None? ==> r == Err(NullPointer)
    ensures source.Some? && escapedCharsOrNull.Some? ==>
      r == Ok(Some(Escaped(source.value, (set c | c in escapedCharsOrNull.value), escapeChar)))
  {
    if source.None? {
      return Ok(None);
    }
    if escapedCharsOrNull.None? {
      return Err(NullPointer);
    }
    var s := source.value;
    var escapedChars := escapedCharsOrNull.value;
    ghost var chars := set c | c in escapedChars;
    var buffer := "";
    var i := 0;
    while i < |s|
      invariant 0 <= i <= |s|
      invariant buffer == Escaped(s[..i], chars, escapeChar)
    {
      var c := s[i];
      EscapedAppend(s[..i], [c], chars, escapeChar);
      assert s[..i + 1] == s[..i] + [c];
      if c in escapedChars {
        buffer := buffer + [escapeChar];
      }
      buffer := buffer + [c];
      i := i + 1;
    }
    assert s[..i] == s;
    r := Ok(Some(buffer));
  }

  // removeDuplicateWhitespace

  /** Each character is kept unless it and the input character before it
      are both whitespace. */
  function CollapsedWhitespace(s: string): string
  {
    if s == [] then []
    else
      var n := |s| - 1;
      CollapsedWhitespace(s[..n]) +
        (if n >= 1 && IsWhitespace(s[n - 1]) && IsWhitespace(s[n]) then [] else [s[n]])
  }

  lemma {:induction false} CollapsedLast(s: string)
    requires s != []
    ensures CollapsedWhitespace(s) != []
    ensures IsWhitespace(CollapsedWhitespace(s)[|CollapsedWhitespace(s)| - 1]) <==> IsWhitespace(s[|s| - 1])
  {
    var n := |s| - 1;
    if n >= 1 && IsWhitespace(s[n - 1]) && IsWhitespace(s[n]) {
      CollapsedLast(s[..n]);
    }
  }

  /** The result never holds two whitespace characters in a row. */
  lemma {:induction false} CollapsedHasNoDoubleWhitespace(s: string)
    ensures var r := CollapsedWhitespace(s);
      forall i :: 0 <= i < |r| - 1 ==> !(IsWhitespace(r[i]) && IsWhitespace(r[i + 1]))
  {
    if s != [] {
      var n := |s| - 1;
      CollapsedHasNoDoubleWhitespace(s[..n]);
      if n >= 1 {
        CollapsedLast(s[..n]);
      }
    }
  }

  /** Only whitespace is removed: the non-whitespace characters are exactly
      those of the input. */
  lemma {:induction false} CollapsedKeepsText(s: string)
    ensures NonWhitespace(CollapsedWhitespace(s)) == NonWhitespace(s)
  {
    if s != [] {
      var n := |s| - 1;
      var init := s[..n];
      var tail := if n >= 1 && IsWhitespace(s[n - 1]) && IsWhitespace(s[n]) then [] else [s[n]];
      assert CollapsedWhitespace(s) == CollapsedWhitespace(init) + tail;
      assert NonWhitespace(tail) == NonWhitespace([s[n]]);
      CollapsedKeepsText(init);
      NonWhitespaceAppend(CollapsedWhitespace(init), tail);
      LastSplit(s);
      NonWhitespaceAppend(init, [s[n]]);
    }
  }

  lemma LastSplit<T>(s: seq<T>)
    requires s != []
    ensures s[..|s| - 1] + [s[|s| - 1]] == s
  {
  }

  lemma {:induction false} NonWhitespaceAppend(a: string, b: string)
    ensures NonWhitespace(a + b) == NonWhitespace(a) + NonWhitespace(b)
    decreases |b|
  {
    if b != [] {
      var n := |b| - 1;
      assert (a + b)[..|a + b| - 1] == a + b[..n];
      NonWhitespaceAppend(a, b[..n]);
    } else {
      assert a + b == a;
    }
  }

  /** `removeDuplicateWhitespace(s)`. */
  method RemoveDuplicateWhitespace(s: string) returns (r: string)
    ensures r == CollapsedWhitespace(s)
  {
    r := [];
    var isPreviousWhiteSpace := false;
    var i := 0;
    while i < |s|
      invariant 0 <= i <= |s|
      invariant r == CollapsedWhitespace(s[..i])
      invariant isPreviousWhiteSpace == (i > 0 && IsWhitespace(s[i - 1]))
    {
      var c := s[i];
      var thisCharWhiteSpace := IsWhitespace(c);
      assert s[..i + 1][..i] == s[..i];
      if !(isPreviousWhiteSpace && thisCharWhiteSpace) {
        r := r + [c];
      }
      isPreviousWhiteSpace := thisCharWhiteSpace;
      i := i + 1;
    }
    assert s[..i] == s;
  }

  // unifyLineSeparators

  predicate ValidLineSeparator(ls: string)
  {
    ls == "\n" || ls == "\r" || ls == "\r\n"
  }

  /** Every "\r\n", "\r" and "\n" of `s` replaced by `ls`. */
  function Unified(s: string, ls: string): string
  {
    if s == [] then []
    else if s[0] == '\r' then ls + Unified(if |s| >= 2 && s[1] == '\n' then s[2..] else s[1..], ls)
    else if s[0] == '\n' then ls + Unified(s[1..], ls)
    else [s[0]] + Unified(s[1..], ls)
  }

  /** With "\n" as separator no carriage return is left. */
  lemma {:induction false} UnifiedHasNoCarriageReturn(s: string)
    ensures '\r' !in Unified(s, "\n")
  {
    if s != [] {
      UnifiedHasNoCarriageReturn(if |s| >= 2 && s[1] == '\n' then s[2..] else s[1..]);
      UnifiedHasNoCarriageReturn(s[1..]);
    }
  }

  /** Text without carriage returns is already unified to "\n", so unifying
      to "\n" is idempotent. */
  lemma {:induction false} UnifiedFixpoint(s: string)
    requires '\r' !in s
    ensures Unified(s, "\n") == s
  {
    if s != [] {
      assert forall c :: c in s[1..] ==> c in s;
      UnifiedFixpoint(s[1..]);
    }
  }

  lemma UnifiedIdempotent(s: string)
    ensures Unified(Unified(s, "\n"), "\n") == Unified(s, "\n")
  {
    UnifiedHasNoCarriageReturn(s);
    UnifiedFixpoint(Unified(s, "\n"));
  }

  /** One step of the `unifyLineSeparators` loop at position i. */
  lemma UnifiedStep(str: string, i: nat, sep: string)
    requires i < |str|
    ensures str[i] == '\r' && i + 1 < |str| && str[i + 1] == '\n' ==>
      Unified(str[i..], sep) == sep + Unified(str[i + 2..], sep)
    ensures str[i] == '\r' && !(i + 1 < |str| && str[i + 1] == '\n') ==>
      Unified(str[i..], sep) == sep + Unified(str[i + 1..], sep)
    ensures str[i] == '\n' ==> Unified(str[i..], sep) == sep + Unified(str[i + 1..], sep)
    ensures str[i] != '\r' && str[i] != '\n' ==> Unified(str[i..], sep) == [str[i]] + Unified(str[i + 1..], sep)
  {
    assert str[i..][1..] == str[i + 1..];
    if i + 1 < |str| {
      assert str[i..][2..] == str[i + 2..];
    }
  }

  /** `unifyLineSeparators(s, ls)`: a null `ls` means the system separator;
      any separator other than "\n", "\r" and "\r\n" is refused. */
  method UnifyLineSeparators(s: Option<string>, ls: Option<string>, systemSeparator: string) returns (r: Result<Option<string>>)
    ensures s.None? ==> r == Ok(None)
    ensures s.Some? ==>
      var sep := if ls.None? then systemSeparator else ls.value;
      (!ValidLineSeparator(sep) ==> r.Err? && r.error.IllegalArgument?)
      && (ValidLineSeparator(sep) ==> r == Ok(Some(Unified(s.value, sep))))
  {
    if s.None? {
      return Ok(None);
    }
    var sep := if ls.None? then systemSeparator else ls.value;
    if !ValidLineSeparator(sep) {
      return Err(IllegalArgument("Requested line separator is invalid."));
    }
    var str := s.value;
    var length := |str|;
    var buffer := "";
    var i := 0;
    assert str[i..] == str;
    while i < length
      invariant 0 <= i <= length
      invariant buffer + Unified(str[i..], sep) == Unified(str, sep)
    {
      UnifiedStep(str, i, sep);
      ghost var before := buffer;
      ghost var at := i;
      if str[i] == '\r' {
        if i + 1 < length && str[i + 1] == '\n' {
          i := i + 1;
        }
        buffer := buffer + sep;
      } else if str[i] == '\n' {
        buffer := buffer + sep;
      } else {
        buffer := buffer + [str[i]];
      }
      i := i + 1;
      AppendAssoc(before, buffer[|before|..], Unified(str[i..], sep));
      assert before + buffer[|before|..] == buffer;
    }
    assert buffer + Unified(str[i..], sep) == buffer + [];
    assert buffer + [] == buffer;
    r := Ok(Some(buffer));
  }

}

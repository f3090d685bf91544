/**
 * The parts of java.lang that the modelled code relies on, with Java's own
 * semantics: 32-bit `int` addition and subtraction that wrap around,
 * truncating integer division, String.indexOf / lastIndexOf,
 * String.trim and Character.isWhitespace.
 */
module JavaLang {

  const IntMin: int := -0x8000_0000
  const IntMax: int := 0x7FFF_FFFF

  /** A value of Java's 32-bit `int`. */
  predicate IsInt(x: int) { IntMin <= x <= IntMax }

  /** The `int` that Java's arithmetic leaves for the exact result `x`:
      the one value in range that is congruent to `x` modulo 2^32. */
  function Wrap(x: int): (r: int)
    ensures IsInt(r) && (x - r) % 0x1_0000_0000 == 0
    ensures IsInt(x) ==> r == x
  {
    (x - IntMin) % 0x1_0000_0000 + IntMin
  }

  /** Java's `+` on int. The exact sum of two ints is off by at most one
      turn of 2^32: too large a sum comes out negative, too small a sum
      comes out non-negative. */
  function IntAdd(a: int, b: int): (r: int)
    requires IsInt(a) && IsInt(b)
    ensures IsInt(r)
    ensures IsInt(a + b) ==> r == a + b
    ensures a + b > IntMax ==> r == a + b - 0x1_0000_0000 && r < 0
    ensures a + b < IntMin ==> r == a + b + 0x1_0000_0000 && r >= 0
  {
    if a + b > IntMax then a + b - 0x1_0000_0000
    else if a + b < IntMin then a + b + 0x1_0000_0000
    else a + b
  }

  /** Java's `-` on int, with the same wrap-around. */
  function IntSub(a: int, b: int): (r: int)
    requires IsInt(a) && IsInt(b)
    ensures IsInt(r)
    ensures IsInt(a - b) ==> r == a - b
    ensures a - b > IntMax ==> r == a - b - 0x1_0000_0000 && r < 0
    ensures a - b < IntMin ==> r == a - b + 0x1_0000_0000 && r >= 0
  {
    if a - b > IntMax then a - b - 0x1_0000_0000
    else if a - b < IntMin then a - b + 0x1_0000_0000
    else a - b
  }

  /** The branches of IntAdd and IntSub are exactly the wrap of the exact
      result. */
  lemma IntArithmeticWraps(a: int, b: int)
    requires IsInt(a) && IsInt(b)
    ensures IntAdd(a, b) == Wrap(a + b)
    ensures IntSub(a, b) == Wrap(a - b)
  {
    WrapUnique(a + b, IntAdd(a, b));
    WrapUnique(a - b, IntSub(a, b));
  }

  /** Only one int is congruent to `x` modulo 2^32. */
  lemma WrapUnique(x: int, y: int)
    requires IsInt(y) && (x - y) % 0x1_0000_0000 == 0
    ensures Wrap(x) == y
  {
    var w := Wrap(x);
    var m := 0x1_0000_0000;
    assert (x - w) % m == 0;
    var q1 := (x - y) / m;
    var q2 := (x - w) / m;
    assert x - y == q1 * m;
    assert x - w == q2 * m;
    assert w - y == (q1 - q2) * m;
  }

  /** Java's `/` on int: the quotient truncated toward zero. */
  function JavaDiv(a: int, b: int): int
    requires b != 0
  {
    var m := (if a < 0 then -a else a) / (if b < 0 then -b else b);
    if (a < 0) == (b < 0) then m else -m
  }

  /** The quotient agrees with Euclidean division on a non-negative
      dividend and positive divisor, its sign is the product of the
      operands' signs, and the remainder it leaves is smaller than the
      divisor in magnitude and has the dividend's sign. */
  lemma JavaDivTruncates(a: int, b: int)
    requires b != 0
    ensures var q := JavaDiv(a, b);
      && (a >= 0 && b > 0 ==> q == a / b)
      && ((a >= 0) == (b > 0) || a == 0 ==> q >= 0)
      && (-b < a - q * b < b || b < a - q * b < -b)
  {
    var aa := if a < 0 then -a else a;
    var bb := if b < 0 then -b else b;
    var m := aa / bb;
    EuclideanOnMagnitudes(aa, bb);
    SignedProduct(m, bb);
    var q := JavaDiv(a, b);
    assert q == if (a < 0) == (b < 0) then m else -m;
    assert b == if b < 0 then -bb else bb;
    assert q * b == if a < 0 then -(m * bb) else m * bb;
  }

  /** Euclidean division of a magnitude by a positive magnitude. */
  lemma EuclideanOnMagnitudes(aa: int, bb: int)
    requires aa >= 0 && bb > 0
    ensures aa / bb >= 0 && 0 <= aa - aa / bb * bb < bb
  {
    var m := aa / bb;
    assert aa == m * bb + aa % bb && 0 <= aa % bb < bb;
    assert m * bb >= 0;
  }

  lemma SignedProduct(x: int, y: int)
    ensures (-x) * y == -(x * y) && x * (-y) == -(x * y) && (-x) * (-y) == x * y
  {
  }

  /** Java's Character.isWhitespace: the space, line and paragraph separators
      other than the no-break spaces, and the control characters
      U+0009-U+000D and U+001C-U+001F. */
  predicate IsWhitespace(c: char) {
    || ('\t' <= c <= '\r')
    || ('\U{1C}' <= c <= ' ')
    || c == '\U{1680}'
    || ('\U{2000}' <= c <= '\U{2006}')
    || ('\U{2008}' <= c <= '\U{200A}')
    || c == '\U{2028}' || c == '\U{2029}' || c == '\U{205F}' || c == '\U{3000}'
  }

  /** `sub` occurs in `s` at position `k`. */
  predicate MatchAt(s: string, sub: string, k: int) {
    0 <= k && k + |sub| <= |s| && s[k..k + |sub|] == sub
  }

  /** The decimal digits of a natural number, most significant first. */
  function Digits(n: nat): (r: string)
    ensures r != [] && forall i :: 0 <= i < |r| ==> '0' <= r[i] <= '9'
    decreases n
  {
    var last := ('0' as int + n % 10) as char;
    if n < 10 then [last] else Digits(n / 10) + [last]
  }

  /** `Integer.toString` (and string concatenation of an `int`): a minus
      sign for a negative number, then its digits. */
  function IntToString(n: int): (r: string)
    ensures r != [] && (r[0] == '-' <==> n < 0)
  {
    if n < 0 then "-" + Digits(-n) else Digits(n)
  }

  /** The first position at or after `k` where `sub` occurs, or -1. */
  function IndexFrom(s: string, sub: string, k: nat): (r: int)
    decreases |s| - k
    ensures r == -1 || (k <= r && r + |sub| <= |s|)
  {
    if k + |sub| > |s| then -1
    else if s[k..k + |sub|] == sub then k
    else IndexFrom(s, sub, k + 1)
  }

  /** What IndexFrom finds is an occurrence. */
  lemma {:induction false} IndexFromMatches(s: string, sub: string, k: nat)
    ensures IndexFrom(s, sub, k) != -1 ==> MatchAt(s, sub, IndexFrom(s, sub, k))
    decreases |s| - k
  {
    if k + |sub| <= |s| && s[k..k + |sub|] != sub {
      IndexFromMatches(s, sub, k + 1);
    }
  }

  /** Java's `s.indexOf(sub, from)`: a negative `from` counts as 0; from at or
      past the end finds only the empty string, at the end. */
  function IndexOf(s: string, sub: string, from: int): (r: int)
    ensures r == -1 || (MatchAt(s, sub, r) && (from <= r || (sub == [] && r == |s|)))
  {
    if from >= |s| then (if |sub| == 0 then |s| else -1)
    else
      IndexFromMatches(s, sub, if from < 0 then 0 else from);
      IndexFrom(s, sub, if from < 0 then 0 else from)
  }

  /** IndexFrom finds the first occurrence at or after `k`. */
  lemma {:induction false} IndexFromIsFirst(s: string, sub: string, k: nat)
    ensures IndexFrom(s, sub, k) == -1 ==> forall j :: k <= j ==> !MatchAt(s, sub, j)
    ensures IndexFrom(s, sub, k) != -1 ==> forall j :: k <= j < IndexFrom(s, sub, k) ==> !MatchAt(s, sub, j)
    decreases |s| - k
  {
    if k + |sub| <= |s| && s[k..k + |sub|] != sub {
      IndexFromIsFirst(s, sub, k + 1);
    }
  }

  /** IndexOf finds the first occurrence at or after `from`. */
  lemma IndexOfIsFirst(s: string, sub: string, from: int)
    ensures IndexOf(s, sub, from) == -1 ==> forall j :: from <= j ==> !MatchAt(s, sub, j)
    ensures IndexOf(s, sub, from) != -1 ==> forall j :: from <= j < IndexOf(s, sub, from) ==> !MatchAt(s, sub, j)
  {
    if from < |s| {
      IndexFromIsFirst(s, sub, if from < 0 then 0 else from);
    }
  }

  /** The last position at or before `k` where `sub` occurs, or -1. */
  function LastIndexFrom(s: string, sub: string, k: int): (r: int)
    decreases k + 1
    ensures r == -1 || (r <= k && MatchAt(s, sub, r))
    ensures r == -1 ==> forall j :: j <= k ==> !MatchAt(s, sub, j)
    ensures r != -1 ==> forall j :: r < j <= k ==> !MatchAt(s, sub, j)
  {
    if k < 0 then -1
    else if MatchAt(s, sub, k) then k
    else LastIndexFrom(s, sub, k - 1)
  }

  /** Java's `s.lastIndexOf(sub)`. */
  function LastIndexOf(s: string, sub: string): (r: int)
    ensures r == -1 || MatchAt(s, sub, r)
    ensures r == -1 <==> forall j :: !MatchAt(s, sub, j)
    ensures r != -1 ==> forall j :: r < j ==> !MatchAt(s, sub, j)
  {
    LastIndexFrom(s, sub, |s| - |sub|)
  }

  /** Java's String.trim removes the characters up to U+0020 at both ends. */
  predicate IsTrimmed(c: char) { c <= ' ' }

  function TrimStart(s: string): (r: string)
    ensures |r| <= |s| && r == s[|s| - |r|..]
    ensures r == [] || !IsTrimmed(r[0])
  {
    if s != [] && IsTrimmed(s[0]) then TrimStart(s[1..]) else s
  }

  function TrimEnd(s: string): (r: string)
    ensures |r| <= |s| && r == s[..|r|]
    ensures r == [] || !IsTrimmed(r[|r| - 1])
  {
    if s != [] && IsTrimmed(s[|s| - 1]) then TrimEnd(s[..|s| - 1]) else s
  }

  function Trim(s: string): (r: string)
    ensures |r| <= |s|
    ensures r == [] || (!IsTrimmed(r[0]) && !IsTrimmed(r[|r| - 1]))
  {
    TrimEnd(TrimStart(s))
  }

  /** Trim removes only characters up to U+0020, and only at the ends: it
      keeps a slice of the string. */
  lemma TrimRemovesOnlyEnds(s: string)
    ensures exists i, j ::
              && 0 <= i <= j <= |s| && Trim(s) == s[i..j]
              && (forall k :: 0 <= k < i ==> IsTrimmed(s[k]))
              && (forall k :: j <= k < |s| ==> IsTrimmed(s[k]))
  {
    var t := TrimStart(s);
    var r := TrimEnd(t);
    var i := |s| - |t|;
    TrimStartDropsTrimmed(s);
    TrimEndDropsTrimmed(t);
    assert r == s[i..i + |r|];
    assert forall k :: i + |r| <= k < |s| ==> s[k] == t[k - i];
  }

  lemma TrimStartDropsTrimmed(s: string)
    ensures forall k :: 0 <= k < |s| - |TrimStart(s)| ==> IsTrimmed(s[k])
  {
    forall k | 0 <= k < |s| - |TrimStart(s)|
      ensures IsTrimmed(s[k])
    {
      TrimStartDropsAt(s, k);
    }
  }

  /** The character at `k`, in front of what TrimStart keeps, is dropped. */
  lemma {:induction false} TrimStartDropsAt(s: string, k: nat)
    requires k < |s| - |TrimStart(s)|
    ensures IsTrimmed(s[k])
    decreases k
  {
    var rest := s[1..];
    assert TrimStart(s) == TrimStart(rest);
    if k > 0 {
      TrimStartDropsAt(rest, k - 1);
      assert s[k] == rest[k - 1];
    }
  }

  lemma TrimEndDropsTrimmed(s: string)
    ensures forall k :: |TrimEnd(s)| <= k < |s| ==> IsTrimmed(s[k])
  {
    forall k | |TrimEnd(s)| <= k < |s|
      ensures IsTrimmed(s[k])
    {
      TrimEndDropsAt(s, k);
    }
  }

  /** The character at `k`, behind what TrimEnd keeps, is dropped. */
  lemma {:induction false} TrimEndDropsAt(s: string, k: nat)
    requires |TrimEnd(s)| <= k < |s|
    ensures IsTrimmed(s[k])
    decreases |s|
  {
    var init := s[..|s| - 1];
    assert TrimEnd(s) == TrimEnd(init);
    if k < |s| - 1 {
      TrimEndDropsAt(init, k);
      assert s[k] == init[k];
    }
  }

  /** A trimmed string is empty exactly when every character is trimmed. */
  lemma {:induction false} TrimEmptyIff(s: string)
    ensures Trim(s) == [] <==> forall i :: 0 <= i < |s| ==> IsTrimmed(s[i])
  {
    if s != [] && IsTrimmed(s[0]) {
      TrimEmptyIff(s[1..]);
      assert forall i :: 1 <= i < |s| ==> s[i] == s[1..][i - 1];
    } else if s != [] {
      assert TrimStart(s) == s;
      TrimEndEmptyIff(s);
    }
  }

  lemma {:induction false} TrimEndEmptyIff(s: string)
    ensures TrimEnd(s) == [] <==> forall i :: 0 <= i < |s| ==> IsTrimmed(s[i])
  {
    if s != [] && IsTrimmed(s[|s| - 1]) {
      TrimEndEmptyIff(s[..|s| - 1]);
    }
  }

  /** `StringBuilder.reverse` and `Collections.reverse`: the same elements
      in the opposite order. */
  function Reversed<T>(s: seq<T>): (r: seq<T>)
    ensures |r| == |s|
    ensures forall i :: 0 <= i < |s| ==> r[i] == s[|s| - 1 - i]
  {
    if s == [] then [] else [s[|s| - 1]] + Reversed(s[..|s| - 1])
  }

  /** Reversing twice gives back the original. */
  lemma ReversedInvolution<T>(s: seq<T>)
    ensures Reversed(Reversed(s)) == s
  {
  }

  /** `s.split(sep)` for a separator taken literally: the pieces between
      the occurrences of `sep`, found from the left without overlap. */
  function Split(s: string, sep: string): (r: seq<string>)
    requires |sep| > 0
    ensures |r| >= 1
    decreases |s|
  {
    var k := IndexFrom(s, sep, 0);
    if k == -1 then [s] else [s[..k]] + Split(s[k + |sep|..], sep)
  }

  /** The pieces of `parts` with `sep` between each two. */
  function Join(parts: seq<string>, sep: string): string
  {
    if |parts| == 0 then []
    else if |parts| == 1 then parts[0]
    else parts[0] + sep + Join(parts[1..], sep)
  }

  /** Splitting loses nothing: putting the separator back between the
      pieces rebuilds the string. */
  lemma {:induction false} JoinSplit(s: string, sep: string)
    requires |sep| > 0
    ensures Join(Split(s, sep), sep) == s
    decreases |s|
  {
    var k := IndexFrom(s, sep, 0);
    IndexFromMatches(s, sep, 0);
    if k != -1 {
      var head := s[..k];
      var tail := s[k + |sep|..];
      JoinSplit(tail, sep);
      JoinCons(head, Split(tail, sep), sep);
      RejoinAt(s, sep, k);
    }
  }

  lemma JoinCons(head: string, rest: seq<string>, sep: string)
    requires |rest| >= 1
    ensures Join([head] + rest, sep) == head + sep + Join(rest, sep)
  {
    assert ([head] + rest)[1..] == rest;
  }

  lemma RejoinAt(s: string, sep: string, k: int)
    requires MatchAt(s, sep, k)
    ensures s == s[..k] + sep + s[k + |sep|..]
  {
  }

  /** No piece of a split contains the separator. */
  lemma {:induction false} SplitPiecesLackSeparator(s: string, sep: string)
    requires |sep| > 0
    ensures forall i :: 0 <= i < |Split(s, sep)| ==> IndexOf(Split(s, sep)[i], sep, 0) == -1
    decreases |s|
  {
    var k := IndexFrom(s, sep, 0);
    IndexFromIsFirst(s, sep, 0);
    if k != -1 {
      var head := s[..k];
      var tail := s[k + |sep|..];
      SplitPiecesLackSeparator(tail, sep);
      var j := IndexOf(head, sep, 0);
      if j != -1 {
        assert head[j..j + |sep|] == s[j..j + |sep|];
        assert MatchAt(s, sep, j);
      }
      assert Split(s, sep) == [head] + Split(tail, sep);
    }
  }

  /** An occurrence stays an occurrence when text is added around it. */
  lemma MatchInContext(prefix: string, s: string, suffix: string, sub: string, k: int)
    requires MatchAt(s, sub, k)
    ensures MatchAt(prefix + s + suffix, sub, |prefix| + k)
  {
    var t := prefix + s + suffix;
    assert forall i :: |prefix| + k <= i < |prefix| + k + |sub| ==> t[i] == s[i - |prefix|];
    assert t[|prefix| + k..|prefix| + k + |sub|] == s[k..k + |sub|];
  }

  /** Sequence concatenation regroups freely. */
  lemma AppendAssoc<T>(a: seq<T>, b: seq<T>, c: seq<T>)
    ensures a + (b + c) == (a + b) + c
  {
  }
}

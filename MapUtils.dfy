/**
 * Map helpers: guarded puts that skip null or blank keys and values, a
 * reverse lookup by value, parsing "k:v,k:v" strings into a map, and
 * printing a string map as a JSON object.
 */
module MapUtils {
  import opened Wrappers
  import opened JavaLang
  import opened ObjectUtils
  import StringUtils

  const DEFAULT_KEY_AND_VALUE_SEPARATOR: string := ":"
  const DEFAULT_KEY_AND_VALUE_PAIR_SEPARATOR: string := ","

  /** A `java.util.HashMap` whose keys are never null; a null value is `None`. */
  class HashMap<K(==), V(==)> {
    var entries: map<K, V>

    constructor()
      ensures entries == map[]
    {
      entries := map[];
    }

    /** `put(key, value)`. */
    method Put(key: K, value: V)
      modifies this
      ensures entries == old(entries)[key := value]
    {
      entries := entries[key := value];
    }
  }

  /** `isEmpty(sourceMap)`. */
  predicate IsEmpty<K(==), V(==)>(sourceMap: HashMap?<K, V>)
    reads sourceMap
  {
    sourceMap == null || |sourceMap.entries| == 0
  }

  /** `putMapNotEmptyKey(map, key, value)`: refuses a null map and a blank key. */
  method PutMapNotEmptyKey(m: HashMap?<string, Option<string>>, key: Option<string>, value: Option<string>)
    returns (r: bool)
    modifies m
    ensures r <==> m != null && !StringUtils.IsEmpty(key)
    ensures m != null ==> m.entries == if r then old(m.entries)[key.value := value] else old(m.entries)
  {
    if m == null || StringUtils.IsEmpty(key) {
      return false;
    }
    m.Put(key.value, value);
    return true;
  }

  /** `putMapNotEmptyKeyAndValue(map, key, value)`: also refuses a blank value. */
  method PutMapNotEmptyKeyAndValue(m: HashMap?<string, Option<string>>, key: Option<string>, value: Option<string>)
    returns (r: bool)
    modifies m
    ensures r <==> m != null && !StringUtils.IsEmpty(key) && !StringUtils.IsEmpty(value)
    ensures m != null ==> m.entries == if r then old(m.entries)[key.value := value] else old(m.entries)
  {
    if m == null || StringUtils.IsEmpty(key) || StringUtils.IsEmpty(value) {
      return false;
    }
    m.Put(key.value, value);
    return true;
  }

  /** `putMapNotEmptyKeyAndValue(map, key, value, defaultValue)`: a blank
      value is replaced by the default. */
  method PutMapNotEmptyKeyAndValueOrDefault(m: HashMap?<string, Option<string>>, key: Option<string>,
                                            value: Option<string>, defaultValue: Option<string>)
    returns (r: bool)
    modifies m
    ensures r <==> m != null && !StringUtils.IsEmpty(key)
    ensures m != null && r ==>
      m.entries == old(m.entries)[key.value := if StringUtils.IsEmpty(value) then defaultValue else value]
    ensures m != null && !r ==> m.entries == old(m.entries)
  {
    if m == null || StringUtils.IsEmpty(key) {
      return false;
    }
    m.Put(key.value, if StringUtils.IsEmpty(value) then defaultValue else value);
    return true;
  }

  /** `putMapNotNullKey(map, key, value)`. */
  method PutMapNotNullKey<K(==), V(==)>(m: HashMap?<K, Option<V>>, key: Option<K>, value: Option<V>)
    returns (r: bool)
    modifies m
    ensures r <==> m != null && key.Some?
    ensures m != null ==> m.entries == if r then old(m.entries)[key.value := value] else old(m.entries)
  {
    if m == null || key.None? {
      return false;
    }
    m.Put(key.value, value);
    return true;
  }

  /** `putMapNotNullKeyAndValue(map, key, value)`. */
  method PutMapNotNullKeyAndValue<K(==), V(==)>(m: HashMap?<K, Option<V>>, key: Option<K>, value: Option<V>)
    returns (r: bool)
    modifies m
    ensures r <==> m != null && key.Some? && value.Some?
    ensures m != null ==> m.entries == if r then old(m.entries)[key.value := value] else old(m.entries)
  {
    if m == null || key.None? || value.None? {
      return false;
    }
    m.Put(key.value, value);
    return true;
  }

  /** `order` is an iteration order of the keys of `m`: each key once. */
  ghost predicate IsKeyOrder<K(!new), V>(m: map<K, V>, order: seq<K>)
  {
    (forall k :: k in order <==> k in m)
    && (forall a, b :: 0 <= a < b < |order| ==> order[a] != order[b])
  }

  /** `getKeyByValue(map, value)`, visiting the entries in `order`: the first
      key whose value equals `value`, or null. */
  method GetKeyByValue<K(==,!new), V(==)>(m: HashMap?<K, Option<V>>, value: Option<V>, order: seq<K>) returns (r: Option<K>)
    requires m != null ==> IsKeyOrder(m.entries, order)
    ensures IsEmpty(m) ==> r.None?
    ensures r.Some? ==> m != null && r.value in m.entries && m.entries[r.value] == value
    ensures r.Some? ==> exists i :: (0 <= i < |order| && order[i] == r.value
      && forall j :: 0 <= j < i ==> m.entries[order[j]] != value)
    ensures r.None? && m != null ==> forall k :: k in m.entries ==> m.entries[k] != value
  {
    if IsEmpty(m) {
      return None;
    }
    var i := 0;
    while i < |order|
      invariant 0 <= i <= |order|
      invariant forall j :: 0 <= j < i ==> m.entries[order[j]] != value
    {
      if IsEquals(m.entries[order[i]], value) {
        IsEqualsIsEquality(m.entries[order[i]], value);
        return Some(order[i]);
      }
      i := i + 1;
    }
    forall k | k in m.entries
      ensures m.entries[k] != value
    {
      var j :| 0 <= j < |order| && order[j] == k;
    }
    return None;
  }

  // parseKeyAndValueToMap

  /** A separator argument, with a blank one replaced by the default. */
  function SeparatorOrDefault(separator: Option<string>, defaultSeparator: string): (r: string)
    requires |defaultSeparator| > 0
    ensures |r| > 0
    ensures StringUtils.IsEmpty(separator) ==> r == defaultSeparator
    ensures !StringUtils.IsEmpty(separator) ==> r == separator.value
  {
    if StringUtils.IsEmpty(separator) then defaultSeparator else separator.value
  }

  function TrimIf(ignoreSpace: bool, s: string): string
  {
    if ignoreSpace then Trim(s) else s
  }

  /** One piece of the source split into key and value as
      `parseKeyAndValueToMap` does it, skipping over the whole separator:
      null for a blank piece and for a piece without the separator. */
  function ParsePair(piece: string, kvSep: string, ignoreSpace: bool): (r: Option<(string, string)>)
    requires |kvSep| > 0
    ensures r.Some? <==> !StringUtils.IsEmpty(Some(piece)) && IndexOf(piece, kvSep, 0) != -1
    ensures r.Some? && !ignoreSpace ==>
      piece == r.value.0 + kvSep + r.value.1 && IndexOf(r.value.0, kvSep, 0) == -1
  {
    if StringUtils.IsEmpty(Some(piece)) then None
    else
      var at := IndexOf(piece, kvSep, 0);
      if at == -1 then None
      else
        KeyLacksSeparator(piece, kvSep, at);
        RejoinAt(piece, kvSep, at);
        Some((TrimIf(ignoreSpace, piece[..at]), TrimIf(ignoreSpace, piece[at + |kvSep|..])))
  }

  /** The text before the first occurrence of the separator holds none. */
  lemma KeyLacksSeparator(piece: string, kvSep: string, at: int)
    requires |kvSep| > 0 && at != -1 && at == IndexOf(piece, kvSep, 0)
    ensures IndexOf(piece[..at], kvSep, 0) == -1
  {
    IndexOfIsFirst(piece, kvSep, 0);
    var key := piece[..at];
    forall j | 0 <= j && j + |kvSep| <= |key|
      ensures !MatchAt(key, kvSep, j)
    {
      assert key[j..j + |kvSep|] == piece[j..j + |kvSep|];
      assert !MatchAt(piece, kvSep, j);
    }
  }

  /** The same split as the source writes it: the value starts one
      character after the separator, whatever the separator's length. */
  function ParsePairAsWritten(piece: string, kvSep: string, ignoreSpace: bool): (r: Option<(string, string)>)
    requires |kvSep| > 0
    ensures r.Some? <==> !StringUtils.IsEmpty(Some(piece)) && IndexOf(piece, kvSep, 0) != -1
  {
    if StringUtils.IsEmpty(Some(piece)) then None
    else
      var at := IndexOf(piece, kvSep, 0);
      if at == -1 then None
      else Some((TrimIf(ignoreSpace, piece[..at]), TrimIf(ignoreSpace, piece[at + 1..])))
  }

  /** With a one-character separator, such as the default ":", the two
      agree. */
  lemma ParsePairAsWrittenAgreesForOneChar(piece: string, kvSep: string, ignoreSpace: bool)
    requires |kvSep| == 1
    ensures ParsePairAsWritten(piece, kvSep, ignoreSpace) == ParsePair(piece, kvSep, ignoreSpace)
  {
  }

  /** With a separator of two or more characters, the value as written
      starts inside the separator: it keeps the separator's tail and is
      never the text after the separator. */
  lemma ParsePairAsWrittenKeepsSeparatorTail(key: string, kvSep: string, value: string)
    requires |kvSep| >= 2
    requires !StringUtils.IsEmpty(Some(key + kvSep + value))
    requires IndexOf(key + kvSep + value, kvSep, 0) == |key|
    ensures ParsePair(key + kvSep + value, kvSep, false) == Some((key, value))
    ensures ParsePairAsWritten(key + kvSep + value, kvSep, false) == Some((key, kvSep[1..] + value))
    ensures kvSep[1..] + value != value
  {
    var piece := key + kvSep + value;
    assert piece[..|key|] == key;
    assert piece[|key| + |kvSep|..] == value;
    assert piece[|key| + 1..] == kvSep[1..] + value;
    assert TrimIf(false, key) == key && TrimIf(false, value) == value;
    assert TrimIf(false, kvSep[1..] + value) == kvSep[1..] + value;
    assert ParsePair(piece, kvSep, false) == Some((key, value));
    assert ParsePairAsWritten(piece, kvSep, false) == Some((key, kvSep[1..] + value));
    assert |kvSep[1..] + value| > |value|;
  }

  /** The piece "a=>b" with the separator "=>" is such a case: it parses
      as the key "a" with the value ">b". */
  lemma ArrowSeparatorExample()
    ensures ParsePairAsWritten("a=>b", "=>", false) == Some(("a", ">b"))
    ensures ParsePair("a=>b", "=>", false) == Some(("a", "b"))
  {
    var piece := "a" + "=>" + "b";
    assert piece == "a=>b";
    assert MatchAt(piece, "=>", 1);
    assert !MatchAt(piece, "=>", 0) by { assert piece[0] != '='; }
    assert IndexFrom(piece, "=>", 1) == 1;
    assert IndexOf(piece, "=>", 0) == 1;
    assert !StringUtils.IsEmpty(Some(piece)) by {
      StringUtils.IsEmptyIff(piece);
      assert piece[0] > ' ';
    }
    ParsePairAsWrittenKeepsSeparatorTail("a", "=>", "b");
  }

  /** Which split of a piece a fold uses: the source's, with the value one
      character after the separator, or the intended one, after the whole
      separator. */
  datatype Reading = AsWritten | Intended

  function Pair(reading: Reading, piece: string, kvSep: string, ignoreSpace: bool): Option<(string, string)>
    requires |kvSep| > 0
  {
    if reading == AsWritten then ParsePairAsWritten(piece, kvSep, ignoreSpace)
    else ParsePair(piece, kvSep, ignoreSpace)
  }

  /** The entry a piece contributes to the map: its pair, unless the key is
      blank, which `putMapNotEmptyKey` refuses. */
  function Entry(reading: Reading, piece: string, kvSep: string, ignoreSpace: bool): (r: Option<(string, string)>)
    requires |kvSep| > 0
    ensures r.Some? ==> !StringUtils.IsEmpty(Some(r.value.0))
    ensures r.Some? ==> Pair(reading, piece, kvSep, ignoreSpace) == r
    ensures r.None? ==> Pair(reading, piece, kvSep, ignoreSpace).None?
                        || StringUtils.IsEmpty(Some(Pair(reading, piece, kvSep, ignoreSpace).value.0))
  {
    var p := Pair(reading, piece, kvSep, ignoreSpace);
    if p.Some? && !StringUtils.IsEmpty(Some(p.value.0)) then p else None
  }

  /** The map after one piece has been put. */
  function PutPiece(reading: Reading, m: map<string, Option<string>>, piece: string, kvSep: string, ignoreSpace: bool)
    : map<string, Option<string>>
    requires |kvSep| > 0
  {
    var e := Entry(reading, piece, kvSep, ignoreSpace);
    if e.Some? then m[e.value.0 := Some(e.value.1)] else m
  }

  /** The map after putting the entries of `pieces`, in order, into `m`. */
  function PutPairs(reading: Reading, m: map<string, Option<string>>, pieces: seq<string>, kvSep: string, ignoreSpace: bool)
    : map<string, Option<string>>
    requires |kvSep| > 0
    decreases |pieces|
  {
    if pieces == [] then m
    else PutPairs(reading, PutPiece(reading, m, pieces[0], kvSep, ignoreSpace), pieces[1..], kvSep, ignoreSpace)
  }

  /** What `parseKeyAndValueToMap` builds from a non-blank source, under
      either reading of a piece. */
  function Parsed(reading: Reading, source: string, kvSep: string, pairSep: string, ignoreSpace: bool): map<string, Option<string>>
    requires |kvSep| > 0 && |pairSep| > 0
  {
    PutPairs(reading, map[], Split(source, pairSep), kvSep, ignoreSpace)
  }

  /** With a one-character key-value separator, such as the default ":",
      the map the source builds is the intended one. */
  lemma {:induction false} PutPairsAgreeForOneChar(m: map<string, Option<string>>, pieces: seq<string>,
                                                   kvSep: string, ignoreSpace: bool)
    requires |kvSep| == 1
    ensures PutPairs(AsWritten, m, pieces, kvSep, ignoreSpace) == PutPairs(Intended, m, pieces, kvSep, ignoreSpace)
    decreases |pieces|
  {
    if pieces != [] {
      PutPieceAgreesForOneChar(m, pieces[0], kvSep, ignoreSpace);
      PutPairsAgreeForOneChar(PutPiece(Intended, m, pieces[0], kvSep, ignoreSpace), pieces[1..], kvSep, ignoreSpace);
    }
  }

  lemma PutPieceAgreesForOneChar(m: map<string, Option<string>>, piece: string, kvSep: string, ignoreSpace: bool)
    requires |kvSep| == 1
    ensures PutPiece(AsWritten, m, piece, kvSep, ignoreSpace) == PutPiece(Intended, m, piece, kvSep, ignoreSpace)
  {
    ParsePairAsWrittenAgreesForOneChar(piece, kvSep, ignoreSpace);
    assert Pair(AsWritten, piece, kvSep, ignoreSpace) == Pair(Intended, piece, kvSep, ignoreSpace);
  }

  lemma ParsedAgreesForOneChar(source: string, kvSep: string, pairSep: string, ignoreSpace: bool)
    requires |kvSep| == 1 && |pairSep| > 0
    ensures Parsed(AsWritten, source, kvSep, pairSep, ignoreSpace) == Parsed(Intended, source, kvSep, pairSep, ignoreSpace)
  {
    PutPairsAgreeForOneChar(map[], Split(source, pairSep), kvSep, ignoreSpace);
  }

  /** At the level of the whole map: the source "a=>b" with the separator
      "=>" maps "a" to ">b", where "b" is intended. */
  lemma ArrowSeparatorMapExample()
    ensures Parsed(AsWritten, "a=>b", "=>", ",", false) == map["a" := Some(">b")]
    ensures Parsed(Intended, "a=>b", "=>", ",", false) == map["a" := Some("b")]
  {
    NoCommaInArrow();
    ArrowEntries();
    PutPairsSingle(AsWritten, map[], "a=>b", "=>", false);
    PutPairsSingle(Intended, map[], "a=>b", "=>", false);
  }

  lemma ArrowEntries()
    ensures Entry(AsWritten, "a=>b", "=>", false) == Some(("a", ">b"))
    ensures Entry(Intended, "a=>b", "=>", false) == Some(("a", "b"))
  {
    ArrowSeparatorExample();
    KeyANotBlank();
    assert Pair(AsWritten, "a=>b", "=>", false) == Some(("a", ">b"));
    assert Pair(Intended, "a=>b", "=>", false) == Some(("a", "b"));
  }

  lemma KeyANotBlank()
    ensures !StringUtils.IsEmpty(Some("a"))
  {
    StringUtils.IsEmptyIff("a");
    assert "a"[0] > ' ';
  }

  lemma NoCommaInArrow()
    ensures Split("a=>b", ",") == ["a=>b"]
  {
    var source := "a=>b";
    assert source == ['a', '=', '>', 'b'];
    assert IndexFrom(source, ",", 4) == -1;
    assert source[3..4] == ['b'];
    assert IndexFrom(source, ",", 3) == -1;
    assert source[2..3] == ['>'];
    assert IndexFrom(source, ",", 2) == -1;
    assert source[1..2] == ['='];
    assert IndexFrom(source, ",", 1) == -1;
    assert source[0..1] == ['a'];
    assert IndexFrom(source, ",", 0) == -1;
  }

  /** Putting a piece as the loop of `parseKeyAndValueToMap` does: its
      pair, when there is one and its key is not blank. */
  lemma PutPieceAsWritten(m: map<string, Option<string>>, piece: string, kvSep: string, ignoreSpace: bool)
    requires |kvSep| > 0
    ensures PutPiece(AsWritten, m, piece, kvSep, ignoreSpace)
         == var p := ParsePairAsWritten(piece, kvSep, ignoreSpace);
            if p.Some? && !StringUtils.IsEmpty(Some(p.value.0)) then m[p.value.0 := Some(p.value.1)] else m
  {
  }

  /** Putting the pieces from index `i` on is putting piece `i`, then the
      rest. */
  lemma PutPairsFrom(reading: Reading, m: map<string, Option<string>>, pieces: seq<string>, i: nat,
                     kvSep: string, ignoreSpace: bool)
    requires |kvSep| > 0 && i < |pieces|
    ensures PutPairs(reading, m, pieces[i..], kvSep, ignoreSpace)
         == PutPairs(reading, PutPiece(reading, m, pieces[i], kvSep, ignoreSpace), pieces[i + 1..], kvSep, ignoreSpace)
  {
    assert pieces[i..][1..] == pieces[i + 1..];
  }

  /** A single piece puts that piece's entry. */
  lemma PutPairsSingle(reading: Reading, m: map<string, Option<string>>, piece: string, kvSep: string, ignoreSpace: bool)
    requires |kvSep| > 0
    ensures PutPairs(reading, m, [piece], kvSep, ignoreSpace) == PutPiece(reading, m, piece, kvSep, ignoreSpace)
  {
    assert [piece][1..] == [];
  }

  /** The keys the pieces carry, blank ones left out. */
  function PieceKeys(reading: Reading, pieces: seq<string>, kvSep: string, ignoreSpace: bool): (r: set<string>)
    requires |kvSep| > 0
    ensures forall k :: k in r ==> !StringUtils.IsEmpty(Some(k))
    decreases |pieces|
  {
    if pieces == [] then {}
    else
      var e := Entry(reading, pieces[0], kvSep, ignoreSpace);
      (if e.Some? then {e.value.0} else {}) + PieceKeys(reading, pieces[1..], kvSep, ignoreSpace)
  }

  /** The parsed map holds exactly the keys it started with and the keys
      the pieces carry. */
  lemma {:induction false} PutPairsKeys(reading: Reading, m: map<string, Option<string>>, pieces: seq<string>,
                                        kvSep: string, ignoreSpace: bool)
    requires |kvSep| > 0
    ensures PutPairs(reading, m, pieces, kvSep, ignoreSpace).Keys == m.Keys + PieceKeys(reading, pieces, kvSep, ignoreSpace)
    decreases |pieces|
  {
    if pieces != [] {
      PutPairsKeys(reading, PutPiece(reading, m, pieces[0], kvSep, ignoreSpace), pieces[1..], kvSep, ignoreSpace);
    }
  }

  /** Putting one more piece is one more step at the end, so a later entry
      for a key overwrites an earlier one. */
  lemma {:induction false} PutPairsLastWins(reading: Reading, m: map<string, Option<string>>, pieces: seq<string>,
                                            last: string, kvSep: string, ignoreSpace: bool)
    requires |kvSep| > 0
    ensures PutPairs(reading, m, pieces + [last], kvSep, ignoreSpace)
         == PutPiece(reading, PutPairs(reading, m, pieces, kvSep, ignoreSpace), last, kvSep, ignoreSpace)
    decreases |pieces|
  {
    if pieces == [] {
      assert [] + [last] == [last];
    } else {
      assert (pieces + [last])[1..] == pieces[1..] + [last];
      PutPairsLastWins(reading, PutPiece(reading, m, pieces[0], kvSep, ignoreSpace), pieces[1..], last, kvSep, ignoreSpace);
    }
  }

  /** A source whose last piece carries a key maps that key to that
      piece's value, whatever came before. */
  lemma LastPieceOverwrites(reading: Reading, m: map<string, Option<string>>, pieces: seq<string>, last: string,
                            kvSep: string, ignoreSpace: bool, key: string, value: string)
    requires |kvSep| > 0
    requires Entry(reading, last, kvSep, ignoreSpace) == Some((key, value))
    ensures key in PutPairs(reading, m, pieces + [last], kvSep, ignoreSpace)
    ensures PutPairs(reading, m, pieces + [last], kvSep, ignoreSpace)[key] == Some(value)
  {
    PutPairsLastWins(reading, m, pieces, last, kvSep, ignoreSpace);
  }

  /** `parseKeyAndValueToMap(source, keyAndValueSeparator,
      keyAndValuePairSeparator, ignoreSpace)`: null for a blank source. The
      source is split at a literal pair separator, and each piece is split
      as the source writes it. */
  method ParseKeyAndValueToMap(source: Option<string>, keyAndValueSeparator: Option<string>,
                               keyAndValuePairSeparator: Option<string>, ignoreSpace: bool)
    returns (r: HashMap?<string, Option<string>>)
    ensures StringUtils.IsEmpty(source) ==> r == null
    ensures !StringUtils.IsEmpty(source) ==> (r != null && fresh(r) && r.entries ==
      Parsed(AsWritten, source.value,
             SeparatorOrDefault(keyAndValueSeparator, DEFAULT_KEY_AND_VALUE_SEPARATOR),
             SeparatorOrDefault(keyAndValuePairSeparator, DEFAULT_KEY_AND_VALUE_PAIR_SEPARATOR),
             ignoreSpace))
  {
    if StringUtils.IsEmpty(source) {
      return null;
    }
    var kvSep := SeparatorOrDefault(keyAndValueSeparator, DEFAULT_KEY_AND_VALUE_SEPARATOR);
    var pairSep := SeparatorOrDefault(keyAndValuePairSeparator, DEFAULT_KEY_AND_VALUE_PAIR_SEPARATOR);
    var keyAndValueMap := new HashMap();
    var keyAndValueArray := Split(source.value, pairSep);
    var i := 0;
    while i < |keyAndValueArray|
      invariant 0 <= i <= |keyAndValueArray|
      invariant fresh(keyAndValueMap)
      invariant PutPairs(AsWritten, keyAndValueMap.entries, keyAndValueArray[i..], kvSep, ignoreSpace)
             == PutPairs(AsWritten, map[], keyAndValueArray, kvSep, ignoreSpace)
    {
      var valueEntity := keyAndValueArray[i];
      ghost var before := keyAndValueMap.entries;
      PutPairsFrom(AsWritten, before, keyAndValueArray, i, kvSep, ignoreSpace);
      var pair := ParsePairAsWritten(valueEntity, kvSep, ignoreSpace);
      if pair.Some? {
        var _ := PutMapNotEmptyKey(keyAndValueMap, Some(pair.value.0), Some(pair.value.1));
      }
      PutPieceAsWritten(before, valueEntity, kvSep, ignoreSpace);
      i := i + 1;
    }
    assert keyAndValueArray[i..] == [];
    return keyAndValueMap;
  }

  /** `parseKeyAndValueToMap(source, ignoreSpace)`: the default separators.
      The default ":" is one character long, so the map is also the
      intended one. */
  method ParseKeyAndValueToMapDefault(source: Option<string>, ignoreSpace: bool)
    returns (r: HashMap?<string, Option<string>>)
    ensures StringUtils.IsEmpty(source) ==> r == null
    ensures !StringUtils.IsEmpty(source) ==> (r != null && fresh(r)
      && r.entries == Parsed(AsWritten, source.value, DEFAULT_KEY_AND_VALUE_SEPARATOR, DEFAULT_KEY_AND_VALUE_PAIR_SEPARATOR, ignoreSpace)
      && r.entries == Parsed(Intended, source.value, DEFAULT_KEY_AND_VALUE_SEPARATOR, DEFAULT_KEY_AND_VALUE_PAIR_SEPARATOR, ignoreSpace))
  {
    r := ParseKeyAndValueToMap(source, Some(DEFAULT_KEY_AND_VALUE_SEPARATOR), Some(DEFAULT_KEY_AND_VALUE_PAIR_SEPARATOR), ignoreSpace);
    if !StringUtils.IsEmpty(source) {
      ParsedAgreesForOneChar(source.value, DEFAULT_KEY_AND_VALUE_SEPARATOR, DEFAULT_KEY_AND_VALUE_PAIR_SEPARATOR, ignoreSpace);
    }
  }

  /** `parseKeyAndValueToMap(source)`: the default separators, trimmed. */
  method ParseKeyAndValueToMapTrimmed(source: Option<string>) returns (r: HashMap?<string, Option<string>>)
    ensures StringUtils.IsEmpty(source) ==> r == null
    ensures !StringUtils.IsEmpty(source) ==> (r != null && fresh(r)
      && r.entries == Parsed(AsWritten, source.value, DEFAULT_KEY_AND_VALUE_SEPARATOR, DEFAULT_KEY_AND_VALUE_PAIR_SEPARATOR, true)
      && r.entries == Parsed(Intended, source.value, DEFAULT_KEY_AND_VALUE_SEPARATOR, DEFAULT_KEY_AND_VALUE_PAIR_SEPARATOR, true))
  {
    r := ParseKeyAndValueToMap(source, Some(DEFAULT_KEY_AND_VALUE_SEPARATOR), Some(DEFAULT_KEY_AND_VALUE_PAIR_SEPARATOR), true);
    if !StringUtils.IsEmpty(source) {
      ParsedAgreesForOneChar(source.value, DEFAULT_KEY_AND_VALUE_SEPARATOR, DEFAULT_KEY_AND_VALUE_PAIR_SEPARATOR, true);
    }
  }

  // toJson

  /** One entry as `"key":"value"`; a null value prints as `null`. */
  function EntryJson(key: string, value: Option<string>): string
  {
    "\"" + key + "\":\"" + (if value.None? then "null" else value.value) + "\""
  }

  /** The printed entries, in iteration order. */
  function EntryTexts(m: map<string, Option<string>>, order: seq<string>): (r: seq<string>)
    requires forall k :: k in order ==> k in m
    ensures |r| == |order|
    ensures forall i :: 0 <= i < |order| ==> r[i] == EntryJson(order[i], m[order[i]])
  {
    if order == [] then [] else [EntryJson(order[0], m[order[0]])] + EntryTexts(m, order[1..])
  }

  /** The JSON object of `toJson`. */
  function Json(m: map<string, Option<string>>, order: seq<string>): string
    requires forall k :: k in order ==> k in m
  {
    "{" + Join(EntryTexts(m, order), ",") + "}"
  }

  /** Where the part at index `i` starts in the joined string. */
  function PartOffset(parts: seq<string>, sep: string, i: nat): nat
    requires i < |parts|
  {
    if i == 0 then 0 else |parts[0]| + |sep| + PartOffset(parts[1..], sep, i - 1)
  }

  /** Every part shows up in the joined string, at its offset. */
  lemma {:induction false} JoinHasPart(parts: seq<string>, sep: string, i: nat)
    requires i < |parts|
    ensures MatchAt(Join(parts, sep), parts[i], PartOffset(parts, sep, i))
  {
    var j := Join(parts, sep);
    if |parts| > 1 {
      var rest := parts[1..];
      assert j == parts[0] + sep + Join(rest, sep);
      if i == 0 {
        assert j[..|parts[0]|] == parts[0];
      } else {
        JoinHasPart(rest, sep, i - 1);
        MatchInContext(parts[0] + sep, Join(rest, sep), [], parts[i], PartOffset(rest, sep, i - 1));
        assert parts[0] + sep + Join(rest, sep) + [] == j;
      }
    }
  }

  /** `toJson` prints every entry of the map. */
  lemma JsonHasEveryEntry(m: map<string, Option<string>>, order: seq<string>, key: string)
    requires IsKeyOrder(m, order)
    requires key in m
    ensures exists o :: MatchAt(Json(m, order), EntryJson(key, m[key]), o)
  {
    var texts := EntryTexts(m, order);
    var i :| 0 <= i < |order| && order[i] == key;
    JoinHasPart(texts, ",", i);
    var o := PartOffset(texts, ",", i);
    MatchInContext("{", Join(texts, ","), "}", texts[i], o);
    assert Json(m, order) == "{" + Join(texts, ",") + "}";
    assert MatchAt(Json(m, order), EntryJson(key, m[key]), 1 + o);
  }

  /** Joining from index `i` is the part at `i`, then the separator when
      more parts follow, then joining from `i + 1`. */
  lemma JoinStep(parts: seq<string>, sep: string, i: nat)
    requires i < |parts|
    ensures Join(parts[i..], sep) == parts[i] + (if i + 1 < |parts| then sep else []) + Join(parts[i + 1..], sep)
  {
    if i + 1 < |parts| {
      assert parts[i..] == [parts[i]] + parts[i + 1..];
      JoinCons(parts[i], parts[i + 1..], sep);
      AppendAssoc(parts[i], sep, Join(parts[i + 1..], sep));
    } else {
      assert parts[i..] == [parts[i]];
      assert parts[i + 1..] == [];
    }
  }

  /** `toJson(map)`, visiting the entries in `order`: null for a null or
      empty map. */
  method ToJson(m: HashMap?<string, Option<string>>, order: seq<string>) returns (r: Option<string>)
    requires m != null ==> IsKeyOrder(m.entries, order)
    ensures r.None? <==> IsEmpty(m)
    ensures r.Some? ==> m != null && r.value == Json(m.entries, order)
  {
    if m == null || |m.entries| == 0 {
      return None;
    }
    var json := JsonOfEntries(m.entries, order);
    return Some(json);
  }

  /** The loop of `toJson`: "{", the entries separated by commas, "}". */
  method JsonOfEntries(entries: map<string, Option<string>>, order: seq<string>) returns (json: string)
    requires forall k :: k in order ==> k in entries
    ensures json == Json(entries, order)
  {
    ghost var texts := EntryTexts(entries, order);
    var paras := "{";
    var i := 0;
    while i < |order|
      invariant 0 <= i <= |order|
      invariant "{" + Join(texts, ",") == paras + Join(texts[i..], ",")
    {
      var entry := EntryJson(order[i], entries[order[i]]);
      JoinStep(texts, ",", i);
      if i + 1 < |order| {
        AppendAssoc(paras, entry + ",", Join(texts[i + 1..], ","));
        paras := paras + (entry + ",");
      } else {
        paras := paras + entry;
      }
      i := i + 1;
    }
    assert texts[i..] == [];
    json := paras + "}";
  }
}

# StickerCamera core, modelled in Dafny

This project models the decision logic of the StickerCamera Android app and proves properties of it. There are three parts.

- **The GPU image pipeline** (`jp.co.cyberagent.android.gpuimage`):
  - the texture-coordinate tables and their flips, and the `Rotation` enum;
  - the dilation filter's choice of shader variant and its max-of-taps rule;
  - the 3x3 sampling filter's texel steps and its sticky override flag;
  - the off-screen `PixelBuffer` with its renderer and owner-thread guards and the row mirror of its read-back;
  - `GPUImageView`'s forced-size capture and its save-task dispatch;
  - `GPUImage`'s setters, output size, decode sample size, fit/crop rule and multi-filter rendering.
- **The utility classes** `StringUtils`, `ListUtils`, `ArrayUtils`, `ObjectUtils` and `MapUtils`.
- **Two custom views:**
  - `FlowLayout`, which measures its visible children and breaks them into lines;
  - `MyHighlightView`'s selection and focus state bits, its drawable-state table, and the guards on moving and resizing the sticker frame.

Modules follow the source files: `TextureRotationUtil`, `Rotations`, `DilationFilter`, `TextureSampling3x3`, `PixelBuffers`, `GPUImageViews`, `GPUImageCore`, `StringUtils`, `ListUtils`, `ArrayUtils`, `ObjectUtils`, `MapUtils`, `FlowLayouts` and `HighlightViews`. Two modules are shared:

- `Wrappers` holds `Option` and `Result`, with the Java exceptions the source throws as error values.
- `JavaLang` holds the Java semantics the code relies on: 32-bit `int` addition and subtraction that wrap around, integer division that truncates toward zero, `String.indexOf`/`lastIndexOf`, `trim`, `Character.isWhitespace`, `StringBuilder.reverse` and a literal `split`.

How Java is represented:

- Java `null` is `None` or a null reference.
- Collections and objects that the source changes in place are classes with `modifies` clauses: `ArrayList`, `HashMap`, the filters, the pixel buffer, the views and `GPUImage`.
- Calls into GL, EGL, the renderer and the platform are not executed. The modelled ones are appended, in order, to a log field of the object that makes them; "## Left out" names the calls that are not recorded, among them every `android.util.Log` message. What the calls return (read-back pixels, the calling thread, child measurements) is a parameter.
- Integers are unbounded. Two places where the source's 32-bit `int` arithmetic can overflow are modelled with Java's wrap-around: the end `pos + len` of `mid` and the gap `size - length` of the pads. Other overflows are not modelled; "## Left out" lists them.
- Floats are exact reals.
- A `Bitmap` has positive sides, as Android bitmaps do. `PixelBuffers.CreateBitmap` is `Bitmap.createBitmap`: it throws IllegalArgumentException for a side that is not positive.
- HashMap iteration order is a parameter.

## Model

| member | source | states |
|---|---|---|
| Rotations.AsInt | Skykai521-StickerCamera-6fc41b1/Gpu-Image/src/jp/co/cyberagent/android/gpuimage/Rotation.java:34-44 | each rotation maps to its degrees, a multiple of 90 below 360, and only NORMAL maps to 0 |
| Rotations.FromInt | Skykai521-StickerCamera-6fc41b1/Gpu-Image/src/jp/co/cyberagent/android/gpuimage/Rotation.java:53-65 | exactly 0, 90, 180, 270 and 360 are accepted; every other value is an IllegalStateException whose message starts with that value |
| Rotations.UnknownRotationExample | Skykai521-StickerCamera-6fc41b1/Gpu-Image/src/jp/co/cyberagent/android/gpuimage/Rotation.java:60-63 | 45 and -90 are rejected with the messages "45" and "-90" followed by " is an unknown rotation. Needs to be either 0, 90, 180 or 270!" |
| Rotations.FromIntAsInt | Skykai521-StickerCamera-6fc41b1/Gpu-Image/src/jp/co/cyberagent/android/gpuimage/Rotation.java:34-65 | fromInt undoes asInt for every rotation |
| Rotations.AsIntFromInt | Skykai521-StickerCamera-6fc41b1/Gpu-Image/src/jp/co/cyberagent/android/gpuimage/Rotation.java:34-65 | asInt undoes fromInt modulo a full turn, so 360 comes back as 0 |
| TextureRotationUtil.Flip | Skykai521-StickerCamera-6fc41b1/Gpu-Image/src/jp/co/cyberagent/android/gpuimage/util/TextureRotationUtil.java:112-117 | the result is a corner coordinate, and it is 1.0 exactly when the input is 0.0 |
| TextureRotationUtil.FlipInvolution | Skykai521-StickerCamera-6fc41b1/Gpu-Image/src/jp/co/cyberagent/android/gpuimage/util/TextureRotationUtil.java:112-117 | on 0.0 and 1.0 flip is the complement 1 - v, and flipping twice gives the input back |
| TextureRotationUtil.RotationTable | Skykai521-StickerCamera-6fc41b1/Gpu-Image/src/jp/co/cyberagent/android/gpuimage/util/TextureRotationUtil.java:24-85 | every table the rotation switch selects holds only corner coordinates |
| TextureRotationUtil.FlipHorizontal | Skykai521-StickerCamera-6fc41b1/Gpu-Image/src/jp/co/cyberagent/android/gpuimage/util/TextureRotationUtil.java:87-94 | x coordinates (even indices) are flipped and y coordinates are kept |
| TextureRotationUtil.FlipVertical | Skykai521-StickerCamera-6fc41b1/Gpu-Image/src/jp/co/cyberagent/android/gpuimage/util/TextureRotationUtil.java:96-103 | y coordinates (odd indices) are flipped and x coordinates are kept |
| TextureRotationUtil.GetRotation | Skykai521-StickerCamera-6fc41b1/Gpu-Image/src/jp/co/cyberagent/android/gpuimage/util/TextureRotationUtil.java:63-105 | each coordinate is the rotation table's own, complemented exactly when its axis is mirrored; the result holds only corners |
| TextureRotationUtil.NoFlipIsTable | Skykai521-StickerCamera-6fc41b1/Gpu-Image/src/jp/co/cyberagent/android/gpuimage/util/TextureRotationUtil.java:24-85 | without mirroring each rotation returns its own constant table |
| TextureRotationUtil.FlipsCommuteAndUndo | Skykai521-StickerCamera-6fc41b1/Gpu-Image/src/jp/co/cyberagent/android/gpuimage/util/TextureRotationUtil.java:87-103 | each mirror undoes itself, and the two mirrors commute |
| TextureRotationUtil.BothFlipsAddHalfTurn | Skykai521-StickerCamera-6fc41b1/Gpu-Image/src/jp/co/cyberagent/android/gpuimage/util/TextureRotationUtil.java:24-105 | mirroring both ways gives the table of the rotation a half turn further |
| TextureRotationUtil.AllSixteenTables | Skykai521-StickerCamera-6fc41b1/Gpu-Image/src/jp/co/cyberagent/android/gpuimage/util/TextureRotationUtil.java:63-105 | the sixteen rotation and mirror combinations written out as literal tables |
| ObjectUtils.IsEqualsIsEquality | Skykai521-StickerCamera-6fc41b1/app/src/main/java/com/common/util/ObjectUtils.java:25-27 | isEquals holds exactly when both are null or both hold equal values, and it is symmetric |
| ObjectUtils.NullStrToEmpty | Skykai521-StickerCamera-6fc41b1/app/src/main/java/com/common/util/ObjectUtils.java:43-45 | null becomes the empty string, a String is returned unchanged, any other object gives its toString text |
| ObjectUtils.Compare | Skykai521-StickerCamera-6fc41b1/app/src/main/java/com/common/util/ObjectUtils.java:133-135 | the result is -1, 0 or 1; it is 0 exactly for equal values or two nulls; it is negative exactly when v1 is null and v2 is not, or v1 < v2 |
| ObjectUtils.CompareIsOrder | Skykai521-StickerCamera-6fc41b1/app/src/main/java/com/common/util/ObjectUtils.java:133-135 | compare is antisymmetric and transitive, with null below every value |
| ObjectUtils.Boxed | Skykai521-StickerCamera-6fc41b1/app/src/main/java/com/common/util/ObjectUtils.java:54-89 | boxing keeps the length and wraps each element in place |
| ObjectUtils.Unboxed | Skykai521-StickerCamera-6fc41b1/app/src/main/java/com/common/util/ObjectUtils.java:68-103 | unboxing fails with a NullPointerException exactly when some box is null; otherwise element i is the value in box i |
| ObjectUtils.UnboxedBoxed | Skykai521-StickerCamera-6fc41b1/app/src/main/java/com/common/util/ObjectUtils.java:54-103 | unboxing what was boxed gives the original array |
| ObjectUtils.BoxedUnboxed | Skykai521-StickerCamera-6fc41b1/app/src/main/java/com/common/util/ObjectUtils.java:54-103 | boxing an array that unboxed without error gives the original boxes |
| ObjectUtils.BoxArray | Skykai521-StickerCamera-6fc41b1/app/src/main/java/com/common/util/ObjectUtils.java:54-89 | a null source raises NullPointerException; otherwise the new array is the boxed source |
| ObjectUtils.UnboxArray | Skykai521-StickerCamera-6fc41b1/app/src/main/java/com/common/util/ObjectUtils.java:68-103 | a NullPointerException exactly when the source is null or some box is null; otherwise a new array holding the unboxed source |
| ArrayUtils.FirstIndexOf | Skykai521-StickerCamera-6fc41b1/app/src/main/java/com/common/util/ArrayUtils.java:60-66 | the result is -1 exactly when the value is absent; otherwise it is a position holding the value with no earlier occurrence |
| ArrayUtils.FirstIndexOfUnique | Skykai521-StickerCamera-6fc41b1/app/src/main/java/com/common/util/ArrayUtils.java:60-66 | the first occurrence is unique: any position holding the value with none before it is the one found |
| ArrayUtils.NextOfPrevious | Skykai521-StickerCamera-6fc41b1/app/src/main/java/com/common/util/ArrayUtils.java:53-119 | in a circular array with distinct elements, getNext of getLast (and getLast of getNext) returns the value |
| ArrayUtils.NonCircularEnds | Skykai521-StickerCamera-6fc41b1/app/src/main/java/com/common/util/ArrayUtils.java:53-119 | without wrap-around the first element has no predecessor and the last no successor (the default comes back); with wrap-around both neighbours of a present value are elements of the array |
| ArrayUtils.CurrentPosition | Skykai521-StickerCamera-6fc41b1/app/src/main/java/com/common/util/ArrayUtils.java:60-110 | the loop with its break finds the first position equal (null-aware) to the value, or -1 |
| ArrayUtils.GetLast | Skykai521-StickerCamera-6fc41b1/app/src/main/java/com/common/util/ArrayUtils.java:53-80 | a null or empty array gives the default; otherwise the element before the first occurrence, the last element at position 0 when circular, and the default when absent |
| ArrayUtils.GetNext | Skykai521-StickerCamera-6fc41b1/app/src/main/java/com/common/util/ArrayUtils.java:99-119 | a null or empty array gives the default; otherwise the element after the first occurrence, the first element at the end when circular, and the default when absent |
| ArrayUtils.GetLastOrNull | Skykai521-StickerCamera-6fc41b1/app/src/main/java/com/common/util/ArrayUtils.java:124-126 | getLast with null as the default |
| ArrayUtils.GetNextOrNull | Skykai521-StickerCamera-6fc41b1/app/src/main/java/com/common/util/ArrayUtils.java:131-133 | getNext with null as the default |
| ArrayUtils.BoxedSearch | Skykai521-StickerCamera-6fc41b1/app/src/main/java/com/common/util/ArrayUtils.java:138-183 | searching the boxed array for the boxed value finds the same position as searching the primitive array |
| ArrayUtils.GetLastPrimitive | Skykai521-StickerCamera-6fc41b1/app/src/main/java/com/common/util/ArrayUtils.java:138-171 | a null array raises NullPointerException and an empty one IllegalArgumentException; otherwise the neighbour before the value, computed on the primitive values |
| ArrayUtils.GetNextPrimitive | Skykai521-StickerCamera-6fc41b1/app/src/main/java/com/common/util/ArrayUtils.java:151-183 | a null array raises NullPointerException and an empty one IllegalArgumentException; otherwise the neighbour after the value, computed on the primitive values |
| ListUtils.ArrayList.Size | Skykai521-StickerCamera-6fc41b1/app/src/main/java/com/common/util/ListUtils.java:40-57 | the size is the number of elements |
| ListUtils.ArrayList.Add | Skykai521-StickerCamera-6fc41b1/app/src/main/java/com/common/util/ListUtils.java:157-253 | the element is appended at the end, and the result is true |
| ListUtils.ArrayList.RemoveAt | Skykai521-StickerCamera-6fc41b1/app/src/main/java/com/common/util/ListUtils.java:199 | the element at the index is removed and later elements shift down |
| ListUtils.GetSize | Skykai521-StickerCamera-6fc41b1/app/src/main/java/com/common/util/ListUtils.java:39-41 | 0 for null, otherwise the number of elements |
| ListUtils.IsEmptyIffSizeZero | Skykai521-StickerCamera-6fc41b1/app/src/main/java/com/common/util/ListUtils.java:39-58 | isEmpty holds exactly when getSize is 0 |
| ListUtils.IsEquals | Skykai521-StickerCamera-6fc41b1/app/src/main/java/com/common/util/ListUtils.java:75-92 | two nulls are equal, a null and a list are not, and two lists are equal exactly when they hold the same elements in the same order |
| ListUtils.AddDistinctEntry | Skykai521-StickerCamera-6fc41b1/app/src/main/java/com/common/util/ListUtils.java:156-158 | true exactly when the list is non-null and lacks the entry, and then the entry is appended; otherwise the list is unchanged |
| ListUtils.UnseenElements | Skykai521-StickerCamera-6fc41b1/app/src/main/java/com/common/util/ListUtils.java:168-206 | the unseen first occurrences are exactly the values of the list not yet seen, each once |
| ListUtils.UnseenOfDistinct | Skykai521-StickerCamera-6fc41b1/app/src/main/java/com/common/util/ListUtils.java:189-206 | a list without repeats whose values are all unseen loses nothing |
| ListUtils.UnseenDropSeen | Skykai521-StickerCamera-6fc41b1/app/src/main/java/com/common/util/ListUtils.java:196-203 | removing a copy of a value that occurs earlier does not change the first occurrences |
| ListUtils.AddedDistinctIsUnseen | Skykai521-StickerCamera-6fc41b1/app/src/main/java/com/common/util/ListUtils.java:168-180 | appending distinct entries appends the first occurrences of the entries not yet present, in order |
| ListUtils.AddedDistinctKeepsDistinct | Skykai521-StickerCamera-6fc41b1/app/src/main/java/com/common/util/ListUtils.java:168-180 | a list without repeats keeps none, and afterwards holds exactly the old elements and the entries |
| ListUtils.AddDistinctList | Skykai521-StickerCamera-6fc41b1/app/src/main/java/com/common/util/ListUtils.java:168-180 | nothing changes for a null list or an empty entry list; otherwise each entry not already present (counting earlier additions) is appended in order, and the result is the number appended |
| ListUtils.RemoveLaterCopy | Skykai521-StickerCamera-6fc41b1/app/src/main/java/com/common/util/ListUtils.java:197-202 | removing a later copy of an earlier value keeps the first occurrences |
| ListUtils.RemoveKeepsScanned | Skykai521-StickerCamera-6fc41b1/app/src/main/java/com/common/util/ListUtils.java:196-203 | the inner loop's removal keeps the scanned prefix free of repeats |
| ListUtils.DistinctList | Skykai521-StickerCamera-6fc41b1/app/src/main/java/com/common/util/ListUtils.java:189-206 | the list becomes the first occurrence of each value, in order, and the result is the number of elements removed |
| ListUtils.FirstOccurrencesDistinct | Skykai521-StickerCamera-6fc41b1/app/src/main/java/com/common/util/ListUtils.java:189-206 | after removing duplicates every value of the list occurs exactly once; a list without repeats is unchanged |
| ListUtils.AddListNotNullValue | Skykai521-StickerCamera-6fc41b1/app/src/main/java/com/common/util/ListUtils.java:219-221 | true exactly when both list and value are non-null, and then the value is appended; otherwise the list is unchanged |
| ListUtils.InvertList | Skykai521-StickerCamera-6fc41b1/app/src/main/java/com/common/util/ListUtils.java:246-256 | a null or empty list is returned as is; any other list gives a new list with the elements reversed |
| MapUtils.HashMap.Put | Skykai521-StickerCamera-6fc41b1/app/src/main/java/com/common/util/MapUtils.java:63-152 | the key is bound to the value, replacing any earlier binding, and no other binding changes |
| MapUtils.PutMapNotEmptyKey | Skykai521-StickerCamera-6fc41b1/app/src/main/java/com/common/util/MapUtils.java:58-65 | true exactly when the map is non-null and the key is not blank, and then map[key] := value; otherwise the map is unchanged |
| MapUtils.PutMapNotEmptyKeyAndValue | Skykai521-StickerCamera-6fc41b1/app/src/main/java/com/common/util/MapUtils.java:80-87 | as putMapNotEmptyKey, but a blank value is refused too |
| MapUtils.PutMapNotEmptyKeyAndValueOrDefault | Skykai521-StickerCamera-6fc41b1/app/src/main/java/com/common/util/MapUtils.java:103-111 | as putMapNotEmptyKey, but a blank value stores the default instead |
| MapUtils.PutMapNotNullKey | Skykai521-StickerCamera-6fc41b1/app/src/main/java/com/common/util/MapUtils.java:125-132 | true exactly when the map and the key are non-null, and then map[key] := value; otherwise the map is unchanged |
| MapUtils.PutMapNotNullKeyAndValue | Skykai521-StickerCamera-6fc41b1/app/src/main/java/com/common/util/MapUtils.java:147-154 | true exactly when the map, the key and the value are non-null, and then map[key] := value; otherwise the map is unchanged |
| MapUtils.GetKeyByValue | Skykai521-StickerCamera-6fc41b1/app/src/main/java/com/common/util/MapUtils.java:174-185 | null for a null or empty map; a returned key maps to the value and is the first such key in iteration order; null otherwise means no key maps to the value |
| MapUtils.SeparatorOrDefault | Skykai521-StickerCamera-6fc41b1/app/src/main/java/com/common/util/MapUtils.java:215-220 | a blank separator is replaced by the default, any other is kept, and the result is never empty |
| MapUtils.ParsePair | Skykai521-StickerCamera-6fc41b1/app/src/main/java/com/common/util/MapUtils.java:229-238 | a piece yields a pair exactly when it is not blank and holds the separator; untrimmed, key + separator + value rebuilds the piece and the key holds no separator |
| MapUtils.ParsePairAsWritten | Skykai521-StickerCamera-6fc41b1/app/src/main/java/com/common/util/MapUtils.java:229-238 | the source's split, with the value starting one character after the separator's start; it yields a pair on exactly the same pieces as ParsePair |
| MapUtils.ParsePairAsWrittenAgreesForOneChar | Skykai521-StickerCamera-6fc41b1/app/src/main/java/com/common/util/MapUtils.java:230-237 | with a one-character separator, such as the default ":", the source's split is the intended one |
| MapUtils.ParsePairAsWrittenKeepsSeparatorTail | Skykai521-StickerCamera-6fc41b1/app/src/main/java/com/common/util/MapUtils.java:230-237 | with a separator of two or more characters, the source's value keeps the separator's tail and differs from the intended value |
| MapUtils.ArrowSeparatorExample | Skykai521-StickerCamera-6fc41b1/app/src/main/java/com/common/util/MapUtils.java:234-237 | "a=>b" split at "=>" gives the value ">b" as written and "b" as intended |
| MapUtils.Entry | Skykai521-StickerCamera-6fc41b1/app/src/main/java/com/common/util/MapUtils.java:229-238 | under either reading of the separator, a piece contributes an entry exactly when its pair exists and has a non-blank key, and the entry is that pair |
| MapUtils.PieceKeys | Skykai521-StickerCamera-6fc41b1/app/src/main/java/com/common/util/MapUtils.java:228-241 | every key the pieces contribute is non-blank |
| MapUtils.PutPairsKeys | Skykai521-StickerCamera-6fc41b1/app/src/main/java/com/common/util/MapUtils.java:221-242 | the parsed map holds exactly the keys it started with plus the non-blank keys of the pieces |
| MapUtils.PutPairsLastWins | Skykai521-StickerCamera-6fc41b1/app/src/main/java/com/common/util/MapUtils.java:228-241 | putting the pieces is a left-to-right fold, so one more piece is one more put at the end |
| MapUtils.LastPieceOverwrites | Skykai521-StickerCamera-6fc41b1/app/src/main/java/com/common/util/MapUtils.java:228-241 | a later piece for a key overwrites any earlier value of that key |
| MapUtils.PutPairsAgreeForOneChar | Skykai521-StickerCamera-6fc41b1/app/src/main/java/com/common/util/MapUtils.java:228-241 | with a one-character key-value separator the fold as written and the intended fold build the same map |
| MapUtils.ParsedAgreesForOneChar | Skykai521-StickerCamera-6fc41b1/app/src/main/java/com/common/util/MapUtils.java:221-242 | with a one-character key-value separator, such as the default ":", the parsed map is the intended one |
| MapUtils.ArrowSeparatorMapExample | Skykai521-StickerCamera-6fc41b1/app/src/main/java/com/common/util/MapUtils.java:221-242 | the source "a=>b" with separator "=>" maps "a" to ">b" as written and to "b" as intended |
| MapUtils.ParseKeyAndValueToMap | Skykai521-StickerCamera-6fc41b1/app/src/main/java/com/common/util/MapUtils.java:209-243 | null for a blank source; otherwise a new map equal to the fold, with the value split one character after the separator as written, of the pieces between literal pair separators, using the default separators when given blank ones |
| MapUtils.ParseKeyAndValueToMapDefault | Skykai521-StickerCamera-6fc41b1/app/src/main/java/com/common/util/MapUtils.java:256-259 | the full form with ":" and ","; with the one-character ":" the map is also the intended one |
| MapUtils.ParseKeyAndValueToMapTrimmed | Skykai521-StickerCamera-6fc41b1/app/src/main/java/com/common/util/MapUtils.java:270-273 | the full form with ":" and ",", trimming keys and values; the map is also the intended one |
| MapUtils.EntryTexts | Skykai521-StickerCamera-6fc41b1/app/src/main/java/com/common/util/MapUtils.java:289-291 | one printed "key":"value" text per key, in iteration order |
| MapUtils.JoinHasPart | Skykai521-StickerCamera-6fc41b1/app/src/main/java/com/common/util/MapUtils.java:286-297 | each joined part occurs in the joined string at its offset |
| MapUtils.JsonHasEveryEntry | Skykai521-StickerCamera-6fc41b1/app/src/main/java/com/common/util/MapUtils.java:281-298 | the JSON text contains the printed entry of every key of the map |
| MapUtils.JoinStep | Skykai521-StickerCamera-6fc41b1/app/src/main/java/com/common/util/MapUtils.java:289-295 | joining from index i is part i, a comma if more parts follow, then joining from i + 1 |
| MapUtils.ToJson | Skykai521-StickerCamera-6fc41b1/app/src/main/java/com/common/util/MapUtils.java:281-298 | null exactly for a null or empty map; otherwise "{", the printed entries separated by commas in iteration order, and "}" |
| MapUtils.JsonOfEntries | Skykai521-StickerCamera-6fc41b1/app/src/main/java/com/common/util/MapUtils.java:286-297 | the builder loop produces exactly that JSON text |
| StringUtils.IsEmptyIff | Skykai521-StickerCamera-6fc41b1/app/src/main/java/com/common/util/StringUtils.java:109-111 | a non-null string is empty for isEmpty exactly when all its characters are at most U+0020, the ones trim removes |
| StringUtils.NonWhitespace | Skykai521-StickerCamera-6fc41b1/app/src/main/java/com/common/util/StringUtils.java:75-84 | no whitespace is left, and every other character keeps its number of occurrences |
| StringUtils.DeleteWhitespace | Skykai521-StickerCamera-6fc41b1/app/src/main/java/com/common/util/StringUtils.java:75-84 | the loop keeps exactly the non-whitespace characters, in their original order |
| StringUtils.Substring | Skykai521-StickerCamera-6fc41b1/app/src/main/java/com/common/util/StringUtils.java:304-322 | null for null; otherwise a suffix, of length min(-start, length) for a negative start and max(0, length - start) otherwise |
| StringUtils.SubstringRange | Skykai521-StickerCamera-6fc41b1/app/src/main/java/com/common/util/StringUtils.java:325-357 | null for null; otherwise the characters between the two positions (negative ones counted from the end, the end capped at the length), empty when they cross |
| StringUtils.SubstringToEnd | Skykai521-StickerCamera-6fc41b1/app/src/main/java/com/common/util/StringUtils.java:304-357 | the two substring forms agree when the end is the length |
| StringUtils.Left | Skykai521-StickerCamera-6fc41b1/app/src/main/java/com/common/util/StringUtils.java:369-380 | a negative length raises IllegalArgumentException with a message naming the length; otherwise null stays null and a string gives its prefix of length min(len, length) |
| StringUtils.Right | Skykai521-StickerCamera-6fc41b1/app/src/main/java/com/common/util/StringUtils.java:393-404 | a negative length raises IllegalArgumentException with a message naming the length; otherwise null stays null and a string gives its suffix of length min(len, length) |
| StringUtils.LengthMessageExample | Skykai521-StickerCamera-6fc41b1/app/src/main/java/com/common/util/StringUtils.java:369-373 | left with length -12 throws with the message "Requested String length -12 is less than zero" |
| StringUtils.Mid | Skykai521-StickerCamera-6fc41b1/app/src/main/java/com/common/util/StringUtils.java:418-434 | a position outside the string raises StringIndexOutOfBoundsException (checked first, also for null), a negative length IllegalArgumentException; when `pos + len` passes Integer.MAX_VALUE the int sum wraps and substring throws StringIndexOutOfBoundsException; otherwise min(len, length - pos) characters from pos |
| StringUtils.MidIntended | Skykai521-StickerCamera-6fc41b1/app/src/main/java/com/common/util/StringUtils.java:405-434 | the documented mid: the same errors for the position and the length, and min(len, length - pos) characters from pos whatever the sum |
| StringUtils.MidAgreesWithoutOverflow | Skykai521-StickerCamera-6fc41b1/app/src/main/java/com/common/util/StringUtils.java:429-433 | mid as written equals the documented mid exactly when `pos + len` fits in an int or the call fails or returns null before the sum |
| StringUtils.MidOverflowExample | Skykai521-StickerCamera-6fc41b1/app/src/main/java/com/common/util/StringUtils.java:429-433 | mid("abc", 1, Integer.MAX_VALUE) throws, where the documented result is "bc" |
| StringUtils.LeftMidRightCompose | Skykai521-StickerCamera-6fc41b1/app/src/main/java/com/common/util/StringUtils.java:369-434 | left, mid and right cut a string into three parts that concatenate back to it |
| StringUtils.Chomp | Skykai521-StickerCamera-6fc41b1/app/src/main/java/com/common/util/StringUtils.java:762-769 | a prefix; the whole string when the separator does not occur, otherwise the text before its last occurrence |
| StringUtils.ChompNewline | Skykai521-StickerCamera-6fc41b1/app/src/main/java/com/common/util/StringUtils.java:749-751 | the text before the last newline, or the whole string without one |
| StringUtils.Prechomp | Skykai521-StickerCamera-6fc41b1/app/src/main/java/com/common/util/StringUtils.java:833-840 | a suffix; the whole string when the separator does not occur, otherwise the text after its first occurrence |
| StringUtils.ChompPrechompSplit | Skykai521-StickerCamera-6fc41b1/app/src/main/java/com/common/util/StringUtils.java:762-840 | around a separator that occurs once, chomp gives the part before it and prechomp the part after it |
| StringUtils.Reverse | Skykai521-StickerCamera-6fc41b1/app/src/main/java/com/common/util/StringUtils.java:1605-1610 | null for null; otherwise the same length, with the characters in the opposite order |
| StringUtils.ReverseInvolution | Skykai521-StickerCamera-6fc41b1/app/src/main/java/com/common/util/StringUtils.java:1605-1610 | reversing twice gives the input back |
| StringUtils.ReverseArray | Skykai521-StickerCamera-6fc41b1/app/src/main/java/com/common/util/StringUtils.java:1636-1648 | the swaps from both ends leave the array reversed |
| StringUtils.Abbreviate | Skykai521-StickerCamera-6fc41b1/app/src/main/java/com/common/util/StringUtils.java:1674-1697 | a width below 4 (or below 7 once the left edge is past 4) raises IllegalArgumentException; a short string is returned as is; a longer one gives exactly maxWidth characters that start or end with "..." |
| StringUtils.AbbreviateFromStart | Skykai521-StickerCamera-6fc41b1/app/src/main/java/com/common/util/StringUtils.java:1661-1689 | from offset 0 only a width below 4 is refused, and a long string keeps its first maxWidth - 3 characters followed by "..." |
| StringUtils.CountFromStep | Skykai521-StickerCamera-6fc41b1/app/src/main/java/com/common/util/StringUtils.java:1421-1424 | a match found from idx adds one to the count from just past that match |
| StringUtils.ReplaceCountIsCountMatches | Skykai521-StickerCamera-6fc41b1/app/src/main/java/com/common/util/StringUtils.java:665-682 | with max at or below 0 every match is replaced, exactly as many as countMatches counts |
| StringUtils.ReplaceCountAtMostMax | Skykai521-StickerCamera-6fc41b1/app/src/main/java/com/common/util/StringUtils.java:665-682 | with a positive max at most max matches are replaced, and never more than countMatches counts |
| StringUtils.ReplaceLength | Skykai521-StickerCamera-6fc41b1/app/src/main/java/com/common/util/StringUtils.java:665-682 | each replacement changes the length by \|with\| - \|repl\| |
| StringUtils.ReplaceLengthLast | Skykai521-StickerCamera-6fc41b1/app/src/main/java/com/common/util/StringUtils.java:672-680 | with no match left, or at the last replacement max allows, the length changes by at most one replacement |
| StringUtils.ReplaceLengthStep | Skykai521-StickerCamera-6fc41b1/app/src/main/java/com/common/util/StringUtils.java:672-679 | one more replacement adds one more \|with\| - \|repl\| to the length change |
| StringUtils.ReplaceCountUnfolds | Skykai521-StickerCamera-6fc41b1/app/src/main/java/com/common/util/StringUtils.java:672-679 | the number of replacements is 0 with no match, 1 at the last one max allows, and otherwise one plus the count after the match |
| StringUtils.ReplaceBySelf | Skykai521-StickerCamera-6fc41b1/app/src/main/java/com/common/util/StringUtils.java:665-682 | replacing a string by itself leaves the text unchanged |
| StringUtils.SplitAtMatch | Skykai521-StickerCamera-6fc41b1/app/src/main/java/com/common/util/StringUtils.java:672-674 | the text from start is the part before the next match, the match, and what follows it |
| StringUtils.CountFromFits | Skykai521-StickerCamera-6fc41b1/app/src/main/java/com/common/util/StringUtils.java:1419-1425 | the counted matches do not overlap, so count * \|sub\| is at most the length |
| StringUtils.ReplaceStep | Skykai521-StickerCamera-6fc41b1/app/src/main/java/com/common/util/StringUtils.java:672-679 | one round of the replace loop keeps the output and the rest of the result equal to the whole result, or completes it when max runs out |
| StringUtils.StepRest | Skykai521-StickerCamera-6fc41b1/app/src/main/java/com/common/util/StringUtils.java:673 | appending one replaced piece to the buffer keeps the whole result assembled |
| StringUtils.ReplaceDone | Skykai521-StickerCamera-6fc41b1/app/src/main/java/com/common/util/StringUtils.java:672-680 | with no match left, the rest of the text completes the result |
| StringUtils.ReplaceFromNone | Skykai521-StickerCamera-6fc41b1/app/src/main/java/com/common/util/StringUtils.java:672-680 | with no match left, the rest of the text is appended unchanged |
| StringUtils.ReplaceFromLast | Skykai521-StickerCamera-6fc41b1/app/src/main/java/com/common/util/StringUtils.java:673-680 | after the last replacement max allows, the rest of the text is appended unchanged |
| StringUtils.ReplaceFromMore | Skykai521-StickerCamera-6fc41b1/app/src/main/java/com/common/util/StringUtils.java:672-679 | otherwise the text before the match and the replacement come first, and the remaining matches are handled from just past this one |
| StringUtils.Replace | Skykai521-StickerCamera-6fc41b1/app/src/main/java/com/common/util/StringUtils.java:650-682 | a null argument or an empty repl gives the text back unchanged; otherwise the replaced text (see the replace lemmas for its count and length) |
| StringUtils.ReplaceMatches | Skykai521-StickerCamera-6fc41b1/app/src/main/java/com/common/util/StringUtils.java:670-681 | the replace loop produces exactly the text with its leftmost non-overlapping matches replaced, from the left, stopping after max of them |
| StringUtils.CountMatches | Skykai521-StickerCamera-6fc41b1/app/src/main/java/com/common/util/StringUtils.java:1412-1426 | a null sub raises NullPointerException, before the string is looked at; 0 for an empty sub or a null string; otherwise the number of leftmost non-overlapping matches, which fit in the string |
| StringUtils.StrippedStart | Skykai521-StickerCamera-6fc41b1/app/src/main/java/com/common/util/StringUtils.java:1175-1194 | a suffix whose first character is not strippable, and every character dropped is strippable (whitespace for a null set) |
| StringUtils.StrippedEnd | Skykai521-StickerCamera-6fc41b1/app/src/main/java/com/common/util/StringUtils.java:1149-1165 | a prefix whose last character is not strippable, and every character dropped is strippable |
| StringUtils.StripStart | Skykai521-StickerCamera-6fc41b1/app/src/main/java/com/common/util/StringUtils.java:1175-1194 | null for null; otherwise the loop drops exactly the leading strippable characters |
| StringUtils.StripEnd | Skykai521-StickerCamera-6fc41b1/app/src/main/java/com/common/util/StringUtils.java:1149-1165 | null for null; otherwise the loop drops exactly the trailing strippable characters |
| StringUtils.Strip | Skykai521-StickerCamera-6fc41b1/app/src/main/java/com/common/util/StringUtils.java:1095-1110 | stripStart, then stripEnd, with the same set |
| StringUtils.StripIdempotent | Skykai521-StickerCamera-6fc41b1/app/src/main/java/com/common/util/StringUtils.java:1107-1194 | stripping at either end, or at both, a second time changes nothing |
| StringUtils.Repeated | Skykai521-StickerCamera-6fc41b1/app/src/main/java/com/common/util/StringUtils.java:1009-1011 | n copies of the string have n times its length |
| StringUtils.Repeat | Skykai521-StickerCamera-6fc41b1/app/src/main/java/com/common/util/StringUtils.java:1007-1013 | a negative count with a non-empty string raises NegativeArraySizeException; otherwise max(count, 0) copies, one after another |
| StringUtils.PadCountFits | Skykai521-StickerCamera-6fc41b1/app/src/main/java/com/common/util/StringUtils.java:1044-1079 | the truncated count of the int gap (size - \|str\|, wrapping below Integer.MIN_VALUE) over \|delim\| is positive exactly when one copy fits in the gap, and its copies fill the gap without passing it |
| StringUtils.PadCountIntendedFits | Skykai521-StickerCamera-6fc41b1/app/src/main/java/com/common/util/StringUtils.java:1044-1079 | with the exact gap, copies are added exactly when one fits, and the padded length stays within one delimiter of size |
| StringUtils.PadCountWrapsBelowMinInt | Skykai521-StickerCamera-6fc41b1/app/src/main/java/com/common/util/StringUtils.java:1044-1079 | the wrapped and exact counts agree unless size - \|str\| falls below Integer.MIN_VALUE; rightPad("a", Integer.MIN_VALUE, " ") asks for Integer.MAX_VALUE spaces where none are intended |
| StringUtils.RightPad | Skykai521-StickerCamera-6fc41b1/app/src/main/java/com/common/util/StringUtils.java:1043-1049 | a null str or delimiter raises NullPointerException and an empty delimiter divides by zero; otherwise str stays a prefix, the count of whole delimiter copies is appended when positive, and when a copy fits the result is within one delimiter of size |
| StringUtils.LeftPad | Skykai521-StickerCamera-6fc41b1/app/src/main/java/com/common/util/StringUtils.java:1078-1084 | a null str or delimiter raises NullPointerException and an empty delimiter divides by zero; otherwise str stays a suffix, the copies go in front when the count is positive, and when a copy fits the result is within one delimiter of size |
| StringUtils.RightPadSpaces | Skykai521-StickerCamera-6fc41b1/app/src/main/java/com/common/util/StringUtils.java:1025-1027 | a null str raises NullPointerException; otherwise str followed by one space per unit of the int gap, which is max(size, \|str\|) characters unless the gap wraps |
| StringUtils.LeftPadSpaces | Skykai521-StickerCamera-6fc41b1/app/src/main/java/com/common/util/StringUtils.java:1064-1066 | a null str raises NullPointerException; otherwise spaces followed by str, max(size, \|str\|) characters unless the gap wraps |
| StringUtils.RepeatedSpaces | Skykai521-StickerCamera-6fc41b1/app/src/main/java/com/common/util/StringUtils.java:1026-1065 | copies of a single space are all spaces |
| StringUtils.DifferenceAt | Skykai521-StickerCamera-6fc41b1/app/src/main/java/com/common/util/StringUtils.java:1721-1732 | -1 exactly for equal strings; otherwise the strings agree before the index, and there they differ or one of them ends |
| StringUtils.Difference | Skykai521-StickerCamera-6fc41b1/app/src/main/java/com/common/util/StringUtils.java:1708-1714 | "" for equal strings; otherwise the suffix of s2 from the first index where the strings differ |
| StringUtils.EscapedAppend | Skykai521-StickerCamera-6fc41b1/app/src/main/java/com/common/util/StringUtils.java:1958-1968 | escaping distributes over concatenation, one character at a time |
| StringUtils.UnescapeEscape | Skykai521-StickerCamera-6fc41b1/app/src/main/java/com/common/util/StringUtils.java:1945-1971 | when the escape character is itself escaped, escaping can be undone, so it loses no information |
| StringUtils.Escape | Skykai521-StickerCamera-6fc41b1/app/src/main/java/com/common/util/StringUtils.java:1945-1971 | null for a null source; otherwise NullPointerException for a null array of characters to escape; otherwise each character of the array is preceded by the escape character and all others are copied |
| StringUtils.CollapsedLast | Skykai521-StickerCamera-6fc41b1/app/src/main/java/com/common/util/StringUtils.java:1984-1991 | the collapsed text ends in whitespace exactly when the input does |
| StringUtils.CollapsedHasNoDoubleWhitespace | Skykai521-StickerCamera-6fc41b1/app/src/main/java/com/common/util/StringUtils.java:1980-1993 | the result never holds two whitespace characters in a row |
| StringUtils.CollapsedKeepsText | Skykai521-StickerCamera-6fc41b1/app/src/main/java/com/common/util/StringUtils.java:1980-1993 | only whitespace is removed: the non-whitespace characters are those of the input, in order |
| StringUtils.NonWhitespaceAppend | Skykai521-StickerCamera-6fc41b1/app/src/main/java/com/common/util/StringUtils.java:75-84 | taking the non-whitespace characters distributes over concatenation |
| StringUtils.RemoveDuplicateWhitespace | Skykai521-StickerCamera-6fc41b1/app/src/main/java/com/common/util/StringUtils.java:1980-1993 | the loop keeps each character unless it and the character before it are both whitespace |
| StringUtils.UnifiedHasNoCarriageReturn | Skykai521-StickerCamera-6fc41b1/app/src/main/java/com/common/util/StringUtils.java:2016-2047 | unified to "\n", no carriage return is left |
| StringUtils.UnifiedFixpoint | Skykai521-StickerCamera-6fc41b1/app/src/main/java/com/common/util/StringUtils.java:2016-2047 | text without carriage returns is already unified to "\n" |
| StringUtils.UnifiedIdempotent | Skykai521-StickerCamera-6fc41b1/app/src/main/java/com/common/util/StringUtils.java:2016-2047 | unifying to "\n" twice is the same as once |
| StringUtils.UnifiedStep | Skykai521-StickerCamera-6fc41b1/app/src/main/java/com/common/util/StringUtils.java:2032-2044 | "\r\n", a lone "\r" and "\n" each become one separator, and any other character is copied |
| StringUtils.UnifyLineSeparators | Skykai521-StickerCamera-6fc41b1/app/src/main/java/com/common/util/StringUtils.java:2003-2047 | null for null; a null separator means the system one; a separator other than "\n", "\r" and "\r\n" raises IllegalArgumentException; otherwise every line break becomes the separator |
| DilationFilter.Variant | Skykai521-StickerCamera-6fc41b1/Gpu-Image/src/jp/co/cyberagent/android/gpuimage/GPUImageDilationFilter.java:296-326 | radius 0 and 1 pick the one-step variant, 2 and 3 their own, and every other value (negative or above 3) the four-step default |
| DilationFilter.GetVertexShader | Skykai521-StickerCamera-6fc41b1/Gpu-Image/src/jp/co/cyberagent/android/gpuimage/GPUImageDilationFilter.java:296-308 | the vertex shader of the radius's variant |
| DilationFilter.GetFragmentShader | Skykai521-StickerCamera-6fc41b1/Gpu-Image/src/jp/co/cyberagent/android/gpuimage/GPUImageDilationFilter.java:314-326 | the fragment shader of the radius's variant |
| DilationFilter.NewDilationFilter | Skykai521-StickerCamera-6fc41b1/Gpu-Image/src/jp/co/cyberagent/android/gpuimage/GPUImageDilationFilter.java:278-289 | both passes get the identical (vertex, fragment) pair, of the radius's variant |
| DilationFilter.NewDefaultDilationFilter | Skykai521-StickerCamera-6fc41b1/Gpu-Image/src/jp/co/cyberagent/android/gpuimage/GPUImageDilationFilter.java:267-269 | the default filter uses the one-step shaders |
| DilationFilter.DefaultIsRadiusOne | Skykai521-StickerCamera-6fc41b1/Gpu-Image/src/jp/co/cyberagent/android/gpuimage/GPUImageDilationFilter.java:267-326 | the default filter equals the radius 1 (and radius 0) filter and differs from the radius 2 one |
| DilationFilter.SelectorsAgree | Skykai521-StickerCamera-6fc41b1/Gpu-Image/src/jp/co/cyberagent/android/gpuimage/GPUImageDilationFilter.java:278-326 | the two selectors pick the same variant, and two radii give the same filter exactly when they pick the same variant |
| DilationFilter.VertexTapsExact | Skykai521-StickerCamera-6fc41b1/Gpu-Image/src/jp/co/cyberagent/android/gpuimage/GPUImageDilationFilter.java:44-139 | variant k's vertex shader provides exactly the offsets -k..k times the texel offset, each once: 2k + 1 taps starting at the centre |
| DilationFilter.FragmentTapsSameAsVertex | Skykai521-StickerCamera-6fc41b1/Gpu-Image/src/jp/co/cyberagent/android/gpuimage/GPUImageDilationFilter.java:154-258 | the fragment shader reads exactly the taps the vertex shader provides, centre first |
| DilationFilter.Max | Skykai521-StickerCamera-6fc41b1/Gpu-Image/src/jp/co/cyberagent/android/gpuimage/GPUImageDilationFilter.java:158-258 | GLSL max: at least both arguments and equal to one of them |
| DilationFilter.MaxChain | Skykai521-StickerCamera-6fc41b1/Gpu-Image/src/jp/co/cyberagent/android/gpuimage/GPUImageDilationFilter.java:158-258 | the running max is at least every sample and is one of them |
| DilationFilter.Samples | Skykai521-StickerCamera-6fc41b1/Gpu-Image/src/jp/co/cyberagent/android/gpuimage/GPUImageDilationFilter.java:154-249 | one red-channel sample per tap, in fragment order |
| DilationFilter.FragmentOutputIsMaxOfTaps | Skykai521-StickerCamera-6fc41b1/Gpu-Image/src/jp/co/cyberagent/android/gpuimage/GPUImageDilationFilter.java:154-260 | the output is an opaque grey whose value is the maximum red channel over the taps -k..k, so at least the centre |
| TextureSampling3x3.FloatDiv | Skykai521-StickerCamera-6fc41b1/Gpu-Image/src/jp/co/cyberagent/android/gpuimage/GPUImage3x3TextureSamplingFilter.java:152-153 | float division by a non-zero size gives the exact quotient; by 0 it gives an infinity with the dividend's sign, or NaN for 0 / 0 |
| TextureSampling3x3.TextureSampling3x3Filter.constructor | Skykai521-StickerCamera-6fc41b1/Gpu-Image/src/jp/co/cyberagent/android/gpuimage/GPUImage3x3TextureSamplingFilter.java:79-82 | not overridden, both steps 0, line size 1.0, nothing uploaded |
| TextureSampling3x3.TextureSampling3x3Filter.UpdateTexelValues | Skykai521-StickerCamera-6fc41b1/Gpu-Image/src/jp/co/cyberagent/android/gpuimage/GPUImage3x3TextureSamplingFilter.java:160-163 | both current steps are uploaded, the width first |
| TextureSampling3x3.TextureSampling3x3Filter.OnInit | Skykai521-StickerCamera-6fc41b1/Gpu-Image/src/jp/co/cyberagent/android/gpuimage/GPUImage3x3TextureSamplingFilter.java:103-110 | the steps are uploaded only when the width step is not 0 |
| TextureSampling3x3.TextureSampling3x3Filter.SetLineSize | Skykai521-StickerCamera-6fc41b1/Gpu-Image/src/jp/co/cyberagent/android/gpuimage/GPUImage3x3TextureSamplingFilter.java:150-155 | the line size is stored, each step becomes size / output size, and both are uploaded |
| TextureSampling3x3.TextureSampling3x3Filter.OnOutputSizeChanged | Skykai521-StickerCamera-6fc41b1/Gpu-Image/src/jp/co/cyberagent/android/gpuimage/GPUImage3x3TextureSamplingFilter.java:118-124 | the size is recorded; while not overridden the steps are recomputed from the stored line size, otherwise steps and uploads stay as they were; the flag is never cleared |
| TextureSampling3x3.TextureSampling3x3Filter.SetTexelWidth | Skykai521-StickerCamera-6fc41b1/Gpu-Image/src/jp/co/cyberagent/android/gpuimage/GPUImage3x3TextureSamplingFilter.java:130-134 | the flag is set, the width step stored and uploaded |
| TextureSampling3x3.TextureSampling3x3Filter.SetTexelHeight | Skykai521-StickerCamera-6fc41b1/Gpu-Image/src/jp/co/cyberagent/android/gpuimage/GPUImage3x3TextureSamplingFilter.java:140-144 | the flag is set, the height step stored and uploaded |
| TextureSampling3x3.OverrideSurvivesResize | Skykai521-StickerCamera-6fc41b1/Gpu-Image/src/jp/co/cyberagent/android/gpuimage/GPUImage3x3TextureSamplingFilter.java:117-144 | after an explicit step, a resize keeps both steps whatever the new size |
| TextureSampling3x3.FreshFilterSteps | Skykai521-StickerCamera-6fc41b1/Gpu-Image/src/jp/co/cyberagent/android/gpuimage/GPUImage3x3TextureSamplingFilter.java:79-155 | a fresh filter sized to a non-empty output gets steps whose product with the size is the default line size 1.0 |
| PixelBuffers.CellInBounds | Skykai521-StickerCamera-6fc41b1/Gpu-Image/src/jp/co/cyberagent/android/gpuimage/PixelBuffer.java:233-236 | every (row, column) of a width x height bitmap indexes inside the array |
| PixelBuffers.MirrorRows | Skykai521-StickerCamera-6fc41b1/Gpu-Image/src/jp/co/cyberagent/android/gpuimage/PixelBuffer.java:233-237 | the mirrored bitmap has as many pixels as the read-back |
| PixelBuffers.MirrorRowsAt | Skykai521-StickerCamera-6fc41b1/Gpu-Image/src/jp/co/cyberagent/android/gpuimage/PixelBuffer.java:235 | read-back pixel (i, j) lands at out[(h - 1 - i) * w + j] |
| PixelBuffers.MirrorAppendRow | Skykai521-StickerCamera-6fc41b1/Gpu-Image/src/jp/co/cyberagent/android/gpuimage/PixelBuffer.java:233-237 | a read-back with one more row at the bottom mirrors to that row on top |
| PixelBuffers.MirrorRowsInvolution | Skykai521-StickerCamera-6fc41b1/Gpu-Image/src/jp/co/cyberagent/android/gpuimage/PixelBuffer.java:233-237 | mirroring twice gives the read-back back |
| PixelBuffers.MirrorRowsPermutes | Skykai521-StickerCamera-6fc41b1/Gpu-Image/src/jp/co/cyberagent/android/gpuimage/PixelBuffer.java:233-237 | the mirror only moves pixels: the bitmap is a permutation of the read-back |
| PixelBuffers.MirrorReadback | Skykai521-StickerCamera-6fc41b1/Gpu-Image/src/jp/co/cyberagent/android/gpuimage/PixelBuffer.java:226-237 | the nested loop fills a fresh w * h array with exactly the mirrored read-back |
| PixelBuffers.MirrorRow | Skykai521-StickerCamera-6fc41b1/Gpu-Image/src/jp/co/cyberagent/android/gpuimage/PixelBuffer.java:234-236 | the inner loop writes read-back row i into bitmap row h - i - 1 and touches nothing else |
| PixelBuffers.RowBase | Skykai521-StickerCamera-6fc41b1/Gpu-Image/src/jp/co/cyberagent/android/gpuimage/PixelBuffer.java:235 | the arithmetic of the bitmap row offsets |
| PixelBuffers.PixelBuffer.constructor | Skykai521-StickerCamera-6fc41b1/Gpu-Image/src/jp/co/cyberagent/android/gpuimage/PixelBuffer.java:70-106 | the size is stored, the creating thread is recorded as owner, and no renderer is set |
| PixelBuffers.PixelBuffer.SetRenderer | Skykai521-StickerCamera-6fc41b1/Gpu-Image/src/jp/co/cyberagent/android/gpuimage/PixelBuffer.java:112-126 | the renderer is always stored; only on the owner thread is it told of the surface's creation and size (a null renderer then fails) |
| PixelBuffers.CreateBitmap | Skykai521-StickerCamera-6fc41b1/Gpu-Image/src/jp/co/cyberagent/android/gpuimage/PixelBuffer.java:240-241 | a bitmap of exactly the given size and pixels; IllegalArgumentException "width and height must be > 0" exactly when a side is not positive |
| PixelBuffers.PixelBuffer.GetBitmap | Skykai521-StickerCamera-6fc41b1/Gpu-Image/src/jp/co/cyberagent/android/gpuimage/PixelBuffer.java:132-152 | null, with no renderer or EGL calls, without a renderer or off the owner thread; otherwise exactly two draws, then IllegalArgumentException with the bitmap unchanged when the buffer has a side of 0, and the mirrored read-back otherwise |
| PixelBuffers.PixelBuffer.ConvertToBitmap | Skykai521-StickerCamera-6fc41b1/Gpu-Image/src/jp/co/cyberagent/android/gpuimage/PixelBuffer.java:225-242 | IllegalArgumentException, with the old bitmap kept, when the buffer has a side of 0; otherwise the bitmap becomes the mirrored read-back, at the buffer's size |
| PixelBuffers.PixelBuffer.Destroy | Skykai521-StickerCamera-6fc41b1/Gpu-Image/src/jp/co/cyberagent/android/gpuimage/PixelBuffer.java:157-166 | two draws, release of the binding, surface and context destroyed and the display terminated, in that order; without a renderer the first draw fails |
| GPUImageViews.SurfaceMeasureSpecs | Skykai521-StickerCamera-6fc41b1/Gpu-Image/src/jp/co/cyberagent/android/gpuimage/GPUImageView.java:422-429 | while a size is forced both specs become EXACTLY that size; otherwise they pass through unchanged |
| GPUImageViews.DefaultSize | Skykai521-StickerCamera-6fc41b1/Gpu-Image/src/jp/co/cyberagent/android/gpuimage/GPUImageView.java:424-427 | the platform's default measurement: the spec's size unless the mode is UNSPECIFIED |
| GPUImageViews.ForcedSizeIsMeasured | Skykai521-StickerCamera-6fc41b1/Gpu-Image/src/jp/co/cyberagent/android/gpuimage/GPUImageView.java:422-429 | a forced size is what the surface measures, whatever the parent asked for |
| GPUImageViews.NewDefaultSaveTask | Skykai521-StickerCamera-6fc41b1/Gpu-Image/src/jp/co/cyberagent/android/gpuimage/GPUImageView.java:472-475 | the short constructor asks for width and height 0 |
| GPUImageViews.SaveTaskCapture | Skykai521-StickerCamera-6fc41b1/Gpu-Image/src/jp/co/cyberagent/android/gpuimage/GPUImageView.java:488-490 | a non-zero width captures at the task's size, a zero width captures as displayed |
| GPUImageViews.DefaultSaveTaskCapturesAsDisplayed | Skykai521-StickerCamera-6fc41b1/Gpu-Image/src/jp/co/cyberagent/android/gpuimage/GPUImageView.java:472-490 | the default task captures as displayed, and a non-zero width with zero height still captures at that size |
| GPUImageViews.NewGPUImageView | Skykai521-StickerCamera-6fc41b1/Gpu-Image/src/jp/co/cyberagent/android/gpuimage/GPUImageView.java:58-87 | IllegalStateException exactly when the device lacks OpenGL ES 2.0, thrown by the GPUImage that `init` makes; otherwise a fresh view attached to a fresh GPUImage |
| GPUImageViews.GPUImageView.constructor | Skykai521-StickerCamera-6fc41b1/Gpu-Image/src/jp/co/cyberagent/android/gpuimage/GPUImageView.java:50-87 | `init`: the surface view is added as the only recorded call; the view holds a fresh GPUImage with the default filter, CENTER_CROP and no image, which has the surface attached and one render requested; no ratio, no forced size, no surface size |
| GPUImageViews.GPUImageView.SetRatio | Skykai521-StickerCamera-6fc41b1/Gpu-Image/src/jp/co/cyberagent/android/gpuimage/GPUImageView.java:137-141 | the ratio is stored, one surface layout is requested and the current image is deleted; nothing else of the image changes |
| GPUImageViews.GPUImageView.MeasureSurface | Skykai521-StickerCamera-6fc41b1/Gpu-Image/src/jp/co/cyberagent/android/gpuimage/GPUImageView.java:422-429 | the surface measures the (possibly forced) specs |
| GPUImageViews.GPUImageView.Capture | Skykai521-StickerCamera-6fc41b1/Gpu-Image/src/jp/co/cyberagent/android/gpuimage/GPUImageView.java:347-375 | one render request; then IllegalArgumentException when a measured side is 0, otherwise the frame read back at the surface's measured size, with its rows mirrored to top-down order |
| GPUImageViews.GPUImageView.CaptureAtSize | Skykai521-StickerCamera-6fc41b1/Gpu-Image/src/jp/co/cyberagent/android/gpuimage/GPUImageView.java:276-340 | IllegalStateException on the UI thread with nothing changed; otherwise the forced size is set, the loading view added, the surface laid out and measured at that size and a render requested, then `capture()` runs; a side of 0 then throws IllegalArgumentException and leaves the forced size set and the loading view shown; any other size is captured, the forced size reset to null, the surface laid out and rendered again and the loading view removed |
| GPUImageCore.CameraRotation | Skykai521-StickerCamera-6fc41b1/Gpu-Image/src/jp/co/cyberagent/android/gpuimage/GPUImage.java:159-171 | exactly 90, 180 and 270 degrees select ROTATION_90, _180 and _270; every other value stays NORMAL |
| GPUImageCore.CameraRotationAgreesWithFromInt | Skykai521-StickerCamera-6fc41b1/Gpu-Image/src/jp/co/cyberagent/android/gpuimage/GPUImage.java:159-171 | on the degrees that Rotation.fromInt accepts, the camera switch picks the same rotation, and it is stable under asInt |
| GPUImageCore.GPUImage.constructor | Skykai521-StickerCamera-6fc41b1/Gpu-Image/src/jp/co/cyberagent/android/gpuimage/GPUImage.java:82-85 | once OpenGL ES 2.0 is supported: a default filter, CENTER_CROP, no current bitmap and no surface view |
| GPUImageCore.NewGPUImage | Skykai521-StickerCamera-6fc41b1/Gpu-Image/src/jp/co/cyberagent/android/gpuimage/GPUImage.java:74-85 | IllegalStateException exactly when the required GL ES version is below 2.0 (0x20000); otherwise a fresh GPUImage with the default filter, CENTER_CROP, no bitmap and no surface view |
| GPUImageCore.GPUImage.SetGLSurfaceView | Skykai521-StickerCamera-6fc41b1/Gpu-Image/src/jp/co/cyberagent/android/gpuimage/GPUImage.java:108-116 | the view is stored and asked for one render; a null view is stored too and raises NullPointerException |
| GPUImageCore.GPUImage.RequestRender | Skykai521-StickerCamera-6fc41b1/Gpu-Image/src/jp/co/cyberagent/android/gpuimage/GPUImage.java:122-126 | a render is requested exactly when a surface view is attached |
| GPUImageCore.GPUImage.SetUpCamera | Skykai521-StickerCamera-6fc41b1/Gpu-Image/src/jp/co/cyberagent/android/gpuimage/GPUImage.java:149-172 | without a surface view the call fails with NullPointerException and the renderer gets nothing; with one, the renderer receives the rotation for the degrees together with both flip flags |
| GPUImageCore.GPUImage.SetFilter | Skykai521-StickerCamera-6fc41b1/Gpu-Image/src/jp/co/cyberagent/android/gpuimage/GPUImage.java:194-198 | the filter is stored and passed to the renderer, then a render is requested |
| GPUImageCore.GPUImage.SetImage | Skykai521-StickerCamera-6fc41b1/Gpu-Image/src/jp/co/cyberagent/android/gpuimage/GPUImage.java:206-210 | the bitmap becomes the current one and goes to the renderer, then a render is requested |
| GPUImageCore.GPUImage.SetScaleType | Skykai521-StickerCamera-6fc41b1/Gpu-Image/src/jp/co/cyberagent/android/gpuimage/GPUImage.java:220-227 | the scale type is stored and passed on, the renderer's image is deleted and the current bitmap forgotten |
| GPUImageCore.GPUImage.DeleteImage | Skykai521-StickerCamera-6fc41b1/Gpu-Image/src/jp/co/cyberagent/android/gpuimage/GPUImage.java:242-246 | the renderer's image is deleted and the current bitmap forgotten |
| GPUImageCore.GPUImage.OutputWidth | Skykai521-StickerCamera-6fc41b1/Gpu-Image/src/jp/co/cyberagent/android/gpuimage/GPUImage.java:433-446 | the renderer's frame width when it is set, else the current bitmap's width, else the display's |
| GPUImageCore.GPUImage.OutputHeight | Skykai521-StickerCamera-6fc41b1/Gpu-Image/src/jp/co/cyberagent/android/gpuimage/GPUImage.java:450-463 | the same order of priority for the height |
| GPUImageCore.CheckSize | Skykai521-StickerCamera-6fc41b1/Gpu-Image/src/jp/co/cyberagent/android/gpuimage/GPUImage.java:821-827 | CENTER_CROP keeps shrinking only while both sides are too big, CENTER_INSIDE while either is |
| GPUImageCore.SampleSize | Skykai521-StickerCamera-6fc41b1/Gpu-Image/src/jp/co/cyberagent/android/gpuimage/GPUImage.java:735-748 | the sample size is at least 1; it is 1 when the image already fits, and otherwise every scale up to it is still too big while the next one is not |
| GPUImageCore.FailedDecodeIsNotTooBig | Skykai521-StickerCamera-6fc41b1/Gpu-Image/src/jp/co/cyberagent/android/gpuimage/GPUImage.java:735-748 | the -1 by -1 size of a failed decode is never too big at scale 1, so the sample size is 1 |
| GPUImageCore.Round | Skykai521-StickerCamera-6fc41b1/Gpu-Image/src/jp/co/cyberagent/android/gpuimage/GPUImage.java:818 | Math.round gives an integer within one half of its argument |
| GPUImageCore.RoundKeepsBound | Skykai521-StickerCamera-6fc41b1/Gpu-Image/src/jp/co/cyberagent/android/gpuimage/GPUImage.java:818 | rounding never moves a value across an integer bound it is on one side of |
| GPUImageCore.ScaleSizeExact | Skykai521-StickerCamera-6fc41b1/Gpu-Image/src/jp/co/cyberagent/android/gpuimage/GPUImage.java:801-819 | before rounding, the new size keeps the image's aspect ratio, one side equals the output side, and CENTER_CROP covers the output while CENTER_INSIDE fits inside it |
| GPUImageCore.GetScaleSize | Skykai521-StickerCamera-6fc41b1/Gpu-Image/src/jp/co/cyberagent/android/gpuimage/GPUImage.java:801-819 | after rounding, one side still equals the output side and CENTER_CROP still covers the output while CENTER_INSIDE still fits inside it |
| GPUImageCore.CropWindow | Skykai521-StickerCamera-6fc41b1/Gpu-Image/src/jp/co/cyberagent/android/gpuimage/GPUImage.java:779-789 | the crop has exactly the output size, lies inside the scaled bitmap, and the left and top margins are the overshoot halved, the other margin being equal or one more |
| GPUImageCore.ScaledWindow | Skykai521-StickerCamera-6fc41b1/Gpu-Image/src/jp/co/cyberagent/android/gpuimage/GPUImage.java:767-792 | createScaledBitmap raises IllegalArgumentException exactly when a rounded side is not positive, which never happens under CENTER_CROP; otherwise CENTER_CROP yields exactly the output size inside the scaled bitmap, and CENTER_INSIDE yields the whole scaled bitmap, with positive sides, no bigger than the output and matching it on one side |
| GPUImageCore.ScaledWindowFailsIff | Skykai521-StickerCamera-6fc41b1/Gpu-Image/src/jp/co/cyberagent/android/gpuimage/GPUImage.java:767-819 | the scaling fails exactly under CENTER_INSIDE, when the side that follows the aspect ratio is below one half before Math.round |
| GPUImageCore.ThinBitmapFails | Skykai521-StickerCamera-6fc41b1/Gpu-Image/src/jp/co/cyberagent/android/gpuimage/GPUImage.java:767-819 | a 1000 by 1 bitmap fitted inside a 100 by 100 output gets the size (100, 0), and createScaledBitmap throws |
| GPUImageCore.FilterRounds | Skykai521-StickerCamera-6fc41b1/Gpu-Image/src/jp/co/cyberagent/android/gpuimage/GPUImage.java:370-374 | three events per filter from the given index on |
| GPUImageCore.FilterRoundAt | Skykai521-StickerCamera-6fc41b1/Gpu-Image/src/jp/co/cyberagent/android/gpuimage/GPUImage.java:370-374 | the k-th round sets the k-th filter, hands the listener the k-th read-back and destroys the k-th filter, so the filters run one at a time in list order |
| GPUImageCore.BitmapForMultipleFilters | Skykai521-StickerCamera-6fc41b1/Gpu-Image/src/jp/co/cyberagent/android/gpuimage/GPUImage.java:360-377 | no filters means no effect; otherwise a renderer with the first filter is given the bitmap without recycling, every filter's round follows in list order, then the image is deleted and the buffer destroyed |
| FlowLayouts.Visible | Skykai521-StickerCamera-6fc41b1/app/src/main/java/com/customview/FlowLayout.java:289-295 | only children that are not GONE take part, in their original order |
| FlowLayouts.LinesWellFormed | Skykai521-StickerCamera-6fc41b1/app/src/main/java/com/customview/FlowLayout.java:289-337 | each recorded line's width and height are the sum of its children's outer widths and the largest outer height; every child after a line's first still fitted the layout width when it was added, so a line of two or more children fits; only the first line can be empty |
| FlowLayouts.LinesBreakOnlyWhenFull | Skykai521-StickerCamera-6fc41b1/app/src/main/java/com/customview/FlowLayout.java:289-337 | every line after the first begins with a child that did not fit after the line before it, so a line is broken only when lineWidth + childWidth > width |
| FlowLayouts.LinesKeepChildren | Skykai521-StickerCamera-6fc41b1/app/src/main/java/com/customview/FlowLayout.java:289-337 | the recorded lines, one after the other, hold exactly the visible children, in order |
| FlowLayouts.FirstLineEmpty | Skykai521-StickerCamera-6fc41b1/app/src/main/java/com/customview/FlowLayout.java:310-320 | the first line is recorded empty exactly when no child is visible or the first visible child alone is wider than the layout |
| FlowLayouts.CompleteGravityFills | Skykai521-StickerCamera-6fc41b1/app/src/main/java/com/customview/FlowLayout.java:477-496 | a completed gravity has a horizontal and a vertical part; a part that was present is kept, a missing horizontal part becomes START (LEFT before ICS) and a missing vertical part TOP |
| FlowLayouts.CompleteGravityIdempotent | Skykai521-StickerCamera-6fc41b1/app/src/main/java/com/customview/FlowLayout.java:477-496 | completing a gravity twice is completing it once |
| FlowLayouts.OffsetAligns | Skykai521-StickerCamera-6fc41b1/app/src/main/java/com/customview/FlowLayout.java:271-353 | the start share is 0, the end share is all the spare room, and the middle share is half of it to within the truncation |
| FlowLayouts.HorizontalOffsetAligns | Skykai521-StickerCamera-6fc41b1/app/src/main/java/com/customview/FlowLayout.java:271-313 | RIGHT puts a line against the right edge, CENTER_HORIZONTAL in the middle to within one pixel, anything else at the left |
| FlowLayouts.VerticalOffsetAligns | Skykai521-StickerCamera-6fc41b1/app/src/main/java/com/customview/FlowLayout.java:339-353 | BOTTOM puts the last line against the bottom, CENTER_VERTICAL the block of lines in the middle to within one pixel, anything else leaves it at the top padding |
| FlowLayouts.ChildOffsetAligns | Skykai521-StickerCamera-6fc41b1/app/src/main/java/com/customview/FlowLayout.java:412-429 | a child with gravity BOTTOM touches the bottom of its line, CENTER_VERTICAL or CENTER is centred to within one pixel, any other gravity stays at the top |
| FlowLayouts.LineFrameAt | Skykai521-StickerCamera-6fc41b1/app/src/main/java/com/customview/FlowLayout.java:373-442 | child j of a line is laid out after the outer widths of the children before it, at its measured width and height |
| FlowLayouts.ChildSpecs | Skykai521-StickerCamera-6fc41b1/app/src/main/java/com/customview/FlowLayout.java:157-187 | MATCH_PARENT widths are exact at the content width less the margins, fixed sizes exact, others bounded by the content size; an unset height is unconstrained exactly when the layout's own height is |
| FlowLayouts.MeasuredWidthIsWidestLine | Skykai521-StickerCamera-6fc41b1/app/src/main/java/com/customview/FlowLayout.java:118-225 | the width onMeasure finds is the width of the widest line onLayout records for the same width, and 0 for no line |
| FlowLayouts.MeasuredHeightIsLineSum | Skykai521-StickerCamera-6fc41b1/app/src/main/java/com/customview/FlowLayout.java:118-225 | with non-negative child heights, the height onMeasure adds up is the padding plus the heights of the lines onLayout records for the same width |
| FlowLayouts.FramesPlaceVisibleChildren | Skykai521-StickerCamera-6fc41b1/app/src/main/java/com/customview/FlowLayout.java:362-445 | laying out the recorded lines places every visible child exactly once, in order |
| FlowLayouts.ArrangeLaysOutVisibleChildren | Skykai521-StickerCamera-6fc41b1/app/src/main/java/com/customview/FlowLayout.java:250-447 | onLayout lays out every visible child exactly once, in the order of the children, and no GONE child |
| FlowLayouts.BrokenIsLines | Skykai521-StickerCamera-6fc41b1/app/src/main/java/com/customview/FlowLayout.java:256-337 | the lists the first loop fills are the children, heights and left edges of the recorded lines, and linesSum is the top padding plus their heights |
| FlowLayouts.ArrangeFromBroken | Skykai521-StickerCamera-6fc41b1/app/src/main/java/com/customview/FlowLayout.java:337-445 | the recorded lists and linesSum determine every child.layout call |
| FlowLayouts.FlowLayout.constructor | Skykai521-StickerCamera-6fc41b1/app/src/main/java/com/customview/FlowLayout.java:50-92 | the default gravity, replaced through setGravity by a positive gravity attribute that differs from it, which also requests one layout; empty line lists |
| FlowLayouts.FlowLayout.SetGravity | Skykai521-StickerCamera-6fc41b1/app/src/main/java/com/customview/FlowLayout.java:477-496 | a different value is completed and stored and a layout is requested; the same value changes nothing; the children and line lists are untouched |
| FlowLayouts.FlowLayout.OnMeasure | Skykai521-StickerCamera-6fc41b1/app/src/main/java/com/customview/FlowLayout.java:101-240 | the measured width is the content width when exact, else the widest line plus paddings; the height is the spec's when exact, else the padding plus the line heights; every visible child gets its specs |
| FlowLayouts.FlowLayout.OnLayout | Skykai521-StickerCamera-6fc41b1/app/src/main/java/com/customview/FlowLayout.java:250-447 | the line lists and the layout calls become the arrangement of the children for the view's size and gravity; children and gravity are unchanged |
| FlowLayouts.MeasureView | Skykai521-StickerCamera-6fc41b1/app/src/main/java/com/customview/FlowLayout.java:101-240 | the measurement for the given children and paddings, agreeing with the lines onLayout records |
| FlowLayouts.MeasureChildren | Skykai521-StickerCamera-6fc41b1/app/src/main/java/com/customview/FlowLayout.java:125-227 | the loop's totals and the specs handed to each visible child |
| FlowLayouts.ArrangeChildren | Skykai521-StickerCamera-6fc41b1/app/src/main/java/com/customview/FlowLayout.java:250-447 | the arrangement of the children: recorded lines, left edges from the horizontal gravity, every line moved by the vertical gravity's share |
| FlowLayouts.BreakLines | Skykai521-StickerCamera-6fc41b1/app/src/main/java/com/customview/FlowLayout.java:256-337 | the lines, heights, left edges and linesSum of the first loop and the last line |
| FlowLayouts.LayOutLines | Skykai521-StickerCamera-6fc41b1/app/src/main/java/com/customview/FlowLayout.java:355-445 | the child.layout calls of all lines, each line below the one before |
| FlowLayouts.LayOutLine | Skykai521-StickerCamera-6fc41b1/app/src/main/java/com/customview/FlowLayout.java:368-442 | the child.layout calls of one line, from its left edge, GONE children skipped |
| HighlightViews.HitFlagsAreDistinctBits | Skykai521-StickerCamera-6fc41b1/app/src/main/java/com/customview/MyHighlightView.java:48-64 | every hit flag is one bit, no two flags share a bit, GROW is disjoint from NONE, ROTATE and MOVE, and the only single bits inside GROW are the four edges |
| HighlightViews.WithSelected | Skykai521-StickerCamera-6fc41b1/app/src/main/java/com/customview/MyHighlightView.java:718-730 | after setSelected the selected bit is what was asked, the focused bit is unchanged, and nothing changes when the selection already matched |
| HighlightViews.WithFocused | Skykai521-StickerCamera-6fc41b1/app/src/main/java/com/customview/MyHighlightView.java:733-753 | after setFocused the focused bit is what was asked, the selected bit is unchanged, and nothing changes when the focus already matched |
| HighlightViews.SelectingAndFocusingCommute | Skykai521-StickerCamera-6fc41b1/app/src/main/java/com/customview/MyHighlightView.java:718-753 | selecting and focusing act on different bits, so their order does not matter |
| HighlightViews.SelectionRoundTrip | Skykai521-StickerCamera-6fc41b1/app/src/main/java/com/customview/MyHighlightView.java:718-730 | selecting and then restoring the previous selection gives back the state exactly |
| HighlightViews.FocusRoundTrip | Skykai521-StickerCamera-6fc41b1/app/src/main/java/com/customview/MyHighlightView.java:733-753 | focusing and then restoring the previous focus gives back the state exactly |
| HighlightViews.InitialStateIsIdle | Skykai521-StickerCamera-6fc41b1/app/src/main/java/com/customview/MyHighlightView.java:40-74 | the initial state is neither selected, focused nor pressed, whatever the mode |
| HighlightViews.FocusEdits | Skykai521-StickerCamera-6fc41b1/app/src/main/java/com/customview/MyHighlightView.java:733-749 | editable content begins editing exactly when focus is gained, ends it exactly when focus is lost, and hears nothing otherwise |
| HighlightViews.DrawableState | Skykai521-StickerCamera-6fc41b1/app/src/main/java/com/customview/MyHighlightView.java:690-712 | the background is pressed exactly when the view is pressed, focused exactly when selected, idle and focused, selected when selected otherwise, and gets the empty set exactly when not selected |
| HighlightViews.Offset | Skykai521-StickerCamera-6fc41b1/app/src/main/java/com/customview/MyHighlightView.java:610 | RectF.offset moves the rectangle and keeps its size |
| HighlightViews.OffsetUndone | Skykai521-StickerCamera-6fc41b1/app/src/main/java/com/customview/MyHighlightView.java:605-612 | moving back by the opposite amounts undoes a move |
| HighlightViews.Grown | Skykai521-StickerCamera-6fc41b1/app/src/main/java/com/customview/MyHighlightView.java:495-510 | the grown rectangle is 2dx wider about the same horizontal centre and 2dy taller, about the centre, below a fixed top or above a fixed bottom as the vertical align mode says |
| HighlightViews.GrownUndone | Skykai521-StickerCamera-6fc41b1/app/src/main/java/com/customview/MyHighlightView.java:495-510 | growing by the opposite amounts gives the rectangle back |
| HighlightViews.MouseMoveGesture | Skykai521-StickerCamera-6fc41b1/app/src/main/java/com/customview/MyHighlightView.java:521-583 | NONE is ignored, MOVE moves, ROTATE rotates; any other value resizes, using the horizontal drag exactly when a side edge was hit and the vertical drag exactly when the top or bottom was |
| HighlightViews.ResizeAmount | Skykai521-StickerCamera-6fc41b1/app/src/main/java/com/customview/MyHighlightView.java:557-580 | the larger of the two scaled drags in magnitude wins, negated when it comes from the left or top edge |
| HighlightViews.SingleEdgeGrowsOutwards | Skykai521-StickerCamera-6fc41b1/app/src/main/java/com/customview/MyHighlightView.java:557-580 | pulling a single grabbed edge outwards always grows the frame |
| HighlightViews.HighlightView.constructor | Skykai521-StickerCamera-6fc41b1/app/src/main/java/com/customview/MyHighlightView.java:157-196 | state NONE, moving, rotating and scaling enabled, vertical align mode Center |
| HighlightViews.HighlightView.UpdateDrawableState | Skykai521-StickerCamera-6fc41b1/app/src/main/java/com/customview/MyHighlightView.java:690-712 | the background, when there is one, gets the state set for the current state and mode; nothing else changes |
| HighlightViews.HighlightView.SetMode | Skykai521-StickerCamera-6fc41b1/app/src/main/java/com/customview/MyHighlightView.java:678-688 | the mode is stored and the background updated only when it changed; afterwards the view is pressed exactly when selected and the mode is not NONE |
| HighlightViews.HighlightView.SetSelected | Skykai521-StickerCamera-6fc41b1/app/src/main/java/com/customview/MyHighlightView.java:718-726 | the view is selected exactly as asked, its focus kept, the background updated only on a change |
| HighlightViews.HighlightView.SetFocused | Skykai521-StickerCamera-6fc41b1/app/src/main/java/com/customview/MyHighlightView.java:733-749 | the view is focused exactly as asked, its selection kept; a change begins or ends editing on editable content and updates the background |
| HighlightViews.HighlightView.NotifyContent | Skykai521-StickerCamera-6fc41b1/app/src/main/java/com/customview/MyHighlightView.java:739-745 | editable content is told to begin editing on focus and end it on blur |
| HighlightViews.HighlightView.SetMoveable | Skykai521-StickerCamera-6fc41b1/app/src/main/java/com/customview/MyHighlightView.java:132-135 | moving is enabled exactly as asked; nothing else changes |
| HighlightViews.HighlightView.SetScaleable | Skykai521-StickerCamera-6fc41b1/app/src/main/java/com/customview/MyHighlightView.java:137-145 | scaling is enabled exactly as asked; nothing else of the model changes |
| HighlightViews.HighlightView.SetAlignModeV | Skykai521-StickerCamera-6fc41b1/app/src/main/java/com/customview/MyHighlightView.java:198-200 | the vertical align mode is stored; nothing else changes |
| HighlightViews.HighlightView.Invalidate | Skykai521-StickerCamera-6fc41b1/app/src/main/java/com/customview/MyHighlightView.java:592-603 | the screen layout is recomputed once; the crop rectangle is untouched |
| HighlightViews.HighlightView.Setup | Skykai521-StickerCamera-6fc41b1/app/src/main/java/com/customview/MyHighlightView.java:756-768 | the crop rectangle is installed, the mode reset to NONE and the layout recomputed |
| HighlightViews.HighlightView.MoveBy | Skykai521-StickerCamera-6fc41b1/app/src/main/java/com/customview/MyHighlightView.java:605-612 | when moving is enabled the crop rectangle moves by the drag and the layout is recomputed; otherwise nothing changes |
| HighlightViews.HighlightView.GrowBy | Skykai521-StickerCamera-6fc41b1/app/src/main/java/com/customview/MyHighlightView.java:495-519 | when scaling is enabled the crop rectangle becomes its grown version unless the minimum size is checked and the content refuses it; otherwise nothing changes |
| JavaLang.JavaDivTruncates | Skykai521-StickerCamera-6fc41b1/app/src/main/java/com/common/util/StringUtils.java:1044-1079 | Java's integer quotient agrees with Euclidean division on non-negative operands, has the sign of the operands' product, and leaves a remainder smaller than the divisor in magnitude |
| JavaLang.Wrap | Skykai521-StickerCamera-6fc41b1/app/src/main/java/com/common/util/StringUtils.java:1044-1079 | the wrapped value is an int congruent to the exact one modulo 2^32, and an int is left unchanged |
| JavaLang.IntAdd | Skykai521-StickerCamera-6fc41b1/app/src/main/java/com/common/util/StringUtils.java:429-433 | Java int addition: the exact sum when it fits, one turn of 2^32 less (so negative) above Integer.MAX_VALUE, one turn more (so non-negative) below Integer.MIN_VALUE |
| JavaLang.IntSub | Skykai521-StickerCamera-6fc41b1/app/src/main/java/com/common/util/StringUtils.java:1044-1079 | Java int subtraction, with the same wrap-around |
| JavaLang.IntArithmeticWraps | Skykai521-StickerCamera-6fc41b1/app/src/main/java/com/common/util/StringUtils.java:1044-1079 | int addition and subtraction are the exact result wrapped into 32 bits |
| JavaLang.IndexOf | Skykai521-StickerCamera-6fc41b1/app/src/main/java/com/common/util/StringUtils.java:1421 | String.indexOf returns -1 or a position at or after the start where the substring occurs |
| JavaLang.IndexOfIsFirst | Skykai521-StickerCamera-6fc41b1/app/src/main/java/com/common/util/StringUtils.java:1421 | the position String.indexOf returns is the first occurrence from the start, and -1 means there is none |
| JavaLang.LastIndexOf | Skykai521-StickerCamera-6fc41b1/app/src/main/java/com/common/util/StringUtils.java:763 | String.lastIndexOf returns the last occurrence, and -1 exactly when the substring occurs nowhere |
| JavaLang.Trim | Skykai521-StickerCamera-6fc41b1/app/src/main/java/com/common/util/StringUtils.java:110 | String.trim leaves no character up to U+0020 at either end of its result |
| JavaLang.TrimRemovesOnlyEnds | Skykai521-StickerCamera-6fc41b1/app/src/main/java/com/common/util/StringUtils.java:110 | String.trim removes only characters up to U+0020, and only at the ends: the result is a slice `s[i..j]` of the string, and every character before `i` and from `j` on is at most U+0020 |
| JavaLang.TrimStartDropsTrimmed | Skykai521-StickerCamera-6fc41b1/app/src/main/java/com/common/util/StringUtils.java:110 | the leading characters the front half of trim drops are all at most U+0020 |
| JavaLang.TrimEndDropsTrimmed | Skykai521-StickerCamera-6fc41b1/app/src/main/java/com/common/util/StringUtils.java:110 | the trailing characters the back half of trim drops are all at most U+0020 |
| JavaLang.TrimEmptyIff | Skykai521-StickerCamera-6fc41b1/app/src/main/java/com/common/util/StringUtils.java:110 | a string trims to empty exactly when every character is at most U+0020 |
| JavaLang.Reversed | Skykai521-StickerCamera-6fc41b1/app/src/main/java/com/common/util/StringUtils.java:1605-1610 | the same elements in the opposite order |
| JavaLang.ReversedInvolution | Skykai521-StickerCamera-6fc41b1/app/src/main/java/com/common/util/StringUtils.java:1605-1610 | reversing twice gives the original back |
| JavaLang.Split | Skykai521-StickerCamera-6fc41b1/app/src/main/java/com/common/util/MapUtils.java:222 | splitting on a literal separator yields at least one piece |
| JavaLang.JoinSplit | Skykai521-StickerCamera-6fc41b1/app/src/main/java/com/common/util/MapUtils.java:222 | splitting loses nothing: the pieces joined with the separator rebuild the string |
| JavaLang.SplitPiecesLackSeparator | Skykai521-StickerCamera-6fc41b1/app/src/main/java/com/common/util/MapUtils.java:222 | no piece of a split contains the separator |

## Left out

- GL and EGL driver calls are not modelled: shader compilation, uniform upload, `glReadPixels`, and EGL context and surface set-up. Each becomes an entry in a call log, and the read-back is a given pixel array.
- Cross-thread synchronisation is not modelled: `getBitmapWithFilterApplied`'s wait/notify, the capture semaphores and layout listeners of `GPUImageView`, and `LoadImageTask`'s timed wait. Only their sequential effect is modelled. The calling thread is a parameter.
- Image decoding, EXIF rotation, `rotateImage`, MediaStore queries and JPEG saving are platform I/O and are not modelled. The sizes the decoder reports are parameters of `GPUImageCore.SampleSize`.
- Floats are exact reals. Float rounding is not modelled: 32-bit rounding in the 3x3 filter's texel steps and in `getScaleSize`, the rounding in `GPUImageView.onMeasure`'s ratio fitting, and FlowLayout's `(int) (spare * horizontalGravityFactor)` in `onLayout`. The outer view's `onMeasure` is not modelled, for that reason. `FlowLayouts.ArrangeChildren` models the gravity multiply as an exact `JavaDiv(spare, 2)` for centring, which agrees with the float only while the spare width is below 2^24.
- GPUImageCore.GPUImage.SetGLSurfaceView: the settings made on the view are Android calls and are not modelled. They are the EGL client version 2, the 8-8-8-8 colour config with a 16-bit depth buffer, RGBA_8888, the renderer and RENDERMODE_WHEN_DIRTY. The view is modelled only as present or null.
- GPUImageCore.SampleSize: requires that the decode loop stops on its own, which it does unless the output sizes are negative (either for CENTER_INSIDE, both for CENTER_CROP). In that case `scale++` runs past Integer.MAX_VALUE and wraps. More than two billion iterations later, the loop either reaches a scale of 0, where `outWidth / scale` throws ArithmeticException, or stops at a negative scale. The model does not cover that run. The decoded sizes are `int`s, so the -1 of a failed decode is covered and gives 1.
- The texture edge behaviour of the dilation taps is defined by the driver and is not modelled.
- `setUpCamera`'s camera preview set-up and render-mode switch are platform calls. Only the NullPointerException the switch throws when no view is attached, and the rotation handed to the renderer, are modelled.
- `GPUImage.setRotation`, `setImage(Uri/File)`, `saveToPictures` and `runOnGLThread` pass their argument through to the renderer or to I/O. They are not modelled.
- PixelBuffers.PixelBuffer.Destroy: `destroy` does not check for a null renderer, so with none set its first call fails with NullPointerException. The model returns that error and logs no call.
- StringUtils: the regex validators, Unicode case mapping (`capitalise`, `swapCase`, `capitaliseAllWords`), the `StringTokenizer`-based `split` and `interpolate` are library-defined behaviour and are not modelled.
- StringUtils: several operations throw NullPointerException for a null `str`, including `deleteWhitespace`, `abbreviate`, `chomp`, `prechomp` and `difference`. Their models take a non-null string, and the null case is not modelled. The pads model a null `str` and a null delimiter. `countMatches` models a null `sub`, which throws before `str` is checked.
- Integer arithmetic outside `mid` and the pads is unbounded: an overflow of the source's 32-bit `int` arithmetic anywhere else is not modelled. One such place is `abbreviate`'s `str.length() - offset` (StringUtils.java:1684): `abbreviate("0123456789", Integer.MIN_VALUE, 5)` wraps there and throws "Minimum abbreviation width with offset is 7", while `StringUtils.Abbreviate` returns "01...".
- `android.util.Log` messages are diagnostics and are not recorded: `getBitmap`'s two rejections and `setRenderer`'s wrong-thread message (PixelBuffer.java:118, 135, 141), and MyHighlightView's messages in `setMode`, `setSelected` and `setFocused` (MyHighlightView.java:679, 719, 734).
- GPUImageViews.GPUImageView.Capture: the calls posted to the UI thread and to the GL thread are recorded at the point where they are posted, in program order. When they run relative to each other is thread scheduling, which is not modelled.
- `GPUImageView.setFilter`, `setRotation`, `setScaleType`, `setImage` and `requestRender` only pass their argument to `GPUImage` or ask the surface for a render. They are not modelled as members of their own.
- GPUImageViews.GPUImageView.CaptureAtSize: the sizes are natural numbers, so the negative sizes `capture(int, int)` accepts (for instance from a `SaveTask` with a negative size) are not modelled. They would be packed into the surface's `MeasureSpec`s, whose bit layout belongs to the platform.
- StringUtils.Escape: the source sorts the characters to escape and then searches them with `Arrays.binarySearch`. The model tests membership in a set, which gives the same answer.
- StringUtils.Repeat: a negative count with a non-empty string fails in the source with NegativeArraySizeException, from `StringBuilder`'s initial capacity. The model returns that error. The capacity itself is not modelled.
- Strings are sequences of Unicode characters, while Java strings are UTF-16 code units. Lengths and indices therefore differ for characters outside the Basic Multilingual Plane, and surrogate pairs are not modelled.
- ListUtils.DistinctList: the list's elements are never null. In the source, a null element with another element after it makes `sourceList.get(i).equals(...)` throw NullPointerException, and the model does not capture that error.
- ListUtils: `join` delegates to Android `TextUtils` and is not modelled. `getLast`/`getNext` over lists only forward to the array versions and are not modelled separately.
- ObjectUtils.Compare: modelled for `Integer` values only. `compareTo` on other `Comparable` types is not visible here.
- MapUtils: `String.split` takes a regular expression. The model splits on a literal separator, which is what the default separators `:` and `,` mean. Java's `split` drops trailing empty pieces and the model keeps them, but `parseKeyAndValueToMap` skips empty pieces anyway.
- MapUtils.ToJson: the order of the entries is a parameter, standing for HashMap iteration order.
- FlowLayouts: the `MATCH_PARENT`-height remeasure in `onLayout`, and the children's own `measure`, are not modelled. The children's measured sizes are inputs, and `onMeasure` records the specs it would hand each child.
- FlowLayouts: `onMeasure` breaks lines against the width less both paddings, but `onLayout` uses the whole `getWidth()`. The model keeps this difference. `FlowLayouts.MeasuredHeightIsLineSum` relates the two at the same width.
- FlowLayouts: `generateLayoutParams` and the `LayoutParams` constructors only read XML attributes, and their values are fields of `Child`. `isIcs` is a constant of the view.
- HighlightViews: `onMouseMove`'s rotation of the drag vector by `-mRotation`, and `rotateBy`, are trigonometry. `getHit`, drawing, `computeLayout`, the anchors and `setDeleteable` are not modelled. The crop-to-screen ratios are parameters of `HighlightViews.ResizeAmount`.
- HighlightViews: `setup` stores the caller's `RectF` itself (`mCropRect = cropRect`), and `moveBy` and `growBy` then change it in place, so the caller's rectangle moves with the highlight. The model keeps the crop rectangle as a value, and this aliasing is not modelled.
- HighlightViews.HighlightView.GrowBy: the one-argument `growBy(dx)`, which divides by `mRatio`, is not modelled separately. Whether the content accepts a size after mapping to the screen (`validateSize(getDisplayRect(...))`) is a given predicate.
- HighlightViews.HighlightView.constructor: the crop rectangle is a parameter. In the source `mCropRect` stays null until `setup`.
- HighlightViews: `mBackgroundDrawable` is never assigned in the source, so `updateDrawableState` always returns early. The model keeps whether a background exists as a constant, so that the state table can be stated. The initial `mMode` is 0, which is not `NONE`: a selected view counts as pressed before the first `setMode`. `STATE_SET_SELECTED_FOCUSED` carries only `state_focused`.
- `UIUtils.checkBits` is not part of this model. It is taken to test that every bit of the flag is set.

## Findings

| source | as written | input that shows it | evidently intended | confidence | as-written member | corrected member |
|---|---|---|---|---|---|---|
| Skykai521-StickerCamera-6fc41b1/app/src/main/java/com/common/util/MapUtils.java:234-237 | the value starts at `seperator + 1`, one character after the start of the key-value separator | the pair `a=>b` with key-value separator `=>` gives key `a` and value `>b` | the value starts after the whole separator (`seperator + keyAndValueSeparator.length()`), giving `b` | not executed | MapUtils.ParsePairAsWritten | MapUtils.ParsePair |
| Skykai521-StickerCamera-6fc41b1/app/src/main/java/com/common/util/StringUtils.java:429-433 | the end `pos + len` is an `int` sum, which wraps to a negative number above Integer.MAX_VALUE, and `substring(pos, pos + len)` then throws | `mid("abc", 1, Integer.MAX_VALUE)` throws StringIndexOutOfBoundsException | the rest of the string, "bc", as the documentation promises when fewer than `len` characters are left (comparing `str.length() - pos <= len` avoids the sum) | not executed | StringUtils.MidOverflowExample | StringUtils.MidIntended |
| Skykai521-StickerCamera-6fc41b1/app/src/main/java/com/common/util/StringUtils.java:1044-1049 | the gap `size - str.length()` is an `int` difference, which wraps to a large positive number below Integer.MIN_VALUE | `rightPad("a", Integer.MIN_VALUE, " ")` asks `repeat` for Integer.MAX_VALUE spaces | no padding, since the size is below the string's length | not executed | StringUtils.PadCountWrapsBelowMinInt | StringUtils.PadCountIntendedFits |

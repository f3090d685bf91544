/**
 * The texture-coordinate tables of the GPU pipeline: one fixed table of four
 * (x, y) corners per rotation, each coordinate optionally complemented for a
 * horizontal (x) or vertical (y) mirror.
 */
module TextureRotationUtil {
  import opened Rotations

  /** A table of texture coordinates: x at the even indices, y at the odd ones. */
  type Table = t: seq<real> | |t| == 8 witness [0.0, 0.0, 0.0, 0.0, 0.0, 0.0, 0.0, 0.0]

  const TextureNoRotation: Table := [0.0, 1.0, 1.0, 1.0, 0.0, 0.0, 1.0, 0.0]
  const TextureRotated90: Table := [1.0, 1.0, 1.0, 0.0, 0.0, 1.0, 0.0, 0.0]
  const TextureRotated180: Table := [1.0, 0.0, 0.0, 0.0, 1.0, 1.0, 0.0, 1.0]
  const TextureRotated270: Table := [0.0, 0.0, 0.0, 1.0, 1.0, 0.0, 1.0, 1.0]

  /** Every coordinate is a corner coordinate, 0.0 or 1.0. */
  predicate IsCornerTable(t: Table) {
    forall i :: 0 <= i < 8 ==> t[i] == 0.0 || t[i] == 1.0
  }

  /** `flip`: 0.0 becomes 1.0, every other value becomes 0.0. */
  function Flip(v: real): (r: real)
    ensures r == 0.0 || r == 1.0
    ensures r == 1.0 <==> v == 0.0
  {
    if v == 0.0 then 1.0 else 0.0
  }

  /** On corner coordinates flip is the complement 1 - v, and so an involution. */
  lemma FlipInvolution(v: real)
    requires v == 0.0 || v == 1.0
    ensures Flip(v) == 1.0 - v
    ensures Flip(Flip(v)) == v
  {
  }

  /** The table the switch in getRotation selects. */
  function RotationTable(rotation: Rotation): (t: Table)
    ensures IsCornerTable(t)
  {
    match rotation
    case Rotation90 => TextureRotated90
    case Rotation180 => TextureRotated180
    case Rotation270 => TextureRotated270
    case Normal => TextureNoRotation
  }

  /** The fresh array built for a horizontal flip: x coordinates flipped. */
  function FlipHorizontal(t: Table): (r: Table)
    ensures forall i :: 0 <= i < 8 && i % 2 == 0 ==> r[i] == Flip(t[i])
    ensures forall i :: 0 <= i < 8 && i % 2 == 1 ==> r[i] == t[i]
  {
    [Flip(t[0]), t[1], Flip(t[2]), t[3], Flip(t[4]), t[5], Flip(t[6]), t[7]]
  }

  /** The fresh array built for a vertical flip: y coordinates flipped. */
  function FlipVertical(t: Table): (r: Table)
    ensures forall i :: 0 <= i < 8 && i % 2 == 1 ==> r[i] == Flip(t[i])
    ensures forall i :: 0 <= i < 8 && i % 2 == 0 ==> r[i] == t[i]
  {
    [t[0], Flip(t[1]), t[2], Flip(t[3]), t[4], Flip(t[5]), t[6], Flip(t[7])]
  }

  /** `getRotation`: the rotation's table, then the horizontal flip, then the
      vertical one. */
  function GetRotation(rotation: Rotation, flipHorizontal: bool, flipVertical: bool): (r: Table)
    ensures IsCornerTable(r)
    ensures forall i :: 0 <= i < 8 ==>
      r[i] == (if (i % 2 == 0 && flipHorizontal) || (i % 2 == 1 && flipVertical)
               then 1.0 - RotationTable(rotation)[i] else RotationTable(rotation)[i])
  {
    var t := RotationTable(rotation);
    var h := if flipHorizontal then FlipHorizontal(t) else t;
    if flipVertical then FlipVertical(h) else h
  }

  /** Without flips each rotation yields exactly its own table. */
  lemma NoFlipIsTable(rotation: Rotation)
    ensures GetRotation(rotation, false, false) == RotationTable(rotation)
    ensures GetRotation(Normal, false, false) == TextureNoRotation
    ensures GetRotation(Rotation90, false, false) == TextureRotated90
    ensures GetRotation(Rotation180, false, false) == TextureRotated180
    ensures GetRotation(Rotation270, false, false) == TextureRotated270
  {
  }

  /** On corner tables each flip is an involution and the two flips commute. */
  lemma FlipsCommuteAndUndo(t: Table)
    requires IsCornerTable(t)
    ensures FlipHorizontal(FlipHorizontal(t)) == t
    ensures FlipVertical(FlipVertical(t)) == t
    ensures FlipHorizontal(FlipVertical(t)) == FlipVertical(FlipHorizontal(t))
  {
    assert FlipHorizontal(FlipHorizontal(t))[0] == t[0];
  }

  /** The 180 and 270 degree tables are the 0 and 90 degree tables mirrored
      both ways; in general mirroring both ways adds half a turn. */
  lemma BothFlipsAddHalfTurn(rotation: Rotation)
    ensures TextureRotated180 == FlipVertical(FlipHorizontal(TextureNoRotation))
    ensures TextureRotated270 == FlipVertical(FlipHorizontal(TextureRotated90))
    ensures GetRotation(rotation, true, true) == RotationTable(AddHalfTurn(rotation))
  {
  }

  /** All sixteen combinations of rotation and flips, as literal tables. */
  lemma AllSixteenTables()
    ensures GetRotation(Normal, false, true) == [0.0, 0.0, 1.0, 0.0, 0.0, 1.0, 1.0, 1.0]
    ensures GetRotation(Normal, true, false) == [1.0, 1.0, 0.0, 1.0, 1.0, 0.0, 0.0, 0.0]
    ensures GetRotation(Normal, true, true) == [1.0, 0.0, 0.0, 0.0, 1.0, 1.0, 0.0, 1.0]
    ensures GetRotation(Rotation90, false, true) == [1.0, 0.0, 1.0, 1.0, 0.0, 0.0, 0.0, 1.0]
    ensures GetRotation(Rotation90, true, false) == [0.0, 1.0, 0.0, 0.0, 1.0, 1.0, 1.0, 0.0]
    ensures GetRotation(Rotation90, true, true) == [0.0, 0.0, 0.0, 1.0, 1.0, 0.0, 1.0, 1.0]
    ensures GetRotation(Rotation180, false, true) == [1.0, 1.0, 0.0, 1.0, 1.0, 0.0, 0.0, 0.0]
    ensures GetRotation(Rotation180, true, false) == [0.0, 0.0, 1.0, 0.0, 0.0, 1.0, 1.0, 1.0]
    ensures GetRotation(Rotation180, true, true) == [0.0, 1.0, 1.0, 1.0, 0.0, 0.0, 1.0, 0.0]
    ensures GetRotation(Rotation270, false, true) == [0.0, 1.0, 0.0, 0.0, 1.0, 1.0, 1.0, 0.0]
    ensures GetRotation(Rotation270, true, false) == [1.0, 0.0, 1.0, 1.0, 0.0, 0.0, 0.0, 1.0]
    ensures GetRotation(Rotation270, true, true) == [1.0, 1.0, 1.0, 0.0, 0.0, 1.0, 0.0, 0.0]
  {
  }
}

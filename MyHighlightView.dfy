/**
 * The highlight frame drawn around a sticker: its selected / focused state
 * bits, the mode of the gesture in progress, the background state set those
 * choose, and the crop rectangle that moving and resizing change.
 */
module HighlightViews {

  /** The bits of `mState`. */
  const STATE_NONE: bv32 := 1 << 0
  const STATE_SELECTED: bv32 := 1 << 1
  const STATE_FOCUSED: bv32 := 1 << 2

  /** The hit flags: which part of the frame a gesture grabbed. */
  const NONE: bv32 := 1 << 0
  const GROW_LEFT_EDGE: bv32 := 1 << 1
  const GROW_RIGHT_EDGE: bv32 := 1 << 2
  const GROW_TOP_EDGE: bv32 := 1 << 3
  const GROW_BOTTOM_EDGE: bv32 := 1 << 4
  const ROTATE: bv32 := 1 << 5
  const MOVE: bv32 := 1 << 6
  const GROW: bv32 := GROW_TOP_EDGE | GROW_BOTTOM_EDGE | GROW_LEFT_EDGE | GROW_RIGHT_EDGE

  predicate IsPowerOfTwo(x: bv32) {
    x != 0 && x & (x - 1) == 0
  }

  function HitFlags(): seq<bv32> {
    [NONE, GROW_LEFT_EDGE, GROW_RIGHT_EDGE, GROW_TOP_EDGE, GROW_BOTTOM_EDGE, ROTATE, MOVE]
  }

  /** Each hit flag is a single bit, no two share a bit, and GROW is exactly
      the four edge bits. */
  lemma HitFlagsAreDistinctBits()
    ensures forall i :: 0 <= i < |HitFlags()| ==> IsPowerOfTwo(HitFlags()[i])
    ensures forall i, j :: 0 <= i < j < |HitFlags()| ==> HitFlags()[i] & HitFlags()[j] == 0
    ensures GROW & (NONE | ROTATE | MOVE) == 0
    ensures forall e: bv32 {:trigger GROW & e} :: IsPowerOfTwo(e) && GROW & e != 0 ==>
      e == GROW_LEFT_EDGE || e == GROW_RIGHT_EDGE || e == GROW_TOP_EDGE || e == GROW_BOTTOM_EDGE
  {
    forall e: bv32 | IsPowerOfTwo(e) && GROW & e != 0
      ensures e == GROW_LEFT_EDGE || e == GROW_RIGHT_EDGE || e == GROW_TOP_EDGE || e == GROW_BOTTOM_EDGE
    {
      PowerOfTwoInMask(e);
    }
  }

  /** A single bit that meets the four edge bits is one of them. */
  lemma PowerOfTwoInMask(e: bv32)
    requires IsPowerOfTwo(e) && e & 30 != 0
    ensures e == 2 || e == 4 || e == 8 || e == 16
  {
    assert e & 30 == e by {
      assert e & (e - 1) == 0;
    }
  }

  predicate HasSelectedBit(state: bv32) {
    state & STATE_SELECTED == STATE_SELECTED
  }

  predicate HasFocusedBit(state: bv32) {
    state & STATE_FOCUSED == STATE_FOCUSED
  }

  /** `isPressed`: selected while a gesture other than NONE is in progress. */
  predicate Pressed(state: bv32, mode: bv32) {
    HasSelectedBit(state) && mode != NONE
  }

  /** The state `setSelected(selected)` leaves: the selected bit flipped when
      it differs, so it ends up equal to `selected` and no other bit moves. */
  function WithSelected(state: bv32, selected: bool): (r: bv32)
    ensures HasSelectedBit(r) == selected
    ensures HasFocusedBit(r) == HasFocusedBit(state)
    ensures r == state || r == state ^ STATE_SELECTED
    ensures HasSelectedBit(state) == selected ==> r == state
  {
    if HasSelectedBit(state) != selected then state ^ STATE_SELECTED else state
  }

  /** The state `setFocused(value)` leaves: the focused bit equal to `value`,
      every other bit as it was. */
  function WithFocused(state: bv32, value: bool): (r: bv32)
    ensures HasFocusedBit(r) == value
    ensures HasSelectedBit(r) == HasSelectedBit(state)
    ensures r == state || r == state ^ STATE_FOCUSED
    ensures HasFocusedBit(state) == value ==> r == state
  {
    if HasFocusedBit(state) != value then state ^ STATE_FOCUSED else state
  }

  /** Selecting and focusing touch different bits, so their order does not
      matter. */
  lemma SelectingAndFocusingCommute(state: bv32, selected: bool, focused: bool)
    ensures WithSelected(WithFocused(state, focused), selected) == WithFocused(WithSelected(state, selected), focused)
  {
  }

  /** Setting a bit back to what it was restores the state exactly. */
  lemma SelectionRoundTrip(state: bv32, selected: bool)
    ensures WithSelected(WithSelected(state, selected), HasSelectedBit(state)) == state
  {
  }

  lemma FocusRoundTrip(state: bv32, value: bool)
    ensures WithFocused(WithFocused(state, value), HasFocusedBit(state)) == state
  {
  }

  /** A new view is neither selected, focused nor pressed. */
  lemma InitialStateIsIdle(mode: bv32)
    ensures !HasSelectedBit(STATE_NONE) && !HasFocusedBit(STATE_NONE) && !Pressed(STATE_NONE, mode)
  {
  }

  /** What `setFocused` asks of editable content (a text sticker). */
  datatype EditEvent = BeginEdit | EndEdit

  /** The calls `setFocused(value)` makes on the editable content: it begins
      editing when focus is gained, ends it when focus is lost, and calls
      nothing when the focus does not change or the content is not editable. */
  function FocusEdits(state: bv32, value: bool, editable: bool): (r: seq<EditEvent>)
    ensures r == [BeginEdit] <==> editable && !HasFocusedBit(state) && value
    ensures r == [EndEdit] <==> editable && HasFocusedBit(state) && !value
    ensures r == [] <==> !editable || HasFocusedBit(state) == value
  {
    if !editable || HasFocusedBit(state) == value then []
    else if value then [BeginEdit]
    else [EndEdit]
  }

  /** The drawable state attributes the background is given. */
  datatype StateAttr = StateSelected | StatePressed | StateFocused

  const STATE_SET_NONE: seq<StateAttr> := []
  const STATE_SET_SELECTED: seq<StateAttr> := [StateSelected]
  const STATE_SET_SELECTED_PRESSED: seq<StateAttr> := [StateSelected, StatePressed]
  const STATE_SET_SELECTED_FOCUSED: seq<StateAttr> := [StateFocused]

  /** The state set `updateDrawableState` gives the background: pressed
      exactly when the view is pressed, focused exactly when it is selected,
      idle and focused, and nothing at all when it is not selected. The set
      used for "selected and focused" carries the focused attribute only. */
  function DrawableState(state: bv32, mode: bv32): (r: seq<StateAttr>)
    ensures StatePressed in r <==> Pressed(state, mode)
    ensures StateFocused in r <==> HasSelectedBit(state) && mode == NONE && HasFocusedBit(state)
    ensures StateSelected in r <==> HasSelectedBit(state) && !(mode == NONE && HasFocusedBit(state))
    ensures r == [] <==> !HasSelectedBit(state)
  {
    if HasSelectedBit(state) then
      if mode == NONE then
        if HasFocusedBit(state) then STATE_SET_SELECTED_FOCUSED else STATE_SET_SELECTED
      else STATE_SET_SELECTED_PRESSED
    else STATE_SET_NONE
  }

  /** A `RectF`, with coordinates as exact reals. */
  datatype Rect = Rect(left: real, top: real, right: real, bottom: real)

  function Width(r: Rect): real { r.right - r.left }
  function Height(r: Rect): real { r.bottom - r.top }
  function CenterX(r: Rect): real { (r.left + r.right) / 2.0 }
  function CenterY(r: Rect): real { (r.top + r.bottom) / 2.0 }

  /** `RectF.offset(dx, dy)`: the rectangle moved, its size kept. */
  function Offset(r: Rect, dx: real, dy: real): (o: Rect)
    ensures o.left == r.left + dx && o.top == r.top + dy
    ensures Width(o) == Width(r) && Height(o) == Height(r)
  {
    Rect(r.left + dx, r.top + dy, r.right + dx, r.bottom + dy)
  }

  /** Moving back by the opposite amount undoes a move. */
  lemma OffsetUndone(r: Rect, dx: real, dy: real)
    ensures Offset(Offset(r, dx, dy), -dx, -dy) == r
  {
  }

  /** `RectF.inset(dx, dy)`: each side moved inwards. */
  function Inset(r: Rect, dx: real, dy: real): Rect {
    Rect(r.left + dx, r.top + dy, r.right - dx, r.bottom - dy)
  }

  datatype AlignModeV = Top | Bottom | Center

  /** The rectangle `growBy(dx, dy, ...)` tries: twice `dx` wider about the
      same horizontal centre and twice `dy` taller, growing about the centre,
      down from a fixed top, or up from a fixed bottom. */
  function Grown(r: Rect, dx: real, dy: real, align: AlignModeV): (g: Rect)
    ensures Width(g) == Width(r) + 2.0 * dx && Height(g) == Height(r) + 2.0 * dy
    ensures CenterX(g) == CenterX(r)
    ensures align == Center ==> CenterY(g) == CenterY(r)
    ensures align == Top ==> g.top == r.top
    ensures align == Bottom ==> g.bottom == r.bottom
  {
    match align
    case Center => Inset(r, -dx, -dy)
    case Top =>
      var s := Inset(r, -dx, 0.0);
      s.(bottom := s.bottom + dy * 2.0)
    case Bottom =>
      var s := Inset(r, -dx, 0.0);
      s.(top := s.top - dy * 2.0)
  }

  /** Growing by the opposite amounts gives the rectangle back. */
  lemma GrownUndone(r: Rect, dx: real, dy: real, align: AlignModeV)
    ensures Grown(Grown(r, dx, dy, align), -dx, -dy, align) == r
  {
  }

  /** What `onMouseMove` does for the part of the frame that was grabbed. */
  datatype Gesture =
    | Ignore
    | Drag
    | Turn
    | Resize(horizontal: bool, vertical: bool, fromLeft: bool, fromTop: bool)

  /** `UIUtils.checkBits`: every bit of `flag` is set in `value`. */
  predicate CheckBits(value: bv32, flag: bv32) {
    value & flag == flag
  }

  /** The dispatch of `onMouseMove` on the hit flags: NONE does nothing,
      MOVE moves, ROTATE rotates, and any other value resizes, using the
      horizontal drag only when a side edge was hit and the vertical drag
      only when the top or bottom edge was. */
  function MouseMoveGesture(edge: bv32): (g: Gesture)
    ensures g.Ignore? <==> edge == NONE
    ensures g.Drag? <==> edge == MOVE
    ensures g.Turn? <==> edge == ROTATE
    ensures g.Resize? ==>
      && (g.horizontal <==> edge & (GROW_LEFT_EDGE | GROW_RIGHT_EDGE) != 0)
      && (g.vertical <==> edge & (GROW_TOP_EDGE | GROW_BOTTOM_EDGE) != 0)
      && (g.fromLeft <==> CheckBits(edge, GROW_LEFT_EDGE))
      && (g.fromTop <==> CheckBits(edge, GROW_TOP_EDGE))
  {
    if edge == NONE then Ignore
    else if edge == MOVE then Drag
    else if edge == ROTATE then Turn
    else Resize(
      (GROW_LEFT_EDGE | GROW_RIGHT_EDGE) & edge != 0,
      (GROW_TOP_EDGE | GROW_BOTTOM_EDGE) & edge != 0,
      CheckBits(edge, GROW_LEFT_EDGE),
      CheckBits(edge, GROW_TOP_EDGE))
  }

  function Abs(x: real): real { if x < 0.0 then -x else x }

  /** The amount a resize grows the frame by, from a drag `(dx, dy)` already
      turned into the frame's own axes and the crop-to-screen ratios:
      the unused axis counts as no drag, the larger of the two scaled drags
      wins, and it is negated when it comes from the left or the top edge, so
      that pulling any grabbed edge outwards grows the frame. */
  function ResizeAmount(g: Gesture, dx: real, dy: real, xScale: real, yScale: real): (delta: real)
    requires g.Resize?
    ensures var x := if g.horizontal then dx * xScale else 0.0;
      var y := if g.vertical then dy * yScale else 0.0;
      && Abs(delta) == (if Abs(x) >= Abs(y) then Abs(x) else Abs(y))
      && (Abs(x) >= Abs(y) ==> (delta == x <==> !g.fromLeft || x == 0.0))
      && (Abs(x) < Abs(y) ==> (delta == y <==> !g.fromTop))
  {
    var x := if g.horizontal then dx * xScale else 0.0;
    var y := if g.vertical then dy * yScale else 0.0;
    if Abs(x) >= Abs(y) then (if g.fromLeft then -x else x)
    else (if g.fromTop then -y else y)
  }

  /** Grabbing one edge and pulling it outwards always grows the frame. */
  lemma SingleEdgeGrowsOutwards(edge: bv32, dx: real, dy: real, xScale: real, yScale: real)
    requires edge == GROW_LEFT_EDGE || edge == GROW_RIGHT_EDGE || edge == GROW_TOP_EDGE || edge == GROW_BOTTOM_EDGE
    requires xScale > 0.0 && yScale > 0.0
    requires edge == GROW_LEFT_EDGE ==> dx < 0.0
    requires edge == GROW_RIGHT_EDGE ==> dx > 0.0
    requires edge == GROW_TOP_EDGE ==> dy < 0.0
    requires edge == GROW_BOTTOM_EDGE ==> dy > 0.0
    ensures MouseMoveGesture(edge).Resize?
    ensures ResizeAmount(MouseMoveGesture(edge), dx, dy, xScale, yScale) > 0.0
  {
    var g := MouseMoveGesture(edge);
    if edge == GROW_LEFT_EDGE || edge == GROW_RIGHT_EDGE {
      assert g.horizontal && !g.vertical && !g.fromTop;
      assert dx * xScale != 0.0;
    } else {
      assert !g.horizontal && g.vertical && !g.fromLeft;
      assert dy * yScale != 0.0;
    }
  }

  class HighlightView {
    /** `mState`. */
    var state: bv32
    /** `mMode`, the gesture in progress. */
    var mode: bv32
    /** Whether the content is editable (a text sticker). */
    const editable: bool
    /** Whether `mBackgroundDrawable` is set. */
    const hasBackground: bool
    /** Whether the content accepts the rectangle as a size, once mapped to
        the screen (`validateSize(getDisplayRect(mMatrix, r))`). */
    const acceptsSize: Rect -> bool
    /** The state sets given to the background, oldest first. */
    var backgroundStates: seq<seq<StateAttr>>
    /** The edit calls made on the content, oldest first. */
    var edits: seq<EditEvent>
    var moveEnabled: bool
    var scaleEnabled: bool
    var rotateEnabled: bool
    var alignMode: AlignModeV
    /** `mCropRect`, the frame in image coordinates. */
    var cropRect: Rect
    /** How many times the screen layout was recomputed. */
    var invalidations: nat

    /** A view over some content, with the crop rectangle `setup` installs.
        Moving, rotating and scaling start enabled. */
    constructor (editable: bool, hasBackground: bool, acceptsSize: Rect -> bool, cropRect: Rect)
      ensures state == STATE_NONE && mode == 0
      ensures this.editable == editable && this.hasBackground == hasBackground && this.acceptsSize == acceptsSize
      ensures backgroundStates == [] && edits == []
      ensures moveEnabled && scaleEnabled && rotateEnabled && alignMode == Center
      ensures this.cropRect == cropRect && invalidations == 0
    {
      state := STATE_NONE;
      mode := 0;
      this.editable := editable;
      this.hasBackground := hasBackground;
      this.acceptsSize := acceptsSize;
      backgroundStates := [];
      edits := [];
      moveEnabled := true;
      scaleEnabled := true;
      rotateEnabled := true;
      alignMode := Center;
      this.cropRect := cropRect;
      invalidations := 0;
    }

    predicate IsSelected()
      reads this
    {
      HasSelectedBit(state)
    }

    predicate IsFocused()
      reads this
    {
      HasFocusedBit(state)
    }

    predicate IsPressed()
      reads this
    {
      Pressed(state, mode)
    }

    /** `updateDrawableState`: the background, when there is one, gets the
        state set for the current state and mode. */
    method UpdateDrawableState()
      modifies this
      ensures backgroundStates == old(backgroundStates) + if hasBackground then [DrawableState(state, mode)] else []
      ensures state == old(state) && mode == old(mode) && edits == old(edits)
      ensures moveEnabled == old(moveEnabled) && scaleEnabled == old(scaleEnabled) && rotateEnabled == old(rotateEnabled)
      ensures alignMode == old(alignMode) && cropRect == old(cropRect) && invalidations == old(invalidations)
    {
      if !hasBackground {
        return;
      }
      backgroundStates := backgroundStates + [DrawableState(state, mode)];
    }

    /** `setMode`: a different mode is stored and the background updated;
        the current mode changes nothing. */
    method SetMode(m: bv32)
      modifies this
      ensures mode == m
      ensures backgroundStates == old(backgroundStates) + if old(mode) != m && hasBackground then [DrawableState(state, m)] else []
      ensures IsPressed() <==> IsSelected() && m != NONE
      ensures state == old(state) && edits == old(edits)
      ensures moveEnabled == old(moveEnabled) && scaleEnabled == old(scaleEnabled) && rotateEnabled == old(rotateEnabled)
      ensures alignMode == old(alignMode) && cropRect == old(cropRect) && invalidations == old(invalidations)
    {
      if m != mode {
        mode := m;
        UpdateDrawableState();
      }
    }

    /** `setSelected`: afterwards the view is selected exactly when asked,
        its focus is as before, and the background is updated only when the
        selection changed. */
    method SetSelected(selected: bool)
      modifies this
      ensures state == WithSelected(old(state), selected)
      ensures IsSelected() == selected && IsFocused() == old(IsFocused())
      ensures backgroundStates == old(backgroundStates) +
        if old(IsSelected()) != selected && hasBackground then [DrawableState(state, mode)] else []
      ensures mode == old(mode) && edits == old(edits)
      ensures moveEnabled == old(moveEnabled) && scaleEnabled == old(scaleEnabled) && rotateEnabled == old(rotateEnabled)
      ensures alignMode == old(alignMode) && cropRect == old(cropRect) && invalidations == old(invalidations)
    {
      var isSelected := IsSelected();
      if isSelected != selected {
        state := state ^ STATE_SELECTED;
        assert state == WithSelected(old(state), selected);
        UpdateDrawableState();
      }
    }

    /** `setFocused`: afterwards the view is focused exactly when asked, its
        selection is as before; a change of focus begins or ends editing on
        editable content and updates the background, no change does
        nothing. */
    method SetFocused(value: bool)
      modifies this
      ensures state == WithFocused(old(state), value)
      ensures IsFocused() == value && IsSelected() == old(IsSelected())
      ensures edits == old(edits) + FocusEdits(old(state), value, editable)
      ensures backgroundStates == old(backgroundStates) +
        if old(IsFocused()) != value && hasBackground then [DrawableState(state, mode)] else []
      ensures mode == old(mode)
      ensures moveEnabled == old(moveEnabled) && scaleEnabled == old(scaleEnabled) && rotateEnabled == old(rotateEnabled)
      ensures alignMode == old(alignMode) && cropRect == old(cropRect) && invalidations == old(invalidations)
    {
      var isFocused := IsFocused();
      if isFocused != value {
        state := state ^ STATE_FOCUSED;
        assert state == WithFocused(old(state), value);
        NotifyContent(value);
        assert edits == old(edits) + FocusEdits(old(state), value, editable);
        UpdateDrawableState();
      }
    }

    /** The editable content, if any, begins editing on gaining focus and
        ends it on losing focus. */
    method NotifyContent(value: bool)
      modifies this`edits
      ensures edits == old(edits) + if !editable then [] else if value then [BeginEdit] else [EndEdit]
    {
      if editable {
        if value {
          edits := edits + [BeginEdit];
        } else {
          edits := edits + [EndEdit];
        }
      }
    }

    method SetMoveable(moveable: bool)
      modifies this
      ensures moveEnabled == moveable
      ensures state == old(state) && mode == old(mode) && edits == old(edits) && backgroundStates == old(backgroundStates)
      ensures scaleEnabled == old(scaleEnabled) && rotateEnabled == old(rotateEnabled)
      ensures alignMode == old(alignMode) && cropRect == old(cropRect) && invalidations == old(invalidations)
    {
      moveEnabled := moveable;
    }

    /** `setScaleable`; the resize knob it shows or hides is not modelled. */
    method SetScaleable(scaleable: bool)
      modifies this
      ensures scaleEnabled == scaleable
      ensures state == old(state) && mode == old(mode) && edits == old(edits) && backgroundStates == old(backgroundStates)
      ensures moveEnabled == old(moveEnabled) && rotateEnabled == old(rotateEnabled)
      ensures alignMode == old(alignMode) && cropRect == old(cropRect) && invalidations == old(invalidations)
    {
      scaleEnabled := scaleable;
    }

    method SetAlignModeV(align: AlignModeV)
      modifies this
      ensures alignMode == align
      ensures state == old(state) && mode == old(mode) && edits == old(edits) && backgroundStates == old(backgroundStates)
      ensures moveEnabled == old(moveEnabled) && scaleEnabled == old(scaleEnabled) && rotateEnabled == old(rotateEnabled)
      ensures cropRect == old(cropRect) && invalidations == old(invalidations)
    {
      alignMode := align;
    }

    /** `invalidate`: the screen layout is recomputed from the crop
        rectangle. */
    method Invalidate()
      modifies this
      ensures invalidations == old(invalidations) + 1
      ensures state == old(state) && mode == old(mode) && edits == old(edits) && backgroundStates == old(backgroundStates)
      ensures moveEnabled == old(moveEnabled) && scaleEnabled == old(scaleEnabled) && rotateEnabled == old(rotateEnabled)
      ensures alignMode == old(alignMode) && cropRect == old(cropRect)
    {
      invalidations := invalidations + 1;
    }

    /** `setup`: a new crop rectangle, the mode reset to NONE, and the layout
        recomputed. */
    method Setup(crop: Rect)
      modifies this
      ensures cropRect == crop && mode == NONE && invalidations == old(invalidations) + 1
      ensures backgroundStates == old(backgroundStates) + if old(mode) != NONE && hasBackground then [DrawableState(state, NONE)] else []
      ensures state == old(state) && edits == old(edits)
      ensures moveEnabled == old(moveEnabled) && scaleEnabled == old(scaleEnabled) && rotateEnabled == old(rotateEnabled)
      ensures alignMode == old(alignMode)
    {
      cropRect := crop;
      SetMode(NONE);
      Invalidate();
    }

    /** `moveBy`: when moving is enabled the crop rectangle moves by
        `(dx, dy)` and the layout is recomputed; otherwise nothing happens. */
    method MoveBy(dx: real, dy: real)
      modifies this
      ensures cropRect == if old(moveEnabled) then Offset(old(cropRect), dx, dy) else old(cropRect)
      ensures invalidations == old(invalidations) + if old(moveEnabled) then 1 else 0
      ensures state == old(state) && mode == old(mode) && edits == old(edits) && backgroundStates == old(backgroundStates)
      ensures moveEnabled == old(moveEnabled) && scaleEnabled == old(scaleEnabled) && rotateEnabled == old(rotateEnabled)
      ensures alignMode == old(alignMode)
    {
      if moveEnabled {
        cropRect := Offset(cropRect, dx, dy);
        Invalidate();
      }
    }

    /** `growBy(dx, dy, checkMinSize)`: when scaling is enabled the crop
        rectangle becomes its grown version, unless the minimum size is being
        checked and the content refuses the grown size; otherwise nothing
        happens. */
    method GrowBy(dx: real, dy: real, checkMinSize: bool)
      modifies this
      ensures var g := Grown(old(cropRect), dx, dy, alignMode);
        var grows := old(scaleEnabled) && (acceptsSize(g) || !checkMinSize);
        && cropRect == (if grows then g else old(cropRect))
        && invalidations == old(invalidations) + if grows then 1 else 0
      ensures state == old(state) && mode == old(mode) && edits == old(edits) && backgroundStates == old(backgroundStates)
      ensures moveEnabled == old(moveEnabled) && scaleEnabled == old(scaleEnabled) && rotateEnabled == old(rotateEnabled)
      ensures alignMode == old(alignMode)
    {
      if !scaleEnabled {
        return;
      }
      var r := Grown(cropRect, dx, dy, alignMode);
      if !acceptsSize(r) && checkMinSize {
        return;
      }
      cropRect := r;
      Invalidate();
    }
  }
}

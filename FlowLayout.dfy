/**
 * A view group that places its visible children left to right and starts
 * a new line when the next child does not fit. Children are abstracted to
 * their measured size, margins, layout size parameters and gravity.
 */
module FlowLayouts {
  import opened JavaLang

  // android.view.Gravity
  const LEFT: bv32 := 3
  const RIGHT: bv32 := 5
  const CENTER_HORIZONTAL: bv32 := 1
  const START: bv32 := 0x0080_0003
  const TOP: bv32 := 48
  const BOTTOM: bv32 := 80
  const CENTER_VERTICAL: bv32 := 16
  const CENTER: bv32 := 17
  const HORIZONTAL_GRAVITY_MASK: bv32 := 7
  const RELATIVE_HORIZONTAL_GRAVITY_MASK: bv32 := 0x0080_0007
  const VERTICAL_GRAVITY_MASK: bv32 := 0x70

  // ViewGroup.LayoutParams size values
  const MATCH_PARENT: int := -1

  /** A child view: whether it is GONE, its measured size, its margins, the
      width and height of its layout parameters, and its layout gravity
      (-1, all bits set, when unset). */
  datatype Child = Child(
    gone: bool,
    measuredWidth: int, measuredHeight: int,
    leftMargin: int, topMargin: int, rightMargin: int, bottomMargin: int,
    width: int, height: int,
    gravity: bv32)

  /** The room a child takes on its line, margins included. */
  function OuterWidth(c: Child): int { c.measuredWidth + c.leftMargin + c.rightMargin }
  function OuterHeight(c: Child): int { c.measuredHeight + c.topMargin + c.bottomMargin }

  function Max(a: int, b: int): int { if a >= b then a else b }

  /** A line under construction or finished: its children, the sum of their
      outer widths, and the largest outer height (0 for no child). */
  datatype Line = Line(views: seq<Child>, width: int, height: int)

  /** The finished lines and the current one. */
  datatype Flow = Flow(closed: seq<Line>, current: Line)

  const EmptyLine := Line([], 0, 0)

  /** Puts one visible child: when it does not fit after the children
      already on the line, the line is finished and a new one begins. */
  function Place(f: Flow, c: Child, width: int): Flow
  {
    var breaks := f.current.width + OuterWidth(c) > width;
    var closed := if breaks then f.closed + [f.current] else f.closed;
    var line := if breaks then EmptyLine else f.current;
    Flow(closed, Line(line.views + [c], line.width + OuterWidth(c), Max(line.height, OuterHeight(c))))
  }

  /** Puts the children of `cs` in order, skipping GONE ones. */
  function FlowFrom(f: Flow, cs: seq<Child>, width: int): Flow
    decreases |cs|
  {
    if cs == [] then f
    else FlowFrom(if cs[0].gone then f else Place(f, cs[0], width), cs[1..], width)
  }

  function AllLines(f: Flow): seq<Line> { f.closed + [f.current] }

  /** The lines `onLayout` records for a layout `width`, the last one
      included. */
  function Lines(cs: seq<Child>, width: int): seq<Line>
  {
    AllLines(FlowFrom(Flow([], EmptyLine), cs, width))
  }

  /** The children that are not GONE, in order. */
  function Visible(cs: seq<Child>): (r: seq<Child>)
    ensures forall c :: c in r ==> c in cs && !c.gone
  {
    if cs == [] then [] else (if cs[0].gone then [] else [cs[0]]) + Visible(cs[1..])
  }

  function Concat(lines: seq<Line>): seq<Child>
  {
    if lines == [] then [] else Concat(lines[..|lines| - 1]) + lines[|lines| - 1].views
  }

  function SumOuterWidths(s: seq<Child>): int
  {
    if s == [] then 0 else SumOuterWidths(s[..|s| - 1]) + OuterWidth(s[|s| - 1])
  }

  function MaxOuterHeight(s: seq<Child>): int
  {
    if s == [] then 0 else Max(MaxOuterHeight(s[..|s| - 1]), OuterHeight(s[|s| - 1]))
  }

  function SumHeights(lines: seq<Line>): int
  {
    if lines == [] then 0 else SumHeights(lines[..|lines| - 1]) + lines[|lines| - 1].height
  }

  /** What every recorded line satisfies: its width and height are the sum
      and the maximum over its children, every child after a line's first
      still fitted when it was added (so a line of two or more children
      fits), and only the first line can be empty. */
  predicate WellFormedLine(l: Line, width: int)
  {
    l.width == SumOuterWidths(l.views)
    && l.height == MaxOuterHeight(l.views)
    && (forall j :: 2 <= j <= |l.views| ==> SumOuterWidths(l.views[..j]) <= width)
    && (|l.views| >= 2 ==> l.width <= width)
  }

  predicate WellFormed(lines: seq<Line>, width: int)
  {
    (forall k :: 0 <= k < |lines| ==> WellFormedLine(lines[k], width))
    && (forall k :: 0 < k < |lines| ==> lines[k].views != [])
  }

  lemma LastOf<T>(s: seq<T>, x: T)
    ensures (s + [x])[..|s|] == s && (s + [x])[|s|] == x
  {
  }

  lemma PlaceWellFormed(f: Flow, c: Child, width: int)
    requires WellFormed(AllLines(f), width)
    ensures WellFormed(AllLines(Place(f, c, width)), width)
  {
    var breaks := f.current.width + OuterWidth(c) > width;
    var line := if breaks then EmptyLine else f.current;
    var f' := Place(f, c, width);
    WellFormedSplit(f.closed, f.current, width);
    ExtendWellFormed(line, c, width);
    assert f'.current == Line(line.views + [c], line.width + OuterWidth(c), Max(line.height, OuterHeight(c)));
    if breaks {
      WellFormedAppend(AllLines(f), f'.current, width);
    } else {
      WellFormedAppend(f.closed, f'.current, width);
    }
  }

  /** The lines before the last are well formed, and so is the last. */
  lemma WellFormedSplit(closed: seq<Line>, current: Line, width: int)
    requires WellFormed(closed + [current], width)
    ensures WellFormed(closed, width) && WellFormedLine(current, width)
  {
    assert forall k :: 0 <= k < |closed| ==> closed[k] == (closed + [current])[k];
    assert (closed + [current])[|closed|] == current;
  }

  /** A child added to a line that is empty or still has room for it keeps
      the line well formed. */
  lemma ExtendWellFormed(line: Line, c: Child, width: int)
    requires WellFormedLine(line, width)
    requires line.views != [] ==> line.width + OuterWidth(c) <= width
    ensures WellFormedLine(Line(line.views + [c], line.width + OuterWidth(c), Max(line.height, OuterHeight(c))), width)
  {
    var views := line.views + [c];
    LastOf(line.views, c);
    assert views[..|views|] == views;
    assert forall j :: 2 <= j <= |line.views| ==> views[..j] == line.views[..j];
  }

  /** A non-empty well-formed line can follow well-formed lines. */
  lemma WellFormedAppend(lines: seq<Line>, l: Line, width: int)
    requires WellFormed(lines, width) && WellFormedLine(l, width) && l.views != []
    ensures WellFormed(lines + [l], width)
  {
    assert forall k :: 0 <= k < |lines| ==> (lines + [l])[k] == lines[k];
    assert (lines + [l])[|lines|] == l;
  }

  lemma {:induction false} FlowWellFormed(f: Flow, cs: seq<Child>, width: int)
    requires WellFormed(AllLines(f), width)
    ensures WellFormed(AllLines(FlowFrom(f, cs, width)), width)
    decreases |cs|
  {
    if cs != [] {
      if !cs[0].gone {
        PlaceWellFormed(f, cs[0], width);
      }
      FlowWellFormed(if cs[0].gone then f else Place(f, cs[0], width), cs[1..], width);
    }
  }

  /** Every line either fits in the layout width or holds a single child;
      its height is the largest outer height of its children; only the
      first line may be empty. */
  lemma LinesWellFormed(cs: seq<Child>, width: int)
    ensures WellFormed(Lines(cs, width), width)
  {
    FlowWellFormed(Flow([], EmptyLine), cs, width);
  }

  /** Every line after the first begins with a child that did not fit
      after the line before it. */
  predicate Greedy(lines: seq<Line>, width: int)
  {
    forall k :: 0 < k < |lines| ==>
      lines[k].views != [] && lines[k - 1].width + OuterWidth(lines[k].views[0]) > width
  }

  lemma PlaceGreedy(f: Flow, c: Child, width: int)
    requires WellFormed(AllLines(f), width) && Greedy(AllLines(f), width)
    ensures Greedy(AllLines(Place(f, c, width)), width)
  {
    var lines := AllLines(f);
    var lines' := AllLines(Place(f, c, width));
    if f.current.width + OuterWidth(c) > width {
      assert Place(f, c, width).closed == lines;
      assert lines'[|lines|].views == [c];
      forall k | 0 < k < |lines'|
        ensures lines'[k].views != [] && lines'[k - 1].width + OuterWidth(lines'[k].views[0]) > width
      {
        if k < |lines| {
          assert lines'[k] == lines[k] && lines'[k - 1] == lines[k - 1];
        }
      }
    } else {
      var last := |f.closed|;
      forall k | 0 < k < |lines'|
        ensures lines'[k].views != [] && lines'[k - 1].width + OuterWidth(lines'[k].views[0]) > width
      {
        assert lines'[k - 1] == lines[k - 1];
        if k == last {
          assert lines[k].views != [];
          assert lines'[k].views == lines[k].views + [c];
        } else {
          assert lines'[k] == lines[k];
        }
      }
    }
  }

  lemma {:induction false} FlowGreedy(f: Flow, cs: seq<Child>, width: int)
    requires WellFormed(AllLines(f), width) && Greedy(AllLines(f), width)
    ensures Greedy(AllLines(FlowFrom(f, cs, width)), width)
    decreases |cs|
  {
    if cs != [] {
      if !cs[0].gone {
        PlaceWellFormed(f, cs[0], width);
        PlaceGreedy(f, cs[0], width);
      }
      FlowGreedy(if cs[0].gone then f else Place(f, cs[0], width), cs[1..], width);
    }
  }

  /** A new line begins only when the next child does not fit after the
      children of the line before: with `LinesWellFormed`, a line is broken
      exactly when `lineWidth + childWidth > width`. */
  lemma LinesBreakOnlyWhenFull(cs: seq<Child>, width: int)
    ensures var lines := Lines(cs, width);
      forall k :: 0 < k < |lines| ==>
        lines[k].views != [] && lines[k - 1].width + OuterWidth(lines[k].views[0]) > width
  {
    FlowGreedy(Flow([], EmptyLine), cs, width);
  }

  lemma ConcatAppend(lines: seq<Line>, l: Line)
    ensures Concat(lines + [l]) == Concat(lines) + l.views
  {
    assert (lines + [l])[..|lines|] == lines;
  }

  lemma PlaceKeepsChildren(f: Flow, c: Child, width: int)
    ensures Concat(AllLines(Place(f, c, width))) == Concat(AllLines(f)) + [c]
  {
    var f' := Place(f, c, width);
    ConcatAppend(f'.closed, f'.current);
    if f.current.width + OuterWidth(c) > width {
      assert f'.closed == AllLines(f);
      assert f'.current.views == [c];
    } else {
      ConcatAppend(f.closed, f.current);
      var cur := f.current.views;
      assert f'.closed == f.closed;
      assert f'.current.views == cur + [c];
      AppendAssoc(Concat(f.closed), cur, [c]);
    }
  }

  lemma {:induction false} FlowKeepsChildren(f: Flow, cs: seq<Child>, width: int)
    ensures Concat(AllLines(FlowFrom(f, cs, width))) == Concat(AllLines(f)) + Visible(cs)
    decreases |cs|
  {
    if cs != [] {
      var c := cs[0];
      var f' := if c.gone then f else Place(f, c, width);
      FlowKeepsChildren(f', cs[1..], width);
      if !c.gone {
        PlaceKeepsChildren(f, c, width);
      }
      assert Visible(cs) == (if c.gone then [] else [c]) + Visible(cs[1..]);
    }
  }

  /** The lines hold exactly the visible children, in their original order. */
  lemma LinesKeepChildren(cs: seq<Child>, width: int)
    ensures Concat(Lines(cs, width)) == Visible(cs)
  {
    FlowKeepsChildren(Flow([], EmptyLine), cs, width);
    ConcatAppend([], EmptyLine);
  }

  /** Once a first line has something in it, or a second line exists, the
      emptiness of the first line is settled. */
  lemma {:induction false} FirstLineSettled(f: Flow, cs: seq<Child>, width: int)
    requires f.closed != [] || f.current.views != []
    ensures var lines := AllLines(FlowFrom(f, cs, width));
      lines[0].views == AllLines(f)[0].views || (lines[0].views != [] && AllLines(f)[0].views != [])
    decreases |cs|
  {
    if cs != [] {
      var f' := if cs[0].gone then f else Place(f, cs[0], width);
      FirstLineSettled(f', cs[1..], width);
    }
  }

  /** The first recorded line is empty exactly when no child is visible or
      the first visible child alone is wider than the layout. */
  lemma {:induction false} FirstLineEmpty(cs: seq<Child>, width: int)
    ensures Lines(cs, width)[0].views == [] <==>
      Visible(cs) == [] || OuterWidth(Visible(cs)[0]) > width
    decreases |cs|
  {
    var init := Flow([], EmptyLine);
    if cs != [] {
      var c := cs[0];
      assert Visible(cs) == (if c.gone then [] else [c]) + Visible(cs[1..]);
      if c.gone {
        FirstLineEmpty(cs[1..], width);
      } else {
        var f' := Place(init, c, width);
        FirstLineSettled(f', cs[1..], width);
        if OuterWidth(c) > width {
          assert AllLines(f')[0].views == [];
        } else {
          assert AllLines(f')[0].views == [c];
        }
      }
    }
  }

  // Gravity

  /** The gravity a fresh layout starts with. */
  function DefaultGravity(isIcs: bool): bv32
  {
    (if isIcs then START else LEFT) | TOP
  }

  /** `setGravity`'s completion of a gravity value: a missing horizontal
      part becomes START (LEFT before Ice Cream Sandwich), a missing
      vertical part TOP. */
  function CompleteGravity(gravity: bv32, isIcs: bool): bv32
  {
    var g := if gravity & RELATIVE_HORIZONTAL_GRAVITY_MASK == 0 then gravity | (if isIcs then START else LEFT) else gravity;
    if g & VERTICAL_GRAVITY_MASK == 0 then g | TOP else g
  }

  /** The completed gravity has both parts; a part that was present is
      kept, a missing one is the default. */
  lemma CompleteGravityFills(gravity: bv32, isIcs: bool)
    ensures var r := CompleteGravity(gravity, isIcs);
      && r & RELATIVE_HORIZONTAL_GRAVITY_MASK != 0
      && r & VERTICAL_GRAVITY_MASK != 0
      && (gravity & RELATIVE_HORIZONTAL_GRAVITY_MASK != 0 ==>
            r & RELATIVE_HORIZONTAL_GRAVITY_MASK == gravity & RELATIVE_HORIZONTAL_GRAVITY_MASK)
      && (gravity & RELATIVE_HORIZONTAL_GRAVITY_MASK == 0 ==>
            r & RELATIVE_HORIZONTAL_GRAVITY_MASK == (if isIcs then START else LEFT))
      && (gravity & VERTICAL_GRAVITY_MASK != 0 ==> r & VERTICAL_GRAVITY_MASK == gravity & VERTICAL_GRAVITY_MASK)
      && (gravity & VERTICAL_GRAVITY_MASK == 0 ==> r & VERTICAL_GRAVITY_MASK == TOP)
  {
  }

  /** A completed gravity needs no further completion. */
  lemma CompleteGravityIdempotent(gravity: bv32, isIcs: bool)
    ensures CompleteGravity(CompleteGravity(gravity, isIcs), isIcs) == CompleteGravity(gravity, isIcs)
  {
  }

  /** Where a layout's gravity puts the lines: the factor 0, 0.5 or 1 of
      the spare room that `onLayout` picks from the gravity before placing
      anything. */
  datatype Alignment = Start | Middle | End

  /** The horizontal part of the gravity: CENTER_HORIZONTAL and RIGHT are
      recognised, anything else (LEFT included) counts as the left edge. */
  function HorizontalAlignment(gravity: bv32): Alignment
  {
    var h := gravity & HORIZONTAL_GRAVITY_MASK;
    if h == CENTER_HORIZONTAL then Middle else if h == RIGHT then End else Start
  }

  /** The vertical part of the gravity: CENTER_VERTICAL and BOTTOM are
      recognised, anything else (TOP included) counts as the top edge. */
  function VerticalAlignment(gravity: bv32): Alignment
  {
    var v := gravity & VERTICAL_GRAVITY_MASK;
    if v == CENTER_VERTICAL then Middle else if v == BOTTOM then End else Start
  }

  /** The share of `spare` room an alignment puts before the content. The
      source multiplies by a float factor and truncates toward zero, which
      for 0.5 is Java's integer division by 2; the vertical offset is that
      integer division in the source. */
  function Offset(a: Alignment, spare: int): int
  {
    match a
    case Start => 0
    case Middle => JavaDiv(spare, 2)
    case End => spare
  }

  /** Start leaves the content against the first edge, End against the
      second, Middle in the centre to within the truncation. */
  lemma OffsetAligns(a: Alignment, spare: int)
    ensures var r := Offset(a, spare);
      && (a == Start ==> r == 0)
      && (a == End ==> r == spare)
      && (a == Middle ==> -1 <= 2 * r - spare <= 1 && (spare >= 0 ==> 0 <= r <= spare))
  {
    if a == Middle {
      JavaDivTruncates(spare, 2);
    }
  }

  /** The horizontal offset of a line of width `lineWidth` in a layout of
      width `width`. */
  function HorizontalOffset(gravity: bv32, width: int, lineWidth: int): int
  {
    Offset(HorizontalAlignment(gravity), width - lineWidth)
  }

  /** RIGHT puts the line against the right edge, CENTER_HORIZONTAL in the
      middle (to within the truncation), anything else against the left. */
  lemma HorizontalOffsetAligns(gravity: bv32, width: int, lineWidth: int)
    ensures var r := HorizontalOffset(gravity, width, lineWidth);
      && (gravity & HORIZONTAL_GRAVITY_MASK == RIGHT ==> r + lineWidth == width)
      && (gravity & HORIZONTAL_GRAVITY_MASK == CENTER_HORIZONTAL ==> -1 <= 2 * r - (width - lineWidth) <= 1)
      && (gravity & HORIZONTAL_GRAVITY_MASK !in {RIGHT, CENTER_HORIZONTAL} ==> r == 0)
  {
    OffsetAligns(HorizontalAlignment(gravity), width - lineWidth);
  }

  /** The vertical offset of all lines together, whose heights and the top
      padding add up to `linesSum`. */
  function VerticalOffset(gravity: bv32, height: int, linesSum: int): int
  {
    Offset(VerticalAlignment(gravity), height - linesSum)
  }

  /** BOTTOM puts the last line against the bottom, CENTER_VERTICAL the
      block in the middle (to within the truncation), anything else leaves
      the first line at the top padding. */
  lemma VerticalOffsetAligns(gravity: bv32, height: int, linesSum: int)
    ensures var r := VerticalOffset(gravity, height, linesSum);
      && (gravity & VERTICAL_GRAVITY_MASK == BOTTOM ==> r + linesSum == height)
      && (gravity & VERTICAL_GRAVITY_MASK == CENTER_VERTICAL ==> -1 <= 2 * r - (height - linesSum) <= 1)
      && (gravity & VERTICAL_GRAVITY_MASK !in {BOTTOM, CENTER_VERTICAL} ==> r == 0)
  {
    OffsetAligns(VerticalAlignment(gravity), height - linesSum);
  }

  /** `Gravity.isVertical`: a positive value with a vertical part. */
  predicate IsVertical(gravity: bv32)
  {
    0 < gravity < 0x8000_0000 && gravity & VERTICAL_GRAVITY_MASK != 0
  }

  /** A child's offset within its line. Only the exact values TOP,
      CENTER_VERTICAL, CENTER and BOTTOM are recognised. */
  function ChildOffset(c: Child, lineHeight: int): int
  {
    Offset(ChildAlignment(c.gravity), lineHeight - c.measuredHeight - c.topMargin - c.bottomMargin)
  }

  /** The alignment a child's own gravity asks for within its line. */
  function ChildAlignment(gravity: bv32): Alignment
  {
    if IsVertical(gravity) then
      if gravity == CENTER_VERTICAL || gravity == CENTER then Middle
      else if gravity == BOTTOM then End
      else Start
    else Start
  }

  /** BOTTOM puts the child against the bottom of its line, CENTER_VERTICAL
      and CENTER in the middle (to within the truncation), anything else
      against the top. */
  lemma ChildOffsetAligns(c: Child, lineHeight: int)
    ensures var r := ChildOffset(c, lineHeight);
      && (c.gravity == BOTTOM ==> r + OuterHeight(c) == lineHeight)
      && (c.gravity == CENTER_VERTICAL || c.gravity == CENTER ==> -1 <= 2 * r - (lineHeight - OuterHeight(c)) <= 1)
      && (c.gravity !in {BOTTOM, CENTER_VERTICAL, CENTER} ==> r == 0)
  {
    OffsetAligns(ChildAlignment(c.gravity), lineHeight - c.measuredHeight - c.topMargin - c.bottomMargin);
  }

  // Placement

  /** A `child.layout(left, top, right, bottom)` call. */
  datatype Frame = Frame(child: Child, left: int, top: int, right: int, bottom: int)

  /** The frames of one line's children, placed from `left` rightwards. */
  function LineFrames(views: seq<Child>, left: int, top: int, lineHeight: int, verticalOffset: int): (r: seq<Frame>)
    decreases |views|
  {
    if views == [] then []
    else
      var c := views[0];
      if c.gone then LineFrames(views[1..], left, top, lineHeight, verticalOffset)
      else
        var y := top + c.topMargin + ChildOffset(c, lineHeight) + verticalOffset;
        [Frame(c, left + c.leftMargin, y, left + c.measuredWidth + c.leftMargin, y + c.measuredHeight)]
        + LineFrames(views[1..], left + OuterWidth(c), top, lineHeight, verticalOffset)
  }

  /** The frames of all lines, each line starting `heights` further down. */
  function AllFrames(lines: seq<seq<Child>>, heights: seq<int>, margins: seq<int>, top: int, verticalOffset: int)
    : seq<Frame>
    requires |lines| == |heights| == |margins|
    decreases |lines|
  {
    if lines == [] then []
    else
      var first := LineFrames(lines[0], margins[0], top, heights[0], verticalOffset);
      first + AllFrames(lines[1..], heights[1..], margins[1..], top + heights[0], verticalOffset)
  }

  lemma SumOuterWidthsCons(c: Child, s: seq<Child>)
    ensures SumOuterWidths([c] + s) == OuterWidth(c) + SumOuterWidths(s)
    decreases |s|
  {
    if s != [] {
      var t := [c] + s;
      assert t[..|t| - 1] == [c] + s[..|s| - 1];
      SumOuterWidthsCons(c, s[..|s| - 1]);
    }
  }

  /** Child `j` of a line of visible children sits after the outer widths of
      the children before it, and is as wide and as high as measured. */
  lemma {:induction false} LineFrameAt(views: seq<Child>, left: int, top: int, lineHeight: int, verticalOffset: int, j: nat)
    requires forall c :: c in views ==> !c.gone
    requires j < |views|
    ensures |LineFrames(views, left, top, lineHeight, verticalOffset)| == |views|
    ensures var fr := LineFrames(views, left, top, lineHeight, verticalOffset)[j];
      var c := views[j];
      && fr.child == c
      && fr.left == left + SumOuterWidths(views[..j]) + c.leftMargin
      && fr.right == fr.left + c.measuredWidth
      && fr.top == top + c.topMargin + ChildOffset(c, lineHeight) + verticalOffset
      && fr.bottom == fr.top + c.measuredHeight
    decreases |views|
  {
    var c := views[0];
    var rest := views[1..];
    if j == 0 {
      if rest != [] {
        LineFrameAt(rest, left + OuterWidth(c), top, lineHeight, verticalOffset, 0);
      }
    } else {
      LineFrameAt(rest, left + OuterWidth(c), top, lineHeight, verticalOffset, j - 1);
      assert views[..j] == [c] + rest[..j - 1];
      SumOuterWidthsCons(c, rest[..j - 1]);
    }
  }

  function Sum(s: seq<int>): int
  {
    if s == [] then 0 else Sum(s[..|s| - 1]) + s[|s| - 1]
  }

  lemma SumAppend(s: seq<int>, x: int)
    ensures Sum(s + [x]) == Sum(s) + x
  {
    assert (s + [x])[..|s|] == s;
  }

  /** The recorded heights add up to the height of the lines. */
  lemma {:induction false} SumOfHeights(ls: seq<Line>)
    ensures Sum(Heights(ls)) == SumHeights(ls)
    decreases |ls|
  {
    if ls != [] {
      SumOfHeights(ls[..|ls| - 1]);
      SumAppend(Heights(ls[..|ls| - 1]), ls[|ls| - 1].height);
    }
  }

  lemma SumCons(x: int, s: seq<int>)
    ensures Sum([x] + s) == x + Sum(s)
    decreases |s|
  {
    if s != [] {
      var t := [x] + s;
      assert t[..|t| - 1] == [x] + s[..|s| - 1];
      SumCons(x, s[..|s| - 1]);
    }
  }

  /** Line `i` starts below the heights of the lines before it. */
  lemma AllFramesSplit(lines: seq<seq<Child>>, heights: seq<int>, margins: seq<int>, top: int,
                       verticalOffset: int, i: nat)
    requires |lines| == |heights| == |margins|
    requires i <= |lines|
    ensures AllFrames(lines, heights, margins, top, verticalOffset)
         == AllFrames(lines[..i], heights[..i], margins[..i], top, verticalOffset)
          + AllFrames(lines[i..], heights[i..], margins[i..], top + Sum(heights[..i]), verticalOffset)
  {
    AllFramesSplitAt(lines, heights, margins, top, verticalOffset, i, top + Sum(heights[..i]));
  }

  /** AllFramesSplit with the top of line `i` named `mid`. */
  lemma {:induction false} AllFramesSplitAt(lines: seq<seq<Child>>, heights: seq<int>, margins: seq<int>, top: int,
                                            verticalOffset: int, i: nat, mid: int)
    requires |lines| == |heights| == |margins|
    requires i <= |lines| && mid == top + Sum(heights[..i])
    ensures AllFrames(lines, heights, margins, top, verticalOffset)
         == AllFrames(lines[..i], heights[..i], margins[..i], top, verticalOffset)
          + AllFrames(lines[i..], heights[i..], margins[i..], mid, verticalOffset)
    decreases i
  {
    if i == 0 {
      assert lines[..0] == [] && heights[..0] == [];
      assert lines[0..] == lines && heights[0..] == heights && margins[0..] == margins;
    } else {
      assert heights[..i] == [heights[0]] + heights[1..][..i - 1];
      SumCons(heights[0], heights[1..][..i - 1]);
      AllFramesSplitAt(lines[1..], heights[1..], margins[1..], top + heights[0], verticalOffset, i - 1, mid);
      assert lines[..i][1..] == lines[1..][..i - 1];
      assert heights[..i][1..] == heights[1..][..i - 1];
      assert margins[..i][1..] == margins[1..][..i - 1];
      assert lines[1..][i - 1..] == lines[i..];
      assert heights[1..][i - 1..] == heights[i..];
      assert margins[1..][i - 1..] == margins[i..];
      AppendAssoc(LineFrames(lines[0], margins[0], top, heights[0], verticalOffset),
                  AllFrames(lines[1..][..i - 1], heights[1..][..i - 1], margins[1..][..i - 1], top + heights[0], verticalOffset),
                  AllFrames(lines[i..], heights[i..], margins[i..], mid, verticalOffset));
    }
  }

  // Measuring

  /** `View.MeasureSpec`, unpacked: a size and a mode. */
  datatype Mode = Unspecified | Exactly | AtMost
  datatype MeasureSpec = MeasureSpec(size: int, mode: Mode)

  /** The width and height specs `onMeasure` hands a visible child. A
      MATCH_PARENT width gets the whole content width less the child's
      horizontal margins, a fixed size is exact, anything else is a bound;
      an unset height is unconstrained when the layout's own height is. */
  function ChildSpecs(c: Child, sizeWidth: int, sizeHeight: int, modeHeight: Mode): (r: (MeasureSpec, MeasureSpec))
    ensures r.0.mode == Exactly <==> c.width == MATCH_PARENT || c.width >= 0
    ensures c.width == MATCH_PARENT ==> r.0.size == sizeWidth - c.leftMargin - c.rightMargin
    ensures c.width >= 0 ==> r.0.size == c.width
    ensures r.0.mode == AtMost ==> r.0.size == sizeWidth
    ensures r.1.mode == Exactly <==> c.height >= 0
    ensures c.height >= 0 ==> r.1.size == c.height
    ensures r.1.mode == Unspecified <==> c.height < 0 && modeHeight == Unspecified
    ensures r.1.mode == AtMost ==> r.1.size == sizeHeight
  {
    var widthSpec :=
      if c.width == MATCH_PARENT then MeasureSpec(sizeWidth - (c.leftMargin + c.rightMargin), Exactly)
      else if c.width >= 0 then MeasureSpec(c.width, Exactly)
      else MeasureSpec(sizeWidth, AtMost);
    var heightSpec :=
      if c.height >= 0 then MeasureSpec(c.height, Exactly)
      else if modeHeight == Unspecified then MeasureSpec(0, Unspecified)
      else MeasureSpec(sizeHeight, AtMost);
    (widthSpec, heightSpec)
  }

  /** The specs handed to the visible children of `cs`, in order. */
  function ChildSpecsFor(cs: seq<Child>, sizeWidth: int, sizeHeight: int, modeHeight: Mode): seq<(MeasureSpec, MeasureSpec)>
  {
    if cs == [] then []
    else
      var here := if cs[0].gone then [] else [ChildSpecs(cs[0], sizeWidth, sizeHeight, modeHeight)];
      here + ChildSpecsFor(cs[1..], sizeWidth, sizeHeight, modeHeight)
  }

  /** `onMeasure`'s running totals: the widest line so far, the height so
      far, and the current line's width and height. */
  datatype Measure = Measure(width: int, height: int, lineWidth: int, lineHeight: int)

  /** One child in `onMeasure`; the last child, GONE or not, closes the
      current line. */
  function MeasureStep(m: Measure, c: Child, sizeWidth: int, last: bool): Measure
  {
    var m' :=
      if c.gone then m
      else if m.lineWidth + OuterWidth(c) > sizeWidth then
        Measure(Max(m.width, m.lineWidth), m.height + m.lineHeight, OuterWidth(c), OuterHeight(c))
      else Measure(m.width, m.height, m.lineWidth + OuterWidth(c), Max(m.lineHeight, OuterHeight(c)));
    if last then Measure(Max(m'.width, m'.lineWidth), m'.height + m'.lineHeight, m'.lineWidth, m'.lineHeight)
    else m'
  }

  function MeasureFrom(m: Measure, cs: seq<Child>, sizeWidth: int): Measure
    decreases |cs|
  {
    if cs == [] then m
    else MeasureFrom(MeasureStep(m, cs[0], sizeWidth, |cs| == 1), cs[1..], sizeWidth)
  }

  predicate HeightsNonNegative(cs: seq<Child>)
  {
    forall c :: c in cs && !c.gone ==> OuterHeight(c) >= 0
  }

  /** `onMeasure`'s totals stand for the lines `onLayout` builds. */
  predicate Tracks(m: Measure, f: Flow, padding: int)
  {
    m.height == padding + SumHeights(f.closed)
    && m.lineWidth == f.current.width
    && m.lineHeight == f.current.height
    && f.current.height >= 0
  }

  lemma SumHeightsAppend(lines: seq<Line>, l: Line)
    ensures SumHeights(lines + [l]) == SumHeights(lines) + l.height
  {
    assert (lines + [l])[..|lines|] == lines;
  }

  lemma MeasureStepTracks(m: Measure, f: Flow, c: Child, sizeWidth: int, padding: int)
    requires Tracks(m, f, padding)
    requires !c.gone ==> OuterHeight(c) >= 0
    ensures var f' := if c.gone then f else Place(f, c, sizeWidth);
      Tracks(MeasureStep(m, c, sizeWidth, false), f', padding)
  {
    if !c.gone && m.lineWidth + OuterWidth(c) > sizeWidth {
      SumHeightsAppend(f.closed, f.current);
    }
  }

  lemma {:induction false} MeasureTracksFlow(m: Measure, f: Flow, cs: seq<Child>, sizeWidth: int, padding: int)
    requires cs != []
    requires Tracks(m, f, padding)
    requires HeightsNonNegative(cs)
    ensures MeasureFrom(m, cs, sizeWidth).height == padding + SumHeights(AllLines(FlowFrom(f, cs, sizeWidth)))
    decreases |cs|
  {
    var c := cs[0];
    var f' := if c.gone then f else Place(f, c, sizeWidth);
    MeasureStepTracks(m, f, c, sizeWidth, padding);
    var m' := MeasureStep(m, c, sizeWidth, false);
    if |cs| == 1 {
      assert MeasureStep(m, c, sizeWidth, true).height == m'.height + m'.lineHeight;
      SumHeightsAppend(f'.closed, f'.current);
    } else {
      MeasureTracksFlow(m', f', cs[1..], sizeWidth, padding);
    }
  }

  /** When no visible child has a negative outer height, the height
      `onMeasure` adds up is the sum of the heights of the lines `onLayout`
      builds for the same width. */
  lemma MeasuredHeightIsLineSum(cs: seq<Child>, sizeWidth: int, padding: int)
    requires HeightsNonNegative(cs)
    ensures MeasureFrom(Measure(0, padding, 0, 0), cs, sizeWidth).height == padding + SumHeights(Lines(cs, sizeWidth))
  {
    if cs == [] {
      SumHeightsAppend([], EmptyLine);
    } else {
      MeasureTracksFlow(Measure(0, padding, 0, 0), Flow([], EmptyLine), cs, sizeWidth, padding);
    }
  }

  /** The widest of the lines, and 0 for no line. */
  function MaxLineWidth(lines: seq<Line>): int
  {
    if lines == [] then 0 else Max(MaxLineWidth(lines[..|lines| - 1]), lines[|lines| - 1].width)
  }

  lemma MaxLineWidthAppend(lines: seq<Line>, l: Line)
    ensures MaxLineWidth(lines + [l]) == Max(MaxLineWidth(lines), l.width)
  {
    assert (lines + [l])[..|lines|] == lines;
  }

  /** `onMeasure`'s widest line and current line width stand for the
      lines `onLayout` builds. */
  predicate TracksWidth(m: Measure, f: Flow)
  {
    m.width == MaxLineWidth(f.closed) && m.lineWidth == f.current.width
  }

  lemma MeasureStepTracksWidth(m: Measure, f: Flow, c: Child, sizeWidth: int)
    requires TracksWidth(m, f)
    ensures var f' := if c.gone then f else Place(f, c, sizeWidth);
      TracksWidth(MeasureStep(m, c, sizeWidth, false), f')
  {
    if !c.gone && m.lineWidth + OuterWidth(c) > sizeWidth {
      MaxLineWidthAppend(f.closed, f.current);
    }
  }

  lemma {:induction false} MeasureWidthFlow(m: Measure, f: Flow, cs: seq<Child>, sizeWidth: int)
    requires cs != []
    requires TracksWidth(m, f)
    ensures MeasureFrom(m, cs, sizeWidth).width == MaxLineWidth(AllLines(FlowFrom(f, cs, sizeWidth)))
    decreases |cs|
  {
    var c := cs[0];
    var f' := if c.gone then f else Place(f, c, sizeWidth);
    MeasureStepTracksWidth(m, f, c, sizeWidth);
    var m' := MeasureStep(m, c, sizeWidth, false);
    if |cs| == 1 {
      assert MeasureStep(m, c, sizeWidth, true).width == Max(m'.width, m'.lineWidth);
      MaxLineWidthAppend(f'.closed, f'.current);
    } else {
      MeasureWidthFlow(m', f', cs[1..], sizeWidth);
    }
  }

  /** The width `onMeasure` finds is the width of the widest line
      `onLayout` builds for the same width (and at least 0). */
  lemma MeasuredWidthIsWidestLine(cs: seq<Child>, sizeWidth: int, padding: int)
    ensures MeasureFrom(Measure(0, padding, 0, 0), cs, sizeWidth).width == MaxLineWidth(Lines(cs, sizeWidth))
  {
    if cs == [] {
      MaxLineWidthAppend([], EmptyLine);
    } else {
      MeasureWidthFlow(Measure(0, padding, 0, 0), Flow([], EmptyLine), cs, sizeWidth);
    }
  }

  // The view

  /** The children, heights and left edges of the lines, as the three
      lists `onLayout` keeps. */
  function Views(ls: seq<Line>): (r: seq<seq<Child>>)
    ensures |r| == |ls|
  {
    if ls == [] then [] else Views(ls[..|ls| - 1]) + [ls[|ls| - 1].views]
  }

  function Heights(ls: seq<Line>): (r: seq<int>)
    ensures |r| == |ls|
  {
    if ls == [] then [] else Heights(ls[..|ls| - 1]) + [ls[|ls| - 1].height]
  }

  /** Each line's left edge: its share of the room it leaves, plus the
      left padding. */
  function Margins(ls: seq<Line>, align: Alignment, width: int, paddingLeft: int): (r: seq<int>)
    ensures |r| == |ls|
  {
    if ls == [] then []
    else
      var last := Offset(align, width - ls[|ls| - 1].width) + paddingLeft;
      Margins(ls[..|ls| - 1], align, width, paddingLeft) + [last]
  }

  lemma LineListsAppend(ls: seq<Line>, l: Line, align: Alignment, width: int, paddingLeft: int)
    ensures Views(ls + [l]) == Views(ls) + [l.views]
    ensures Heights(ls + [l]) == Heights(ls) + [l.height]
    ensures Margins(ls + [l], align, width, paddingLeft)
         == Margins(ls, align, width, paddingLeft) + [Offset(align, width - l.width) + paddingLeft]
  {
    assert (ls + [l])[..|ls|] == ls;
  }

  /** Entry `k` of each list is about line `k`. */
  lemma {:induction false} LineListsAt(ls: seq<Line>, align: Alignment, width: int, paddingLeft: int, k: nat)
    requires k < |ls|
    ensures Views(ls)[k] == ls[k].views && Heights(ls)[k] == ls[k].height
    ensures Margins(ls, align, width, paddingLeft)[k] == Offset(align, width - ls[k].width) + paddingLeft
    decreases |ls|
  {
    if k < |ls| - 1 {
      LineListsAt(ls[..|ls| - 1], align, width, paddingLeft, k);
    }
  }

  /** The children the frames are for, in order. */
  function Placed(frames: seq<Frame>): (r: seq<Child>)
    ensures |r| == |frames| && forall k :: 0 <= k < |frames| ==> r[k] == frames[k].child
  {
    seq(|frames|, k requires 0 <= k < |frames| => frames[k].child)
  }

  lemma PlacedAppend(a: seq<Frame>, b: seq<Frame>)
    ensures Placed(a + b) == Placed(a) + Placed(b)
  {
    assert Placed(a + b) == Placed(a) + Placed(b);
  }

  lemma {:induction false} LineFramesPlace(views: seq<Child>, left: int, top: int, lineHeight: int, verticalOffset: int)
    ensures Placed(LineFrames(views, left, top, lineHeight, verticalOffset)) == Visible(views)
    decreases |views|
  {
    if views != [] {
      var c := views[0];
      var next := if c.gone then left else left + OuterWidth(c);
      var rest := LineFrames(views[1..], next, top, lineHeight, verticalOffset);
      LineFramesPlace(views[1..], next, top, lineHeight, verticalOffset);
      assert Visible(views) == (if c.gone then [] else [c]) + Visible(views[1..]);
      if !c.gone {
        var y := top + c.topMargin + ChildOffset(c, lineHeight) + verticalOffset;
        var fr := Frame(c, left + c.leftMargin, y, left + c.measuredWidth + c.leftMargin, y + c.measuredHeight);
        assert LineFrames(views, left, top, lineHeight, verticalOffset) == [fr] + rest;
        PlacedAppend([fr], rest);
        assert Placed([fr]) == [c];
      } else {
        assert LineFrames(views, left, top, lineHeight, verticalOffset) == rest;
      }
    }
  }

  /** The views of lines with no GONE child, one line after the other. */
  function Joined(lines: seq<seq<Child>>): seq<Child>
    decreases |lines|
  {
    if lines == [] then [] else lines[0] + Joined(lines[1..])
  }

  lemma {:induction false} AllFramesPlace(lines: seq<seq<Child>>, heights: seq<int>, margins: seq<int>, top: int, verticalOffset: int)
    requires |lines| == |heights| == |margins|
    requires forall k, c :: 0 <= k < |lines| && c in lines[k] ==> !c.gone
    ensures Placed(AllFrames(lines, heights, margins, top, verticalOffset)) == Joined(lines)
    decreases |lines|
  {
    if lines != [] {
      LineFramesPlace(lines[0], margins[0], top, heights[0], verticalOffset);
      VisibleWhenNoneGone(lines[0]);
      assert forall k :: 0 <= k < |lines[1..]| ==> lines[1..][k] == lines[k + 1];
      AllFramesPlace(lines[1..], heights[1..], margins[1..], top + heights[0], verticalOffset);
      AllFramesCons(lines, heights, margins, top, verticalOffset);
      assert Joined(lines) == lines[0] + Joined(lines[1..]);
    }
  }

  /** The children placed for the first line, then those for the rest. */
  lemma AllFramesCons(lines: seq<seq<Child>>, heights: seq<int>, margins: seq<int>, top: int, verticalOffset: int)
    requires |lines| == |heights| == |margins| && lines != []
    ensures Placed(AllFrames(lines, heights, margins, top, verticalOffset))
      == Placed(LineFrames(lines[0], margins[0], top, heights[0], verticalOffset))
         + Placed(AllFrames(lines[1..], heights[1..], margins[1..], top + heights[0], verticalOffset))
  {
    PlacedAppend(LineFrames(lines[0], margins[0], top, heights[0], verticalOffset),
                 AllFrames(lines[1..], heights[1..], margins[1..], top + heights[0], verticalOffset));
  }

  lemma {:induction false} JoinedViews(ls: seq<Line>)
    ensures Joined(Views(ls)) == Concat(ls)
    decreases |ls|
  {
    if ls != [] {
      var init := ls[..|ls| - 1];
      var last := ls[|ls| - 1];
      assert ls == init + [last];
      JoinedViewsAppend(init, last);
      JoinedViews(init);
    }
  }

  lemma {:induction false} JoinedViewsAppend(ls: seq<Line>, l: Line)
    ensures Joined(Views(ls + [l])) == Joined(Views(ls)) + l.views
    decreases |ls|
  {
    LineListsAppend(ls, l, Start, 0, 0);
    JoinedAppend(Views(ls), l.views);
  }

  lemma {:induction false} JoinedAppend(lines: seq<seq<Child>>, v: seq<Child>)
    ensures Joined(lines + [v]) == Joined(lines) + v
    decreases |lines|
  {
    if lines == [] {
      assert [v][1..] == [];
    } else {
      assert (lines + [v])[1..] == lines[1..] + [v];
      JoinedAppend(lines[1..], v);
      AppendAssoc(lines[0], Joined(lines[1..]), v);
    }
  }

  lemma VisibleWhenNoneGone(cs: seq<Child>)
    requires forall c :: c in cs ==> !c.gone
    ensures Visible(cs) == cs
  {
  }

  /** `onLayout` places every visible child exactly once, in the order of
      the children, line after line. */
  lemma FramesPlaceVisibleChildren(cs: seq<Child>, width: int, align: Alignment, paddingLeft: int, top: int, verticalOffset: int)
    ensures var ls := Lines(cs, width);
      Placed(AllFrames(Views(ls), Heights(ls), Margins(ls, align, width, paddingLeft), top, verticalOffset)) == Visible(cs)
  {
    var ls := Lines(cs, width);
    var views := Views(ls);
    forall k | 0 <= k < |views|
      ensures forall c: Child :: c in views[k] ==> !c.gone
    {
      LineListsAt(ls, align, width, paddingLeft, k);
      LinesVisible(cs, width, k);
    }
    AllFramesPlace(views, Heights(ls), Margins(ls, align, width, paddingLeft), top, verticalOffset);
    JoinedViews(ls);
    LinesKeepChildren(cs, width);
  }

  /** No recorded line holds a GONE child. */
  lemma LinesVisible(cs: seq<Child>, width: int, k: nat)
    requires k < |Lines(cs, width)|
    ensures forall c :: c in Lines(cs, width)[k].views ==> !c.gone
  {
    var ls := Lines(cs, width);
    LinesKeepChildren(cs, width);
    ConcatHas(ls, k);
  }

  lemma {:induction false} ConcatHas(ls: seq<Line>, k: nat)
    requires k < |ls|
    ensures forall c :: c in ls[k].views ==> c in Concat(ls)
    decreases |ls|
  {
    if k < |ls| - 1 {
      ConcatHas(ls[..|ls| - 1], k);
    }
  }

  /** What `onLayout` leaves behind: the three line lists and the
      `child.layout` calls, in order. */
  datatype Arrangement = Arrangement(lines: seq<seq<Child>>, lineHeights: seq<int>, lineMargins: seq<int>, frames: seq<Frame>)

  /** The arrangement of `cs` in a view of `width` by `height`: the lines
      of `Lines`, each line's left edge from the horizontal gravity, and
      every line moved down by the vertical gravity's share of the room the
      lines and the top padding leave. */
  function Arrange(cs: seq<Child>, gravity: bv32, width: int, height: int, paddingLeft: int, paddingTop: int): Arrangement
  {
    var ls := Lines(cs, width);
    var views := Views(ls);
    var heights := Heights(ls);
    var margins := Margins(ls, HorizontalAlignment(gravity), width, paddingLeft);
    Arrangement(views, heights, margins,
                AllFrames(views, heights, margins, paddingTop, VerticalOffset(gravity, height, paddingTop + SumHeights(ls))))
  }

  /** Every visible child is laid out exactly once, in the order of the
      children, and no GONE child is. */
  lemma ArrangeLaysOutVisibleChildren(cs: seq<Child>, gravity: bv32, width: int, height: int, paddingLeft: int, paddingTop: int)
    ensures Placed(Arrange(cs, gravity, width, height, paddingLeft, paddingTop).frames) == Visible(cs)
  {
    var ls := Lines(cs, width);
    var align := HorizontalAlignment(gravity);
    var offset := VerticalOffset(gravity, height, paddingTop + SumHeights(ls));
    assert Arrange(cs, gravity, width, height, paddingLeft, paddingTop).frames
        == AllFrames(Views(ls), Heights(ls), Margins(ls, align, width, paddingLeft), paddingTop, offset);
    FramesPlaceVisibleChildren(cs, width, align, paddingLeft, paddingTop, offset);
  }

  /** `onLayout`'s local state while it breaks lines: the three lists
      filled so far, the running `linesSum`, and the line being filled. */
  datatype Breaking = Breaking(lines: seq<seq<Child>>, lineHeights: seq<int>, lineMargins: seq<int>, linesSum: int,
                               lineViews: seq<Child>, lineWidth: int, lineHeight: int)

  /** Finishing the current line: its children, height and margin are
      recorded, its height is added to `linesSum`, and a new line begins. */
  function Record(b: Breaking, align: Alignment, width: int, paddingLeft: int): Breaking
  {
    Breaking(b.lines + [b.lineViews], b.lineHeights + [b.lineHeight],
             b.lineMargins + [Offset(align, width - b.lineWidth) + paddingLeft], b.linesSum + b.lineHeight,
             [], 0, 0)
  }

  /** One child of the first loop of `onLayout`. */
  function BreakStep(b: Breaking, c: Child, align: Alignment, width: int, paddingLeft: int): Breaking
  {
    if c.gone then b
    else
      var b' := if b.lineWidth + OuterWidth(c) > width then Record(b, align, width, paddingLeft) else b;
      b'.(lineViews := b'.lineViews + [c], lineWidth := b'.lineWidth + OuterWidth(c),
          lineHeight := Max(b'.lineHeight, OuterHeight(c)))
  }

  function BreakFrom(b: Breaking, cs: seq<Child>, align: Alignment, width: int, paddingLeft: int): Breaking
    decreases |cs|
  {
    if cs == [] then b else BreakFrom(BreakStep(b, cs[0], align, width, paddingLeft), cs[1..], align, width, paddingLeft)
  }

  lemma BreakFromAt(b: Breaking, cs: seq<Child>, i: int, align: Alignment, width: int, paddingLeft: int)
    requires 0 <= i < |cs|
    ensures BreakFrom(b, cs[i..], align, width, paddingLeft)
         == BreakFrom(BreakStep(b, cs[i], align, width, paddingLeft), cs[i + 1..], align, width, paddingLeft)
  {
    assert cs[i..][1..] == cs[i + 1..];
  }

  /** `onLayout`'s state after the first loop and the last line. */
  function Broken(cs: seq<Child>, align: Alignment, width: int, paddingLeft: int, paddingTop: int): Breaking
  {
    Record(BreakFrom(Breaking([], [], [], paddingTop, [], 0, 0), cs, align, width, paddingLeft), align, width, paddingLeft)
  }

  /** The local state stands for the finished lines and the current one. */
  predicate Mirrors(b: Breaking, f: Flow, align: Alignment, width: int, paddingLeft: int, paddingTop: int)
  {
    && b.lines == Views(f.closed)
    && b.lineHeights == Heights(f.closed)
    && b.lineMargins == Margins(f.closed, align, width, paddingLeft)
    && b.linesSum == paddingTop + Sum(b.lineHeights)
    && b.lineViews == f.current.views && b.lineWidth == f.current.width && b.lineHeight == f.current.height
  }

  lemma RecordMirrors(b: Breaking, f: Flow, align: Alignment, width: int, paddingLeft: int, paddingTop: int)
    requires Mirrors(b, f, align, width, paddingLeft, paddingTop)
    ensures Mirrors(Record(b, align, width, paddingLeft), Flow(AllLines(f), EmptyLine), align, width, paddingLeft, paddingTop)
  {
    LineListsAppend(f.closed, f.current, align, width, paddingLeft);
    SumAppend(b.lineHeights, b.lineHeight);
  }

  lemma BreakStepMirrors(b: Breaking, f: Flow, c: Child, align: Alignment, width: int, paddingLeft: int, paddingTop: int)
    requires Mirrors(b, f, align, width, paddingLeft, paddingTop)
    ensures Mirrors(BreakStep(b, c, align, width, paddingLeft), if c.gone then f else Place(f, c, width),
                    align, width, paddingLeft, paddingTop)
  {
    if !c.gone && b.lineWidth + OuterWidth(c) > width {
      RecordMirrors(b, f, align, width, paddingLeft, paddingTop);
    }
  }

  lemma {:induction false} BreakFromMirrors(b: Breaking, f: Flow, cs: seq<Child>, align: Alignment, width: int,
                                            paddingLeft: int, paddingTop: int)
    requires Mirrors(b, f, align, width, paddingLeft, paddingTop)
    ensures Mirrors(BreakFrom(b, cs, align, width, paddingLeft), FlowFrom(f, cs, width), align, width, paddingLeft, paddingTop)
    decreases |cs|
  {
    if cs != [] {
      BreakStepMirrors(b, f, cs[0], align, width, paddingLeft, paddingTop);
      BreakFromMirrors(BreakStep(b, cs[0], align, width, paddingLeft), if cs[0].gone then f else Place(f, cs[0], width),
                       cs[1..], align, width, paddingLeft, paddingTop);
    }
  }

  /** The lists `onLayout` fills are those of the lines `Lines` describes,
      and `linesSum` is the top padding plus their heights. */
  lemma BrokenIsLines(cs: seq<Child>, align: Alignment, width: int, paddingLeft: int, paddingTop: int)
    ensures var b := Broken(cs, align, width, paddingLeft, paddingTop);
      var ls := Lines(cs, width);
      && b.lines == Views(ls)
      && b.lineHeights == Heights(ls)
      && b.lineMargins == Margins(ls, align, width, paddingLeft)
      && b.linesSum == paddingTop + SumHeights(ls)
  {
    var init := Breaking([], [], [], paddingTop, [], 0, 0);
    var f := FlowFrom(Flow([], EmptyLine), cs, width);
    BreakFromMirrors(init, Flow([], EmptyLine), cs, align, width, paddingLeft, paddingTop);
    RecordMirrors(BreakFrom(init, cs, align, width, paddingLeft), f, align, width, paddingLeft, paddingTop);
    SumOfHeights(Lines(cs, width));
  }

  /** `FlowLayout`: the children, the gravity and the three line lists
      `onLayout` fills, with the `child.layout` calls it makes and the
      `requestLayout` calls of `setGravity` recorded. */
  class FlowLayout {
    const isIcs: bool
    const paddingLeft: int
    const paddingTop: int
    const paddingRight: int
    const paddingBottom: int
    var children: seq<Child>
    var gravity: bv32
    var lines: seq<seq<Child>>
    var lineHeights: seq<int>
    var lineMargins: seq<int>
    var frames: seq<Frame>
    var layoutRequests: nat

    /** The three-argument constructor: a positive gravity attribute is
        applied through `setGravity`. */
    constructor(isIcs: bool, paddingLeft: int, paddingTop: int, paddingRight: int, paddingBottom: int,
                children: seq<Child>, gravityAttribute: int)
      requires gravityAttribute < 0x8000_0000
      ensures this.isIcs == isIcs && this.children == children
      ensures this.paddingLeft == paddingLeft && this.paddingTop == paddingTop
      ensures this.paddingRight == paddingRight && this.paddingBottom == paddingBottom
      ensures gravity == if gravityAttribute > 0 && gravityAttribute as bv32 != DefaultGravity(isIcs)
        then CompleteGravity(gravityAttribute as bv32, isIcs) else DefaultGravity(isIcs)
      ensures lines == [] && lineHeights == [] && lineMargins == [] && frames == []
      ensures layoutRequests == if gravityAttribute > 0 && gravityAttribute as bv32 != DefaultGravity(isIcs) then 1 else 0
    {
      this.isIcs := isIcs;
      this.paddingLeft := paddingLeft;
      this.paddingTop := paddingTop;
      this.paddingRight := paddingRight;
      this.paddingBottom := paddingBottom;
      this.children := children;
      gravity := DefaultGravity(isIcs);
      lines, lineHeights, lineMargins, frames := [], [], [], [];
      layoutRequests := 0;
      new;
      if gravityAttribute > 0 {
        SetGravity(gravityAttribute as bv32);
      }
    }

    /** `setGravity(gravity)`: a new value is completed, stored, and a
        layout is requested; the current value changes nothing. */
    method SetGravity(g: bv32)
      modifies this
      ensures gravity == if old(gravity) == g then old(gravity) else CompleteGravity(g, isIcs)
      ensures layoutRequests == old(layoutRequests) + if old(gravity) == g then 0 else 1
      ensures children == old(children) && lines == old(lines) && lineHeights == old(lineHeights)
      ensures lineMargins == old(lineMargins) && frames == old(frames)
    {
      if gravity != g {
        gravity := CompleteGravity(g, isIcs);
        layoutRequests := layoutRequests + 1;
      }
    }

    /** `onMeasure(widthMeasureSpec, heightMeasureSpec)`: the measured size
        and the specs handed to the visible children. The children's own
        measuring is outside the model: their measured sizes are given. */
    method OnMeasure(widthSpec: MeasureSpec, heightSpec: MeasureSpec)
      returns (measuredWidth: int, measuredHeight: int, childSpecs: seq<(MeasureSpec, MeasureSpec)>)
      ensures var sizeWidth := widthSpec.size - paddingLeft - paddingRight;
        var m := MeasureFrom(Measure(0, paddingTop + paddingBottom, 0, 0), children, sizeWidth);
        && measuredWidth == (if widthSpec.mode == Exactly then sizeWidth else m.width + paddingLeft + paddingRight)
        && measuredHeight == (if heightSpec.mode == Exactly then heightSpec.size else m.height)
        && childSpecs == ChildSpecsFor(children, sizeWidth, heightSpec.size, heightSpec.mode)
      ensures widthSpec.mode != Exactly ==>
        measuredWidth == paddingLeft + paddingRight
          + MaxLineWidth(Lines(children, widthSpec.size - paddingLeft - paddingRight))
      ensures heightSpec.mode != Exactly && HeightsNonNegative(children) ==>
        measuredHeight == paddingTop + paddingBottom
          + SumHeights(Lines(children, widthSpec.size - paddingLeft - paddingRight))
    {
      measuredWidth, measuredHeight, childSpecs :=
        MeasureView(children, paddingLeft, paddingTop, paddingRight, paddingBottom, widthSpec, heightSpec);
    }

    /** `onLayout(changed, l, t, r, b)` for a view of size `width` by
        `height`: the children are broken into lines against `width`, the
        line lists are rebuilt, and every visible child is laid out. */
    method OnLayout(width: int, height: int)
      modifies this
      ensures Arrangement(lines, lineHeights, lineMargins, frames)
           == Arrange(old(children), old(gravity), width, height, paddingLeft, paddingTop)
      ensures children == old(children) && gravity == old(gravity) && layoutRequests == old(layoutRequests)
    {
      var r := ArrangeChildren(children, gravity, width, height, paddingLeft, paddingTop);
      lines, lineHeights, lineMargins, frames := r.lines, r.lineHeights, r.lineMargins, r.frames;
    }
  }

  /** `onMeasure`'s work, with the view's children and padding as
      parameters. */
  method MeasureView(children: seq<Child>, paddingLeft: int, paddingTop: int, paddingRight: int, paddingBottom: int,
                     widthSpec: MeasureSpec, heightSpec: MeasureSpec)
    returns (measuredWidth: int, measuredHeight: int, childSpecs: seq<(MeasureSpec, MeasureSpec)>)
    ensures var sizeWidth := widthSpec.size - paddingLeft - paddingRight;
      var m := MeasureFrom(Measure(0, paddingTop + paddingBottom, 0, 0), children, sizeWidth);
      && measuredWidth == (if widthSpec.mode == Exactly then sizeWidth else m.width + paddingLeft + paddingRight)
      && measuredHeight == (if heightSpec.mode == Exactly then heightSpec.size else m.height)
      && childSpecs == ChildSpecsFor(children, sizeWidth, heightSpec.size, heightSpec.mode)
    ensures widthSpec.mode != Exactly ==>
      measuredWidth == paddingLeft + paddingRight
        + MaxLineWidth(Lines(children, widthSpec.size - paddingLeft - paddingRight))
    ensures heightSpec.mode != Exactly && HeightsNonNegative(children) ==>
      measuredHeight == paddingTop + paddingBottom
        + SumHeights(Lines(children, widthSpec.size - paddingLeft - paddingRight))
  {
    var sizeWidth := widthSpec.size - paddingLeft - paddingRight;
    var sizeHeight := heightSpec.size;
    var m;
    m, childSpecs := MeasureChildren(children, paddingTop + paddingBottom, sizeWidth, sizeHeight, heightSpec.mode);
    MeasuredWidthIsWidestLine(children, sizeWidth, paddingTop + paddingBottom);
    if HeightsNonNegative(children) {
      MeasuredHeightIsLineSum(children, sizeWidth, paddingTop + paddingBottom);
    }
    ghost var lines := Lines(children, sizeWidth);
    assert m.width == MaxLineWidth(lines);
    assert HeightsNonNegative(children) ==> m.height == paddingTop + paddingBottom + SumHeights(lines);
    measuredWidth := if widthSpec.mode == Exactly then sizeWidth else m.width + paddingLeft + paddingRight;
    measuredHeight := if heightSpec.mode == Exactly then sizeHeight else m.height;
  }

  /** The loop of `onMeasure`: every child updates the running totals, and
      every visible child is handed its pair of specs. */
  method MeasureChildren(children: seq<Child>, padding: int, sizeWidth: int, sizeHeight: int, modeHeight: Mode)
    returns (m: Measure, childSpecs: seq<(MeasureSpec, MeasureSpec)>)
    ensures m == MeasureFrom(Measure(0, padding, 0, 0), children, sizeWidth)
    ensures childSpecs == ChildSpecsFor(children, sizeWidth, sizeHeight, modeHeight)
  {
    m := Measure(0, padding, 0, 0);
    childSpecs := [];
    var i := 0;
    while i < |children|
      invariant 0 <= i <= |children|
      invariant MeasureFrom(m, children[i..], sizeWidth) == MeasureFrom(Measure(0, padding, 0, 0), children, sizeWidth)
      invariant childSpecs + ChildSpecsFor(children[i..], sizeWidth, sizeHeight, modeHeight)
             == ChildSpecsFor(children, sizeWidth, sizeHeight, modeHeight)
    {
      var child := children[i];
      var lastChild := i == |children| - 1;
      MeasureFromAt(m, children, i, sizeWidth);
      ChildSpecsForAt(children, i, sizeWidth, sizeHeight, modeHeight);
      if !child.gone {
        var specs := ChildSpecs(child, sizeWidth, sizeHeight, modeHeight);
        AppendAssoc(childSpecs, [specs], ChildSpecsFor(children[i + 1..], sizeWidth, sizeHeight, modeHeight));
        childSpecs := childSpecs + [specs];
      }
      m := MeasureStep(m, child, sizeWidth, lastChild);
      i := i + 1;
    }
    assert children[i..] == [];
  }

  lemma MeasureFromAt(m: Measure, cs: seq<Child>, i: int, sizeWidth: int)
    requires 0 <= i < |cs|
    ensures MeasureFrom(m, cs[i..], sizeWidth) == MeasureFrom(MeasureStep(m, cs[i], sizeWidth, i == |cs| - 1), cs[i + 1..], sizeWidth)
  {
    assert cs[i..][1..] == cs[i + 1..];
  }

  lemma ChildSpecsForAt(cs: seq<Child>, i: int, sizeWidth: int, sizeHeight: int, modeHeight: Mode)
    requires 0 <= i < |cs|
    ensures ChildSpecsFor(cs[i..], sizeWidth, sizeHeight, modeHeight)
      == (if cs[i].gone then [] else [ChildSpecs(cs[i], sizeWidth, sizeHeight, modeHeight)])
         + ChildSpecsFor(cs[i + 1..], sizeWidth, sizeHeight, modeHeight)
  {
    assert cs[i..][1..] == cs[i + 1..];
  }

  /** The lists the first loop of `onLayout` records determine the whole
      arrangement. */
  lemma ArrangeFromBroken(cs: seq<Child>, gravity: bv32, width: int, height: int, paddingLeft: int, paddingTop: int,
                          lines: seq<seq<Child>>, lineHeights: seq<int>, lineMargins: seq<int>, linesSum: int)
    requires Breaking(lines, lineHeights, lineMargins, linesSum, [], 0, 0)
          == Broken(cs, HorizontalAlignment(gravity), width, paddingLeft, paddingTop)
    ensures |lines| == |lineHeights| == |lineMargins|
    ensures Arrange(cs, gravity, width, height, paddingLeft, paddingTop)
         == Arrangement(lines, lineHeights, lineMargins,
                        AllFrames(lines, lineHeights, lineMargins, paddingTop, VerticalOffset(gravity, height, linesSum)))
  {
    BrokenIsLines(cs, HorizontalAlignment(gravity), width, paddingLeft, paddingTop);
  }

  /** `onLayout`'s work on the children, with the view's size, gravity and
      padding as parameters: the lines are broken and recorded, then every
      visible child is laid out. */
  method ArrangeChildren(children: seq<Child>, gravity: bv32, width: int, height: int, paddingLeft: int, paddingTop: int)
    returns (r: Arrangement)
    ensures r == Arrange(children, gravity, width, height, paddingLeft, paddingTop)
  {
    var horizontalGravityFactor := HorizontalAlignment(gravity);
    var views, heights, margins, linesSum := BreakLines(children, horizontalGravityFactor, width, paddingLeft, paddingTop);
    ArrangeFromBroken(children, gravity, width, height, paddingLeft, paddingTop, views, heights, margins, linesSum);
    var verticalGravityMargin := VerticalOffset(gravity, height, linesSum);
    var placed := LayOutLines(views, heights, margins, paddingTop, verticalGravityMargin);
    r := Arrangement(views, heights, margins, placed);
  }

  /** The first loop of `onLayout` and the recording of the last line. */
  method BreakLines(children: seq<Child>, horizontalGravityFactor: Alignment, width: int, paddingLeft: int, paddingTop: int)
    returns (lines: seq<seq<Child>>, lineHeights: seq<int>, lineMargins: seq<int>, linesSum: int)
    ensures Breaking(lines, lineHeights, lineMargins, linesSum, [], 0, 0)
         == Broken(children, horizontalGravityFactor, width, paddingLeft, paddingTop)
  {
    lines := [];
    lineHeights := [];
    lineMargins := [];
    linesSum := paddingTop;
    var lineWidth := 0;
    var lineHeight := 0;
    var lineViews: seq<Child> := [];
    ghost var init := Breaking([], [], [], paddingTop, [], 0, 0);
    var i := 0;
    while i < |children|
      invariant 0 <= i <= |children|
      invariant BreakFrom(Breaking(lines, lineHeights, lineMargins, linesSum, lineViews, lineWidth, lineHeight),
                          children[i..], horizontalGravityFactor, width, paddingLeft)
             == BreakFrom(init, children, horizontalGravityFactor, width, paddingLeft)
    {
      var child := children[i];
      ghost var before := Breaking(lines, lineHeights, lineMargins, linesSum, lineViews, lineWidth, lineHeight);
      BreakFromAt(before, children, i, horizontalGravityFactor, width, paddingLeft);
      if !child.gone {
        var childWidth := OuterWidth(child);
        var childHeight := OuterHeight(child);
        if lineWidth + childWidth > width {
          lineHeights := lineHeights + [lineHeight];
          lines := lines + [lineViews];
          lineMargins := lineMargins + [Offset(horizontalGravityFactor, width - lineWidth) + paddingLeft];
          linesSum := linesSum + lineHeight;
          lineHeight := 0;
          lineWidth := 0;
          lineViews := [];
        }
        lineWidth := lineWidth + childWidth;
        lineHeight := Max(lineHeight, childHeight);
        lineViews := lineViews + [child];
      }
      assert Breaking(lines, lineHeights, lineMargins, linesSum, lineViews, lineWidth, lineHeight)
          == BreakStep(before, child, horizontalGravityFactor, width, paddingLeft);
      i := i + 1;
    }
    assert children[i..] == [];
    lineHeights := lineHeights + [lineHeight];
    lines := lines + [lineViews];
    lineMargins := lineMargins + [Offset(horizontalGravityFactor, width - lineWidth) + paddingLeft];
    linesSum := linesSum + lineHeight;
  }

  /** The second half of `onLayout`: each recorded line is laid out from
      its margin, each line below the one before. */
  method LayOutLines(lines: seq<seq<Child>>, lineHeights: seq<int>, lineMargins: seq<int>, paddingTop: int, verticalGravityMargin: int)
    returns (frames: seq<Frame>)
    requires |lines| == |lineHeights| == |lineMargins|
    ensures frames == AllFrames(lines, lineHeights, lineMargins, paddingTop, verticalGravityMargin)
  {
    frames := [];
    var top := paddingTop;
    var i := 0;
    while i < |lines|
      invariant 0 <= i <= |lines|
      invariant frames + AllFrames(lines[i..], lineHeights[i..], lineMargins[i..], top, verticalGravityMargin)
             == AllFrames(lines, lineHeights, lineMargins, paddingTop, verticalGravityMargin)
    {
      var lineHeight := lineHeights[i];
      var lineViews := lines[i];
      var lineFrames := LayOutLine(lineViews, lineMargins[i], top, lineHeight, verticalGravityMargin);
      AllFramesAt(lines, lineHeights, lineMargins, i, top, verticalGravityMargin);
      AppendAssoc(frames, lineFrames,
                  AllFrames(lines[i + 1..], lineHeights[i + 1..], lineMargins[i + 1..], top + lineHeight, verticalGravityMargin));
      frames := frames + lineFrames;
      top := top + lineHeight;
      i := i + 1;
    }
    assert lines[i..] == [];
  }

  /** The frames from line `i` on: those of line `i`, then those of the
      lines below it. */
  lemma AllFramesAt(lines: seq<seq<Child>>, heights: seq<int>, margins: seq<int>, i: int, top: int, verticalOffset: int)
    requires |lines| == |heights| == |margins| && 0 <= i < |lines|
    ensures AllFrames(lines[i..], heights[i..], margins[i..], top, verticalOffset)
      == LineFrames(lines[i], margins[i], top, heights[i], verticalOffset)
         + AllFrames(lines[i + 1..], heights[i + 1..], margins[i + 1..], top + heights[i], verticalOffset)
  {
    assert lines[i..][1..] == lines[i + 1..];
    assert heights[i..][1..] == heights[i + 1..];
    assert margins[i..][1..] == margins[i + 1..];
  }

  /** The inner loop of `onLayout`'s second part: the children of one line
      are laid out from its left edge, GONE ones skipped. */
  method LayOutLine(lineViews: seq<Child>, lineMargin: int, top: int, lineHeight: int, verticalGravityMargin: int)
    returns (frames: seq<Frame>)
    ensures frames == LineFrames(lineViews, lineMargin, top, lineHeight, verticalGravityMargin)
  {
    frames := [];
    var left := lineMargin;
    var j := 0;
    while j < |lineViews|
      invariant 0 <= j <= |lineViews|
      invariant frames + LineFrames(lineViews[j..], left, top, lineHeight, verticalGravityMargin)
             == LineFrames(lineViews, lineMargin, top, lineHeight, verticalGravityMargin)
    {
      var child := lineViews[j];
      LayOutStep(lineViews, j, left, top, lineHeight, verticalGravityMargin, frames,
                 LineFrames(lineViews, lineMargin, top, lineHeight, verticalGravityMargin));
      if !child.gone {
        var gravityMargin := ChildOffset(child, lineHeight);
        var y := top + child.topMargin + gravityMargin + verticalGravityMargin;
        var frame := Frame(child, left + child.leftMargin, y, left + child.measuredWidth + child.leftMargin,
                           y + child.measuredHeight);
        frames := frames + [frame];
        left := left + OuterWidth(child);
      }
      j := j + 1;
    }
    assert lineViews[j..] == [];
  }

  /** One step of `LayOutLine`'s loop keeps its invariant. */
  lemma LayOutStep(views: seq<Child>, j: int, left: int, top: int, lineHeight: int, verticalOffset: int,
                   frames: seq<Frame>, whole: seq<Frame>)
    requires 0 <= j < |views|
    requires frames + LineFrames(views[j..], left, top, lineHeight, verticalOffset) == whole
    ensures var c := views[j];
      var y := top + c.topMargin + ChildOffset(c, lineHeight) + verticalOffset;
      if c.gone then frames + LineFrames(views[j + 1..], left, top, lineHeight, verticalOffset) == whole
      else frames + [Frame(c, left + c.leftMargin, y, left + c.measuredWidth + c.leftMargin, y + c.measuredHeight)]
             + LineFrames(views[j + 1..], left + OuterWidth(c), top, lineHeight, verticalOffset) == whole
  {
    var c := views[j];
    LineFramesAt(views, j, left, top, lineHeight, verticalOffset);
    if !c.gone {
      var y := top + c.topMargin + ChildOffset(c, lineHeight) + verticalOffset;
      var frame := Frame(c, left + c.leftMargin, y, left + c.measuredWidth + c.leftMargin, y + c.measuredHeight);
      AppendAssoc(frames, [frame], LineFrames(views[j + 1..], left + OuterWidth(c), top, lineHeight, verticalOffset));
    }
  }

  /** The frames of a line from child `j` on. */
  lemma LineFramesAt(views: seq<Child>, j: int, left: int, top: int, lineHeight: int, verticalOffset: int)
    requires 0 <= j < |views|
    ensures var c := views[j];
      var y := top + c.topMargin + ChildOffset(c, lineHeight) + verticalOffset;
      LineFrames(views[j..], left, top, lineHeight, verticalOffset)
      == if c.gone then LineFrames(views[j + 1..], left, top, lineHeight, verticalOffset)
         else [Frame(c, left + c.leftMargin, y, left + c.measuredWidth + c.leftMargin, y + c.measuredHeight)]
              + LineFrames(views[j + 1..], left + OuterWidth(c), top, lineHeight, verticalOffset)
  {
    assert views[j..][1..] == views[j + 1..];
  }
}

/**
 * Off-screen rendering into a pixel buffer and the read-back of its pixels.
 * OpenGL returns rows bottom-up; the read-back mirrors them vertically so
 * that row 0 of the bitmap is the top row.
 */
module PixelBuffers {
  import opened Wrappers

  /** Row-major position of the pixel in row `row`, column `col`. */
  function Cell(row: nat, col: nat, width: nat): nat
  {
    row * width + col
  }

  lemma CellInBounds(row: nat, col: nat, width: nat, height: nat)
    requires row < height && col < width
    ensures Cell(row, col, width) < width * height
  {
    assert (height - row - 1) * width >= 0;
    assert (row + 1) * width <= height * width by {
      assert height * width - (row + 1) * width == (height - row - 1) * width;
    }
  }

  /** A bitmap of at least one row holds a whole first row. */
  lemma RowSplit(width: nat, height: nat)
    requires height > 0
    ensures width <= width * height && width * height - width == width * (height - 1)
  {
    assert width * height == width * (height - 1) + width;
  }

  /** The mirrored bitmap: the rows of the OpenGL read-back in reverse
      order, each row left as it is. */
  function MirrorRows(pixels: seq<int>, width: nat, height: nat): (out: seq<int>)
    requires |pixels| == width * height
    ensures |out| == |pixels|
    decreases height
  {
    if height == 0 then []
    else
      RowSplit(width, height);
      MirrorRows(pixels[width..], width, height - 1) + pixels[..width]
  }

  /** Row i of the read-back lands in row height - 1 - i of the bitmap:
      out[(h - i - 1) * w + j] == in[i * w + j]. */
  lemma {:induction false} MirrorRowsAt(pixels: seq<int>, width: nat, height: nat, i: nat, j: nat)
    requires |pixels| == width * height
    requires i < height && j < width
    ensures Cell(height - 1 - i, j, width) < width * height && Cell(i, j, width) < width * height
    ensures MirrorRows(pixels, width, height)[Cell(height - 1 - i, j, width)] == pixels[Cell(i, j, width)]
  {
    CellInBounds(height - 1 - i, j, width, height);
    CellInBounds(i, j, width, height);
    RowSplit(width, height);
    var rest := pixels[width..];
    var r := MirrorRows(rest, width, height - 1);
    assert MirrorRows(pixels, width, height) == r + pixels[..width];
    assert |r| == (height - 1) * width;
    if i == 0 {
      assert Cell(height - 1 - i, j, width) == |r| + j;
    } else {
      MirrorRowsAt(rest, width, height - 1, i - 1, j);
      assert Cell(height - 1 - i, j, width) == Cell(height - 1 - 1 - (i - 1), j, width);
      assert Cell(i, j, width) == width + Cell(i - 1, j, width);
    }
  }

  /** Mirroring a bitmap with one more row at the bottom puts that row on top. */
  lemma {:induction false} MirrorAppendRow(pixels: seq<int>, row: seq<int>, width: nat, height: nat)
    requires |pixels| == width * height && |row| == width
    ensures |pixels + row| == width * (height + 1)
    ensures MirrorRows(pixels + row, width, height + 1) == row + MirrorRows(pixels, width, height)
  {
    assert width * (height + 1) == width * height + width;
    if height == 0 {
      assert (pixels + row)[width..] == [];
      assert (pixels + row)[..width] == row;
    } else {
      RowSplit(width, height);
      assert (pixels + row)[width..] == pixels[width..] + row;
      assert (pixels + row)[..width] == pixels[..width];
      MirrorAppendRow(pixels[width..], row, width, height - 1);
    }
  }

  /** Mirroring twice gives back the read-back itself. */
  lemma {:induction false} MirrorRowsInvolution(pixels: seq<int>, width: nat, height: nat)
    requires |pixels| == width * height
    ensures MirrorRows(MirrorRows(pixels, width, height), width, height) == pixels
  {
    if height > 0 {
      RowSplit(width, height);
      var rest := MirrorRows(pixels[width..], width, height - 1);
      MirrorRowsInvolution(pixels[width..], width, height - 1);
      MirrorAppendRow(rest, pixels[..width], width, height - 1);
      assert pixels[..width] + pixels[width..] == pixels;
    }
  }

  /** The mirror only moves pixels: the bitmap is a permutation of the
      read-back. */
  lemma {:induction false} MirrorRowsPermutes(pixels: seq<int>, width: nat, height: nat)
    requires |pixels| == width * height
    ensures multiset(MirrorRows(pixels, width, height)) == multiset(pixels)
  {
    if height > 0 {
      RowSplit(width, height);
      MirrorRowsPermutes(pixels[width..], width, height - 1);
      assert pixels[..width] + pixels[width..] == pixels;
    }
  }

  /** The nested loop of `convertToBitmap` (and of the view's `capture()`),
      filling a fresh array of width * height pixels. */
  method MirrorReadback(pixels: seq<int>, width: nat, height: nat) returns (mirrored: array<int>)
    requires |pixels| == width * height
    ensures mirrored.Length == width * height
    ensures mirrored[..] == MirrorRows(pixels, width, height)
  {
    ghost var spec := MirrorRows(pixels, width, height);
    mirrored := new int[width * height];
    var i := 0;
    ghost var filled := width * height;
    while i < height
      invariant 0 <= i <= height
      invariant filled == (height - i) * width
      invariant forall k :: filled <= k < width * height ==> mirrored[k] == spec[k]
    {
      RowBase(width, height, i, filled);
      MirrorRow(pixels, width, height, i, mirrored, filled - width);
      i := i + 1;
      filled := filled - width;
    }
    assert filled == 0;
    assert mirrored[..] == spec;
  }

  /** The inner loop: read-back row `i` copied into bitmap row
      `height - i - 1`, which starts at `base`; nothing else is written. */
  method MirrorRow(pixels: seq<int>, width: nat, height: nat, i: nat, mirrored: array<int>, ghost base: nat)
    requires |pixels| == width * height && i < height && mirrored.Length == width * height
    requires base == (height - i - 1) * width && base + width <= width * height
    modifies mirrored
    ensures forall k :: 0 <= k < mirrored.Length && !(base <= k < base + width) ==> mirrored[k] == old(mirrored[k])
    ensures forall k :: base <= k < base + width ==> mirrored[k] == MirrorRows(pixels, width, height)[k]
  {
    ghost var spec := MirrorRows(pixels, width, height);
    var j := 0;
    while j < width
      invariant 0 <= j <= width
      invariant forall k :: 0 <= k < mirrored.Length && !(base <= k < base + width) ==> mirrored[k] == old(mirrored[k])
      invariant forall k :: base <= k < base + j ==> mirrored[k] == spec[k]
    {
      MirrorRowsAt(pixels, width, height, i, j);
      mirrored[(height - i - 1) * width + j] := pixels[i * width + j];
      j := j + 1;
    }
  }

  /** The rows below row `height - i - 1` start one row's width further on:
      with `filled` the start of row `height - i`, row `height - i - 1`
      starts at `filled - width`, inside the bitmap. */
  lemma RowBase(width: nat, height: nat, i: nat, filled: int)
    requires i < height && filled == (height - i) * width
    ensures filled - width == (height - i - 1) * width
    ensures filled - width == (height - (i + 1)) * width
    ensures 0 <= filled - width && filled <= width * height
  {
    var k := height - i - 1;
    assert height - i == k + 1 && height - (i + 1) == k;
    MulSucc(k, width);
    MulLe(k + 1, height, width);
  }

  lemma MulSucc(k: nat, w: nat)
    ensures (k + 1) * w == k * w + w
  {
  }

  lemma MulLe(a: nat, b: nat, w: nat)
    requires a <= b
    ensures a * w <= w * b
  {
    assert b * w == a * w + (b - a) * w;
  }

  /** A bitmap side: Android refuses to make a bitmap with a side of 0. */
  type Side = n: nat | n > 0 witness 1

  /** An ARGB bitmap of the given size. */
  datatype Bitmap = Bitmap(width: Side, height: Side, pixels: seq<int>)

  /** The message of `Bitmap.createBitmap`'s IllegalArgumentException. */
  const BadBitmapSize := "width and height must be > 0"

  /** `Bitmap.createBitmap(width, height, ARGB_8888)` followed by
      `copyPixelsFromBuffer`: both sides must be positive, otherwise the
      platform throws IllegalArgumentException. */
  function CreateBitmap(width: int, height: int, pixels: seq<int>): (r: Result<Bitmap>)
    ensures r.Err? <==> width <= 0 || height <= 0
    ensures r.Err? ==> r.error == IllegalArgument(BadBitmapSize)
    ensures r.Ok? ==> r.value.width == width && r.value.height == height && r.value.pixels == pixels
  {
    if width <= 0 || height <= 0 then Err(IllegalArgument(BadBitmapSize))
    else Ok(Bitmap(width, height, pixels))
  }

  /** The renderer handed to `setRenderer`; only its calls are modelled. */
  datatype Renderer = Renderer(id: nat)

  /** Calls made on the renderer and on EGL, in order. */
  datatype GlCall =
    | SurfaceCreated
    | SurfaceChanged(width: nat, height: nat)
    | DrawFrame
    | MakeCurrentNoSurface
    | DestroySurface
    | DestroyContext
    | Terminate

  class PixelBuffer {
    const width: nat
    const height: nat
    /** Name of the thread that created the EGL context. */
    const threadOwner: string
    var renderer: Option<Renderer>
    var bitmap: Option<Bitmap>
    var calls: seq<GlCall>

    /** The constructor records the creating thread as the owner; EGL set-up
        is not modelled. */
    constructor (w: nat, h: nat, currentThread: string)
      ensures width == w && height == h && threadOwner == currentThread
      ensures renderer == None && bitmap == None && calls == []
    {
      width, height, threadOwner := w, h, currentThread;
      renderer, bitmap, calls := None, None, [];
    }

    /** `setRenderer`: the renderer is stored in every case; only on the
        owner thread is it told that the surface was created and sized.
        A null renderer set on the owner thread fails there. */
    method SetRenderer(r: Option<Renderer>, currentThread: string) returns (outcome: Result<()>)
      modifies this`renderer, this`calls
      ensures renderer == r
      ensures currentThread != threadOwner ==> outcome == Ok(()) && calls == old(calls)
      ensures currentThread == threadOwner && r.None? ==> outcome == Err(NullPointer) && calls == old(calls)
      ensures currentThread == threadOwner && r.Some? ==>
        outcome == Ok(()) && calls == old(calls) + [SurfaceCreated, SurfaceChanged(width, height)]
    {
      renderer := r;
      if currentThread != threadOwner {
        return Ok(());
      }
      if r.None? {
        return Err(NullPointer);
      }
      calls := calls + [SurfaceCreated, SurfaceChanged(width, height)];
      outcome := Ok(());
    }

    /** `getBitmap`: null without a renderer or off the owner thread;
        otherwise two draws, then the mirrored read-back, which throws
        when the buffer has a side of 0. `pixels` is what `glReadPixels`
        returns. */
    method GetBitmap(currentThread: string, pixels: seq<int>) returns (r: Result<Option<Bitmap>>)
      requires |pixels| == width * height
      modifies this`bitmap, this`calls
      ensures renderer.None? || currentThread != threadOwner ==>
        r == Ok(None) && calls == old(calls) && bitmap == old(bitmap)
      ensures renderer.Some? && currentThread == threadOwner ==>
        calls == old(calls) + [DrawFrame, DrawFrame]
      ensures renderer.Some? && currentThread == threadOwner && (width == 0 || height == 0) ==>
        r == Err(IllegalArgument(BadBitmapSize)) && bitmap == old(bitmap)
      ensures renderer.Some? && currentThread == threadOwner && width > 0 && height > 0 ==>
        r == Ok(Some(Bitmap(width, height, MirrorRows(pixels, width, height)))) && bitmap == r.value
    {
      if renderer.None? {
        return Ok(None);
      }
      if currentThread != threadOwner {
        return Ok(None);
      }
      calls := calls + [DrawFrame, DrawFrame];
      var converted := ConvertToBitmap(pixels);
      if converted.Err? {
        return Err(converted.error);
      }
      r := Ok(bitmap);
    }

    /** `convertToBitmap`: the read-back is mirrored into a new array and
        copied into a new bitmap of the buffer's size; with a side of 0 the
        bitmap cannot be made and the old one stays. */
    method ConvertToBitmap(pixels: seq<int>) returns (r: Result<()>)
      requires |pixels| == width * height
      modifies this`bitmap
      ensures width == 0 || height == 0 ==>
        r == Err(IllegalArgument(BadBitmapSize)) && bitmap == old(bitmap)
      ensures width > 0 && height > 0 ==>
        r == Ok(()) && bitmap == Some(Bitmap(width, height, MirrorRows(pixels, width, height)))
    {
      var iat := MirrorReadback(pixels, width, height);
      var created := CreateBitmap(width, height, iat[..]);
      if created.Err? {
        return Err(created.error);
      }
      bitmap := Some(created.value);
      r := Ok(());
    }

    /** `destroy`: two draws, release the current binding, destroy surface
        and context, terminate the display. Without a renderer the first
        draw fails and nothing is released. */
    method Destroy() returns (outcome: Result<()>)
      modifies this`calls
      ensures renderer.None? ==> outcome == Err(NullPointer) && calls == old(calls)
      ensures renderer.Some? ==> outcome == Ok(())
      ensures renderer.Some? ==>
        calls == old(calls) + [DrawFrame, DrawFrame, MakeCurrentNoSurface, DestroySurface, DestroyContext, Terminate]
    {
      if renderer.None? {
        return Err(NullPointer);
      }
      calls := calls + [DrawFrame, DrawFrame, MakeCurrentNoSurface, DestroySurface, DestroyContext, Terminate];
      outcome := Ok(());
    }
  }
}

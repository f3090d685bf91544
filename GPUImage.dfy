/**
 * The GPUImage facade: it owns the renderer, the current bitmap and the scale
 * type, decides the decode sample size and the fit or crop size of a loaded
 * image, and renders a bitmap through a list of filters off screen.
 */
module GPUImageCore {
  import opened Wrappers
  import opened JavaLang
  import opened Rotations
  import PixelBuffers

  type Bitmap = PixelBuffers.Bitmap

  datatype ScaleType = CenterInside | CenterCrop

  /** A GPU filter, known here only by its identity. */
  datatype Filter = Filter(id: nat)

  /** Calls made on the renderer, in order. */
  datatype RendererCall =
    | SetRotationCamera(rotation: Rotation, flipHorizontal: bool, flipVertical: bool)
    | SetRendererFilter(filter: Filter)
    | SetImageBitmap(bitmap: Bitmap)
    | SetRendererScaleType(scaleType: ScaleType)
    | DeleteRendererImage

  /** The degree switch of `setUpCamera`: 90, 180 and 270 select their
      rotation, every other value leaves NORMAL. */
  function CameraRotation(degrees: int): (r: Rotation)
    ensures r == Rotation90 <==> degrees == 90
    ensures r == Rotation180 <==> degrees == 180
    ensures r == Rotation270 <==> degrees == 270
    ensures r == Normal <==> degrees !in {90, 180, 270}
  {
    match degrees
    case 90 => Rotation90
    case 180 => Rotation180
    case 270 => Rotation270
    case _ => Normal
  }

  /** For the degrees `Rotation.fromInt` accepts, the camera mapping agrees
      with it; unlike it, the camera mapping never fails. */
  lemma CameraRotationAgreesWithFromInt(degrees: int)
    ensures FromInt(degrees).Ok? ==> FromInt(degrees).value == CameraRotation(degrees)
    ensures CameraRotation(AsInt(CameraRotation(degrees))) == CameraRotation(degrees)
  {
  }

  /** `supportsOpenGLES2`: the device's required GL ES version, as
      ActivityManager reports it, is at least 2.0 (0x20000). */
  predicate SupportsOpenGLES2(reqGlEsVersion: int)
  {
    reqGlEsVersion >= 0x20000
  }

  /** `new GPUImage(context)`: on a device without OpenGL ES 2.0 the
      constructor throws IllegalStateException; otherwise the object is
      built with the default filter. */
  method NewGPUImage(reqGlEsVersion: int, defaultFilter: Filter, displayW: int, displayH: int)
    returns (r: Result<GPUImage>)
    ensures r.Err? <==> reqGlEsVersion < 0x20000
    ensures r.Err? ==> r.error == IllegalState("OpenGL ES 2.0 is not supported on this phone.")
    ensures r.Ok? ==>
      && fresh(r.value)
      && r.value.scaleType == CenterCrop && r.value.filter == defaultFilter
      && r.value.currentBitmap == None && !r.value.hasSurfaceView
      && r.value.rendererCalls == [] && r.value.renderRequests == 0
      && r.value.frameWidth == 0 && r.value.frameHeight == 0
      && r.value.displayWidth == displayW && r.value.displayHeight == displayH
  {
    if !SupportsOpenGLES2(reqGlEsVersion) {
      return Err(IllegalState("OpenGL ES 2.0 is not supported on this phone."));
    }
    var image := new GPUImage(defaultFilter, displayW, displayH);
    r := Ok(image);
  }

  class GPUImage {
    var scaleType: ScaleType
    var filter: Filter
    var currentBitmap: Option<Bitmap>
    /** Whether a GLSurfaceView has been attached (`mGlSurfaceView != null`). */
    var hasSurfaceView: bool
    var rendererCalls: seq<RendererCall>
    var renderRequests: nat
    /** The renderer's frame size; 0 until a surface has been sized. */
    var frameWidth: int
    var frameHeight: int
    /** The default display's size. */
    const displayWidth: int
    const displayHeight: int

    /** The constructor once OpenGL ES 2.0 is known to be supported (see
        NewGPUImage): a default filter, CENTER_CROP, no image, no view. */
    constructor (defaultFilter: Filter, displayW: int, displayH: int)
      ensures scaleType == CenterCrop && filter == defaultFilter
      ensures currentBitmap == None && !hasSurfaceView
      ensures rendererCalls == [] && renderRequests == 0
      ensures frameWidth == 0 && frameHeight == 0
      ensures displayWidth == displayW && displayHeight == displayH
    {
      scaleType := CenterCrop;
      filter := defaultFilter;
      currentBitmap := None;
      hasSurfaceView := false;
      rendererCalls := [];
      renderRequests := 0;
      frameWidth, frameHeight := 0, 0;
      displayWidth, displayHeight := displayW, displayH;
    }

    /** `setGLSurfaceView(view)`: the view is stored, set up to render
        with this renderer when dirty, and asked for a render. A null view
        is stored too, and its first configuration call then throws. The
        view's EGL and pixel format settings are not modelled. */
    method SetGLSurfaceView(viewIsNull: bool) returns (r: Result<()>)
      modifies this`hasSurfaceView, this`renderRequests
      ensures hasSurfaceView == !viewIsNull
      ensures r.Err? <==> viewIsNull
      ensures r.Err? ==> r.error == NullPointer
      ensures renderRequests == old(renderRequests) + (if viewIsNull then 0 else 1)
    {
      hasSurfaceView := !viewIsNull;
      if viewIsNull {
        return Err(NullPointer);
      }
      renderRequests := renderRequests + 1;
      return Ok(());
    }

    /** `requestRender`: forwarded only when a view is attached. */
    method RequestRender()
      modifies this`renderRequests
      ensures renderRequests == old(renderRequests) + (if hasSurfaceView then 1 else 0)
    {
      if hasSurfaceView {
        renderRequests := renderRequests + 1;
      }
    }

    /** `setUpCamera`: the render-mode switch on the view comes first, so
        without a view the call throws NullPointerException and the renderer
        gets nothing; otherwise the rotation for the degrees goes to the
        renderer. */
    method SetUpCamera(degrees: int, flipHorizontal: bool, flipVertical: bool) returns (r: Result<()>)
      modifies this`rendererCalls
      ensures !hasSurfaceView ==> r == Err(NullPointer) && rendererCalls == old(rendererCalls)
      ensures hasSurfaceView ==> r.Ok? && rendererCalls == old(rendererCalls) + [SetRotationCamera(CameraRotation(degrees), flipHorizontal, flipVertical)]
    {
      if !hasSurfaceView {
        return Err(NullPointer);
      }
      var rotation := Normal;
      if degrees == 90 {
        rotation := Rotation90;
      } else if degrees == 180 {
        rotation := Rotation180;
      } else if degrees == 270 {
        rotation := Rotation270;
      }
      rendererCalls := rendererCalls + [SetRotationCamera(rotation, flipHorizontal, flipVertical)];
      return Ok(());
    }

    /** `setFilter`. */
    method SetFilter(f: Filter)
      modifies this`filter, this`rendererCalls, this`renderRequests
      ensures filter == f
      ensures rendererCalls == old(rendererCalls) + [SetRendererFilter(f)]
      ensures renderRequests == old(renderRequests) + (if hasSurfaceView then 1 else 0)
    {
      filter := f;
      rendererCalls := rendererCalls + [SetRendererFilter(f)];
      RequestRender();
    }

    /** `setImage`. */
    method SetImage(bitmap: Bitmap)
      modifies this`currentBitmap, this`rendererCalls, this`renderRequests
      ensures currentBitmap == Some(bitmap)
      ensures rendererCalls == old(rendererCalls) + [SetImageBitmap(bitmap)]
      ensures renderRequests == old(renderRequests) + (if hasSurfaceView then 1 else 0)
    {
      currentBitmap := Some(bitmap);
      rendererCalls := rendererCalls + [SetImageBitmap(bitmap)];
      RequestRender();
    }

    /** `setScaleType`: the renderer gets the type and drops its image, and
        the current bitmap is forgotten. */
    method SetScaleType(t: ScaleType)
      modifies this`scaleType, this`currentBitmap, this`rendererCalls, this`renderRequests
      ensures scaleType == t && currentBitmap == None
      ensures rendererCalls == old(rendererCalls) + [SetRendererScaleType(t), DeleteRendererImage]
      ensures renderRequests == old(renderRequests) + (if hasSurfaceView then 1 else 0)
    {
      scaleType := t;
      rendererCalls := rendererCalls + [SetRendererScaleType(t), DeleteRendererImage];
      currentBitmap := None;
      RequestRender();
    }

    /** `deleteImage`. */
    method DeleteImage()
      modifies this`currentBitmap, this`rendererCalls, this`renderRequests
      ensures currentBitmap == None
      ensures rendererCalls == old(rendererCalls) + [DeleteRendererImage]
      ensures renderRequests == old(renderRequests) + (if hasSurfaceView then 1 else 0)
    {
      rendererCalls := rendererCalls + [DeleteRendererImage];
      currentBitmap := None;
      RequestRender();
    }

    /** `getOutputWidth`: the renderer's frame width when it is not 0, else
        the current bitmap's width, else the display's. */
    function OutputWidth(): (w: int)
      reads this
      ensures frameWidth != 0 ==> w == frameWidth
      ensures frameWidth == 0 && currentBitmap.Some? ==> w == currentBitmap.value.width
      ensures frameWidth == 0 && currentBitmap.None? ==> w == displayWidth
    {
      if frameWidth != 0 then frameWidth
      else if currentBitmap.Some? then currentBitmap.value.width
      else displayWidth
    }

    /** `getOutputHeight`, with the same priority. */
    function OutputHeight(): (h: int)
      reads this
      ensures frameHeight != 0 ==> h == frameHeight
      ensures frameHeight == 0 && currentBitmap.Some? ==> h == currentBitmap.value.height
      ensures frameHeight == 0 && currentBitmap.None? ==> h == displayHeight
    {
      if frameHeight != 0 then frameHeight
      else if currentBitmap.Some? then currentBitmap.value.height
      else displayHeight
    }
  }

  // Loading a resized image.

  /** `checkSize`: CENTER_CROP keeps shrinking while both sides are bigger,
      CENTER_INSIDE while either side is. */
  function CheckSize(scaleType: ScaleType, widthBigger: bool, heightBigger: bool): (keepShrinking: bool)
    ensures scaleType == CenterCrop ==> (keepShrinking <==> widthBigger && heightBigger)
    ensures scaleType == CenterInside ==> (keepShrinking <==> widthBigger || heightBigger)
  {
    if scaleType == CenterCrop then widthBigger && heightBigger else widthBigger || heightBigger
  }

  /** The loop condition of `loadResizedImage` at a given scale, with Java's
      integer division. A failed decode reports the sizes as -1. */
  predicate ScaleStillTooBig(scaleType: ScaleType, outWidth: int, outHeight: int, targetWidth: int, targetHeight: int, scale: int)
    requires scale >= 1
  {
    CheckSize(scaleType, JavaDiv(outWidth, scale) > targetWidth, JavaDiv(outHeight, scale) > targetHeight)
  }

  /** Enough for the loop to stop at some scale: the sides that must get
      small enough have non-negative targets, both for CENTER_INSIDE and one
      for CENTER_CROP. Without it the loop may still stop (a failed decode
      of -1 by -1 stops at once), or `scale++` eventually wraps. */
  predicate SampleLoopTerminates(scaleType: ScaleType, targetWidth: int, targetHeight: int)
  {
    if scaleType == CenterCrop then targetWidth >= 0 || targetHeight >= 0
    else targetWidth >= 0 && targetHeight >= 0
  }

  function Abs(a: int): nat { if a < 0 then -a else a }

  lemma DivBelowOne(a: int, scale: int)
    requires scale >= 1 && scale > Abs(a)
    ensures JavaDiv(a, scale) == 0
  {
  }

  /** The sample size of `loadResizedImage`: one less than the first scale
      at which the image is no longer too big, and never below 1. */
  method SampleSize(scaleType: ScaleType, outWidth: int, outHeight: int, targetWidth: int, targetHeight: int) returns (sample: int)
    requires SampleLoopTerminates(scaleType, targetWidth, targetHeight)
    ensures sample >= 1
    ensures !ScaleStillTooBig(scaleType, outWidth, outHeight, targetWidth, targetHeight, 1) ==> sample == 1
    ensures ScaleStillTooBig(scaleType, outWidth, outHeight, targetWidth, targetHeight, 1) ==>
      (forall t :: 1 <= t <= sample ==> ScaleStillTooBig(scaleType, outWidth, outHeight, targetWidth, targetHeight, t))
      && !ScaleStillTooBig(scaleType, outWidth, outHeight, targetWidth, targetHeight, sample + 1)
  {
    var scale := 1;
    while CheckSize(scaleType, JavaDiv(outWidth, scale) > targetWidth, JavaDiv(outHeight, scale) > targetHeight)
      invariant 1 <= scale <= Abs(outWidth) + Abs(outHeight) + 1
      invariant forall t :: 1 <= t < scale ==> ScaleStillTooBig(scaleType, outWidth, outHeight, targetWidth, targetHeight, t)
      decreases Abs(outWidth) + Abs(outHeight) + 1 - scale
    {
      if scale > Abs(outWidth) + Abs(outHeight) {
        DivBelowOne(outWidth, scale);
        DivBelowOne(outHeight, scale);
        assert false;
      }
      scale := scale + 1;
    }
    scale := scale - 1;
    if scale < 1 {
      scale := 1;
    }
    sample := scale;
  }

  /** A failed decode reports -1 by -1, which is never too big at scale 1,
      so the sample size is then 1. */
  lemma FailedDecodeIsNotTooBig(scaleType: ScaleType, targetWidth: int, targetHeight: int)
    requires SampleLoopTerminates(scaleType, targetWidth, targetHeight)
    ensures !ScaleStillTooBig(scaleType, -1, -1, targetWidth, targetHeight, 1)
  {
  }

  /** `Math.round` on a float: the nearest integer, halves rounded up. */
  function Round(x: real): (n: int)
    ensures x - 0.5 < n as real <= x + 0.5
  {
    (x + 0.5).Floor
  }

  /** Rounding keeps a real on its side of an integer bound. */
  lemma RoundKeepsBound(x: real, bound: int)
    ensures x >= bound as real ==> Round(x) >= bound
    ensures x <= bound as real ==> Round(x) <= bound
  {
  }

  /** The unrounded new size of `getScaleSize`: one side matches the output
      side, the other follows the image's aspect ratio. */
  function ScaleSizeExact(scaleType: ScaleType, width: int, height: int, outputWidth: int, outputHeight: int): (size: (real, real))
    requires width > 0 && height > 0 && outputWidth > 0 && outputHeight > 0
    ensures size.0 * (height as real) == size.1 * (width as real)
    ensures size.0 == outputWidth as real || size.1 == outputHeight as real
    ensures scaleType == CenterCrop ==> size.0 >= outputWidth as real && size.1 >= outputHeight as real
    ensures scaleType == CenterInside ==> size.0 <= outputWidth as real && size.1 <= outputHeight as real
  {
    var w, h, ow, oh := width as real, height as real, outputWidth as real, outputHeight as real;
    var widthRatio := w / ow;
    var heightRatio := h / oh;
    RatioOrder(w, h, ow, oh);
    var adjustWidth := if scaleType == CenterCrop then widthRatio > heightRatio else widthRatio < heightRatio;
    if adjustWidth then
      var newHeight := oh;
      var newWidth := (newHeight / h) * w;
      AdjustedSide(w, h, ow, oh);
      (newWidth, newHeight)
    else
      var newWidth := ow;
      var newHeight := (newWidth / w) * h;
      AdjustedSide(h, w, oh, ow);
      (newWidth, newHeight)
  }

  /** Comparing the two ratios is comparing the cross products. */
  lemma RatioOrder(w: real, h: real, ow: real, oh: real)
    requires w > 0.0 && h > 0.0 && ow > 0.0 && oh > 0.0
    ensures w / ow > h / oh <==> w * oh > h * ow
    ensures w / ow < h / oh <==> w * oh < h * ow
  {
    var a, b := w / ow, h / oh;
    assert a * ow == w && b * oh == h;
    assert a * (ow * oh) == w * oh && b * (ow * oh) == h * ow;
    ScaleOrder(a, b, ow * oh);
  }

  /** Scaling `w` by `oh / h` keeps the aspect ratio and puts the scaled
      side on the same side of `ow` as the cross product says. */
  lemma AdjustedSide(w: real, h: real, ow: real, oh: real)
    requires w > 0.0 && h > 0.0 && ow > 0.0 && oh > 0.0
    ensures (oh / h) * w * h == oh * w
    ensures w * oh > h * ow ==> (oh / h) * w > ow
    ensures w * oh < h * ow ==> (oh / h) * w < ow
    ensures w * oh == h * ow ==> (oh / h) * w == ow
  {
    var nw := (oh / h) * w;
    assert (oh / h) * h == oh;
    assert nw * h == oh * w;
    ScaleOrder(nw, ow, h);
  }

  /** Multiplying by a positive factor keeps the order. */
  lemma ScaleOrder(a: real, b: real, k: real)
    requires k > 0.0
    ensures a > b <==> a * k > b * k
    ensures a < b <==> a * k < b * k
  {
    assert a * k - b * k == (a - b) * k;
  }

  /** `getScaleSize`: the exact size rounded; rounding keeps CENTER_CROP at
      or above the output size and CENTER_INSIDE at or below it. */
  function GetScaleSize(scaleType: ScaleType, width: int, height: int, outputWidth: int, outputHeight: int): (size: (int, int))
    requires width > 0 && height > 0 && outputWidth > 0 && outputHeight > 0
    ensures scaleType == CenterCrop ==> size.0 >= outputWidth && size.1 >= outputHeight
    ensures scaleType == CenterInside ==> size.0 <= outputWidth && size.1 <= outputHeight
    ensures size.0 == outputWidth || size.1 == outputHeight
  {
    var exact := ScaleSizeExact(scaleType, width, height, outputWidth, outputHeight);
    RoundKeepsBound(exact.0, outputWidth);
    RoundKeepsBound(exact.1, outputHeight);
    (Round(exact.0), Round(exact.1))
  }

  /** A rectangle of a bitmap: left, top, width and height. */
  datatype Window = Window(left: int, top: int, width: int, height: int)

  /** The crop of `scaleBitmap`: the overshoot on each side is split in two
      (with Java's integer division) and the window is what remains. */
  function CropWindow(newWidth: int, newHeight: int, outputWidth: int, outputHeight: int): (w: Window)
    ensures w.width == outputWidth && w.height == outputHeight
    ensures newWidth >= outputWidth ==> 0 <= w.left && w.left + w.width <= newWidth
    ensures newHeight >= outputHeight ==> 0 <= w.top && w.top + w.height <= newHeight
    ensures newWidth >= outputWidth ==> w.left <= newWidth - w.left - w.width <= w.left + 1
    ensures newHeight >= outputHeight ==> w.top <= newHeight - w.top - w.height <= w.top + 1
  {
    var diffWidth := newWidth - outputWidth;
    var diffHeight := newHeight - outputHeight;
    Window(JavaDiv(diffWidth, 2), JavaDiv(diffHeight, 2), newWidth - diffWidth, newHeight - diffHeight)
  }

  /** The window `scaleBitmap` returns, within the scaled bitmap: the crop
      window under CENTER_CROP, the whole scaled bitmap otherwise. The
      first step, `Bitmap.createScaledBitmap`, throws IllegalArgumentException
      when a rounded side is not positive. */
  function ScaledWindow(scaleType: ScaleType, width: int, height: int, outputWidth: int, outputHeight: int): (r: Result<Window>)
    requires width > 0 && height > 0 && outputWidth > 0 && outputHeight > 0
    ensures var size := GetScaleSize(scaleType, width, height, outputWidth, outputHeight);
      r.Err? <==> size.0 <= 0 || size.1 <= 0
    ensures r.Err? ==> r.error.IllegalArgument?
    ensures scaleType == CenterCrop ==> r.Ok?
    ensures scaleType == CenterCrop && r.Ok? ==>
      r.value.width == outputWidth && r.value.height == outputHeight && r.value.left >= 0 && r.value.top >= 0
    ensures scaleType == CenterInside && r.Ok? ==>
      && r.value.left == 0 && r.value.top == 0
      && 0 < r.value.width <= outputWidth && 0 < r.value.height <= outputHeight
      && (r.value.width == outputWidth || r.value.height == outputHeight)
  {
    var size := GetScaleSize(scaleType, width, height, outputWidth, outputHeight);
    if size.0 <= 0 || size.1 <= 0 then Err(IllegalArgument("width and height must be > 0"))
    else if scaleType == CenterCrop then Ok(CropWindow(size.0, size.1, outputWidth, outputHeight))
    else Ok(Window(0, 0, size.0, size.1))
  }

  /** The scaling fails exactly under CENTER_INSIDE, when the side that
      follows the aspect ratio comes out below one half before rounding. */
  lemma ScaledWindowFailsIff(scaleType: ScaleType, width: int, height: int, outputWidth: int, outputHeight: int)
    requires width > 0 && height > 0 && outputWidth > 0 && outputHeight > 0
    ensures var exact := ScaleSizeExact(scaleType, width, height, outputWidth, outputHeight);
      (ScaledWindow(scaleType, width, height, outputWidth, outputHeight).Err?
       <==> scaleType == CenterInside && (exact.0 < 0.5 || exact.1 < 0.5))
  {
    var exact := ScaleSizeExact(scaleType, width, height, outputWidth, outputHeight);
    RoundPositiveIff(exact.0);
    RoundPositiveIff(exact.1);
  }

  /** `Math.round` gives a positive number exactly from one half on. */
  lemma RoundPositiveIff(x: real)
    ensures Round(x) > 0 <==> x >= 0.5
  {
  }

  /** A 1000 by 1 bitmap fitted inside a 100 by 100 output: the height
      rounds to 0 and the scaling throws. */
  lemma ThinBitmapFails()
    ensures ScaleSizeExact(CenterInside, 1000, 1, 100, 100) == (100.0, 0.1)
    ensures GetScaleSize(CenterInside, 1000, 1, 100, 100) == (100, 0)
    ensures ScaledWindow(CenterInside, 1000, 1, 100, 100) == Err(IllegalArgument("width and height must be > 0"))
  {
    RatioOrder(1000.0, 1.0, 100.0, 100.0);
    assert (100.0 / 1000.0) * 1.0 == 0.1;
  }

  // Rendering one bitmap through several filters.

  /** What `getBitmapForMultipleFilters` does, in order. */
  datatype RenderEvent =
    | NewRenderer(initialFilter: Filter)
    | SetImageOnRenderer(image: Bitmap, recycle: bool)
    | SetFilterOn(filter: Filter)
    | Response(bitmap: Option<Bitmap>)
    | DestroyFilter(filter: Filter)
    | DeleteImageOnRenderer
    | DestroyBuffer

  /** The bitmap handed to the listener for one read-back. */
  function ReadBack(pixels: seq<int>, width: PixelBuffers.Side, height: PixelBuffers.Side): Option<Bitmap>
    requires |pixels| == width * height
  {
    Some(PixelBuffers.Bitmap(width, height, PixelBuffers.MirrorRows(pixels, width, height)))
  }

  /** Every read-back holds a whole bitmap of the given size. */
  predicate Sized(rendered: seq<seq<int>>, width: nat, height: nat) {
    forall i :: 0 <= i < |rendered| ==> |rendered[i]| == width * height
  }

  /** The per-filter part of the trace from filter `i` on: set the filter,
      hand the listener the bitmap read back while it was set, destroy the
      filter. */
  function FilterRounds(filters: seq<Filter>, rendered: seq<seq<int>>, width: PixelBuffers.Side, height: PixelBuffers.Side, i: nat): (trace: seq<RenderEvent>)
    requires |filters| == |rendered| && i <= |filters| && Sized(rendered, width, height)
    ensures |trace| == 3 * (|filters| - i)
    decreases |filters| - i
  {
    if i == |filters| then []
    else
      var round := [SetFilterOn(filters[i]), Response(ReadBack(rendered[i], width, height)), DestroyFilter(filters[i])];
      round + FilterRounds(filters, rendered, width, height, i + 1)
  }

  /** Round k of the trace sets filter k, hands over read-back k and
      destroys filter k: the filters run one at a time, in list order. */
  lemma {:induction false} FilterRoundAt(filters: seq<Filter>, rendered: seq<seq<int>>, width: PixelBuffers.Side, height: PixelBuffers.Side, i: nat, k: nat)
    requires |filters| == |rendered| && i <= k < |filters| && Sized(rendered, width, height)
    ensures var trace := FilterRounds(filters, rendered, width, height, i);
      && trace[3 * (k - i)] == SetFilterOn(filters[k])
      && trace[3 * (k - i) + 1] == Response(ReadBack(rendered[k], width, height))
      && trace[3 * (k - i) + 2] == DestroyFilter(filters[k])
    decreases k - i
  {
    if i < k {
      FilterRoundAt(filters, rendered, width, height, i + 1, k);
    }
  }

  /** `getBitmapForMultipleFilters`: nothing happens for no filters;
      otherwise a renderer is made with the first filter and given the
      bitmap (without recycling it), an off-screen buffer of the bitmap's
      size renders every filter in list order, and the listener receives
      each read-back.
      `rendered[i]` is what the buffer reads back while filter i is set. */
  method BitmapForMultipleFilters(bitmap: Bitmap, filters: seq<Filter>, rendered: seq<seq<int>>, thread: string)
    returns (trace: seq<RenderEvent>)
    requires |rendered| == |filters| && Sized(rendered, bitmap.width, bitmap.height)
    ensures filters == [] ==> trace == []
    ensures filters != [] ==>
      trace == [NewRenderer(filters[0]), SetImageOnRenderer(bitmap, false)]
        + FilterRounds(filters, rendered, bitmap.width, bitmap.height, 0)
        + [DeleteImageOnRenderer, DestroyBuffer]
  {
    if filters == [] {
      return [];
    }
    trace := [NewRenderer(filters[0]), SetImageOnRenderer(bitmap, false)];
    var buffer := new PixelBuffers.PixelBuffer(bitmap.width, bitmap.height, thread);
    var _ := buffer.SetRenderer(Some(PixelBuffers.Renderer(filters[0].id)), thread);
    ghost var all := trace + FilterRounds(filters, rendered, bitmap.width, bitmap.height, 0);
    var i := 0;
    while i < |filters|
      invariant 0 <= i <= |filters|
      invariant buffer.renderer.Some? && buffer.threadOwner == thread
      invariant buffer.width == bitmap.width && buffer.height == bitmap.height
      invariant trace + FilterRounds(filters, rendered, bitmap.width, bitmap.height, i) == all
      modifies buffer
    {
      var response := buffer.GetBitmap(thread, rendered[i]);
      var round := [SetFilterOn(filters[i]), Response(response.value), DestroyFilter(filters[i])];
      AppendAssoc(trace, round, FilterRounds(filters, rendered, bitmap.width, bitmap.height, i + 1));
      trace := trace + round;
      i := i + 1;
    }
    var _ := buffer.Destroy();
    trace := trace + [DeleteImageOnRenderer, DestroyBuffer];
  }
}

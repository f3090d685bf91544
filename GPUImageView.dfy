/**
 * The view that hosts the GPU surface: it can force the surface to a given
 * size while capturing, and reads the rendered frame back as a bitmap.
 */
module GPUImageViews {
  import opened Wrappers
  import PixelBuffers
  import GPUImageCore

  type Bitmap = PixelBuffers.Bitmap

  datatype MeasureMode = Unspecified | Exactly | AtMost

  /** A `MeasureSpec`: a mode and a size. */
  datatype MeasureSpec = MeasureSpec(mode: MeasureMode, size: nat)

  /** The size `capture(width, height)` forces on the surface. */
  datatype Size = Size(width: nat, height: nat)

  /** `GPUImageGLSurfaceView.onMeasure`: while a size is forced, both specs
      become EXACTLY that size; otherwise they pass through. */
  function SurfaceMeasureSpecs(forceSize: Option<Size>, widthSpec: MeasureSpec, heightSpec: MeasureSpec): (specs: (MeasureSpec, MeasureSpec))
    ensures forceSize.Some? ==>
      specs.0 == MeasureSpec(Exactly, forceSize.value.width) && specs.1 == MeasureSpec(Exactly, forceSize.value.height)
    ensures forceSize.None? ==> specs == (widthSpec, heightSpec)
  {
    match forceSize
    case Some(size) => (MeasureSpec(Exactly, size.width), MeasureSpec(Exactly, size.height))
    case None => (widthSpec, heightSpec)
  }

  /** The platform's default measurement (`View.getDefaultSize`): the view's
      suggested size for UNSPECIFIED, the spec's size otherwise. */
  function DefaultSize(suggested: nat, spec: MeasureSpec): (size: nat)
    ensures spec.mode != Unspecified ==> size == spec.size
    ensures spec.mode == Unspecified ==> size == suggested
  {
    if spec.mode == Unspecified then suggested else spec.size
  }

  /** A forced size is what the surface ends up measuring, whatever the
      parent asked for. */
  lemma ForcedSizeIsMeasured(size: Size, widthSpec: MeasureSpec, heightSpec: MeasureSpec, suggestedWidth: nat, suggestedHeight: nat)
    ensures var specs := SurfaceMeasureSpecs(Some(size), widthSpec, heightSpec);
      DefaultSize(suggestedWidth, specs.0) == size.width && DefaultSize(suggestedHeight, specs.1) == size.height
  {
  }

  /** Which capture `SaveTask` runs. */
  datatype CaptureChoice = CaptureAtSize(width: int, height: int) | CaptureAsDisplayed

  /** A save task's requested size; the short constructor asks for (0, 0). */
  datatype SaveTask = SaveTask(width: int, height: int)

  function NewDefaultSaveTask(): (task: SaveTask)
    ensures task.width == 0 && task.height == 0
  {
    SaveTask(0, 0)
  }

  /** `doInBackground`: a non-zero width captures at the task's size, a zero
      width captures the surface as displayed (the height is not looked at). */
  function SaveTaskCapture(task: SaveTask): (choice: CaptureChoice)
    ensures choice.CaptureAsDisplayed? <==> task.width == 0
    ensures choice.CaptureAtSize? ==> choice.width == task.width && choice.height == task.height
  {
    if task.width != 0 then CaptureAtSize(task.width, task.height) else CaptureAsDisplayed
  }

  lemma DefaultSaveTaskCapturesAsDisplayed()
    ensures SaveTaskCapture(NewDefaultSaveTask()) == CaptureAsDisplayed
    ensures SaveTaskCapture(SaveTask(1, 0)) == CaptureAtSize(1, 0)
  {
  }

  /** Calls the view makes on its surface and on its own child views, in
      order. A call posted to the UI thread is recorded where it is posted. */
  datatype ViewCall =
    | AddSurfaceView
    | RequestSurfaceLayout
    | RequestSurfaceRender
    | AddLoadingView
    | RemoveLoadingView

  /** The calls of `init`: the surface view becomes the view's child. */
  const InitCalls: seq<ViewCall> := [AddSurfaceView]

  /** The calls of one `capture()`: a single render request. */
  const CaptureCalls: seq<ViewCall> := [RequestSurfaceRender]

  /** The calls of `capture(width, height)` up to the inner `capture()`: the
      loading view is shown and the surface laid out at the forced size,
      then a render is requested and waited for. */
  const ForceSizeCalls: seq<ViewCall> := [AddLoadingView, RequestSurfaceLayout, RequestSurfaceRender]

  /** The calls after a successful inner capture: lay the surface out at
      its own size again, render, and remove the loading view later. */
  const ReleaseSizeCalls: seq<ViewCall> := [RequestSurfaceLayout, RequestSurfaceRender, RemoveLoadingView]

  /** `new GPUImageView(context)`: the GPUImage made in `init` throws
      IllegalStateException on a device without OpenGL ES 2.0, and so does
      the view; otherwise the view is built attached to a fresh GPUImage. */
  method NewGPUImageView(reqGlEsVersion: int, defaultFilter: GPUImageCore.Filter, displayW: int, displayH: int)
    returns (r: Result<GPUImageView>)
    ensures r.Err? <==> reqGlEsVersion < 0x20000
    ensures r.Err? ==> r.error == IllegalState("OpenGL ES 2.0 is not supported on this phone.")
    ensures r.Ok? ==>
      && fresh(r.value) && fresh(r.value.gpuImage)
      && r.value.gpuImage.hasSurfaceView && r.value.gpuImage.renderRequests == 1
      && r.value.gpuImage.filter == defaultFilter && r.value.calls == InitCalls
  {
    if !GPUImageCore.SupportsOpenGLES2(reqGlEsVersion) {
      return Err(IllegalState("OpenGL ES 2.0 is not supported on this phone."));
    }
    var view := new GPUImageView(defaultFilter, displayW, displayH);
    r := Ok(view);
  }

  class GPUImageView {
    const gpuImage: GPUImageCore.GPUImage
    var ratio: real
    var forceSize: Option<Size>
    /** The surface's last measured size. */
    var surfaceWidth: nat
    var surfaceHeight: nat
    var calls: seq<ViewCall>

    /** `init`, on a device with OpenGL ES 2.0 (see NewGPUImageView): the
        surface view is made and added as a child, then a new GPUImage is
        made and the surface attached to it, which asks for one render. */
    constructor (defaultFilter: GPUImageCore.Filter, displayW: int, displayH: int)
      ensures fresh(gpuImage)
      ensures gpuImage.hasSurfaceView && gpuImage.renderRequests == 1
      ensures gpuImage.scaleType == GPUImageCore.CenterCrop && gpuImage.filter == defaultFilter
      ensures gpuImage.currentBitmap == None && gpuImage.rendererCalls == []
      ensures gpuImage.displayWidth == displayW && gpuImage.displayHeight == displayH
      ensures ratio == 0.0 && forceSize == None
      ensures surfaceWidth == 0 && surfaceHeight == 0 && calls == InitCalls
    {
      gpuImage := new GPUImageCore.GPUImage(defaultFilter, displayW, displayH);
      ratio := 0.0;
      forceSize := None;
      surfaceWidth, surfaceHeight := 0, 0;
      calls := InitCalls;
      new;
      var _ := gpuImage.SetGLSurfaceView(false);
    }

    /** `setRatio`: store the ratio, ask the surface for a new layout, drop
        the image. */
    method SetRatio(r: real)
      modifies this`ratio, this`calls, gpuImage
      ensures ratio == r && calls == old(calls) + [RequestSurfaceLayout]
      ensures gpuImage.currentBitmap == None
      ensures gpuImage.rendererCalls == old(gpuImage.rendererCalls) + [GPUImageCore.DeleteRendererImage]
      ensures gpuImage.scaleType == old(gpuImage.scaleType) && gpuImage.filter == old(gpuImage.filter)
    {
      ratio := r;
      calls := calls + [RequestSurfaceLayout];
      gpuImage.DeleteImage();
    }

    /** The layout pass of the surface, given the parent's specs. */
    method MeasureSurface(widthSpec: MeasureSpec, heightSpec: MeasureSpec, suggestedWidth: nat, suggestedHeight: nat)
      modifies this`surfaceWidth, this`surfaceHeight
      ensures var specs := SurfaceMeasureSpecs(forceSize, widthSpec, heightSpec);
        surfaceWidth == DefaultSize(suggestedWidth, specs.0) && surfaceHeight == DefaultSize(suggestedHeight, specs.1)
    {
      var specs := SurfaceMeasureSpecs(forceSize, widthSpec, heightSpec);
      surfaceWidth := DefaultSize(suggestedWidth, specs.0);
      surfaceHeight := DefaultSize(suggestedHeight, specs.1);
    }

    /** `capture()`: one render request, then the frame read back at the
        surface's measured size, mirrored to top-down rows. The bitmap is
        made last, and with a measured side of 0 it cannot be made. */
    method Capture(pixels: seq<int>) returns (r: Result<Bitmap>)
      requires |pixels| == surfaceWidth * surfaceHeight
      modifies this`calls
      ensures calls == old(calls) + CaptureCalls
      ensures surfaceWidth == 0 || surfaceHeight == 0 ==> r == Err(IllegalArgument(PixelBuffers.BadBitmapSize))
      ensures surfaceWidth > 0 && surfaceHeight > 0 ==>
        r == Ok(PixelBuffers.Bitmap(surfaceWidth, surfaceHeight, PixelBuffers.MirrorRows(pixels, surfaceWidth, surfaceHeight)))
    {
      var width, height := surfaceWidth, surfaceHeight;
      var mirrored := PixelBuffers.MirrorReadback(pixels, width, height);
      calls := calls + [RequestSurfaceRender];
      r := PixelBuffers.CreateBitmap(width, height, mirrored[..]);
    }

    /** `capture(width, height)`: refused on the UI thread; otherwise the
        size is forced, the surface re-measured and the frame captured.
        After a capture the forced size is cleared again before returning;
        when the capture throws, the forced size stays set and the loading
        view stays shown. */
    method CaptureAtSize(width: nat, height: nat, onMainThread: bool,
                         parentWidthSpec: MeasureSpec, parentHeightSpec: MeasureSpec, pixels: seq<int>)
      returns (result: Result<Bitmap>)
      requires |pixels| == width * height
      modifies this`forceSize, this`surfaceWidth, this`surfaceHeight, this`calls
      ensures onMainThread ==> result == Err(IllegalState("Do not call this method from the UI thread!"))
      ensures onMainThread ==>
        forceSize == old(forceSize) && surfaceWidth == old(surfaceWidth)
        && surfaceHeight == old(surfaceHeight) && calls == old(calls)
      ensures !onMainThread ==> surfaceWidth == width && surfaceHeight == height
      ensures !onMainThread && (width == 0 || height == 0) ==>
        && result == Err(IllegalArgument(PixelBuffers.BadBitmapSize))
        && forceSize == Some(Size(width, height))
        && calls == old(calls) + ForceSizeCalls + CaptureCalls
      ensures !onMainThread && width > 0 && height > 0 ==>
        && result == Ok(PixelBuffers.Bitmap(width, height, PixelBuffers.MirrorRows(pixels, width, height)))
        && forceSize == None
        && calls == old(calls) + ForceSizeCalls + CaptureCalls + ReleaseSizeCalls
    {
      if onMainThread {
        return Err(IllegalState("Do not call this method from the UI thread!"));
      }
      forceSize := Some(Size(width, height));
      MeasureSurface(parentWidthSpec, parentHeightSpec, surfaceWidth, surfaceHeight);
      calls := calls + ForceSizeCalls;
      var b := Capture(pixels);
      if b.Err? {
        return b;
      }
      forceSize := None;
      calls := calls + ReleaseSizeCalls;
      result := b;
    }
  }
}

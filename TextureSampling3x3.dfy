/**
 * The 3x3 texture-sampling filter: it keeps a texel step per axis, derived
 * from a line size and the output size until a caller sets a step
 * explicitly; from then on ("overridden") output-size changes keep the steps.
 */
module TextureSampling3x3 {

  /** A Java float: a finite value, an infinity or NaN. Rounding to 32 bits
      is not modelled. */
  datatype JFloat = Num(value: real) | PosInf | NegInf | NaN

  /** Java's `float / int`: division by zero gives an infinity with the sign
      of the dividend, and 0 / 0 gives NaN. */
  function FloatDiv(a: real, b: int): (q: JFloat)
    ensures b != 0 ==> q.Num? && q.value * (b as real) == a
    ensures b == 0 ==> (q == PosInf <==> a > 0.0) && (q == NegInf <==> a < 0.0) && (q == NaN <==> a == 0.0)
  {
    if b != 0 then Num(a / (b as real))
    else if a > 0.0 then PosInf
    else if a < 0.0 then NegInf
    else NaN
  }

  /** The two uniforms the filter's shader declares. */
  datatype UniformName = TexelWidthUniform | TexelHeightUniform

  /** One `setFloat` of a uniform, queued for the GL thread. */
  datatype Upload = Upload(uniform: UniformName, value: JFloat)

  class TextureSampling3x3Filter {
    var hasOverriddenImageSizeFactor: bool
    var texelWidth: JFloat
    var texelHeight: JFloat
    var lineSize: real
    /** The output size, kept by the base filter and read through
        `getOutputWidth`/`getOutputHeight`. */
    var outputWidth: int
    var outputHeight: int
    /** Every uniform value handed to `setFloat`, oldest first. */
    var uploads: seq<Upload>

    /** Field initialisers: not overridden, steps 0, line size 1.0. */
    constructor ()
      ensures !hasOverriddenImageSizeFactor
      ensures texelWidth == Num(0.0) && texelHeight == Num(0.0)
      ensures lineSize == 1.0
      ensures outputWidth == 0 && outputHeight == 0
      ensures uploads == []
    {
      hasOverriddenImageSizeFactor := false;
      texelWidth := Num(0.0);
      texelHeight := Num(0.0);
      lineSize := 1.0;
      outputWidth := 0;
      outputHeight := 0;
      uploads := [];
    }

    /** `updateTexelValues`: both current steps go to their uniforms. */
    method UpdateTexelValues()
      modifies this`uploads
      ensures uploads == old(uploads) + [Upload(TexelWidthUniform, texelWidth), Upload(TexelHeightUniform, texelHeight)]
    {
      uploads := uploads + [Upload(TexelWidthUniform, texelWidth), Upload(TexelHeightUniform, texelHeight)];
    }

    /** `onInit`: the steps are uploaded only when the width step is not 0
        (an infinite or NaN step is uploaded). */
    method OnInit()
      modifies this`uploads
      ensures texelWidth != Num(0.0) ==>
        uploads == old(uploads) + [Upload(TexelWidthUniform, texelWidth), Upload(TexelHeightUniform, texelHeight)]
      ensures texelWidth == Num(0.0) ==> uploads == old(uploads)
    {
      if texelWidth != Num(0.0) {
        UpdateTexelValues();
      }
    }

    /** `setLineSize`: the steps become size / output size on each axis. */
    method SetLineSize(size: real)
      modifies this`lineSize, this`texelWidth, this`texelHeight, this`uploads
      ensures lineSize == size
      ensures texelWidth == FloatDiv(size, outputWidth) && texelHeight == FloatDiv(size, outputHeight)
      ensures uploads == old(uploads) + [Upload(TexelWidthUniform, texelWidth), Upload(TexelHeightUniform, texelHeight)]
    {
      lineSize := size;
      texelWidth := FloatDiv(size, outputWidth);
      texelHeight := FloatDiv(size, outputHeight);
      UpdateTexelValues();
    }

    /** `onOutputSizeChanged`: the base filter records the size; while not
        overridden the steps are recomputed from the stored line size,
        otherwise they and the uniforms stay as they were. */
    method OnOutputSizeChanged(width: int, height: int)
      modifies this
      ensures outputWidth == width && outputHeight == height
      ensures hasOverriddenImageSizeFactor == old(hasOverriddenImageSizeFactor)
      ensures lineSize == old(lineSize)
      ensures !hasOverriddenImageSizeFactor ==>
        texelWidth == FloatDiv(lineSize, width) && texelHeight == FloatDiv(lineSize, height)
        && uploads == old(uploads) + [Upload(TexelWidthUniform, texelWidth), Upload(TexelHeightUniform, texelHeight)]
      ensures hasOverriddenImageSizeFactor ==>
        texelWidth == old(texelWidth) && texelHeight == old(texelHeight) && uploads == old(uploads)
    {
      outputWidth := width;
      outputHeight := height;
      if !hasOverriddenImageSizeFactor {
        SetLineSize(lineSize);
      }
    }

    /** `setTexelWidth`: sets the override flag for good. */
    method SetTexelWidth(value: real)
      modifies this`hasOverriddenImageSizeFactor, this`texelWidth, this`uploads
      ensures hasOverriddenImageSizeFactor
      ensures texelWidth == Num(value)
      ensures uploads == old(uploads) + [Upload(TexelWidthUniform, Num(value))]
    {
      hasOverriddenImageSizeFactor := true;
      texelWidth := Num(value);
      uploads := uploads + [Upload(TexelWidthUniform, Num(value))];
    }

    /** `setTexelHeight`: sets the override flag for good. */
    method SetTexelHeight(value: real)
      modifies this`hasOverriddenImageSizeFactor, this`texelHeight, this`uploads
      ensures hasOverriddenImageSizeFactor
      ensures texelHeight == Num(value)
      ensures uploads == old(uploads) + [Upload(TexelHeightUniform, Num(value))]
    {
      hasOverriddenImageSizeFactor := true;
      texelHeight := Num(value);
      uploads := uploads + [Upload(TexelHeightUniform, Num(value))];
    }
  }

  /** Once a step has been set explicitly, a later output-size change keeps
      both steps, whatever the new size. */
  method OverrideSurvivesResize(f: TextureSampling3x3Filter, value: real, width: int, height: int)
    modifies f
    ensures f.hasOverriddenImageSizeFactor
    ensures f.texelWidth == Num(value) && f.texelHeight == old(f.texelHeight)
    ensures f.outputWidth == width && f.outputHeight == height
  {
    f.SetTexelWidth(value);
    f.OnOutputSizeChanged(width, height);
  }

  /** A fresh filter sized to a non-empty output gets steps whose product
      with the output size is the default line size 1.0. */
  method FreshFilterSteps(width: int, height: int) returns (f: TextureSampling3x3Filter)
    requires width != 0 && height != 0
    ensures fresh(f) && !f.hasOverriddenImageSizeFactor
    ensures f.texelWidth.Num? && f.texelWidth.value * (width as real) == 1.0
    ensures f.texelHeight.Num? && f.texelHeight.value * (height as real) == 1.0
  {
    f := new TextureSampling3x3Filter();
    f.OnOutputSizeChanged(width, height);
  }
}

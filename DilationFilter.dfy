/**
 * The dilation filter: a two-pass texture-sampling filter whose radius picks
 * one of four shader variants. Variant k samples the red channel at the
 * centre and k steps either side along the pass's offset, and writes the
 * brightest sample as an opaque grey.
 */
module DilationFilter {

  /** One of the four fixed shader sources, named by its number of steps. */
  datatype Shader = VertexShader(steps: nat) | FragmentShader(steps: nat)

  /** The (vertex, fragment) pair of each of the two passes. */
  datatype TwoPassFilter = TwoPassFilter(
    firstVertex: Shader, firstFragment: Shader,
    secondVertex: Shader, secondFragment: Shader)

  /** The variant the radius switch selects: 0 and 1 share variant 1, and
      every value outside 0..3 falls to the default, variant 4. */
  function Variant(radius: int): (k: nat)
    ensures 1 <= k <= 4
    ensures k == 1 <==> radius == 0 || radius == 1
    ensures k == 2 <==> radius == 2
    ensures k == 3 <==> radius == 3
    ensures k == 4 <==> radius < 0 || radius > 3
  {
    if radius == 0 || radius == 1 then 1
    else if radius == 2 then 2
    else if radius == 3 then 3
    else 4
  }

  /** `getVertexShader`. */
  function GetVertexShader(radius: int): (s: Shader)
    ensures s.VertexShader? && s.steps == Variant(radius)
  {
    match radius
    case 0 => VertexShader(1)
    case 1 => VertexShader(1)
    case 2 => VertexShader(2)
    case 3 => VertexShader(3)
    case _ => VertexShader(4)
  }

  /** `getFragmentShader`. */
  function GetFragmentShader(radius: int): (s: Shader)
    ensures s.FragmentShader? && s.steps == Variant(radius)
  {
    match radius
    case 0 => FragmentShader(1)
    case 1 => FragmentShader(1)
    case 2 => FragmentShader(2)
    case 3 => FragmentShader(3)
    case _ => FragmentShader(4)
  }

  /** The radius constructor: the private constructor hands the same pair to
      both passes. */
  function NewDilationFilter(radius: int): (f: TwoPassFilter)
    ensures f.firstVertex == f.secondVertex && f.firstFragment == f.secondFragment
    ensures f.firstVertex.VertexShader? && f.firstFragment.FragmentShader?
    ensures f.firstVertex.steps == f.firstFragment.steps == Variant(radius)
  {
    var v := GetVertexShader(radius);
    var g := GetFragmentShader(radius);
    TwoPassFilter(v, g, v, g)
  }

  /** The no-argument constructor delegates to radius 1. */
  function NewDefaultDilationFilter(): (f: TwoPassFilter)
    ensures f.firstVertex == VertexShader(1) && f.firstFragment == FragmentShader(1)
  {
    NewDilationFilter(1)
  }

  /** The default filter is exactly the radius 0 and the radius 1 filter. */
  lemma DefaultIsRadiusOne()
    ensures NewDefaultDilationFilter() == NewDilationFilter(1) == NewDilationFilter(0)
    ensures NewDilationFilter(2) != NewDefaultDilationFilter()
  {
  }

  /** For every radius, both selectors and both passes agree on the variant. */
  lemma SelectorsAgree(radius: int, other: int)
    ensures GetVertexShader(radius).steps == GetFragmentShader(radius).steps
    ensures NewDilationFilter(radius) == NewDilationFilter(other) <==> Variant(radius) == Variant(other)
  {
  }

  /** The texture offsets, in multiples of the pass's texel offset, that the
      vertex shader of variant k assigns: centre, then -1, +1, -2, +2, ... */
  function VertexTaps(k: nat): (taps: seq<int>)
  {
    if k == 0 then [0] else VertexTaps(k - 1) + [-(k as int), k]
  }

  /** The order in which the fragment shader of variant k folds its samples
      into the running max: centre, then +1, -1, +2, -2, ... */
  function FragmentTaps(k: nat): (taps: seq<int>)
  {
    if k == 0 then [0] else FragmentTaps(k - 1) + [k as int, -(k as int)]
  }

  /** Variant k samples exactly the offsets -k..k, each once: 2k + 1 taps. */
  lemma {:induction false} VertexTapsExact(k: nat)
    ensures |VertexTaps(k)| == 2 * k + 1
    ensures forall j :: j in VertexTaps(k) <==> -(k as int) <= j <= k
    ensures forall a, b :: 0 <= a < b < |VertexTaps(k)| ==> VertexTaps(k)[a] != VertexTaps(k)[b]
    ensures VertexTaps(k)[0] == 0
  {
    if k > 0 {
      VertexTapsExact(k - 1);
      var p := VertexTaps(k - 1);
      assert VertexTaps(k) == p + [-(k as int), k];
      forall a, b | 0 <= a < b < |VertexTaps(k)|
        ensures VertexTaps(k)[a] != VertexTaps(k)[b]
      {
        if b >= |p| && a < |p| {
          assert p[a] in p;
        }
      }
    }
  }

  /** The fragment shader reads the same taps as the vertex shader provides,
      only in another order. */
  lemma {:induction false} FragmentTapsSameAsVertex(k: nat)
    ensures |FragmentTaps(k)| == |VertexTaps(k)|
    ensures forall j :: j in FragmentTaps(k) <==> j in VertexTaps(k)
    ensures FragmentTaps(k)[0] == 0
  {
    VertexTapsExact(k);
    if k > 0 {
      FragmentTapsSameAsVertex(k - 1);
      VertexTapsExact(k - 1);
      assert FragmentTaps(k) == FragmentTaps(k - 1) + [k as int, -(k as int)];
    }
  }

  /** The GLSL `max` of two floats. */
  function Max(a: real, b: real): (m: real)
    ensures m >= a && m >= b && (m == a || m == b)
  {
    if a >= b then a else b
  }

  /** The running `maxValue` of the fragment shader: the first sample, then
      `max(maxValue, next)` for each further sample. */
  function MaxChain(samples: seq<real>): (m: real)
    requires |samples| > 0
    ensures forall i :: 0 <= i < |samples| ==> samples[i] <= m
    ensures m in samples
  {
    if |samples| == 1 then samples[0]
    else Max(MaxChain(samples[..|samples| - 1]), samples[|samples| - 1])
  }

  /** The samples of one pixel, in fragment order; `intensity(j)` is the red
      channel read j texel offsets from the pixel. */
  function Samples(intensity: int -> real, taps: seq<int>): (s: seq<real>)
    ensures |s| == |taps|
    ensures forall i :: 0 <= i < |taps| ==> s[i] == intensity(taps[i])
  {
    if taps == [] then [] else Samples(intensity, taps[..|taps| - 1]) + [intensity(taps[|taps| - 1])]
  }

  /** An RGBA colour as written to `gl_FragColor`. */
  datatype Rgba = Rgba(r: real, g: real, b: real, a: real)

  /** The output of variant k's fragment shader for one pixel. */
  function FragmentOutput(intensity: int -> real, k: nat): Rgba
  {
    var taps := FragmentTaps(k);
    FragmentTapsSameAsVertex(k);
    var m := MaxChain(Samples(intensity, taps));
    Rgba(m, m, m, 1.0)
  }

  /** The output is the maximum of the red channel over the taps -k..k,
      written as an opaque grey; in particular it is at least the centre. */
  lemma FragmentOutputIsMaxOfTaps(intensity: int -> real, k: nat)
    ensures var c := FragmentOutput(intensity, k);
      c.r == c.g == c.b && c.a == 1.0
      && (forall j :: -(k as int) <= j <= k ==> intensity(j) <= c.r)
      && (exists j :: -(k as int) <= j <= k && intensity(j) == c.r)
      && intensity(0) <= c.r
  {
    var c := FragmentOutput(intensity, k);
    var taps := FragmentTaps(k);
    var s := Samples(intensity, taps);
    FragmentTapsSameAsVertex(k);
    VertexTapsExact(k);
    assert c.r == MaxChain(s);
    forall j | -(k as int) <= j <= k ensures intensity(j) <= c.r {
      assert j in VertexTaps(k);
      assert j in taps;
      var i :| 0 <= i < |taps| && taps[i] == j;
      assert s[i] == intensity(j);
    }
    var i :| 0 <= i < |s| && s[i] == c.r;
    assert taps[i] in taps;
  }
}

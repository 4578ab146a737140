/** The data passed to the fractal evaluator (`shader.rs`): the colour scheme
    widened to 16-byte vectors, and the per-frame parameter block. */
module Shader {

  import opened Settings

  /** `[f32; 2]`. */
  type Arr2 = s: seq<real> | |s| == 2 witness [0.0, 0.0]

  /** `[f32; 4]`, one 16-byte vector of the evaluator. */
  type Arr4 = s: seq<real> | |s| == 4 witness [0.0, 0.0, 0.0, 0.0]

  /** `ColorSchemeCallback`: the four palette coefficients, each widened. */
  /** `[u8; 4]`, the pad `_p0`. */
  type Pad4 = s: seq<bv8> | |s| == 4 witness [0, 0, 0, 0]

  datatype ColorSchemeCallback = ColorSchemeCallback(a: Arr4, b: Arr4, c: Arr4, d: Arr4)

  /** `extend`: copies the three channels and appends a `0.0` lane. */
  function Extend(arr: Arr3): (r: Arr4)
    ensures r[..3] == arr
    ensures r[3] == 0.0
  {
    [arr[0], arr[1], arr[2], 0.0]
  }

  /** Drops the fourth lane of a widened vector. */
  function Narrow(arr: Arr4): (r: Arr3)
    ensures Extend(r) == arr <==> arr[3] == 0.0
  {
    arr[..3]
  }

  /** Widening round-trips: narrowing `Extend(arr)` gives `arr` back. */
  lemma NarrowExtend(arr: Arr3)
    ensures Narrow(Extend(arr)) == arr
  {
  }

  /** `From<ColorScheme> for ColorSchemeCallback`: each coefficient is
      widened with `Extend`, `a` to `a`, `b` to `b`, `c` to `c`, `d` to `d`. */
  function FromColorScheme(value: ColorScheme): (r: ColorSchemeCallback)
    ensures r.a[3] == 0.0 && r.b[3] == 0.0 && r.c[3] == 0.0 && r.d[3] == 0.0
    ensures ToColorScheme(r) == value
  {
    ColorSchemeCallback(Extend(value.a), Extend(value.b), Extend(value.c), Extend(value.d))
  }

  /** Reads a colour scheme back from its widened form. */
  function ToColorScheme(cb: ColorSchemeCallback): ColorScheme
  {
    ColorScheme(Narrow(cb.a), Narrow(cb.b), Narrow(cb.c), Narrow(cb.d))
  }

  /** Two colour schemes are equal exactly when their widened forms are. */
  lemma FromColorSchemeInjective(s1: ColorScheme, s2: ColorScheme)
    ensures FromColorScheme(s1) == FromColorScheme(s2) <==> s1 == s2
  {
    if FromColorScheme(s1) == FromColorScheme(s2) {
      assert s1 == ToColorScheme(FromColorScheme(s1));
    }
  }

  /** `RenderCallback` as `main.rs` builds it: the camera narrowed to `f32`,
      the viewport size and origin, the fractal and shading settings as
      codes, the widened palette, its speed, the flag word and the Julia
      seed. `p0` is the four-byte pad `_p0`. */
  datatype RenderCallback = RenderCallback(
    pos: Arr2,
    zoom: real,
    p0: Pad4,
    resolution: Arr2,
    offset: Arr2,
    maxIter: i32,
    exponent: real,
    fractalType: bv32,
    shadingType: bv32,
    colorScheme: ColorSchemeCallback,
    paletteSpeed: real,
    flags: bv32,
    juliaPos: Arr2)
}

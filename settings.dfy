/** The viewer's settings types from `main.rs`: the cosine colour schemes and
    their presets, the shading and fractal kinds with the `u32` codes they
    carry to the evaluator, and the flag word packed for it. */
module Settings {

  import opened Wrappers

  /** Rust's `i32`, the type of the iteration budget. */
  newtype i32 = x: int | -0x8000_0000 <= x < 0x8000_0000

  /** `[f32; 3]`, one coefficient per colour channel. */
  type Arr3 = s: seq<real> | |s| == 3 witness [0.0, 0.0, 0.0]

  /** A cosine palette `a + b * cos(2 pi (c t + d))`. */
  datatype ColorScheme = ColorScheme(a: Arr3, b: Arr3, c: Arr3, d: Arr3)

  const RAINBOW: ColorScheme :=
    ColorScheme([0.5, 0.5, 0.5], [0.5, 0.5, 0.5], [1.0, 1.0, 1.0], [0.00, 0.33, 0.67])
  const EARTH: ColorScheme :=
    ColorScheme([0.5, 0.5, 0.5], [0.5, 0.5, 0.5], [1.0, 1.0, 1.0], [0.00, 0.10, 0.20])
  const SKY: ColorScheme :=
    ColorScheme([0.5, 0.5, 0.5], [0.5, 0.5, 0.5], [1.0, 1.0, 1.0], [0.30, 0.20, 0.20])
  const MIDDAY: ColorScheme :=
    ColorScheme([0.5, 0.5, 0.5], [0.5, 0.5, 0.5], [1.0, 1.0, 0.5], [0.80, 0.90, 0.30])
  const MIDNIGHTAMBER: ColorScheme :=
    ColorScheme([0.5, 0.5, 0.5], [0.5, 0.5, 0.5], [1.0, 0.7, 0.4], [0.00, 0.15, 0.20])
  const SUNSET: ColorScheme :=
    ColorScheme([0.5, 0.5, 0.5], [0.5, 0.5, 0.5], [2.0, 1.0, 0.0], [0.50, 0.20, 0.25])
  const CRIMSON: ColorScheme :=
    ColorScheme([0.8, 0.5, 0.4], [0.2, 0.4, 0.2], [2.0, 1.0, 1.0], [0.00, 0.25, 0.25])
  const OCEAN: ColorScheme :=
    ColorScheme([0.250, 0.500, 0.500], [0.198, 0.250, 0.250], [1.000, 1.000, 1.000], [0.900, 0.650, 0.800])

  /** The eight presets, in declaration order. */
  const PRESETS: seq<ColorScheme> :=
    [RAINBOW, EARTH, SKY, MIDDAY, MIDNIGHTAMBER, SUNSET, CRIMSON, OCEAN]

  /** The presets are pairwise different palettes. */
  lemma PresetsDistinct()
    ensures forall i, j :: 0 <= i < j < |PRESETS| ==> PRESETS[i] != PRESETS[j]
  {
  }

  datatype ShadingType = Normal | Smooth

  datatype FractalType = Mandelbrot | BurningShip | Tricorn

  /** `shading_type as u32` under `repr(u32)`: the declaration index. */
  function ShadingCode(t: ShadingType): (c: bv32)
    ensures ShadingFromCode(c) == Some(t)
  {
    match t
    case Normal => 0
    case Smooth => 1
  }

  /** The shading kind a code stands for; the codes are exactly 0 and 1. */
  function ShadingFromCode(c: bv32): (r: Option<ShadingType>)
    ensures r.Some? <==> c < 2
  {
    if c == 0 then Some(Normal)
    else if c == 1 then Some(Smooth)
    else None
  }

  /** `fractal_type as u32` under `repr(u32)`: the declaration index. */
  function FractalCode(t: FractalType): (c: bv32)
    ensures FractalFromCode(c) == Some(t)
  {
    match t
    case Mandelbrot => 0
    case BurningShip => 1
    case Tricorn => 2
  }

  /** The fractal kind a code stands for; the codes are exactly 0, 1 and 2. */
  function FractalFromCode(c: bv32): (r: Option<FractalType>)
    ensures r.Some? <==> c < 3
  {
    if c == 0 then Some(Mandelbrot)
    else if c == 1 then Some(BurningShip)
    else if c == 2 then Some(Tricorn)
    else None
  }

  /** Distinct kinds get distinct codes, and the codes are the declaration
      indices. */
  lemma CodesDistinct(s1: ShadingType, s2: ShadingType, f1: FractalType, f2: FractalType)
    ensures ShadingCode(s1) == ShadingCode(s2) <==> s1 == s2
    ensures FractalCode(f1) == FractalCode(f2) <==> f1 == f2
    ensures ShadingCode(Normal) == 0 && ShadingCode(Smooth) == 1
    ensures FractalCode(Mandelbrot) == 0 && FractalCode(BurningShip) == 1 && FractalCode(Tricorn) == 2
  {
  }

  /** `b as u32` for a `bool`. */
  function BoolCode(b: bool): (c: bv32)
    ensures c < 2 && (c == 1 <==> b)
  {
    if b then 1 else 0
  }

  /** `(julia as u32) | ((pertubation as u32) << 1)`: bit 0 is the Julia
      flag, bit 1 the perturbation flag, every other bit is clear. */
  function PackFlags(julia: bool, pertubation: bool): (f: bv32)
    ensures f & !3 == 0
    ensures (f & 1 == 1) == julia && (f & 2 == 2) == pertubation
    ensures UnpackFlags(f) == (julia, pertubation)
  {
    BoolCode(julia) | (BoolCode(pertubation) << 1)
  }

  /** Reads the two flags back from bits 0 and 1 of the flag word. */
  function UnpackFlags(f: bv32): (bool, bool)
  {
    (f & 1 != 0, f & 2 != 0)
  }

  /** A flag word with only bits 0 and 1 in use is exactly the packing of
      its own two flags. */
  lemma PackUnpack(f: bv32)
    requires f & !3 == 0
    ensures PackFlags(UnpackFlags(f).0, UnpackFlags(f).1) == f
  {
    assert f == 0 || f == 1 || f == 2 || f == 3;
  }
}

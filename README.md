# mandelbrot-renderer: host-side control logic in Dafny

The viewer is an egui/wgpu desktop application. A fragment shader evaluates
Mandelbrot, Burning Ship and Tricorn fractals. Each frame the host side does
four things:
- it reads the mouse and touch input;
- it moves a camera (a world position and a zoom) at the cursor;
- on a secondary click it picks a Julia seed;
- it packs the camera, the view and the settings into a `repr(C)` parameter
  block for the shader.

This project models that host-side logic over exact `real` numbers and proves
its algebra:
- the conversions and operators of the generic `Vector2<T>`, including the
  in-place `+=`, `-=`, `*=` and `/=`;
- the settings types: palettes, enum codes and the flag word;
- the widening of a palette into the shader's layout, and the byte layout of
  the blocks;
- one frame of camera navigation, both as step functions and as the
  `Application` class whose method updates its fields in place;
- the assembly of the parameter block.

Modules:
- `Wrappers`: `Option`.
- `Vector2s` (`vector2.rs`): the value type, its conversions, `Display`, the
  operators, and the class `Vector2Place` for the in-place forms.
- `Settings` (`main.rs`): `ColorScheme` and its presets, `ShadingType` and
  `FractalType` with their `u32` codes, and the packed flags.
- `Shader` (`shader.rs`): `extend`, `From<ColorScheme>` and the two callback
  records.
- `Layout` (`shader.rs`): `repr(C)` field placement.
- `Navigation` (`main.rs`): the camera and one frame's steps as functions.
- `App` (`main.rs`): `Application` with `new`, `inputs` and `custom_painting`.

Two facts about the code are stated as it is:

- Two screen-to-world maps. The zoom correction adds
  `world_after - world_before` to `pos`. The quantity it keeps fixed is
  therefore `AnchorAt`, `pos - ndc * zoom`. The Julia seed is picked with
  `WorldAt`, `pos + ndc * zoom`. Under that map the point under the cursor
  moves by `2 * ndc * (zoom' - zoom)` per zoom step (`ZoomDrift`). The pan
  agrees with `AnchorAt` (`PanFollowsDrag`). Which sign the shader uses is
  not visible, because `shader.wgsl` is not part of this model. So this is
  recorded, not claimed as a defect.
- `RenderCallback` is declared in `src/shader.rs:110-121` with fields up to
  `color_scheme`, 112 bytes in all. `src/main.rs:140-154` also fills
  `palette_speed`, `flags` and `julia_pos`.
  - The block is modelled as `main.rs` builds it (`Shader.RenderCallback`).
  - Both layouts are computed: `Layout.DeclaredSize` proves it is 112 bytes as
    declared; `Layout.BuiltLayout` proves it is 128 bytes as built.

## Model

| member | source | states |
|---|---|---|
| Vector2s.New | src/vector2.rs:130-134 | `new(x, y)` converts to the tuple `(x, y)` and the array `[x, y]` |
| Vector2s.Default | src/vector2.rs:118-122 | the default vector is `(0, 0)` and is neutral for `+` and `-` |
| Vector2s.Add | src/vector2.rs:30-32 | taking `b` back off each component of `a + b` gives `a` |
| Vector2s.Sub | src/vector2.rs:54-56 | adding `b` back to each component of `a - b` gives `a` |
| Vector2s.Mul | src/vector2.rs:78-80 | dividing `v * k` by the same non-zero `k` gives `v` |
| Vector2s.Div | src/vector2.rs:102-104 | multiplying each component of `v / k` by `k` gives `v`; the divisor must be non-zero |
| Vector2s.Componentwise | src/vector2.rs:22-104 | `+` and `-` act on each component; `* k` and `/ k` scale both components by the one scalar, `/` for `k != 0` |
| Vector2s.ToTuple | src/vector2.rs:136-140 | converting to a tuple and back gives the vector |
| Vector2s.FromTuple | src/vector2.rs:148-152 | the tuple's parts become `x` and `y` |
| Vector2s.ToArray | src/vector2.rs:142-146 | the array has two elements and converting back gives the vector |
| Vector2s.FromArray | src/vector2.rs:154-158 | elements 0 and 1 become `x` and `y` |
| Vector2s.Display | src/vector2.rs:124-128 | the text is `(`, the text of `x`, `, `, the text of `y`, `)`, at the positions these lengths give |
| Vector2s.IndexOfComma | src/vector2.rs:124-128 | finds the first comma of a rendered text; helper for reading `Display` back |
| Vector2s.ParseDisplay | src/vector2.rs:124-128 | a text it accepts is exactly `"(" + x + ", " + y + ")"` |
| Vector2s.DisplayRoundTrip | src/vector2.rs:124-128 | `Display` renders `"(x, y)"`: when `x`'s text holds no comma, both texts are read back |
| Vector2s.IndexOfCommaPrefix | src/vector2.rs:124-128 | the first comma after a comma-free prefix is just past the prefix |
| Vector2s.AddSubCancel | src/vector2.rs:30-32 | `(v + w) - w == v`, `(v - w) + w == v`, and `+` commutes |
| Vector2s.MulDivCancel | src/vector2.rs:78-80 | `/ k` undoes `* k` and the other way round, for `k != 0` |
| Vector2s.MulDistributes | src/vector2.rs:78-80 | `v * k + w * k == (v + w) * k` |
| Vector2s.DivDistributes | src/vector2.rs:102-104 | `v / k + w / k == (v + w) / k` |
| Vector2s.Vector2Place.constructor | src/vector2.rs:9-12 | a place holds the given vector |
| Vector2s.Vector2Place.AddAssign | src/vector2.rs:40-43 | `self += rhs` leaves `self + rhs` |
| Vector2s.Vector2Place.SubAssign | src/vector2.rs:64-67 | `self -= rhs` leaves `self - rhs` |
| Vector2s.Vector2Place.MulAssign | src/vector2.rs:88-91 | `self *= k` leaves `self * k` |
| Vector2s.Vector2Place.DivAssign | src/vector2.rs:112-115 | `self /= k` leaves `self / k` |
| Settings.PresetsDistinct | src/main.rs:69-76 | the eight palette presets, with their exact constants, are pairwise different |
| Settings.ShadingCode | src/main.rs:79-84 | the `u32` code of a shading type decodes back to it |
| Settings.ShadingFromCode | src/main.rs:79-84 | exactly the codes 0 and 1 name a shading type |
| Settings.FractalCode | src/main.rs:86-92 | the `u32` code of a fractal type decodes back to it |
| Settings.FractalFromCode | src/main.rs:86-92 | exactly the codes 0, 1 and 2 name a fractal type |
| Settings.CodesDistinct | src/main.rs:79-92 | Normal = 0, Smooth = 1, Mandelbrot = 0, BurningShip = 1, Tricorn = 2; equal codes iff equal types |
| Settings.BoolCode | src/main.rs:152 | `b as u32` is 1 for true and 0 for false |
| Settings.PackFlags | src/main.rs:152 | bit 0 is `julia`, bit 1 is `pertubation`, all other bits clear; unpacking gives both flags back |
| Settings.PackUnpack | src/main.rs:152 | every flag word with only bits 0 and 1 in use is the packing of its own flags |
| Shader.Extend | src/shader.rs:132-134 | components 0 to 2 are kept and component 3 is `0.0` |
| Shader.Narrow | src/shader.rs:132-134 | dropping lane 3 and re-extending gives the array back iff lane 3 is `0.0` |
| Shader.NarrowExtend | src/shader.rs:132-134 | dropping lane 3 of `extend(arr)` gives `arr` |
| Shader.FromColorScheme | src/shader.rs:135-144 | each of `a`, `b`, `c`, `d` is extended; fourth lanes are `0.0`; narrowing gives the scheme back |
| Shader.FromColorSchemeInjective | src/shader.rs:135-144 | two schemes are equal iff their callbacks are equal |
| Layout.AlignUp | src/shader.rs:108 | rounding up to an alignment gives the least multiple at or past the offset |
| Layout.Offset | src/shader.rs:108-121 | every field's offset is a multiple of its alignment |
| Layout.FirstAlignedOffset | src/shader.rs:108-121 | the first field is at 0; every later one is at the first multiple of its alignment at or past the end of the previous field |
| Layout.MaxAlign | src/shader.rs:108 | the struct alignment is the largest of the fields' and the requested `align(16)` |
| Layout.Size | src/shader.rs:108 | the size is a multiple of the struct alignment and covers the last field |
| Layout.SizeIsLeast | src/shader.rs:108 | the size is less than one struct alignment past the end of the last field, so it is the least such multiple |
| Layout.FieldsDisjoint | src/shader.rs:108-121 | fields in declaration order do not overlap |
| Layout.FieldsFit | src/shader.rs:108-121 | every field lies within the struct's size |
| Layout.ColorSchemeCallbackLayout | src/shader.rs:123-130 | `a`, `b`, `c`, `d` sit at 0, 16, 32, 48; the struct is 64 bytes with alignment 16 |
| Layout.DeclaredOffsets | src/shader.rs:110-121 | `zoom` at 8, `_p0` at 12, `resolution` at 16, `offset` at 24, `max_iter` 32, `exponent` 36, the codes 40 and 44, `color_scheme` at 48 |
| Layout.DeclaredSize | src/shader.rs:108-121 | the declared block has alignment 16 and size 112, a multiple of 16 |
| Layout.UnpaddedResolution | src/shader.rs:113-114 | without `_p0` the `resolution` would start at byte 12, not 16 |
| Layout.BuiltLayout | src/main.rs:139-154 | the block as filled puts `palette_speed` at 112, `flags` at 116, `julia_pos` at 120, and is 128 bytes |
| Navigation.DefaultCamera | src/main.rs:100-107 | the default camera is at `(0, 0)` with zoom 2.1 |
| Navigation.ViewportScale | src/main.rs:164 | the viewport scale is the shorter side of the view |
| Navigation.Ndc | src/main.rs:167-171 | NDC `(p - centre) / scale * 2`; mapping it back to the screen gives `p` |
| Navigation.NdcOfScreenPoint | src/main.rs:168-171 | the NDC of the screen point of `n` is `n` |
| Navigation.ZoomFactor | src/main.rs:177-183 | the zoom is scaled by the scroll factor and the pinch factor; skipping a pinch factor of 1 changes nothing |
| Navigation.ZoomStep | src/main.rs:177-183 | `zoom' = zoom * s * g`, whether or not the pinch factor is skipped |
| Navigation.ZoomCorrection | src/main.rs:174-188 | `pos' = pos + ndc * (zoom' - zoom)`, so `pos - ndc * zoom` is kept |
| Navigation.ZoomDrift | src/main.rs:174-188 | under `pos + ndc * zoom` the point under the cursor moves by `2 * ndc * (zoom' - zoom)` |
| Navigation.ZoomStaysPositive | src/main.rs:177-183 | positive zoom and factors give a positive zoom |
| Navigation.ZoomIdle | src/main.rs:177-188 | with no scroll and no pinch, the camera stays |
| Navigation.ZoomCompose | src/main.rs:177-188 | two zoom steps at one cursor are one step by the products of the factors |
| Navigation.ZoomsKeepAnchor | src/main.rs:174-188 | any number of zoom steps at a still cursor keep `pos - ndc * zoom` |
| Navigation.ZoomsScale | src/main.rs:177-183 | any number of zoom steps scale the zoom by the product of all factors |
| Navigation.Regroup | src/main.rs:177-183 | a zoom `z * p` scaled by `a` and `b` is `z * (p * a * b)` |
| Navigation.StepScales | src/main.rs:177-183 | one more step multiplies a zoom of `z` times the earlier factors' product by its two factors, giving `z` times the product of all factors |
| Navigation.PanStep | src/main.rs:191-198 | a primary drag moves `pos` by `drag * (2 * zoom / scale)` and keeps the zoom |
| Navigation.PanFollowsDrag | src/main.rs:191-198 | after a pan, the anchored point once at `ndc` is at `ndc + drag * 2 / scale` |
| Navigation.PanTwice | src/main.rs:191-198 | two pans at one zoom are one pan by the summed drag |
| Navigation.Pans | src/main.rs:191-198 | helper for `PansAreOnePan`: each pan keeps the zoom, so the sequence does |
| Navigation.PansAreOnePan | src/main.rs:191-198 | any number of pans at one zoom are one pan by the summed drag |
| Navigation.WorldRoundTrip | src/main.rs:201-206 | for a non-zero zoom, a screen point mapped to the world with `pos + ndc * zoom` comes back: subtract `pos`, divide by the zoom, map the NDC to the screen |
| Navigation.JuliaPick | src/main.rs:199-207 | the seed `(click - centre) / scale * 2 * zoom + pos` is `WorldAt` the click's NDC |
| Navigation.FrameJulia | src/main.rs:199-207 | without a secondary interaction the seed is the old one; with one it is the world point under the interaction, for the camera after its zoom and pan |
| Navigation.FrameCamera | src/main.rs:159-198 | after a frame the zoom is the old zoom times both factors |
| Navigation.FramePan | src/main.rs:191-198 | `pos` gets the pan term only on a primary drag, with the zoom after the zoom step |
| Navigation.FrameIdle | src/main.rs:159-198 | a frame with no scroll, no pinch and no drag leaves the camera |
| Navigation.FrameJuliaOnlyOnSecondary | src/main.rs:199-207 | the seed changes only on a secondary click or drag; then it is the world point under the click, whatever the old seed |
| Navigation.FrameZoomPositive | src/main.rs:177-183 | positive factors keep the zoom positive frame after frame |
| App.Application.constructor | src/main.rs:119-131 | the default camera, `max_iter` 1024, `exponent` 2.0, Mandelbrot, Smooth, MIDNIGHTAMBER, `palette_speed` 0.05, julia and perturbation off |
| App.Application.Inputs | src/main.rs:159-209 | updates the camera and seed in place as `FrameCamera` and `FrameJulia` say; every other field is unchanged |
| App.Application.Block | src/main.rs:140-154 | every setting reads back from the block: camera, view size and origin, enum codes, palette with zero fourth lanes, flags, seed |
| App.Application.CustomPainting | src/main.rs:135-156 | processes the input, then builds the block from the updated state |

## Left out

- `src/ui.rs`: settings panel, sliders and fullscreen toggle, which are egui
  layout. Its reset button sets the camera to `CameraInfo::default()`, which
  is `Navigation.DefaultCamera`.
- Code in `src/shader.rs` outside the blocks:
  - `init`, which builds the pipeline;
  - `prepare` and `paint`, which copy the block into a GPU buffer and draw;
  - the `CallbackTrait` implementation.
  
  These are wgpu plumbing.
- `shader.wgsl` is not part of this model. The escape-time iteration, the
  smooth colouring, the cosine palette and the perturbation are not
  modelled.
- `main()` and the eframe start-up: platform I/O.
- The egui `Vec2`/`Vec2b` conversions (`src/vector2.rs:160-182`): they bridge
  to types of a foreign library.
- Floating point: `f32` and `f64` are exact `real`s.
  - No rounding or narrowing to `f32` is modelled: not for the block's
    `pos`, `zoom` or `julia_pos`, and not for any `as f64` cast.
- `1.01^(-scroll)`: stood for by the positive input `scrollFactor`, since
  `powf` has no exact model.
- The egui input state is a `FrameInput` value per frame: the latest pointer
  position, the scroll and pinch factors, the drag flags, the drag motion
  and the interaction point.
  - `ui.allocate_exact_size` hands back the view rectangle, which is an input
    of `Inputs`.
- Vector2s.Div: a zero divisor gives infinities or NaN on floats and a panic
  on integers. The model requires a non-zero divisor.
- Vector2s arithmetic is given for `real` components only, the `f32` and
  `f64` instantiations the viewer uses.
  - The integer and boolean aliases are not instantiated with arithmetic.
  - The mixed `Rhs`/`Output` types are not modelled.
- Navigation.Ndc requires a positive viewport scale, because the code
  divides by it unguarded. App.Application.Inputs requires an interaction
  point on a secondary click or drag, because the code unwraps it.
- Vector2s.DisplayRoundTrip: `Display` takes a component renderer `show` as
  a parameter, since Rust's float formatting is not modelled. The round trip
  is stated only for renderers whose text of `x` has no comma.

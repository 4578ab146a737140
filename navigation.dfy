/** The camera navigation of `main.rs`, one frame at a time, as functions of
    the camera and an input snapshot. `App.Application.Inputs` carries out the
    same steps in place.

    Two screen-to-world maps appear in the code. The Julia seed is picked with
    `WorldAt`, `pos + ndc * zoom`. The zoom correction adds
    `world_after - world_before`, which keeps `AnchorAt`, `pos - ndc * zoom`,
    fixed instead; under `WorldAt` the point under the cursor drifts. */
module Navigation {

  import opened Wrappers
  import opened Vector2s

  /** Scaling by `s / 2` undoes dividing by `s` and doubling, and back. */
  lemma HalfScaleCancel(d: real, s: real)
    requires s != 0.0
    ensures d / s * 2.0 * (s / 2.0) == d
    ensures d * (s / 2.0) / s * 2.0 == d
  {
    assert d / s * 2.0 * (s / 2.0) == d / s * s;
    assert d * (s / 2.0) / s * 2.0 == d * s / s;
  }

  /** Multiplication distributes over the difference of two factors. */
  lemma MulSubDistributes(a: real, z1: real, z2: real)
    ensures a * z1 - a * z2 == a * (z1 - z2)
  {
  }

  /** The zoom correction `(p + n * z1) - (p + n * z2)` is `n * (z1 - z2)`. */
  lemma ShiftDifference(p: Vector2<real>, n: Vector2<real>, z1: real, z2: real)
    ensures Sub(Add(p, Mul(n, z1)), Add(p, Mul(n, z2))) == Mul(n, z1 - z2)
  {
    MulSubDistributes(n.x, z1, z2);
    MulSubDistributes(n.y, z1, z2);
  }

  /** Moving `p` by `n * (z - w)` and subtracting `n * z` subtracts `n * w`. */
  lemma AnchorShift(p: Vector2<real>, n: Vector2<real>, w: real, z: real)
    ensures Sub(Add(p, Mul(n, z - w)), Mul(n, z)) == Sub(p, Mul(n, w))
  {
    MulSubDistributes(n.x, z, w);
    MulSubDistributes(n.y, z, w);
  }

  /** Moving `p` by `n * (z - w)` and adding `n * z` adds `n * w` and twice
      the move. */
  lemma WorldShift(p: Vector2<real>, n: Vector2<real>, w: real, z: real)
    ensures Add(Add(p, Mul(n, z - w)), Mul(n, z)) == Add(Add(p, Mul(n, w)), Mul(n, 2.0 * (z - w)))
  {
    MulSubDistributes(n.x, z, w);
    MulSubDistributes(n.y, z, w);
    assert n.x * (2.0 * (z - w)) == 2.0 * (n.x * (z - w));
    assert n.y * (2.0 * (z - w)) == 2.0 * (n.y * (z - w));
  }

  /** `d / s * (z * 2)` is `d * (2 * z / s)`, componentwise. */
  lemma PanRegroup(d: Vector2<real>, s: real, z: real)
    requires s != 0.0
    ensures Mul(Div(d, s), z * 2.0) == Mul(d, 2.0 * z / s)
  {
    assert d.x / s * (z * 2.0) == d.x * (2.0 * z / s);
    assert d.y / s * (z * 2.0) == d.y * (2.0 * z / s);
    var l, r := Mul(Div(d, s), z * 2.0), Mul(d, 2.0 * z / s);
    assert l.x == r.x && l.y == r.y;
  }

  /** `CameraInfo`: the world position at the centre of the view and the
      zoom, the world half-extent of the shorter side of the view. */
  datatype CameraInfo = CameraInfo(pos: Vector2<real>, zoom: real)

  /** `CameraInfo::default`: centred on the origin with zoom 2.1. */
  function DefaultCamera(): (c: CameraInfo)
    ensures c.pos == Vector2(0.0, 0.0) && c.zoom == 2.1
  {
    CameraInfo(Default(), 2.1)
  }

  /** An egui rectangle in screen points, given by its two corners. */
  datatype Rect = Rect(min: Vector2<real>, max: Vector2<real>) {
    function Width(): real { max.x - min.x }
    function Height(): real { max.y - min.y }
    function Center(): Vector2<real> { Vector2((min.x + max.x) / 2.0, (min.y + max.y) / 2.0) }
    function Size(): Vector2<real> { Vector2(Width(), Height()) }
  }

  /** `viewport_scale`: the shorter side of the view. */
  function ViewportScale(rect: Rect): (s: real)
    ensures s <= rect.Width() && s <= rect.Height()
    ensures s == rect.Width() || s == rect.Height()
  {
    if rect.Width() <= rect.Height() then rect.Width() else rect.Height()
  }

  /** A screen point in normalised device coordinates: its offset from the
      centre of the view over the viewport scale, times two. */
  function Ndc(p: Vector2<real>, rect: Rect): (n: Vector2<real>)
    requires ViewportScale(rect) > 0.0
    ensures ScreenPoint(n, rect) == p
  {
    var s := ViewportScale(rect);
    var n := Vector2((p.x - rect.Center().x) / s * 2.0, (p.y - rect.Center().y) / s * 2.0);
    HalfScaleCancel(p.x - rect.Center().x, s);
    HalfScaleCancel(p.y - rect.Center().y, s);
    assert ScreenPoint(n, rect).x == p.x && ScreenPoint(n, rect).y == p.y;
    n
  }

  /** The screen point with the given normalised device coordinates. */
  function ScreenPoint(n: Vector2<real>, rect: Rect): Vector2<real>
    requires ViewportScale(rect) > 0.0
  {
    Add(rect.Center(), Mul(n, ViewportScale(rect) / 2.0))
  }

  /** The two maps are inverse in the other order as well. */
  lemma NdcOfScreenPoint(n: Vector2<real>, rect: Rect)
    requires ViewportScale(rect) > 0.0
    ensures Ndc(ScreenPoint(n, rect), rect) == n
  {
    var s, c := ViewportScale(rect), rect.Center();
    var p := ScreenPoint(n, rect);
    HalfScaleCancel(n.x, s);
    HalfScaleCancel(n.y, s);
    assert p.x - c.x == n.x * (s / 2.0) && p.y - c.y == n.y * (s / 2.0);
    assert Ndc(p, rect).x == n.x && Ndc(p, rect).y == n.y;
  }

  /** The world point at `ndc` under the map the Julia seed is picked with,
      `pos + ndc * zoom`. */
  function WorldAt(cam: CameraInfo, ndc: Vector2<real>): Vector2<real>
  {
    Add(cam.pos, Mul(ndc, cam.zoom))
  }

  /** `pos - ndc * zoom`: the quantity the zoom correction keeps fixed. */
  function AnchorAt(cam: CameraInfo, ndc: Vector2<real>): Vector2<real>
  {
    Sub(cam.pos, Mul(ndc, cam.zoom))
  }

  /** The new zoom: scaled by the scroll factor `s` (the code's
      `1.01^(-scroll)`), then by the pinch factor `g` unless `g` is 1. Either
      way both factors apply. */
  function ZoomFactor(zoom: real, s: real, g: real): (z: real)
    ensures z == zoom * s * g
  {
    var z := zoom * s;
    if g != 1.0 then z * g else z
  }

  /** The zoom step at the cursor's `ndc`: the zoom is scaled and `pos` is
      moved by `world_after - world_before`. What this does to `pos` is
      `ZoomCorrection`. */
  function ZoomStep(cam: CameraInfo, ndc: Vector2<real>, s: real, g: real): (r: CameraInfo)
    ensures r.zoom == cam.zoom * s * g
  {
    var z := ZoomFactor(cam.zoom, s, g);
    var before := WorldAt(cam, ndc);
    var after := WorldAt(cam.(zoom := z), ndc);
    CameraInfo(Add(cam.pos, Sub(after, before)), z)
  }

  /** The zoom step moves `pos` by `ndc * (zoom' - zoom)`, which keeps
      `pos - ndc * zoom` where it was. */
  lemma ZoomCorrection(cam: CameraInfo, ndc: Vector2<real>, s: real, g: real)
    ensures var r := ZoomStep(cam, ndc, s, g);
      r.pos == Add(cam.pos, Mul(ndc, r.zoom - cam.zoom))
    ensures AnchorAt(ZoomStep(cam, ndc, s, g), ndc) == AnchorAt(cam, ndc)
  {
    var z := ZoomStep(cam, ndc, s, g).zoom;
    ShiftDifference(cam.pos, ndc, z, cam.zoom);
    AnchorShift(cam.pos, ndc, cam.zoom, z);
  }

  /** Under the seed map the point under the cursor moves by
      `2 * ndc * (zoom' - zoom)`: the correction has the opposite sign. */
  lemma ZoomDrift(cam: CameraInfo, ndc: Vector2<real>, s: real, g: real)
    ensures WorldAt(ZoomStep(cam, ndc, s, g), ndc)
         == Add(WorldAt(cam, ndc), Mul(ndc, 2.0 * (ZoomStep(cam, ndc, s, g).zoom - cam.zoom)))
  {
    ZoomCorrection(cam, ndc, s, g);
    WorldShift(cam.pos, ndc, cam.zoom, ZoomStep(cam, ndc, s, g).zoom);
  }

  /** Zooming keeps the zoom positive when both factors are positive. */
  lemma ZoomStaysPositive(cam: CameraInfo, ndc: Vector2<real>, s: real, g: real)
    requires cam.zoom > 0.0 && s > 0.0 && g > 0.0
    ensures ZoomStep(cam, ndc, s, g).zoom > 0.0
  {
    assert cam.zoom * s > 0.0;
  }

  /** With no scroll (factor 1) and no pinch (factor 1) the camera stays. */
  lemma ZoomIdle(cam: CameraInfo, ndc: Vector2<real>)
    ensures ZoomStep(cam, ndc, 1.0, 1.0) == cam
  {
  }

  /** Two zoom steps at the same cursor make one step by the product of
      their factors. */
  lemma ZoomCompose(cam: CameraInfo, ndc: Vector2<real>, s1: real, g1: real, s2: real, g2: real)
    ensures ZoomStep(ZoomStep(cam, ndc, s1, g1), ndc, s2, g2) == ZoomStep(cam, ndc, s1 * s2, g1 * g2)
  {
    var r1 := ZoomStep(cam, ndc, s1, g1);
    var r2 := ZoomStep(r1, ndc, s2, g2);
    var r := ZoomStep(cam, ndc, s1 * s2, g1 * g2);
    ZoomCorrection(cam, ndc, s1, g1);
    ZoomCorrection(r1, ndc, s2, g2);
    ZoomCorrection(cam, ndc, s1 * s2, g1 * g2);
    assert r2.zoom == r.zoom by {
      assert cam.zoom * s1 * g1 * s2 * g2 == cam.zoom * (s1 * s2) * (g1 * g2);
    }
    assert Sub(r2.pos, Mul(ndc, r2.zoom)) == Sub(r.pos, Mul(ndc, r.zoom));
  }

  /** The pan step for a primary-button drag of `drag` screen points:
      `pos += drag / scale * (zoom * 2)`, the zoom unchanged. */
  function PanStep(cam: CameraInfo, drag: Vector2<real>, scale: real): (r: CameraInfo)
    requires scale > 0.0
    ensures r.zoom == cam.zoom
    ensures r.pos == Add(cam.pos, Mul(drag, 2.0 * cam.zoom / scale))
  {
    PanRegroup(drag, scale, cam.zoom);
    CameraInfo(Add(cam.pos, Mul(Div(drag, scale), cam.zoom * 2.0)), cam.zoom)
  }

  /** Under the anchored map the world point under the cursor follows the
      drag: what was at `ndc` is now at `ndc + 2 * drag / scale`. */
  lemma PanFollowsDrag(cam: CameraInfo, drag: Vector2<real>, scale: real, ndc: Vector2<real>)
    requires scale > 0.0
    ensures AnchorAt(PanStep(cam, drag, scale), Add(ndc, Mul(drag, 2.0 / scale))) == AnchorAt(cam, ndc)
  {
    var z := cam.zoom;
    var moved := Add(ndc, Mul(drag, 2.0 / scale));
    assert drag.x * (2.0 / scale) * z == drag.x * (2.0 * z / scale);
    assert drag.y * (2.0 / scale) * z == drag.y * (2.0 * z / scale);
    assert moved.x * z == ndc.x * z + drag.x * (2.0 / scale) * z;
    assert moved.y * z == ndc.y * z + drag.y * (2.0 / scale) * z;
    var l, r := AnchorAt(PanStep(cam, drag, scale), moved), AnchorAt(cam, ndc);
    assert l.x == r.x && l.y == r.y;
  }

  /** Two pans at one zoom make one pan by the summed drag. */
  lemma PanTwice(cam: CameraInfo, d1: Vector2<real>, d2: Vector2<real>, scale: real)
    requires scale > 0.0
    ensures PanStep(PanStep(cam, d1, scale), d2, scale) == PanStep(cam, Add(d1, d2), scale)
  {
    MulDistributes(d1, d2, 2.0 * cam.zoom / scale);
  }

  /** The sum of a sequence of drags. */
  function SumDrags(drags: seq<Vector2<real>>): Vector2<real>
  {
    if drags == [] then Default() else Add(SumDrags(drags[..|drags| - 1]), drags[|drags| - 1])
  }

  /** The camera after panning by each drag in turn. */
  function Pans(cam: CameraInfo, drags: seq<Vector2<real>>, scale: real): (r: CameraInfo)
    requires scale > 0.0
    ensures r.zoom == cam.zoom
  {
    if drags == [] then cam
    else PanStep(Pans(cam, drags[..|drags| - 1], scale), drags[|drags| - 1], scale)
  }

  /** Any number of pans at one zoom make one pan by the summed drag. */
  lemma {:induction false} PansAreOnePan(cam: CameraInfo, drags: seq<Vector2<real>>, scale: real)
    requires scale > 0.0
    ensures Pans(cam, drags, scale) == PanStep(cam, SumDrags(drags), scale)
  {
    if drags == [] {
      assert PanStep(cam, Default(), scale) == cam;
    } else {
      var init, last := drags[..|drags| - 1], drags[|drags| - 1];
      PansAreOnePan(cam, init, scale);
      PanTwice(cam, SumDrags(init), last, scale);
    }
  }

  /** The camera after one zoom step per `(s, g)` pair, the cursor held at
      `ndc`. */
  function Zooms(cam: CameraInfo, ndc: Vector2<real>, steps: seq<(real, real)>): CameraInfo
  {
    if steps == [] then cam
    else
      var last := steps[|steps| - 1];
      ZoomStep(Zooms(cam, ndc, steps[..|steps| - 1]), ndc, last.0, last.1)
  }

  /** The product of all factors of the zoom steps. */
  function ZoomProduct(steps: seq<(real, real)>): real
  {
    if steps == [] then 1.0
    else
      var last := steps[|steps| - 1];
      ZoomProduct(steps[..|steps| - 1]) * last.0 * last.1
  }

  /** A zoom `q` that is `z` scaled by `p`, scaled further by `a` and `b`, is
      `z` scaled by `p * a * b`. */
  lemma Regroup(q: real, z: real, p: real, a: real, b: real)
    requires q == z * p
    ensures q * a * b == z * (p * a * b)
  {
  }

  /** However many frames of scrolling and pinching at a still cursor, the
      anchored point stays. */
  lemma {:induction false} ZoomsKeepAnchor(cam: CameraInfo, ndc: Vector2<real>, steps: seq<(real, real)>)
    ensures AnchorAt(Zooms(cam, ndc, steps), ndc) == AnchorAt(cam, ndc)
  {
    if steps != [] {
      var init, last := steps[..|steps| - 1], steps[|steps| - 1];
      ZoomsKeepAnchor(cam, ndc, init);
      ZoomCorrection(Zooms(cam, ndc, init), ndc, last.0, last.1);
    }
  }

  /** Frame after frame the zoom is scaled by the product of all factors. */
  lemma {:induction false} ZoomsScale(cam: CameraInfo, ndc: Vector2<real>, steps: seq<(real, real)>)
    ensures Zooms(cam, ndc, steps).zoom == cam.zoom * ZoomProduct(steps)
  {
    if steps == [] {
      assert Zooms(cam, ndc, steps) == cam;
      assert ZoomProduct(steps) == 1.0;
    } else {
      var init, last := steps[..|steps| - 1], steps[|steps| - 1];
      var prev := Zooms(cam, ndc, init);
      ZoomsScale(cam, ndc, init);
      StepScales(prev.zoom, cam.zoom, steps);
      assert Zooms(cam, ndc, steps).zoom == ZoomStep(prev, ndc, last.0, last.1).zoom;
    }
  }

  /** A zoom of `z` times the product of the earlier factors, scaled by the
      last step's two factors, is `z` times the product of all factors. */
  lemma StepScales(q: real, z: real, steps: seq<(real, real)>)
    requires steps != [] && q == z * ZoomProduct(steps[..|steps| - 1])
    ensures q * steps[|steps| - 1].0 * steps[|steps| - 1].1 == z * ZoomProduct(steps)
  {
    var last := steps[|steps| - 1];
    var p := ZoomProduct(steps[..|steps| - 1]);
    assert ZoomProduct(steps) == p * last.0 * last.1;
    Regroup(q, z, p, last.0, last.1);
  }

  /** Under the seed map a screen point goes to the world and back: taking
      `pos` away, dividing by the zoom and mapping the NDC to the screen gives
      the point again. */
  lemma WorldRoundTrip(cam: CameraInfo, p: Vector2<real>, rect: Rect)
    requires ViewportScale(rect) > 0.0 && cam.zoom != 0.0
    ensures ScreenPoint(Div(Sub(WorldAt(cam, Ndc(p, rect)), cam.pos), cam.zoom), rect) == p
  {
    var n := Ndc(p, rect);
    MulDivCancel(n, cam.zoom);
    assert Sub(WorldAt(cam, n), cam.pos) == Mul(n, cam.zoom);
  }

  /** The Julia seed picked at screen point `click`:
      `(click - centre) / scale * 2 * zoom + pos`. */
  function JuliaPick(cam: CameraInfo, click: Vector2<real>, rect: Rect): (j: Vector2<real>)
    requires ViewportScale(rect) > 0.0
    ensures j == WorldAt(cam, Ndc(click, rect))
  {
    Add(Mul(Mul(Div(Sub(click, rect.Center()), ViewportScale(rect)), 2.0), cam.zoom), cam.pos)
  }

  /** One frame's input: the view, the latest pointer position (if any), the
      scroll factor standing for `1.01^(-scroll)`, the pinch factor
      `zoom_delta`, the primary drag and its motion, the secondary click or
      drag and the pointer position of that interaction (if any). */
  datatype FrameInput = FrameInput(
    rect: Rect,
    pointer: Option<Vector2<real>>,
    scrollFactor: real,
    zoomDelta: real,
    primaryDragged: bool,
    dragMotion: Vector2<real>,
    secondaryClicked: bool,
    secondaryDragged: bool,
    interactPos: Option<Vector2<real>>)
  {
    /** The view has a positive size (the code divides by the viewport scale
        unguarded), and a secondary interaction has a position (the code
        unwraps it). */
    predicate Acceptable()
    {
      ViewportScale(rect) > 0.0 && (Secondary() ==> interactPos.Some?)
    }

    /** A secondary click or a secondary drag. */
    predicate Secondary()
    {
      secondaryClicked || secondaryDragged
    }

    /** The cursor in normalised device coordinates; a missing pointer
        counts as the screen origin. */
    function MouseNdc(): Vector2<real>
      requires ViewportScale(rect) > 0.0
    {
      Ndc(pointer.GetOr(Vector2(0.0, 0.0)), rect)
    }
  }

  /** The camera after a frame: the zoom step at the cursor, then the pan
      step if the primary button drags. */
  function FrameCamera(cam: CameraInfo, input: FrameInput): (r: CameraInfo)
    requires input.Acceptable()
    ensures r.zoom == cam.zoom * input.scrollFactor * input.zoomDelta
  {
    var zoomed := ZoomStep(cam, input.MouseNdc(), input.scrollFactor, input.zoomDelta);
    if input.primaryDragged then PanStep(zoomed, input.dragMotion, ViewportScale(input.rect))
    else zoomed
  }

  /** The Julia seed after a frame: picked with the camera after its zoom
      and pan on a secondary interaction, left as it was otherwise. */
  function FrameJulia(cam: CameraInfo, julia: Vector2<real>, input: FrameInput): (r: Vector2<real>)
    requires input.Acceptable()
    ensures !input.Secondary() ==> r == julia
    ensures input.Secondary() ==> r == WorldAt(FrameCamera(cam, input), Ndc(input.interactPos.value, input.rect))
  {
    if input.Secondary() then JuliaPick(FrameCamera(cam, input), input.interactPos.value, input.rect)
    else julia
  }

  /** Without a primary drag `pos` is moved by the zoom correction alone;
      with one the pan adds `drag / scale * zoom' * 2`, with the zoom after
      the zoom step. */
  lemma FramePan(cam: CameraInfo, input: FrameInput)
    requires input.Acceptable()
    ensures var zoomed := ZoomStep(cam, input.MouseNdc(), input.scrollFactor, input.zoomDelta);
      FrameCamera(cam, input).pos
        == if input.primaryDragged
           then Add(zoomed.pos, Mul(input.dragMotion, 2.0 * zoomed.zoom / ViewportScale(input.rect)))
           else zoomed.pos
  {
  }

  /** A frame with no scroll, no pinch and no drag leaves the camera. */
  lemma FrameIdle(cam: CameraInfo, input: FrameInput)
    requires input.Acceptable()
    requires input.scrollFactor == 1.0 && input.zoomDelta == 1.0 && !input.primaryDragged
    ensures FrameCamera(cam, input) == cam
  {
    ZoomIdle(cam, input.MouseNdc());
  }

  /** The seed changes only on a secondary interaction, and then it is the
      world point under the interaction, whatever the old seed was. */
  lemma FrameJuliaOnlyOnSecondary(cam: CameraInfo, j1: Vector2<real>, j2: Vector2<real>, input: FrameInput)
    requires input.Acceptable()
    ensures !input.Secondary() ==> FrameJulia(cam, j1, input) == j1
    ensures input.Secondary() ==>
      FrameJulia(cam, j1, input) == FrameJulia(cam, j2, input)
        == WorldAt(FrameCamera(cam, input), Ndc(input.interactPos.value, input.rect))
  {
  }

  /** With positive factors the zoom stays positive frame after frame. */
  lemma FrameZoomPositive(cam: CameraInfo, input: FrameInput)
    requires input.Acceptable()
    requires cam.zoom > 0.0 && input.scrollFactor > 0.0 && input.zoomDelta > 0.0
    ensures FrameCamera(cam, input).zoom > 0.0
  {
    ZoomStaysPositive(cam, input.MouseNdc(), input.scrollFactor, input.zoomDelta);
  }
}

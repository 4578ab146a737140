/** The viewer's `Application` (`main.rs`): its settings and camera, the
    per-frame input processing that moves the camera and picks the Julia
    seed, and the parameter block handed to the shader each frame. */
module App {

  import opened Wrappers
  import opened Vector2s
  import opened Settings
  import opened Shader
  import opened Navigation

  class Application {
    var camera: CameraInfo
    var maxIter: i32
    var exponent: real
    var fractalType: FractalType
    var shadingType: ShadingType
    var colorScheme: ColorScheme
    var paletteSpeed: real
    var julia: bool
    var juliaPos: Vector2<real>
    var pertubation: bool

    /** `Application::new`: the default camera and the initial settings. The
        shader pipeline set up alongside is not part of this model. */
    constructor ()
      ensures camera == DefaultCamera()
      ensures maxIter == 1024 && exponent == 2.0
      ensures fractalType == Mandelbrot && shadingType == Smooth
      ensures colorScheme == MIDNIGHTAMBER && paletteSpeed == 0.05
      ensures !julia && juliaPos == Vector2(0.0, 0.0) && !pertubation
    {
      camera := DefaultCamera();
      maxIter := 1024;
      exponent := 2.0;
      fractalType := Mandelbrot;
      shadingType := Smooth;
      colorScheme := MIDNIGHTAMBER;
      paletteSpeed := 0.05;
      julia := false;
      juliaPos := Default();
      pertubation := false;
    }

    /** `inputs`: one frame of input processing. The zoom is scaled at the
        cursor with the correction `world_after - world_before`, a primary
        drag pans, and a secondary click or drag picks the Julia seed with
        the camera as it ends up. Nothing but the camera and the seed
        changes; the view's rectangle is handed back. */
    method Inputs(input: FrameInput) returns (rect: Rect)
      requires input.Acceptable()
      modifies this
      ensures rect == input.rect
      ensures camera == FrameCamera(old(camera), input)
      ensures juliaPos == FrameJulia(old(camera), old(juliaPos), input)
      ensures maxIter == old(maxIter) && exponent == old(exponent)
      ensures fractalType == old(fractalType) && shadingType == old(shadingType)
      ensures colorScheme == old(colorScheme) && paletteSpeed == old(paletteSpeed)
      ensures julia == old(julia) && pertubation == old(pertubation)
    {
      rect := input.rect;
      var viewportScale := ViewportScale(rect);
      var mousePos := input.pointer.GetOr(Default());
      var mouseNdc := Ndc(mousePos, rect);
      var worldBeforeZoom := Add(camera.pos, Mul(mouseNdc, camera.zoom));

      camera := camera.(zoom := camera.zoom * input.scrollFactor);
      if input.zoomDelta != 1.0 {
        camera := camera.(zoom := camera.zoom * input.zoomDelta);
      }
      var worldAfterZoom := Add(camera.pos, Mul(mouseNdc, camera.zoom));
      camera := camera.(pos := Add(camera.pos, Sub(worldAfterZoom, worldBeforeZoom)));
      ghost var zoomed := ZoomStep(old(camera), mouseNdc, input.scrollFactor, input.zoomDelta);
      assert camera.zoom == zoomed.zoom;
      assert camera.pos == zoomed.pos;

      if input.primaryDragged {
        var dragDelta := new Vector2Place(input.dragMotion);
        dragDelta.DivAssign(viewportScale);
        dragDelta.MulAssign(camera.zoom * 2.0);
        ghost var beforePan := camera;
        camera := camera.(pos := Add(camera.pos, dragDelta.Value()));
        assert camera == PanStep(beforePan, input.dragMotion, viewportScale);
      }
      if input.secondaryClicked || input.secondaryDragged {
        var clickPosition := input.interactPos.value;
        juliaPos := Add(Mul(Mul(Div(Sub(clickPosition, rect.Center()), viewportScale), 2.0), camera.zoom), camera.pos);
      }
    }

    /** The parameter block of this frame, as `custom_painting` fills it.
        Every setting is read back from it unchanged: the camera, the view's
        size and origin, the codes of the fractal and the shading, the palette
        (with zero fourth lanes), the two flags and the Julia seed. */
    function Block(rect: Rect): (b: RenderCallback)
      reads this
      ensures FromArray(b.pos) == camera.pos && b.zoom == camera.zoom
      ensures forall i :: 0 <= i < 4 ==> b.p0[i] == 0
      ensures FromArray(b.resolution) == Vector2(rect.Width(), rect.Height())
      ensures FromArray(b.offset) == rect.min
      ensures b.maxIter == maxIter && b.exponent == exponent && b.paletteSpeed == paletteSpeed
      ensures FractalFromCode(b.fractalType) == Some(fractalType)
      ensures ShadingFromCode(b.shadingType) == Some(shadingType)
      ensures ToColorScheme(b.colorScheme) == colorScheme
      ensures b.colorScheme.a[3] == b.colorScheme.b[3] == b.colorScheme.c[3] == b.colorScheme.d[3] == 0.0
      ensures b.flags & !3 == 0 && UnpackFlags(b.flags) == (julia, pertubation)
      ensures FromArray(b.juliaPos) == juliaPos
    {
      RenderCallback(
        ToArray(camera.pos),
        camera.zoom,
        [0, 0, 0, 0],
        ToArray(rect.Size()),
        ToArray(rect.min),
        maxIter,
        exponent,
        FractalCode(fractalType),
        ShadingCode(shadingType),
        FromColorScheme(colorScheme),
        paletteSpeed,
        PackFlags(julia, pertubation),
        ToArray(juliaPos))
    }

    /** `custom_painting`: process the frame's input, then hand the shader
        the block built from the updated state. */
    method CustomPainting(input: FrameInput) returns (rect: Rect, block: RenderCallback)
      requires input.Acceptable()
      modifies this
      ensures rect == input.rect
      ensures camera == FrameCamera(old(camera), input)
      ensures juliaPos == FrameJulia(old(camera), old(juliaPos), input)
      ensures maxIter == old(maxIter) && exponent == old(exponent)
      ensures fractalType == old(fractalType) && shadingType == old(shadingType)
      ensures colorScheme == old(colorScheme) && paletteSpeed == old(paletteSpeed)
      ensures julia == old(julia) && pertubation == old(pertubation)
      ensures block == Block(rect)
    {
      rect := Inputs(input);
      block := Block(rect);
    }
  }
}

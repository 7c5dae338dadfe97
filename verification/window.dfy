/** The decision logic of the `Window` constructor.

    The constructor initialises SDL, creates a fullscreen window, requests
    context attributes (multisampling only when antialiasing is on), loads
    the extension library, chooses a swap interval for vsync and finally
    fits a 16:9 viewport inside the drawable area, centred, with bars on
    the long side. Every SDL, GLEW and GL call is replaced by a parameter
    saying whether it succeeded (and, for the drawable size, what it
    returned); a failure becomes the `InitException` the code throws.
 */
module Window {

  import opened Wrappers
  import opened Exceptions

  // ---------------------------------------------------------------------
  // Viewport
  // ---------------------------------------------------------------------

  /** C++ `/` on `int`, which truncates toward zero. */
  function CDiv(a: int, b: int): int
    requires b > 0
  {
    if a >= 0 then a / b else -((-a) / b)
  }

  /** A `glViewport` rectangle; its extents are also what the window
      stores as its width and height. */
  datatype Viewport = Viewport(x: int, y: int, width: int, height: int)

  /** The viewport chosen for a drawable of `w` by `h` pixels. */
  function Letterbox(w: int, h: int): (v: Viewport)
    ensures w >= 0 && h >= 0 ==>
              && 0 <= v.width <= w && 0 <= v.height <= h
              && (v.width == w || v.height == h)
              && 0 <= v.x && 2 * v.x + v.width <= w
              && 0 <= v.y && 2 * v.y + v.height <= h
  {
    if w > CDiv(h * 16, 9) then
      var width := CDiv(h * 16, 9);
      Viewport(CDiv(w - width, 2), 0, width, h)
    else if h > CDiv(w * 9, 16) then
      var height := CDiv(w * 9, 16);
      Viewport(0, CDiv(h - height, 2), w, height)
    else
      Viewport(0, 0, w, h)
  }

  /** For a real drawable size the three branches, in the source's integer
      arithmetic: pillarbox when too wide, letterbox when too tall, and the
      full area otherwise. */
  lemma LetterboxBranches(w: int, h: int)
    requires w >= 0 && h >= 0
    ensures var v := Letterbox(w, h);
      && (w > h * 16 / 9 ==> v == Viewport((w - h * 16 / 9) / 2, 0, h * 16 / 9, h))
      && (w <= h * 16 / 9 && h > w * 9 / 16 ==> v == Viewport(0, (h - w * 9 / 16) / 2, w, w * 9 / 16))
      && (w <= h * 16 / 9 && h <= w * 9 / 16 ==> v == Viewport(0, 0, w, h))
  {
  }

  /** The viewport lies inside the drawable, is centred to within one pixel,
      and shrinks at most one dimension. */
  lemma LetterboxFits(w: int, h: int)
    requires w >= 0 && h >= 0
    ensures var v := Letterbox(w, h);
      && 0 <= v.x && 0 <= v.y && 0 <= v.width <= w && 0 <= v.height <= h
      && 2 * v.x + v.width <= w && w - (2 * v.x + v.width) <= 1
      && 2 * v.y + v.height <= h && h - (2 * v.y + v.height) <= 1
      && (v.width == w || v.height == h)
      && (v.x == 0 || v.y == 0)
  {
  }

  /** The viewport is as close to 16:9 as whole pixels allow: a pillarbox
      is at most one column short of 16:9 width and a letterbox at most one
      row short of 16:9 height. */
  lemma LetterboxAspect(w: int, h: int)
    requires w >= 0 && h >= 0
    ensures var v := Letterbox(w, h);
      -9 < 9 * v.width - 16 * v.height < 16
  {
  }

  /** No bars appear exactly when the drawable is already 16:9. */
  lemma NoBarsIffExact(w: int, h: int)
    requires w >= 0 && h >= 0
    ensures Letterbox(w, h) == Viewport(0, 0, w, h) <==> 9 * w == 16 * h
  {
    if 9 * w == 16 * h {
      assert h * 16 / 9 == w;
      assert w * 9 / 16 == h;
    }
  }

  // ---------------------------------------------------------------------
  // Context attributes
  // ---------------------------------------------------------------------

  /** `Options::MSAALevel`. */
  datatype MsaaLevel = Zero | Two | Four | Eight

  /** The enumerator's numeric value, which is the sample count. */
  function Samples(m: MsaaLevel): int {
    match m
    case Zero => 0
    case Two => 2
    case Four => 4
    case Eight => 8
  }

  datatype GlAttr =
    | MultisampleBuffers
    | MultisampleSamples
    | ContextMajorVersion
    | ContextMinorVersion
    | ContextFlags
    | ContextProfileMask

  datatype Setting = Setting(attr: GlAttr, value: int)

  /** `SDL_GL_CONTEXT_DEBUG_FLAG`. */
  const DebugContextFlag: int := 1

  /** `SDL_GL_CONTEXT_PROFILE_CORE`. */
  const CoreProfile: int := 1

  /** The attributes requested, in order; `debug` is a build without
      `NDEBUG`. */
  function ContextSettings(msaa: MsaaLevel, debug: bool): (s: seq<Setting>)
    ensures (Setting(MultisampleBuffers, 1) in s) <==> msaa != Zero
    ensures forall i :: 0 <= i < |s| && s[i].attr == MultisampleSamples ==>
              s[i].value == Samples(msaa) && s[i].value in {2, 4, 8}
    ensures forall i :: 0 <= i < |s| ==> s[i].attr != MultisampleSamples || msaa != Zero
    ensures msaa != Zero ==> Setting(MultisampleSamples, Samples(msaa)) in s
    ensures Setting(ContextMajorVersion, 4) in s && Setting(ContextMinorVersion, 3) in s
    ensures (Setting(ContextFlags, DebugContextFlag) in s) <==> debug
    ensures |s| > 0 && s[|s| - 1] == Setting(ContextProfileMask, CoreProfile)
    ensures forall i, j :: 0 <= i < j < |s| ==> s[i].attr != s[j].attr
    ensures forall i :: 0 <= i < |s| && s[i].attr == MultisampleBuffers ==> msaa != Zero
    ensures forall i :: 0 <= i < |s| && s[i].attr == ContextFlags ==> debug
  {
    (if msaa != Zero then [Setting(MultisampleBuffers, 1), Setting(MultisampleSamples, Samples(msaa))] else [])
    + [Setting(ContextMajorVersion, 4), Setting(ContextMinorVersion, 3)]
    + (if debug then [Setting(ContextFlags, DebugContextFlag)] else [])
    + [Setting(ContextProfileMask, CoreProfile)]
  }

  /** `setAttribute` over a list: stops at the first attribute SDL rejects. */
  function ApplySettings(s: seq<Setting>, accepts: Setting -> bool, sdlError: string): (r: Result<(), InitException>)
    ensures r.Success? <==> forall i :: 0 <= i < |s| ==> accepts(s[i])
    ensures r.Failure? ==> r.error == InitException("Could not set OpenGL attribute", sdlError)
    decreases |s|
  {
    if |s| == 0 then Success(())
    else if !accepts(s[0]) then Failure(InitException("Could not set OpenGL attribute", sdlError))
    else ApplySettings(s[1..], accepts, sdlError)
  }

  // ---------------------------------------------------------------------
  // Swap interval
  // ---------------------------------------------------------------------

  /** The swap intervals tried, in order, and the one that took effect. */
  datatype SwapChoice = SwapChoice(attempts: seq<int>, outcome: Result<int, InitException>)

  /** With vsync on, adaptive vsync (-1) is preferred and plain vsync (1)
      is the fallback; with vsync off, 0 is required. */
  function ChooseSwapInterval(vsync: bool, accepts: int -> bool, sdlError: string): (r: SwapChoice)
    ensures |r.attempts| > 0 && r.attempts[0] == (if vsync then -1 else 0)
    ensures r.outcome.Success? ==> r.outcome.value == r.attempts[|r.attempts| - 1] && accepts(r.outcome.value)
    ensures forall i :: 0 <= i < |r.attempts| - 1 ==> !accepts(r.attempts[i])
    ensures vsync ==> (r.outcome.Success? <==> accepts(-1) || accepts(1))
    ensures vsync && r.outcome.Success? && r.outcome.value == 1 ==> !accepts(-1)
    ensures vsync && accepts(-1) ==> r.attempts == [-1]
    ensures vsync && !accepts(-1) ==> r.attempts == [-1, 1]
    ensures vsync && r.outcome.Failure? ==>
              r.attempts == [-1, 1] && r.outcome.error == InitException("Could not enable vsync", sdlError)
    ensures !vsync ==> r.attempts == [0] && (r.outcome.Success? <==> accepts(0))
    ensures !vsync && r.outcome.Failure? ==>
              r.outcome.error == InitException("Could not disable vsync", sdlError)
  {
    if vsync then
      if accepts(-1) then SwapChoice([-1], Success(-1))
      else if accepts(1) then SwapChoice([-1, 1], Success(1))
      else SwapChoice([-1, 1], Failure(InitException("Could not enable vsync", sdlError)))
    else
      if accepts(0) then SwapChoice([0], Success(0))
      else SwapChoice([0], Failure(InitException("Could not disable vsync", sdlError)))
  }

  // ---------------------------------------------------------------------
  // The whole constructor
  // ---------------------------------------------------------------------

  /** What the platform answers during construction. */
  datatype Platform = Platform(
    sdlInit: bool,
    createWindow: bool,
    acceptsSetting: Setting -> bool,
    glewInit: bool,
    acceptsInterval: int -> bool,
    drawableWidth: int,
    drawableHeight: int,
    sdlError: string,
    glewError: string)

  /** A constructed window: its stored size, the viewport, the attributes
      requested and the swap interval in effect. */
  datatype WindowState = WindowState(width: int, height: int, viewport: Viewport,
                                     settings: seq<Setting>, swapInterval: int)

  /** `Window::Window`, given the antialiasing and vsync options. */
  function OpenWindow(msaa: MsaaLevel, vsync: bool, debug: bool, p: Platform): (r: Result<WindowState, InitException>)
    ensures !p.sdlInit ==> r == Failure(InitException("Could not initialize SDL", p.sdlError))
    ensures p.sdlInit && !p.createWindow ==> r == Failure(InitException("Could not create window", p.sdlError))
    ensures p.sdlInit && p.createWindow ==>
              var applied := ApplySettings(ContextSettings(msaa, debug), p.acceptsSetting, p.sdlError);
              var swap := ChooseSwapInterval(vsync, p.acceptsInterval, p.sdlError);
              && (applied.Failure? ==> r == Failure(applied.error))
              && (applied.Success? && !p.glewInit ==> r == Failure(InitException("Could not initialize GLEW", p.glewError)))
              && (applied.Success? && p.glewInit && swap.outcome.Failure? ==> r == Failure(swap.outcome.error))
              && (r.Success? ==> r.value.swapInterval == swap.outcome.value)
    ensures r.Success? ==>
              && p.sdlInit && p.createWindow && p.glewInit
              && r.value.settings == ContextSettings(msaa, debug)
              && (forall i :: 0 <= i < |r.value.settings| ==> p.acceptsSetting(r.value.settings[i]))
              && p.acceptsInterval(r.value.swapInterval)
              && r.value.viewport == Letterbox(p.drawableWidth, p.drawableHeight)
              && r.value.width == r.value.viewport.width && r.value.height == r.value.viewport.height
  {
    if !p.sdlInit then Failure(InitException("Could not initialize SDL", p.sdlError))
    else if !p.createWindow then Failure(InitException("Could not create window", p.sdlError))
    else
      var settings := ContextSettings(msaa, debug);
      var _ :- ApplySettings(settings, p.acceptsSetting, p.sdlError);
      if !p.glewInit then Failure(InitException("Could not initialize GLEW", p.glewError))
      else
        var swap := ChooseSwapInterval(vsync, p.acceptsInterval, p.sdlError);
        if swap.outcome.Failure? then Failure(swap.outcome.error)
        else
          var v := Letterbox(p.drawableWidth, p.drawableHeight);
          Success(WindowState(v.width, v.height, v, settings, swap.outcome.value))
  }

  /** Construction succeeds exactly when every platform step does, and then
      multisampling is requested exactly when antialiasing is on, with the
      option's sample count. */
  lemma OpenWindowSucceeds(msaa: MsaaLevel, vsync: bool, debug: bool, p: Platform)
    ensures OpenWindow(msaa, vsync, debug, p).Success? <==>
              && p.sdlInit && p.createWindow && p.glewInit
              && (forall i :: 0 <= i < |ContextSettings(msaa, debug)| ==> p.acceptsSetting(ContextSettings(msaa, debug)[i]))
              && (if vsync then p.acceptsInterval(-1) || p.acceptsInterval(1) else p.acceptsInterval(0))
    ensures OpenWindow(msaa, vsync, debug, p).Success? ==>
              var s := OpenWindow(msaa, vsync, debug, p).value.settings;
              && (Setting(MultisampleBuffers, 1) in s <==> msaa != Zero)
              && (msaa != Zero ==> Setting(MultisampleSamples, Samples(msaa)) in s)
  {
  }
}

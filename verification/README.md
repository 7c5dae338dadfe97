# Carrier Conquest UI core in Dafny

This project models the sequential logic inside the user-interface layer of
Carrier Conquest, a C++ game built on SDL, OpenGL and FreeType, and proves
properties of that logic. The model covers:

- **The `Textbox2D` editing buffer** (`textbox.dfy`, module `Textbox`). The
  box keeps its text as three code-point strings: the text before the cursor,
  the uncommitted input-method composition, and the text after the cursor.
  Each editing call is a pure transition. The cursor moves are proved against
  an independent reference view, "the same string with the caret at position
  *p*" (`Place`).
- **Ownership of graphics-driver handles by `GLResource` wrappers**
  (`handles.dfy`, module `Handles`). A ledger records every wrapper's handle
  field, the log of delete calls, and the set of names the driver has issued.
  It proves that no driver name is held twice or deleted twice over any
  program of constructions, moves and destructions. It also proves that a
  name leaked by a throwing constructor stays leaked.
- **The two memo caches.** The uniform-location cache of `ShaderProgram` is in
  `uniforms.dfy` (module `Uniforms`). The glyph cache of `Font` is in
  `glyphs.dfy` (module `Glyphs`). The driver query and the FreeType rasterizer
  are function parameters.
- **`VAO::Attribute::floats`** and the two vertex layouts the resource manager
  builds (`attributes.dfy`, module `VertexAttributes`).
- **The two loading phases of `ResourceManager`** (`manager.dfy`, module
  `Resources`): `loadSplash` and `loadGame`, which share one vertex shader.
- **The `Window` constructor** (`window.dfy`, module `Window`): the
  context-attribute requests (multisampling only with antialiasing on), the
  swap-interval fallback for vsync, the order of the error checks, and the
  16:9 letterbox/pillarbox viewport in C++ truncating integer division.
- **`LoadException`** (`exceptions.dfy`, module `Exceptions`): its two
  constructors, its accessors, and `what()` seen as a C string.

`wrappers.dfy` holds the shared `Option` and `Result` types. `char32.dfy`
holds the 32-bit unsigned types (`char32_t`, `unsigned`).

Every SDL, GLEW, GL, FreeType and file-system call is replaced by a
parameter:

| call | replaced by |
|---|---|
| whether a file can be read | the `readable` set |
| whether an SDL call succeeds | a boolean or a predicate |
| the drawable size | two integers |
| the uniform query | a function |
| glyph rendering | a function |
| each driver name handed out | the `id` of a `Construct` event |

A failure becomes the `InitException` value that the C++ code throws.

## Notes on the code

- **Texture load failure.** An unreadable texture makes `Texture2D` throw
  `InitException` ("Failed to load texture …", "Could not read file …"),
  like the shader and font loaders.
- **Composition and `textInput`.** `textInput` appends to the text before
  the cursor and leaves a pending composition in place
  (`Textbox.InputKeepsComposition`).
- **`setSize`.** As written it never changes the size used in glyph cache
  keys (see Findings).
- **`loadGame` order.** `loadGame` reads the font and the `text2D` fragment
  shader before it dereferences the retained vertex shader. So a missing font
  is reported even when `loadSplash` never ran. Without the shader the
  dereference is undefined behaviour. The model reports it as its own error,
  `NoSharedVertexShader`.

## Model

| member | source | states |
|---|---|---|
| Textbox.Content | src/main/ui/components.cc:231-233 | the string is as long as the three parts together |
| Textbox.ContentLayout | src/main/ui/components.cc:231-233 | the string reads the text before the cursor, then the composition, then the text after it, each at its own offset |
| Textbox.Initial | src/main/ui/components.cc:198-225 | a new box has empty text before, in and after the cursor, and is not focused |
| Textbox.TextEditing | src/main/ui/components.cc:294-296 | the composition becomes the given text; the text around it and the focus flag are untouched; the whole string is pre + text + post |
| Textbox.TextInput | src/main/ui/components.cc:298-300 | committed text is appended before the cursor; the composition and the text after the cursor are untouched |
| Textbox.CursorLeft | src/main/ui/components.cc:302-310 | the whole string is kept and the composition is emptied; if there is text before the cursor, its last code point moves in front of composition + post, otherwise post becomes composition + post; the result is the reference box with the caret one place left (clamped at 0) |
| Textbox.CursorRight | src/main/ui/components.cc:312-320 | mirror of the left move: pre becomes pre + composition, plus the first code point after the cursor if any; the result is the reference box with the caret one place right of the committed composition (clamped at the end) |
| Textbox.CursorHome | src/main/ui/components.cc:322-326 | everything ends up after the cursor and nothing is composing; the result is the reference box at caret 0 |
| Textbox.CursorEnd | src/main/ui/components.cc:328-332 | everything ends up before the cursor and nothing is composing; the result is the reference box at the end |
| Textbox.Backspace | src/main/ui/components.cc:334-340 | the last composing code point is deleted if there is one, otherwise the last code point before the cursor, otherwise nothing; the text after the cursor never changes; the string loses exactly the code point just before the caret |
| Textbox.LeftThenRight | src/main/ui/components.cc:302-320 | with nothing composing and text before the cursor, left then right restores the exact split |
| Textbox.RightThenLeft | src/main/ui/components.cc:302-320 | with nothing composing and text after the cursor, right then left restores the exact split |
| Textbox.HomeEndIdempotent | src/main/ui/components.cc:302-332 | home and end are idempotent, and left at home or right at end is a no-op |
| Textbox.BackspaceOnEmpty | src/main/ui/components.cc:334-340 | backspace on a new, empty box changes nothing |
| Textbox.LeftsMoveCaret | src/main/ui/components.cc:302-310 | n ≥ 1 left presses put the caret n places before the old caret, clamped at 0, with the string intact |
| Textbox.RightsMoveCaret | src/main/ui/components.cc:312-320 | n ≥ 1 right presses put the caret n places past the committed composition, clamped at the end, with the string intact |
| Textbox.LeftsReachHome | src/main/ui/components.cc:302-326 | enough left presses give the same box as home |
| Textbox.RightsReachEnd | src/main/ui/components.cc:312-332 | enough right presses give the same box as end |
| Textbox.BackspaceUndoesInput | src/main/ui/components.cc:298-340 | with nothing composing, as many backspaces as code points just typed restore the box exactly |
| Textbox.InputKeepsComposition | src/main/ui/components.cc:294-300 | committing text that is still shown as the composition makes it appear twice in the string |
| Textbox.EditingOverwrites | src/main/ui/components.cc:294-296 | only the latest composition report counts |
| Textbox.MovesPreserveContent | src/main/ui/components.cc:302-332 | any run of cursor moves keeps the string and the focus flag, and a non-empty run leaves nothing composing |
| Textbox.EditsKeepFocus | src/main/ui/components.cc:294-340 | no editing event changes the focus flag |
| Handles.DefaultConstruct | src/main/ui/resources.cc:40 | a default-constructed wrapper holds handle 0 and owns no driver object; existing wrappers, the delete log and the issued names are unchanged; the invariant is kept |
| Handles.Construct | src/main/ui/resources.cc:42 | a wrapper around a freshly issued name adds exactly that name to what is owned and to what has been issued (nothing for 0); existing wrappers and the delete log are unchanged; the invariant is kept |
| Handles.ConstructFails | src/main/ui/resources.cc:185-197 | a constructor that throws after obtaining a name adds exactly that name to the issued names, keeping every earlier leak, and leaves it neither held nor deleted |
| Handles.MoveConstruct | src/main/ui/resources.cc:44-46 | the new wrapper takes the source's handle and the source holds 0; the multiset of held names and the delete log are unchanged |
| Handles.MoveAssign | src/main/ui/resources.cc:48-51 | the two wrappers exchange handles; nothing else changes; the multiset of held names is unchanged |
| Handles.Destroy | src/main/ui/resources.cc:95-97 | a destructor deletes its name exactly when it is nonzero (the same for programs, textures, buffers and vertex arrays at :129-131, :226-228, :250-252, :273-275, :298-300); held plus deleted names are unchanged |
| Handles.StepValid | src/main/ui/resources.cc:40-51 | every lifetime event keeps the ownership invariant: no name held twice, deleted twice, or both held and deleted |
| Handles.RunValid | src/main/ui/resources.cc:40-51 | any program of lifetime events keeps the invariant |
| Handles.MovesKeepHeld | src/main/ui/resources.cc:44-51 | any run of moves leaves the multiset of held names and the delete log unchanged |
| Handles.NoDoubleRelease | src/main/ui/resources.cc:95-97 | from no wrappers, after any program no name has been deleted twice and no name is held by two live wrappers |
| Handles.LeakIsPermanent | src/main/ui/resources.cc:55-76 | a name leaked by a throwing constructor is never held or deleted by any later event |
| Handles.Teardown | src/main/ui/resources.cc:226-228 | destroying every live wrapper deletes exactly the held names, each once, and keeps the invariant |
| Exceptions.CString | src/main/util/exceptions/loadException.cc:38 | `c_str()` as a reader sees it: the prefix before the first NUL, which is the whole string when it has none |
| Exceptions.What | src/main/util/exceptions/loadException.cc:38 | what() is the stored what-string up to its first NUL: a NUL-free prefix, cut exactly at a NUL, and the whole string when it has none |
| Exceptions.GetTitle | src/main/util/exceptions/loadException.cc:40 | getTitle() returns the stored title |
| Exceptions.GetMessage | src/main/util/exceptions/loadException.cc:42 | getMessage() returns the stored message |
| Exceptions.MakeLoadException | src/main/util/exceptions/loadException.cc:27-33 | the title and message are stored unchanged; the what-string is title, ": ", message, two characters longer than its parts |
| Exceptions.LoadExceptionFrom | src/main/util/exceptions/loadException.cc:35-36 | the one-argument form stores its argument as title, message and what-string |
| Exceptions.AccessorsReturnArguments | src/main/util/exceptions/loadException.cc:27-42 | getTitle and getMessage return what either constructor was given |
| Exceptions.WhatJoinsTitleAndMessage | src/main/util/exceptions/loadException.cc:29-38 | with NUL-free parts, what() is "title: message" and has length \|title\| + \|message\| + 2 |
| Exceptions.MessageRecoverable | src/main/util/exceptions/loadException.cc:29-38 | knowing the title, the message is what() after the title and the separator |
| Exceptions.NulInTitleTruncatesWhat | src/main/util/exceptions/loadException.cc:29-38 | a NUL in the title cuts what() to a prefix of the title that is no longer than the NUL's position |
| Exceptions.SingleArgumentWhat | src/main/util/exceptions/loadException.cc:35-38 | the one-argument form's what() is its NUL-free argument, equal to its title |
| VertexAttributes.Floats | src/main/ui/resources.cc:302-309 | for 1 to 4 components: GL_FLOAT, not normalized, stride and offset scaled by sizeof(float); the attribute ends 4·(offset + size) bytes into the vertex |
| VertexAttributes.LayoutContiguous | src/main/ui/resources.cc:302-309 | consecutive float attributes share one stride, each starts where the previous ends, and the last ends Sum(sizes) floats after the start |
| VertexAttributes.LayoutPacked | src/main/ui/resources.cc:302-309 | a layout whose stride is the sum of its component counts covers each vertex exactly |
| VertexAttributes.QuadAttributes | src/main/ui/resources.cc:393-396 | the quad layout has two 2-float attributes that tile a 16-byte vertex with no gap or overlap |
| VertexAttributes.CursorAttributes | src/main/ui/resources.cc:416 | the cursor layout has one 2-float attribute that fills an 8-byte vertex |
| VertexAttributes.ManagerLayoutsPacked | src/main/ui/resources.cc:393-416 | the quad layout (2+2 floats, stride 4) and the cursor layout (2 floats, stride 2) tile their vertices with no gap or overlap |
| Uniforms.NewProgram | src/main/ui/resources.cc:105-106 | a new program has an empty location cache |
| Uniforms.FreshProgramMatchesDriver | src/main/ui/resources.cc:105-106 | a freshly linked program's empty cache is coherent, so every location any run of lookups on it returns is the driver's answer |
| Uniforms.GetUniformLocation | src/main/ui/resources.cc:174-183 | a cached name is answered from the cache without asking the driver; a new name is asked once, stored and returned; no existing entry changes |
| Uniforms.LookupMatchesDriver | src/main/ui/resources.cc:174-183 | with a coherent cache every lookup returns the driver's answer, and the cache stays coherent |
| Uniforms.LookupTwice | src/main/ui/resources.cc:174-183 | a second lookup of a name gives the same location without asking the driver or changing the cache |
| Uniforms.EachNameQueriedOnce | src/main/ui/resources.cc:174-183 | over any run of lookups the driver is asked about each name at most once and never about a cached one, and every looked-up name ends up cached |
| Uniforms.LookupAllMatchesDriver | src/main/ui/resources.cc:174-183 | starting coherent, every location in any run of lookups is the driver's answer |
| Glyphs.NewFont | src/main/ui/resources.cc:339-352 | a loaded font has an empty cache, no pixel size set on the face, and an arbitrary key size |
| Glyphs.NewFontCoherent | src/main/ui/resources.cc:339-358 | a newly loaded font's empty cache is coherent, and after the corrected setSize the face and the key agree, so the coherence inductions start at the constructor |
| Glyphs.SetSize | src/main/ui/resources.cc:354-358 | as written: the face gets the new pixel size but the key size and the cache are unchanged |
| Glyphs.GlyphOf | src/main/ui/resources.cc:360-375 | a hit returns the stored glyph and leaves the font unchanged; a miss renders at the face's size and inserts exactly one entry under (size, c); no existing entry changes |
| Glyphs.GlyphTwice | src/main/ui/resources.cc:360-375 | a second lookup of the same code point returns the same glyph and changes nothing |
| Glyphs.ResizeServesStaleGlyph | src/main/ui/resources.cc:354-375 | as written, a glyph rendered after setSize(a) is served again after setSize(b) for any b |
| Glyphs.StaleGlyphExample | src/main/ui/resources.cc:354-375 | concretely, 'A' asked for at 32 px after 16 px comes back at 16 px |
| Glyphs.SetSizeIntended | src/main/ui/resources.cc:354-358 | corrected: both the key size and the face's pixel size become the argument; the cache is kept |
| Glyphs.IntendedResizeServesRequestedSize | src/main/ui/resources.cc:354-375 | corrected: after resizing to s a lookup yields the glyph rendered at s, and a coherent cache stays coherent |
| Glyphs.LookupKeepsCoherent | src/main/ui/resources.cc:360-375 | once the face and the key agree on the size, a lookup keeps every cached glyph matching its key's size |
| Glyphs.CacheNeverEvictsAsWritten | src/main/ui/resources.cc:354-375 | as written, over any sequence of resizes and lookups every entry present at the start survives unchanged and the key size never changes |
| Glyphs.CacheNeverEvicts | src/main/ui/resources.cc:354-375 | with the corrected setSize, over any sequence of resizes and lookups every entry present at the start survives unchanged |
| Glyphs.RunFontCoherent | src/main/ui/resources.cc:354-375 | with the corrected setSize, any call sequence that begins by setting the size keeps the cache coherent |
| Resources.NewManager | src/main/ui/resources.cc:377-379 | a new manager holds no shaders, programs, textures, font or cursors |
| Resources.MissingAsset | src/main/ui/resources.cc:74-75 | an unreadable file yields an exception whose message is "Could not read file " and the file name, and whose title is "Failed to load shader ", "Failed to load texture " or "Failed to load font " and the file name, by loader kind (texture and font at :196-197 and :347-348) |
| Resources.FirstMissing | src/main/ui/resources.cc:381-402 | finds the first unreadable asset in load order, or reports that all are readable |
| Resources.Need | src/main/ui/resources.cc:381-402 | loading a list succeeds exactly when every file is readable; otherwise it fails with the exception for the first unreadable file |
| Resources.LoadSplash | src/main/ui/resources.cc:381-402 | succeeds exactly when the splash texture and both image2D shaders are readable; then the vertex shader is retained, image2D is linked from it, the splash texture is loaded and the busy cursor exists; text2D, solid2D, the font and the arrow cursor are kept |
| Resources.LoadGame | src/main/ui/resources.cc:404-432 | succeeds exactly when the shared vertex shader is present and every game asset is readable; text2D is linked against the shared shader, the ten menu textures are loaded, and the shared shader is released; image2D and the busy cursor are kept; a missing font or text shader is reported as a missing file; a missing shared shader is reported only once the font and text shader were read |
| Resources.GameReportsFirstMissing | src/main/ui/resources.cc:404-432 | a failed loadGame reports, in source order, the first unreadable of the font and text shader, else the missing shared vertex shader, else the first unreadable later asset |
| Resources.SplashThenGame | src/main/ui/resources.cc:381-432 | with every asset present, splash then game succeeds; image2D and text2D share the splash vertex shader, which is gone afterwards |
| Resources.GameNeedsSplash | src/main/ui/resources.cc:377-411 | loadGame on a new manager always fails |
| Resources.GameOnlyOnce | src/main/ui/resources.cc:411-431 | loadGame cannot succeed twice in a row, since the first run releases the shared shader |
| Resources.SplashReportsFirstMissing | src/main/ui/resources.cc:381-402 | a failed loadSplash reports the first unreadable file in load order |
| Window.Letterbox | src/main/ui/window.cc:174-188 | for nonnegative sizes the viewport fits inside the drawable, fills it in at least one dimension, and leaves nonnegative padding no smaller on the far side |
| Window.LetterboxBranches | src/main/ui/window.cc:174-188 | for nonnegative sizes: too wide gives width h·16/9 with horizontal padding; too tall gives height w·9/16 with vertical padding; otherwise the full area |
| Window.LetterboxFits | src/main/ui/window.cc:174-188 | the viewport lies inside the drawable, padding is nonnegative, 2·padding + extent ≤ old extent, it is centred to within one pixel, and at most one dimension shrinks |
| Window.LetterboxAspect | src/main/ui/window.cc:174-188 | the viewport is 16:9 to within one pixel column or row: −9 < 9·width − 16·height < 16 |
| Window.NoBarsIffExact | src/main/ui/window.cc:174-188 | the viewport is the whole drawable exactly when 9·w = 16·h |
| Window.ContextSettings | src/main/ui/window.cc:146-156 | both multisample attributes are requested exactly when antialiasing is on, with the level's sample count (2, 4 or 8); the sample-count request is present whenever antialiasing is on; version 4.3, the debug flag exactly in debug builds, and the core profile last; no attribute is requested twice, multisample buffers never with antialiasing off, and context flags never in a release build |
| Window.ApplySettings | src/main/ui/window.cc:35-38 | the requests succeed exactly when SDL accepts every attribute; otherwise "Could not set OpenGL attribute" with SDL's error |
| Window.ChooseSwapInterval | src/main/ui/window.cc:165-172 | with vsync on, −1 is tried first, and exactly −1 then 1 are tried when −1 is rejected, so the fallback is always 1; success exactly when one is accepted, otherwise "Could not enable vsync"; with vsync off, only 0 is tried and its failure is "Could not disable vsync" |
| Window.OpenWindow | src/main/ui/window.cc:135-188 | SDL and window failures are reported first with their messages; after the window, a rejected attribute, then GLEW, then the swap interval are reported in that order with their own errors; on success every requested attribute was accepted, the swap interval in force is the one the vsync fallback chose, and the stored size is the letterboxed viewport's |
| Window.OpenWindowSucceeds | src/main/ui/window.cc:138-172 | construction succeeds exactly when SDL, the window, every attribute, GLEW and a swap interval succeed, and then multisampling is requested exactly when antialiasing is on |

## Left out

- Drawing is not modelled. This covers `draw()`, glyph quads, buffer uploads
  and binding, shader compile and link logs, image decoding, and the GL debug
  callback. They are foreign library calls with no logic of their own to
  state.
- Hit-testing and layout arithmetic are not modelled. This covers `clicked`,
  `clipX`/`clipY`/`scaleX`/`scaleY`/`tex2Window` and the alignment helpers.
  They are floating-point geometry using `sqrt` and `pow`.
- Scene loops, the focus and button managers, the loading thread, `GameState`,
  `Options` file handling, paths and `main` are not modelled. They are event
  loops, concurrency, and JSON or file I/O outside this core.
- FreeType glyph metrics are not modelled. A glyph is whatever the rasterizer
  parameter returns.
- `Textbox2D` keeps a `Font&`, a texture and GPU buffers beside its text.
  Only the text and the `active` flag are modelled. No edit touches the rest.
- `InitException`'s implementation file is not part of this model. It appears
  only as its title and message.
- Handles.Construct: the driver is assumed never to hand out a name it has
  issued before. A real driver may reuse a name once it has been deleted.
- Handles.Destroy: there is one destructor model for every wrapper type. Each
  type's delete call differs only in which namespace it frees.
- Handles.MoveAssign: the kinds must match. The base class's move assignment
  is public, so a move between two kinds through `GLResource&` compiles, but
  the program only move-assigns between wrappers of one type, through each
  derived type's defaulted operator; cross-kind assignment is excluded by the
  precondition.
- Uniforms.GetUniformLocation: the debug-only assertion that the driver knows
  the uniform is left out. In release builds −1 is cached and returned like
  any other location.
- VertexAttributes.Floats: the requirement 1 ≤ size ≤ 4 is a debug-only
  assertion in the source. The model requires it, and does not model `int`
  overflow of the stride or offset multiplication.
- Window.Letterbox: the source computes `h * 16` and `w * 9` in C++ `int`,
  which overflows (undefined behaviour) once the drawable is taller than
  134,217,727 or wider than 238,609,294 pixels. The model uses unbounded
  integers, so its contract holds for every size and says nothing about
  overflowing ones.
- Glyphs.GlyphOf: the debug-only assertion that FreeType loaded the glyph is
  left out. Rendering is total.
- Resources.LoadSplash: the splash background buffers, the vertex array and
  the cursor objects are recorded only as flags or not at all. Their handles
  are covered by the `Handles` model.
- Resources.LoadSplash, Resources.LoadGame: a failed load returns no manager.
  The source has already reset or assigned some members before it throws
  (for example `image2Dv` before `image2D` reads its fragment shader). That
  state is never used, because the program shows the error and exits.
- Resources.LoadGame: a missing shared vertex shader is undefined behaviour in
  the source. It is modelled as the error `NoSharedVertexShader`.
- Window.OpenWindow: the result of `SDL_GL_CreateContext` is not checked by
  the source. The model follows that, and a failed context surfaces only
  through GLEW's failure.
- Window.OpenWindow: one `sdlError` string stands for every `SDL_GetError()`
  call (window.cc:37, 139, 144, 168, 171). In the program each call returns
  the message of its own failure; the model only records which check
  reports it.
- Window.OpenWindow: the GL state set after the viewport (blending, culling,
  unpack alignment, debug output) is not modelled. Those calls have no
  failure path.

## Findings

| source | as written | input that shows it | evidently intended | confidence | as-written member | corrected member |
|---|---|---|---|---|---|---|
| src/main/ui/resources.cc:354-361 | `setSize(size)` assigns the parameter to itself, so the member `size` used in glyph cache keys never changes (and is never initialised) | `setSize(16)`, `glyph('A')`, `setSize(32)`, `glyph('A')`: the second lookup hits the 16-pixel entry and returns the 16-pixel glyph | store the argument in the member, so that lookups after a resize are keyed, and rendered, at the new size | high (not executed) | Glyphs.ResizeServesStaleGlyph | Glyphs.IntendedResizeServesRequestedSize |

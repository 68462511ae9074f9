# SDL Android "Hello World" — a Dafny model of its own logic

The program opens a window, loads a picture and a font, and runs an event loop
that redraws a caption and the picture each frame. Most of its code calls SDL,
SDL_image and SDL_ttf. This project models the two pieces of logic that belong
to the program itself:

- **The `Texture` wrapper** (`texture.cpp`), in module `Textures`. Its fields
  are `mTexture`, `mWidth`, `mHeight`, `mSurfacePixels`, `mRawPixels` and
  `mRawPitch`. Class `Texture` keeps those fields and updates them in place.
  Each mutating method is proved against a pure transition function on
  `TextureState` (`Freed`, `LoadedFromFile`, `LoadedFromText`, `CreatedBlank`,
  `Locked`, `Unlocked`). Those functions state what the wrapper promises, and
  they preserve `Consistent`: no handle means both dimensions are 0, and no
  lock means the pitch is 0. `LoadedFromFile` preserves it only under the
  first SDL assumption below. A ghost log, `destroyed`, records the
  handles that `free` passes to `SDL_DestroyTexture`.
- **The program** (`main.cpp`), in module `HelloApp`. The globals become the
  fields of class `App`. The model covers:
  - the 320×240 default screen size, which `init` overrides with the display
    mode;
  - the success flags of `init` and `loadMedia`;
  - the event drain of the main loop, as a loop proved against a fold of
    `Step` over the polled events;
  - the choice of caption by orientation;
  - the placement of the picture and the caption;
  - the control flow of `main`.

Every library call is an oracle: a parameter that holds what the call returned
(module `Sdl`). Examples are `FileLoad` for `IMG_LoadTexture` plus
`SDL_QueryTexture`, `TextRender` for `TTF_RenderText_Solid` plus
`SDL_CreateTextureFromSurface`, `LockResult` for `SDL_LockTexture`, and
`InitOracle` for the start-up calls. Two assumptions are made about SDL itself:
- `SDL_QueryTexture` writes no dimensions for a null texture
  (`Sdl.QueryRejectsNull`). Without it, a failed file load could leave
  non-zero dimensions behind.
- `SDL_LockTexture` writes neither its buffer nor its pitch when it returns a
  non-zero status. `LockResult` carries a buffer and pitch that `Locked`
  consults only on status 0. Without this, a failed lock could leave a buffer
  or pitch behind in `mRawPixels` and `mRawPitch`.

C++ integer semantics are modelled in module `CInt`. C++ `/` rounds toward
zero, so the model uses `TruncDiv` and never Dafny's Euclidean `/` on
possibly-negative values. Conversion to `Uint32` wraps modulo 2^32
(`ToUint32`).

Three behaviours of the code that the model keeps:
- `free` releases the handle and the surface but not the lock. `mRawPixels`
  and `mRawPitch` survive a `free`, and so they survive every load and create.
- `free` zeroes the dimensions only when a handle was present. They are 0
  afterwards in any case only because `Consistent` holds.
- A failure of `IMG_Init` or `TTF_Init` makes `init` fail, so the main loop is
  skipped.

## Model

| member | source | states |
|---|---|---|
| `CInt.TruncDiv` | YOURPROJECT/app/jni/src/main.cpp:227-229 | C++ `/` with a positive divisor: the remainder takes the dividend's sign and is smaller than the divisor |
| `CInt.TruncDivNegate` | YOURPROJECT/app/jni/src/main.cpp:227-229 | negating the dividend negates the C++ quotient |
| `CInt.TruncDivVersusEuclidean` | YOURPROJECT/app/jni/src/main.cpp:227-229 | C++ `/` equals Euclidean `/` on non-negative dividends, and is one higher on negative dividends that the divisor does not divide |
| `CInt.ToUint32` | YOURPROJECT/app/jni/src/texture.cpp:178-188 | conversion to `Uint32` keeps in-range values and otherwise differs by a multiple of 2^32 |
| `Textures.Released` | YOURPROJECT/app/jni/src/texture.cpp:94-100 | `free` destroys exactly the held handle, and destroys nothing when there is none |
| `Textures.Freed` | YOURPROJECT/app/jni/src/texture.cpp:91-108 | after `free`: no handle and no surface; dimensions zeroed if a handle was held and kept otherwise; lock buffer and pitch unchanged; the invariant is kept |
| `Textures.FreedIdempotent` | YOURPROJECT/app/jni/src/texture.cpp:91-108 | `free` twice is `free` once |
| `Textures.LoadedFromFile` | YOURPROJECT/app/jni/src/texture.cpp:24-34 | after a file load the handle is exactly the loader's; the dimensions are those the query wrote; a failed load leaves both dimensions 0; the lock is unchanged |
| `Textures.LoadedFromText` | YOURPROJECT/app/jni/src/texture.cpp:36-69 | a handle exists iff rasterisation and upload both succeed; it then has the rasterised surface's size; otherwise the texture is exactly the freed one |
| `Textures.CreatedBlank` | YOURPROJECT/app/jni/src/texture.cpp:71-89 | the handle is the one SDL created; on success the size is the requested size; on failure the texture is exactly the freed one |
| `Textures.LoadsStartWithFree` | YOURPROJECT/app/jni/src/texture.cpp:24-89 | a failed load from file, from text or as a blank texture leaves what `free` leaves |
| `Textures.Locked` | YOURPROJECT/app/jni/src/texture.cpp:190-211 | a lock that is rejected changes nothing; a lock that succeeds records SDL's buffer and pitch and nothing else |
| `Textures.Unlocked` | YOURPROJECT/app/jni/src/texture.cpp:213-232 | after unlock there is no lock buffer and the pitch is 0; unlocking an unlocked texture changes nothing |
| `Textures.LockUnlockRoundTrip` | YOURPROJECT/app/jni/src/texture.cpp:190-232 | a second lock fails and changes nothing; lock then unlock restores the texture exactly; after unlock a lock succeeds again iff SDL's lock does |
| `Textures.Copied` | YOURPROJECT/app/jni/src/texture.cpp:234-242 | the copy replaces exactly the first n bytes of the buffer with the source's and keeps the rest |
| `Textures.Texture.constructor` | YOURPROJECT/app/jni/src/texture.cpp:6-16 | a new wrapper has no handle, no surface and no lock, and width, height and pitch are 0 |
| `Textures.Texture.Free` | YOURPROJECT/app/jni/src/texture.cpp:91-108 | the new state is `Freed` of the old one, and the held handle is appended to the destroyed log |
| `Textures.Texture.LoadTextureFromFile` | YOURPROJECT/app/jni/src/texture.cpp:24-34 | the result is "the loader returned a handle"; the old handle is destroyed first; the new state is `LoadedFromFile` |
| `Textures.Texture.LoadFromRenderedText` | YOURPROJECT/app/jni/src/texture.cpp:36-69 | the result is "rasterised and uploaded"; the old handle is destroyed first; the new state is `LoadedFromText` |
| `Textures.Texture.CreateBlank` | YOURPROJECT/app/jni/src/texture.cpp:71-89 | the result is "SDL created a handle"; the old handle is destroyed first; the new state is `CreatedBlank` |
| `Textures.Texture.Render` | YOURPROJECT/app/jni/src/texture.cpp:131-145 | the draw call passes the handle and the clip through; its destination is at (x, y), with the clip's size when there is a clip and the texture's size otherwise |
| `Textures.Texture.GetWidth` | YOURPROJECT/app/jni/src/texture.cpp:147-150 | the width is 0 whenever there is no handle |
| `Textures.Texture.GetHeight` | YOURPROJECT/app/jni/src/texture.cpp:152-155 | the height is 0 whenever there is no handle |
| `Textures.Texture.GetPixels32` | YOURPROJECT/app/jni/src/texture.cpp:157-167 | null exactly when there is no surface, and the surface's pixels otherwise |
| `Textures.Texture.GetPitch32` | YOURPROJECT/app/jni/src/texture.cpp:178-188 | 0 without a surface; otherwise the byte pitch divided by 4, rounded down |
| `Textures.Texture.GetPixel32` | YOURPROJECT/app/jni/src/texture.cpp:169-176 | reads index `y * pitch32 + x` of the surface, which is row-major whenever the unsigned index does not wrap |
| `Textures.Texture.LockTexture` | YOURPROJECT/app/jni/src/texture.cpp:190-211 | fails and changes nothing when already locked; otherwise succeeds iff `SDL_LockTexture` returns 0; the new state is `Locked` |
| `Textures.Texture.UnlockTexture` | YOURPROJECT/app/jni/src/texture.cpp:213-232 | succeeds iff locked; the new state is `Unlocked`: no buffer and pitch 0, or unchanged when not locked |
| `Textures.Texture.CopyRawPixels32` | YOURPROJECT/app/jni/src/texture.cpp:234-242 | when locked, the first `mRawPitch * mHeight` bytes of the buffer become the source's and the rest are kept; when unlocked nothing changes |
| `HelloApp.Step` | YOURPROJECT/app/jni/src/main.cpp:189-210 | a quit event sets `quit`; a size-changed event overwrites the size with data1/data2; any other event changes nothing |
| `HelloApp.LastResize` | YOURPROJECT/app/jni/src/main.cpp:200-204 | none exactly when the queue has no size-changed event; otherwise the size carried by a size-changed event that no later size-changed event follows |
| `HelloApp.ApplyEventsQuit` | YOURPROJECT/app/jni/src/main.cpp:186-194 | after a drain, `quit` holds iff it held before or a quit event was polled |
| `HelloApp.ApplyEventsScreen` | YOURPROJECT/app/jni/src/main.cpp:189-210 | after a drain the size is that of the last size-changed event, or unchanged when there was none |
| `HelloApp.Orientation` | YOURPROJECT/app/jni/src/main.cpp:217-224 | "Hello Portrait Mode!" in (0,0,255,255) iff h ≥ w, otherwise "Hello Landscape Mode!" in (0,255,0,255) |
| `HelloApp.CentreOffset` | YOURPROJECT/app/jni/src/main.cpp:227-229 | `(extent - size) / 2` in C++ centres the item: the margins differ by at most one |
| `HelloApp.PictureOrigin` | YOURPROJECT/app/jni/src/main.cpp:227 | the picture is centred horizontally and its bottom edge lies on the bottom of the screen |
| `HelloApp.TextOrigin` | YOURPROJECT/app/jni/src/main.cpp:229 | the caption is centred horizontally and vertically |
| `HelloApp.CentreOffsetMirrors` | YOURPROJECT/app/jni/src/main.cpp:227-229 | an overflow of k pixels is placed as the mirror image of k free pixels |
| `HelloApp.EuclideanOffsetNotCentred` | YOURPROJECT/app/jni/src/main.cpp:227-229 | with Euclidean `/` an odd overflow would not be centred as the C++ code centres it |
| `HelloApp.InitScreen` | YOURPROJECT/app/jni/src/main.cpp:43-62 | the size `init` leaves: the display mode if SDL started and the display-mode query returned 0, the earlier size otherwise |
| `HelloApp.ScreenAfterLastResize` | YOURPROJECT/app/jni/src/main.cpp:186-210 | an iteration whose drain polls size-changed events leaves the screen at the last of them, whatever the earlier iterations did |
| `HelloApp.FirstQuit` | YOURPROJECT/app/jni/src/main.cpp:186-194 | the first loop iteration whose events include a quit; none before it does |
| `HelloApp.App.constructor` | YOURPROJECT/app/jni/src/main.cpp:19-33 | the screen starts at 320×240 and there is no font; both textures have no handle, no surface, no lock, zero width, height and pitch, and an empty destroyed log |
| `HelloApp.App.Init` | YOURPROJECT/app/jni/src/main.cpp:37-105 | the display mode replaces the size only if SDL started and the query returned 0; success iff SDL, window, renderer, PNG loading and SDL_ttf all came up |
| `HelloApp.App.LoadMedia` | YOURPROJECT/app/jni/src/main.cpp:107-139 | the picture load runs and destroys the old picture handle; the font is opened even after a failed picture load; the caption is rendered (destroying the old caption handle) iff the font opened; success iff all three worked |
| `HelloApp.App.DrainEvents` | YOURPROJECT/app/jni/src/main.cpp:189-210 | the polling loop ends in the state of the `Step` fold over the polled events, and `quit` holds iff a quit event was polled |
| `HelloApp.App.RenderFrame` | YOURPROJECT/app/jni/src/main.cpp:212-232 | the caption is re-rendered for the current orientation, destroying the old caption handle; the picture is drawn at `PictureOrigin` and the caption at `TextOrigin` of its new size |
| `HelloApp.App.Close` | YOURPROJECT/app/jni/src/main.cpp:141-161 | both textures are freed, each destroyed log gains that texture's held handle, and the font is dropped |
| `HelloApp.App.MainLoop` | YOURPROJECT/app/jni/src/main.cpp:185-233 | one frame per iteration up to and including the one that polls the first quit; frame k shows the caption and placement for the screen after the first k + 1 drains, with the picture unchanged |
| `HelloApp.App.Run` | YOURPROJECT/app/jni/src/main.cpp:163-241 | frames are drawn iff `init` and `loadMedia` both succeed, one per iteration up to and including the one that polls the first quit; frame k is laid out for the screen that `init` left, updated by the first k + 1 drains, with the loaded picture and frame k's caption render; `close` always runs; the exit code is 0 |

## Left out

- `setColor`, `setBlendMode` and `setAlpha` (texture.cpp:110-129) pass their arguments straight to SDL and change no wrapper state.
- `~Texture` (texture.cpp:18-22) only calls `free`. Dafny has no destructors; `Close` models the explicit release at shutdown.
- `render`'s `angle`, `center` and `flip` and the drawing done by `SDL_RenderCopyEx` are passed through to SDL. Only the draw call's texture, clip and destination are modelled.
- The renderer, file path, font, caption text and colour arguments of the load operations are not modelled. They only reach the library, whose result is the oracle.
- The temporary text surface of `loadFromRenderedText` is not tracked, and neither are the `SDL_FreeSurface` calls. The destroyed log records texture handles only.
- No load path populates `mSurfacePixels`, so the model invents no loader. The field starts and stays absent, and the pixel accessors read it as an abstract optional surface.
- Two caller obligations are preconditions, not behaviour. `GetPixel32` requires a surface and an in-range index (the source dereferences unchecked). `CopyRawPixels32` requires that the source and the locked buffer hold `mRawPitch * mHeight` bytes.
- No oracle links the size of the locked buffer to the texture's height. The lock survives `free`, so the buffer may belong to an earlier texture.
- C `int` arithmetic is modelled as unbounded. The 32-bit overflow of `w - pw`, `h - ph` and `mRawPitch * mHeight` is not modelled; only `Uint32` wrap-around in the pixel accessors is.
- `init`'s linear-filtering hint, the renderer draw colour, the size and flags the window is created with, and all logging are left out as I/O.
- `loadMedia`'s `setBlendMode` call on the picture, the font size and the initial caption's text and colour are left out. They only reach the libraries.
- The main loop's `SDL_RenderPresent` after a resize, its clearing and presenting, and `SDL_SetRenderDrawBlendMode` are left out. They draw and change no modelled state.
- `close`'s `TTF_CloseFont`, the destruction of renderer and window, and the subsystem shutdowns and their order are left out as I/O.
- HelloApp.App.Run: only runs that end with a quit event are modelled. Proving termination needs such an event, and a run that never quits cannot be expressed without `decreases *`.

/** The demo program of main.cpp: the screen-size state and its display-mode
    override at start-up, media loading, the event step of the main loop, the
    per-frame choice of caption and the placement of the two textures.

    The globals `gScreenRect`, `gFont`, `gTextTexture` and `gPictureTexture`
    are the fields of class `App`; window, renderer and subsystem handles are
    reduced to the success flags of the calls that create them. */
module HelloApp {
  import opened CInt
  import opened Sdl
  import opened Textures

  /** `gScreenRect` before `init` overrides it. */
  const DEFAULT_WIDTH := 320
  const DEFAULT_HEIGHT := 240

  /** `IMG_INIT_PNG`. */
  const IMG_INIT_PNG: bv32 := 2

  const PORTRAIT_TEXT := "Hello Portrait Mode!"
  const LANDSCAPE_TEXT := "Hello Landscape Mode!"
  const BLUE := Color(0, 0, 255, 255)
  const GREEN := Color(0, 255, 0, 255)

  /** The width and height of `gScreenRect` (its x and y are always 0). */
  datatype Screen = Screen(w: int, h: int)

  datatype WindowEventKind = SizeChanged | OtherWindowEvent

  /** An `SDL_Event` as far as the loop looks at it. */
  datatype Event =
    | Quit
    | Window(kind: WindowEventKind, data1: int, data2: int)
    | Other

  /** What the event step updates: the screen size and the loop's `quit` flag. */
  datatype LoopState = LoopState(screen: Screen, quit: bool)

  /** The text and colour the loop renders into the text texture. */
  datatype Caption = Caption(text: string, color: Color)

  /** What one iteration of the main loop draws. */
  datatype Frame = Frame(caption: Caption, picture: DrawCall, text: DrawCall)

  /** Oracle for `init`: what each library call returned. */
  datatype InitOracle = InitOracle(
    sdlInit: int,          // SDL_Init
    displayStatus: int,    // SDL_GetCurrentDisplayMode
    display: Screen,       // the mode it wrote when its status is 0
    windowCreated: bool,   // SDL_CreateWindow returned non-null
    rendererCreated: bool, // SDL_CreateRenderer returned non-null
    imgInit: bv32,         // IMG_Init
    ttfInit: int)          // TTF_Init

  /** Oracle for one iteration of the main loop: the events polled, and how
      re-rendering the caption went. */
  datatype Tick = Tick(events: seq<Event>, caption: TextRender)

  // ---------------------------------------------------------------- event step

  /** One event: quit sets the flag, a size change overwrites the size, any
      other event changes nothing. */
  function Step(s: LoopState, e: Event): (t: LoopState)
    ensures e.Quit? ==> t == s.(quit := true)
    ensures e.Window? && e.kind == SizeChanged ==> t == s.(screen := Screen(e.data1, e.data2))
    ensures !e.Quit? && !(e.Window? && e.kind == SizeChanged) ==> t == s
  {
    match e
    case Quit => s.(quit := true)
    case Window(kind, d1, d2) => if kind == SizeChanged then s.(screen := Screen(d1, d2)) else s
    case Other => s
  }

  /** The events of one drain of the queue, applied in order. */
  function ApplyEvents(s: LoopState, es: seq<Event>): LoopState
    decreases |es|
  {
    if es == [] then s else Step(ApplyEvents(s, es[..|es| - 1]), es[|es| - 1])
  }

  /** The size carried by the last size-change event of `es`, if any. */
  function LastResize(es: seq<Event>): (r: Option<Screen>)
    ensures r.None? <==> forall i :: 0 <= i < |es| ==> !(es[i].Window? && es[i].kind == SizeChanged)
    ensures r.Some? ==>
      exists i :: 0 <= i < |es| && es[i] == Window(SizeChanged, r.value.w, r.value.h) &&
        (forall j :: i < j < |es| ==> !(es[j].Window? && es[j].kind == SizeChanged))
    decreases |es|
  {
    if es == [] then None
    else
      var e := es[|es| - 1];
      if e.Window? && e.kind == SizeChanged then Some(Screen(e.data1, e.data2))
      else
        var r := LastResize(es[..|es| - 1]);
        assert forall i :: 0 <= i < |es| - 1 ==> es[..|es| - 1][i] == es[i];
        r
  }

  /** After a drain the loop quits exactly when it had already quit or a quit
      event was among the events. */
  lemma {:induction false} ApplyEventsQuit(s: LoopState, es: seq<Event>)
    ensures ApplyEvents(s, es).quit <==> s.quit || Quit in es
    decreases |es|
  {
    if es != [] {
      var init := es[..|es| - 1];
      ApplyEventsQuit(s, init);
      assert es == init + [es[|es| - 1]];
    }
  }

  /** After a drain the size is the last size change's, or unchanged when
      there was none. */
  lemma {:induction false} ApplyEventsScreen(s: LoopState, es: seq<Event>)
    ensures ApplyEvents(s, es).screen == (if LastResize(es).Some? then LastResize(es).value else s.screen)
    decreases |es|
  {
    if es != [] {
      ApplyEventsScreen(s, es[..|es| - 1]);
    }
  }

  // ------------------------------------------------------------ frame layout

  /** The caption for a screen: portrait text in blue when the screen is at
      least as tall as it is wide, landscape text in green otherwise. */
  function Orientation(screen: Screen): (c: Caption)
    ensures c.text == PORTRAIT_TEXT <==> screen.h >= screen.w
    ensures c.color == BLUE <==> screen.h >= screen.w
    ensures c == Caption(PORTRAIT_TEXT, BLUE) || c == Caption(LANDSCAPE_TEXT, GREEN)
  {
    if screen.h >= screen.w then Caption(PORTRAIT_TEXT, BLUE) else Caption(LANDSCAPE_TEXT, GREEN)
  }

  /** `pos` centres an item of length `size` in a span of length `extent`: the
      margins on either side differ by at most one, and the larger margin is
      the right one when the item fits and the left one when it overflows (the
      margins are then negative). */
  predicate Centred(pos: int, size: int, extent: int) {
    var left := pos;
    var right := extent - size - pos;
    if size <= extent then 0 <= right - left <= 1 else 0 <= left - right <= 1
  }

  /** The offset C++ computes as `(extent - size) / 2`. */
  function CentreOffset(extent: int, size: int): (pos: int)
    ensures Centred(pos, size, extent)
  {
    TruncDiv(extent - size, 2)
  }

  /** Where the picture is drawn: centred horizontally, its bottom edge on the
      bottom of the screen. */
  function PictureOrigin(screen: Screen, pw: int, ph: int): (p: Point)
    ensures Centred(p.x, pw, screen.w)
    ensures p.y + ph == screen.h
  {
    Point(CentreOffset(screen.w, pw), screen.h - ph)
  }

  /** Where the caption is drawn: centred on both axes. */
  function TextOrigin(screen: Screen, tw: int, th: int): (p: Point)
    ensures Centred(p.x, tw, screen.w)
    ensures Centred(p.y, th, screen.h)
  {
    Point(CentreOffset(screen.w, tw), CentreOffset(screen.h, th))
  }

  /** Centring an item that overflows the span by `k` pixels mirrors centring
      one that leaves `k` pixels free, because C++ rounds toward zero. */
  lemma CentreOffsetMirrors(extent: int, size: int)
    ensures CentreOffset(extent, size) == -CentreOffset(size, extent)
  {
  }

  /** Dafny's Euclidean `/` in place of C++'s would not give the placement of
      `Centred` when the item overflows the span by an odd number of pixels:
      it rounds down, so the right margin would be the larger one. */
  lemma EuclideanOffsetNotCentred(extent: int, size: int)
    requires extent < size && (size - extent) % 2 == 1
    ensures !Centred((extent - size) / 2, size, extent)
  {
  }

  // ------------------------------------------------------------- main loop

  /** The index of the first tick whose events include a quit. */
  function FirstQuit(ticks: seq<Tick>): (k: nat)
    requires exists i :: 0 <= i < |ticks| && Quit in ticks[i].events
    ensures k < |ticks| && Quit in ticks[k].events
    ensures forall i :: 0 <= i < k ==> Quit !in ticks[i].events
    decreases |ticks|
  {
    if Quit in ticks[0].events then 0
    else
      assert exists i :: 0 <= i < |ticks| - 1 && Quit in ticks[1..][i].events by {
        var i :| 0 <= i < |ticks| && Quit in ticks[i].events;
        assert i > 0 && ticks[1..][i - 1] == ticks[i];
      }
      1 + FirstQuit(ticks[1..])
  }

  /** The screen size `init` leaves: the display mode when SDL started and
      the display-mode query returned 0, the size before otherwise. */
  function InitScreen(o: InitOracle, before: Screen): (s: Screen)
    ensures o.sdlInit < 0 || o.displayStatus != 0 ==> s == before
    ensures o.sdlInit >= 0 && o.displayStatus == 0 ==> s == o.display
  {
    if o.sdlInit >= 0 && o.displayStatus == 0 then o.display else before
  }

  /** The screen size after the event drains of the given loop iterations,
      starting from `start`. */
  function ScreenAfter(start: Screen, ticks: seq<Tick>): Screen
    decreases |ticks|
  {
    if ticks == [] then start
    else ApplyEvents(LoopState(ScreenAfter(start, ticks[..|ticks| - 1]), false), ticks[|ticks| - 1].events).screen
  }

  /** When the last size change polled in an iteration is `size`, that
      iteration's frame is laid out for `size`, whatever came before. */
  lemma ScreenAfterLastResize(start: Screen, ticks: seq<Tick>, size: Screen)
    requires ticks != [] && LastResize(ticks[|ticks| - 1].events) == Some(size)
    ensures ScreenAfter(start, ticks) == size
  {
    ApplyEventsScreen(LoopState(ScreenAfter(start, ticks[..|ticks| - 1]), false), ticks[|ticks| - 1].events);
  }

  /** The size of the caption texture after a re-render: the rasterised size
      when rasterisation and upload both worked, 0 by 0 otherwise. */
  function CaptionDims(r: TextRender): Dims {
    if r.rendered.Some? && r.uploaded.Some? then r.rendered.value else Dims(0, 0)
  }

  /** The handle of the caption texture after a re-render. */
  function CaptionHandle(r: TextRender): Option<Handle> {
    if r.rendered.Some? then r.uploaded else None
  }

  /** The frame drawn on a screen of size `sc`, with a picture of size pw by ph
      and a caption re-rendered as `caption` reports. */
  function FrameFor(sc: Screen, pictureHandle: Option<Handle>, pw: int, ph: int, caption: TextRender): Frame {
    var d := CaptionDims(caption);
    var p := PictureOrigin(sc, pw, ph);
    var t := TextOrigin(sc, d.w, d.h);
    Frame(Orientation(sc),
          DrawCall(pictureHandle, None, Rect(p.x, p.y, pw, ph)),
          DrawCall(CaptionHandle(caption), None, Rect(t.x, t.y, d.w, d.h)))
  }

  /** `init` succeeds when SDL starts, the window and the renderer are created,
      and both SDL_image (with PNG) and SDL_ttf start. */
  predicate InitSucceeds(o: InitOracle) {
    o.sdlInit >= 0 && o.windowCreated && o.rendererCreated
    && o.imgInit & IMG_INIT_PNG != 0 && o.ttfInit != -1
  }

  /** `loadMedia` succeeds when the picture loads, the font opens and the
      initial caption renders. */
  predicate MediaSucceeds(picture: FileLoad, font: Option<Font>, caption: TextRender) {
    picture.loaded.Some? && font.Some? && caption.rendered.Some? && caption.uploaded.Some?
  }

  class App {
    var screen: Screen
    var font: Option<Font>
    const textTexture: Texture
    const pictureTexture: Texture

    ghost predicate Valid()
      reads this, textTexture, pictureTexture
    {
      textTexture != pictureTexture && textTexture.Valid() && pictureTexture.Valid()
    }

    /** The program's globals before `main` runs. */
    constructor ()
      ensures Valid() && fresh(textTexture) && fresh(pictureTexture)
      ensures screen == Screen(DEFAULT_WIDTH, DEFAULT_HEIGHT) && font.None?
      ensures textTexture.State() == TextureState(None, 0, 0, None, null, 0)
      ensures pictureTexture.State() == TextureState(None, 0, 0, None, null, 0)
      ensures textTexture.destroyed == [] && pictureTexture.destroyed == []
    {
      screen := Screen(DEFAULT_WIDTH, DEFAULT_HEIGHT);
      font := None;
      textTexture := new Texture();
      pictureTexture := new Texture();
    }

    /** `init`: the display mode replaces the screen size only when SDL started
        and the display-mode query returned 0. */
    method Init(o: InitOracle) returns (success: bool)
      modifies this`screen
      ensures success == InitSucceeds(o)
      ensures screen == InitScreen(o, old(screen))
    {
      success := true;
      if o.sdlInit < 0 {
        success := false;
      } else {
        if o.displayStatus == 0 {
          screen := o.display;
        }
        if !o.windowCreated {
          success := false;
        } else if !o.rendererCreated {
          success := false;
        } else {
          if o.imgInit & IMG_INIT_PNG == 0 {
            success := false;
          }
          if o.ttfInit == -1 {
            success := false;
          }
        }
      }
    }

    /** `loadMedia`: the font is opened, and the caption rendered with it,
        whether or not the picture loaded. */
    method LoadMedia(picture: FileLoad, openedFont: Option<Font>, caption: TextRender) returns (success: bool)
      requires Valid() && QueryRejectsNull(picture)
      modifies this`font, textTexture, pictureTexture
      ensures Valid()
      ensures success == MediaSucceeds(picture, openedFont, caption)
      ensures pictureTexture.State() == LoadedFromFile(old(pictureTexture.State()), picture)
      ensures font == openedFont
      ensures textTexture.State() ==
        if openedFont.Some? then LoadedFromText(old(textTexture.State()), caption) else old(textTexture.State())
      ensures pictureTexture.destroyed == old(pictureTexture.destroyed) + Released(old(pictureTexture.State()))
      ensures textTexture.destroyed ==
        if openedFont.Some? then old(textTexture.destroyed) + Released(old(textTexture.State()))
        else old(textTexture.destroyed)
    {
      success := true;
      var loaded := pictureTexture.LoadTextureFromFile(picture);
      if !loaded {
        success := false;
      }
      font := openedFont;
      if font.None? {
        success := false;
      } else {
        var rendered := textTexture.LoadFromRenderedText(caption);
        if !rendered {
          success := false;
        }
      }
    }

    /** The inner `while(SDL_PollEvent…)` loop of one iteration, entered with
        `quit` false. */
    method DrainEvents(queue: seq<Event>) returns (quit: bool)
      modifies this`screen
      ensures LoopState(screen, quit) == ApplyEvents(LoopState(old(screen), false), queue)
      ensures quit <==> Quit in queue
    {
      quit := false;
      var i := 0;
      while i < |queue|
        invariant 0 <= i <= |queue|
        invariant LoopState(screen, quit) == ApplyEvents(LoopState(old(screen), false), queue[..i])
      {
        var e := queue[i];
        assert queue[..i + 1][..i] == queue[..i];
        if e.Quit? {
          quit := true;
        } else if e.Window? {
          if e.kind == SizeChanged {
            screen := Screen(e.data1, e.data2);
          }
        }
        i := i + 1;
      }
      assert queue[..i] == queue;
      ApplyEventsQuit(LoopState(old(screen), false), queue);
    }

    /** The drawing half of one iteration: re-render the caption for the
        current orientation, then draw the picture and the caption. */
    method RenderFrame(caption: TextRender) returns (frame: Frame)
      requires Valid()
      modifies textTexture
      ensures Valid()
      ensures textTexture.State() == LoadedFromText(old(textTexture.State()), caption)
      ensures textTexture.destroyed == old(textTexture.destroyed) + Released(old(textTexture.State()))
      ensures frame.caption == Orientation(screen)
      ensures var p := PictureOrigin(screen, pictureTexture.width, pictureTexture.height);
        frame.picture == DrawCall(pictureTexture.texture, None,
                                  Rect(p.x, p.y, pictureTexture.width, pictureTexture.height))
      ensures var t := TextOrigin(screen, textTexture.width, textTexture.height);
        frame.text == DrawCall(textTexture.texture, None,
                               Rect(t.x, t.y, textTexture.width, textTexture.height))
      ensures frame == FrameFor(screen, pictureTexture.texture, pictureTexture.width, pictureTexture.height, caption)
    {
      var chosen := Orientation(screen);
      var _ := textTexture.LoadFromRenderedText(caption);
      var p := PictureOrigin(screen, pictureTexture.GetWidth(), pictureTexture.GetHeight());
      var pictureCall := pictureTexture.Render(p.x, p.y, None);
      var t := TextOrigin(screen, textTexture.GetWidth(), textTexture.GetHeight());
      var textCall := textTexture.Render(t.x, t.y, None);
      frame := Frame(chosen, pictureCall, textCall);
    }

    /** `close`: free both textures and drop the font. */
    method Close()
      requires Valid()
      modifies this`font, textTexture, pictureTexture
      ensures Valid() && font.None?
      ensures textTexture.State() == Freed(old(textTexture.State()))
      ensures pictureTexture.State() == Freed(old(pictureTexture.State()))
      ensures textTexture.destroyed == old(textTexture.destroyed) + Released(old(textTexture.State()))
      ensures pictureTexture.destroyed == old(pictureTexture.destroyed) + Released(old(pictureTexture.State()))
    {
      textTexture.Free();
      pictureTexture.Free();
      font := None;
    }

    /** The `while(!quit)` loop of `main`: one event drain and one frame per
        iteration, until an iteration polls a quit event. */
    method MainLoop(ticks: seq<Tick>) returns (frames: seq<Frame>)
      requires Valid()
      requires exists i :: 0 <= i < |ticks| && Quit in ticks[i].events
      modifies this`screen, textTexture
      ensures Valid()
      ensures |frames| == FirstQuit(ticks) + 1
      ensures forall k :: 0 <= k < |frames| ==>
        frames[k] == FrameFor(ScreenAfter(old(screen), ticks[..k + 1]), pictureTexture.texture,
                              pictureTexture.width, pictureTexture.height, ticks[k].caption)
    {
      frames := [];
      var quit := false;
      var i := 0;
      while !quit
        invariant Valid()
        invariant 0 <= i <= FirstQuit(ticks) + 1 && |frames| == i
        invariant quit <==> i == FirstQuit(ticks) + 1
        invariant screen == ScreenAfter(old(screen), ticks[..i])
        invariant forall k :: 0 <= k < i ==>
          frames[k] == FrameFor(ScreenAfter(old(screen), ticks[..k + 1]), pictureTexture.texture,
                                pictureTexture.width, pictureTexture.height, ticks[k].caption)
        decreases FirstQuit(ticks) + 1 - i
      {
        assert ticks[..i + 1][..i] == ticks[..i];
        quit := DrainEvents(ticks[i].events);
        var frame := RenderFrame(ticks[i].caption);
        frames := frames + [frame];
        i := i + 1;
      }
    }

    /** `main`: the loop runs only when `init` and `loadMedia` both succeed, it
        ends only through a quit event (after drawing the frame of that
        iteration), `close` always runs, and the exit code is always 0. Frame
        k is laid out for the screen size after the first k + 1 event drains. */
    method Run(io: InitOracle, picture: FileLoad, openedFont: Option<Font>, firstCaption: TextRender, ticks: seq<Tick>)
      returns (exitCode: int, frames: seq<Frame>)
      requires Valid() && QueryRejectsNull(picture)
      requires exists i :: 0 <= i < |ticks| && Quit in ticks[i].events
      modifies this, textTexture, pictureTexture
      ensures Valid() && exitCode == 0
      ensures frames != [] <==> InitSucceeds(io) && MediaSucceeds(picture, openedFont, firstCaption)
      ensures frames != [] ==> |frames| == FirstQuit(ticks) + 1
      ensures var pic := LoadedFromFile(old(pictureTexture.State()), picture);
        forall k :: 0 <= k < |frames| ==>
          frames[k] == FrameFor(ScreenAfter(InitScreen(io, old(screen)), ticks[..k + 1]),
                                picture.loaded, pic.width, pic.height, ticks[k].caption)
      ensures font.None? && textTexture.texture.None? && pictureTexture.texture.None?
    {
      frames := [];
      var initialised := Init(io);
      if initialised {
        var loaded := LoadMedia(picture, openedFont, firstCaption);
        if loaded {
          frames := MainLoop(ticks);
        }
      }
      Close();
      exitCode := 0;
    }
  }
}

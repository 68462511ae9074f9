/** The `Texture` wrapper of texture.cpp: the bookkeeping it keeps beside an SDL
    texture handle, and how each of its operations changes that bookkeeping.
    Every SDL, SDL_image and SDL_ttf call is an oracle parameter (module Sdl).

    Each mutating method of class `Texture` is proved against a pure transition
    function on `TextureState`; the properties the wrapper promises are stated
    on those functions and in the lemmas after them. */
module Textures {
  import opened CInt
  import opened Sdl

  /** The wrapper's fields as one value: `mTexture`, `mWidth`, `mHeight`,
      `mSurfacePixels`, `mRawPixels` (the buffer of the current lock, null when
      unlocked) and `mRawPitch`. */
  datatype TextureState = TextureState(
    texture: Option<Handle>,
    width: int,
    height: int,
    surfacePixels: Option<Surface>,
    rawPixels: array?<bv8>,
    rawPitch: int)

  /** The invariant every operation keeps: without a handle both dimensions are
      0, and without a lock the pitch is 0. */
  predicate Consistent(s: TextureState) {
    && (s.texture.None? ==> s.width == 0 && s.height == 0)
    && (s.rawPixels == null ==> s.rawPitch == 0)
  }

  /** The handles `free` passes to `SDL_DestroyTexture`. */
  function Released(s: TextureState): (hs: seq<Handle>)
    ensures hs == [] <==> s.texture.None?
    ensures s.texture.Some? ==> hs == [s.texture.value]
  {
    if s.texture.Some? then [s.texture.value] else []
  }

  /** `free`: destroy the handle and zero the dimensions if there is a handle,
      drop the surface if there is one; the lock is left as it was. */
  function Freed(s: TextureState): (t: TextureState)
    ensures t.texture.None? && t.surfacePixels.None?
    ensures s.texture.Some? ==> t.width == 0 && t.height == 0
    ensures s.texture.None? ==> t.width == s.width && t.height == s.height
    ensures t.rawPixels == s.rawPixels && t.rawPitch == s.rawPitch
    ensures Consistent(s) ==> Consistent(t) && t.width == 0 && t.height == 0
  {
    var u := if s.texture.Some? then s.(texture := None, width := 0, height := 0) else s;
    if u.surfacePixels.Some? then u.(surfacePixels := None) else u
  }

  /** `loadTextureFromFile`: free, then keep whatever handle `IMG_LoadTexture`
      returned and whatever dimensions `SDL_QueryTexture` wrote. */
  function LoadedFromFile(s: TextureState, f: FileLoad): (t: TextureState)
    ensures t.texture == f.loaded && t.surfacePixels.None?
    ensures f.query.Some? ==> t.width == f.query.value.w && t.height == f.query.value.h
    ensures t.rawPixels == s.rawPixels && t.rawPitch == s.rawPitch
    ensures Consistent(s) && QueryRejectsNull(f) ==> Consistent(t)
    ensures Consistent(s) && QueryRejectsNull(f) && f.loaded.None? ==> t.width == 0 && t.height == 0
  {
    var u := Freed(s).(texture := f.loaded);
    if f.query.Some? then u.(width := f.query.value.w, height := f.query.value.h) else u
  }

  /** `loadFromRenderedText`: free, rasterise, upload; the dimensions are the
      rasterised surface's, recorded only when the upload produced a handle. */
  function LoadedFromText(s: TextureState, r: TextRender): (t: TextureState)
    ensures t.texture.Some? <==> r.rendered.Some? && r.uploaded.Some?
    ensures t.texture.Some? ==> t.texture == r.uploaded
    ensures t.texture.Some? ==> t.width == r.rendered.value.w && t.height == r.rendered.value.h
    ensures t.texture.None? ==> t == Freed(s)
    ensures t.surfacePixels.None? && t.rawPixels == s.rawPixels && t.rawPitch == s.rawPitch
    ensures Consistent(s) ==> Consistent(t)
  {
    var f := Freed(s);
    match r.rendered
    case None => f
    case Some(d) =>
      if r.uploaded.None? then f.(texture := None)
      else f.(texture := r.uploaded, width := d.w, height := d.h)
  }

  /** `createBlank`: free, then keep the handle `SDL_CreateTexture` returned,
      with the requested size when there is one. */
  function CreatedBlank(s: TextureState, w: int, h: int, created: Option<Handle>): (t: TextureState)
    ensures t.texture == created && t.surfacePixels.None?
    ensures created.Some? ==> t.width == w && t.height == h
    ensures created.None? ==> t == Freed(s)
    ensures t.rawPixels == s.rawPixels && t.rawPitch == s.rawPitch
    ensures Consistent(s) ==> Consistent(t)
  {
    var f := Freed(s).(texture := created);
    if created.Some? then f.(width := w, height := h) else f
  }

  /** `lockTexture` succeeds when the texture is not already locked and
      `SDL_LockTexture` returns 0. */
  predicate LockSucceeds(s: TextureState, l: LockResult) {
    s.rawPixels == null && l.status == 0
  }

  /** `lockTexture`: on success the buffer and pitch SDL wrote; otherwise nothing
      changes (SDL writes neither output when it fails). */
  function Locked(s: TextureState, l: LockResult): (t: TextureState)
    ensures !LockSucceeds(s, l) ==> t == s
    ensures LockSucceeds(s, l) ==> t.rawPixels == l.pixels && t.rawPitch == l.pitch
    ensures t.texture == s.texture && t.width == s.width && t.height == s.height
    ensures t.surfacePixels == s.surfacePixels
    ensures Consistent(s) ==> Consistent(t)
  {
    if LockSucceeds(s, l) then s.(rawPixels := l.pixels, rawPitch := l.pitch) else s
  }

  /** `unlockTexture`: when locked, forget the buffer and zero the pitch;
      otherwise nothing changes. */
  function Unlocked(s: TextureState): (t: TextureState)
    ensures t.rawPixels == null
    ensures s.rawPixels != null ==> t.rawPitch == 0
    ensures s.rawPixels == null ==> t == s
    ensures t.texture == s.texture && t.width == s.width && t.height == s.height
    ensures t.surfacePixels == s.surfacePixels
    ensures Consistent(s) ==> Consistent(t)
  {
    if s.rawPixels == null then s else s.(rawPixels := null, rawPitch := 0)
  }

  /** The locked buffer after `copyRawPixels32` copied `n` bytes of `src` over it. */
  function Copied(buffer: seq<bv8>, src: seq<bv8>, n: nat): (r: seq<bv8>)
    requires n <= |buffer| && n <= |src|
    ensures |r| == |buffer|
    ensures forall i :: 0 <= i < n ==> r[i] == src[i]
    ensures forall i :: n <= i < |buffer| ==> r[i] == buffer[i]
  {
    src[..n] + buffer[n..]
  }

  /** `free` twice is `free` once. */
  lemma FreedIdempotent(s: TextureState)
    ensures Freed(Freed(s)) == Freed(s)
  {
  }

  /** Every load and create path starts with `free`: a handle held before is
      gone afterwards unless the library returned that same handle again, and
      a failed load leaves an empty texture. */
  lemma LoadsStartWithFree(s: TextureState, f: FileLoad, r: TextRender, w: int, h: int, created: Option<Handle>)
    requires Consistent(s) && QueryRejectsNull(f)
    ensures f.loaded.None? ==> LoadedFromFile(s, f) == Freed(s)
    ensures r.rendered.None? || r.uploaded.None? ==> LoadedFromText(s, r) == Freed(s)
    ensures created.None? ==> CreatedBlank(s, w, h, created) == Freed(s)
  {
  }

  /** Locking and then unlocking a consistent, unlocked texture restores it
      exactly; a second lock while the first is held fails. */
  lemma LockUnlockRoundTrip(s: TextureState, l: LockResult, l2: LockResult)
    requires Consistent(s) && LockSucceeds(s, l)
    ensures !LockSucceeds(Locked(s, l), l2)
    ensures Locked(Locked(s, l), l2) == Locked(s, l)
    ensures Unlocked(Locked(s, l)) == s
    ensures LockSucceeds(Unlocked(Locked(s, l)), l2) <==> l2.status == 0
  {
  }

  class Texture {
    var texture: Option<Handle>
    var width: int
    var height: int
    var surfacePixels: Option<Surface>
    var rawPixels: array?<bv8>
    var rawPitch: int
    /** Every handle this wrapper has passed to `SDL_DestroyTexture`, in order. */
    ghost var destroyed: seq<Handle>

    function State(): TextureState
      reads this
    {
      TextureState(texture, width, height, surfacePixels, rawPixels, rawPitch)
    }

    ghost predicate Valid()
      reads this
    {
      Consistent(State())
    }

    /** A new wrapper holds nothing: no handle, no surface, no lock. */
    constructor ()
      ensures Valid()
      ensures texture.None? && surfacePixels.None? && rawPixels == null
      ensures width == 0 && height == 0 && rawPitch == 0
      ensures destroyed == []
    {
      texture := None;
      width := 0;
      height := 0;
      surfacePixels := None;
      rawPixels := null;
      rawPitch := 0;
      destroyed := [];
    }

    method Free()
      requires Valid()
      modifies this
      ensures Valid()
      ensures State() == Freed(old(State()))
      ensures destroyed == old(destroyed) + Released(old(State()))
    {
      if texture.Some? {
        destroyed := destroyed + [texture.value];
        texture := None;
        width := 0;
        height := 0;
      }
      if surfacePixels.Some? {
        surfacePixels := None;
      }
    }

    method LoadTextureFromFile(f: FileLoad) returns (success: bool)
      requires Valid() && QueryRejectsNull(f)
      modifies this
      ensures Valid()
      ensures success == f.loaded.Some?
      ensures State() == LoadedFromFile(old(State()), f)
      ensures destroyed == old(destroyed) + Released(old(State()))
    {
      Free();
      texture := f.loaded;
      if f.query.Some? {
        width := f.query.value.w;
        height := f.query.value.h;
      }
      success := texture.Some?;
    }

    method LoadFromRenderedText(r: TextRender) returns (success: bool)
      requires Valid()
      modifies this
      ensures Valid()
      ensures success == (r.rendered.Some? && r.uploaded.Some?)
      ensures State() == LoadedFromText(old(State()), r)
      ensures destroyed == old(destroyed) + Released(old(State()))
    {
      Free();
      if r.rendered.Some? {
        texture := r.uploaded;
        if texture.Some? {
          width := r.rendered.value.w;
          height := r.rendered.value.h;
        }
      }
      success := texture.Some?;
    }

    method CreateBlank(w: int, h: int, access: TextureAccess, created: Option<Handle>) returns (success: bool)
      requires Valid()
      modifies this
      ensures Valid()
      ensures success == created.Some?
      ensures State() == CreatedBlank(old(State()), w, h, created)
      ensures destroyed == old(destroyed) + Released(old(State()))
    {
      Free();
      texture := created;
      if texture.Some? {
        width := w;
        height := h;
      }
      success := texture.Some?;
    }

    /** The draw call `render` issues: the clip is passed through, and the
        destination is at (x, y) with the clip's size if there is a clip and the
        texture's size otherwise. */
    method Render(x: int, y: int, clip: Option<Rect>) returns (call: DrawCall)
      ensures call.texture == texture && call.clip == clip
      ensures call.dst.x == x && call.dst.y == y
      ensures clip.Some? ==> call.dst.w == clip.value.w && call.dst.h == clip.value.h
      ensures clip.None? ==> call.dst.w == width && call.dst.h == height
    {
      var quad := Rect(x, y, width, height);
      if clip.Some? {
        quad := quad.(w := clip.value.w, h := clip.value.h);
      }
      call := DrawCall(texture, clip, quad);
    }

    function GetWidth(): (w: int)
      reads this
      ensures Valid() && texture.None? ==> w == 0
    {
      width
    }

    function GetHeight(): (h: int)
      reads this
      ensures Valid() && texture.None? ==> h == 0
    {
      height
    }

    /** The surface's pixels, or none (a null pointer) without a surface. */
    function GetPixels32(): (p: Option<seq<bv32>>)
      reads this
      ensures p.None? <==> surfacePixels.None?
      ensures p.Some? ==> p.value == surfacePixels.value.pixels
    {
      if surfacePixels.Some? then Some(surfacePixels.value.pixels) else None
    }

    /** The surface's row length in 32-bit pixels (its byte pitch divided by 4,
        rounded down), or 0 without a surface. */
    function GetPitch32(): (p: Uint32)
      reads this
      ensures surfacePixels.None? ==> p == 0
      ensures surfacePixels.Some? && 0 <= surfacePixels.value.pitch < 4 * UINT32_LIMIT ==>
        4 * p <= surfacePixels.value.pitch < 4 * p + 4
    {
      if surfacePixels.Some? then ToUint32(TruncDiv(surfacePixels.value.pitch, 4)) else 0
    }

    /** The pixel in column x of row y; the index is computed in unsigned 32-bit
        arithmetic, so it is row-major as long as it does not wrap. */
    function GetPixel32(x: Uint32, y: Uint32): (v: bv32)
      reads this
      requires surfacePixels.Some?
      requires ToUint32(y * GetPitch32() + x) < |surfacePixels.value.pixels|
      ensures y * GetPitch32() + x < UINT32_LIMIT ==> v == surfacePixels.value.pixels[y * GetPitch32() + x]
    {
      surfacePixels.value.pixels[ToUint32(y * GetPitch32() + x)]
    }

    method LockTexture(l: LockResult) returns (success: bool)
      requires Valid()
      modifies this
      ensures Valid()
      ensures success == LockSucceeds(old(State()), l)
      ensures State() == Locked(old(State()), l)
      ensures destroyed == old(destroyed)
    {
      success := true;
      if rawPixels != null {
        success := false;
      } else {
        if l.status != 0 {
          success := false;
        } else {
          rawPixels, rawPitch := l.pixels, l.pitch;
        }
      }
    }

    method UnlockTexture() returns (success: bool)
      requires Valid()
      modifies this
      ensures Valid()
      ensures success == (old(rawPixels) != null)
      ensures State() == Unlocked(old(State()))
      ensures destroyed == old(destroyed)
    {
      success := true;
      if rawPixels == null {
        success := false;
      } else {
        rawPixels := null;
        rawPitch := 0;
      }
    }

    /** `memcpy` of `mRawPitch * mHeight` bytes of `src` into the locked buffer;
        nothing happens without a lock. */
    method CopyRawPixels32(src: seq<bv8>)
      requires rawPixels != null ==> 0 <= rawPitch * height <= |src|
      requires rawPixels != null ==> rawPitch * height <= rawPixels.Length
      modifies rawPixels
      ensures rawPixels != null ==> rawPixels[..] == Copied(old(rawPixels[..]), src, rawPitch * height)
    {
      if rawPixels != null {
        var n := rawPitch * height;
        for i := 0 to n
          invariant rawPixels[..i] == src[..i]
          invariant rawPixels[i..] == old(rawPixels[i..])
        {
          rawPixels[i] := src[i];
        }
      }
    }
  }
}

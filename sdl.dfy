/** The values that cross the boundary between the demo and SDL, SDL_image and
    SDL_ttf. What those libraries do is not modelled: each call the demo makes
    into them is an oracle, a parameter holding the result the library returned. */
module Sdl {

  datatype Option<+T> = None | Some(value: T)

  /** An `SDL_Texture*` that SDL handed out; the number only tells handles apart. */
  datatype Handle = Handle(id: nat)

  /** A `TTF_Font*` that SDL_ttf handed out. */
  datatype Font = Font(id: nat)

  /** `SDL_Rect`. */
  datatype Rect = Rect(x: int, y: int, w: int, h: int)

  /** `SDL_Point`. */
  datatype Point = Point(x: int, y: int)

  /** `SDL_Color`. */
  datatype Color = Color(r: bv8, g: bv8, b: bv8, a: bv8)

  /** A width and height reported by a library call. */
  datatype Dims = Dims(w: int, h: int)

  /** The part of an `SDL_Surface` the pixel accessors read: the pixels viewed as
      32-bit words, and the row length in bytes. */
  datatype Surface = Surface(pixels: seq<bv32>, pitch: int)

  /** `SDL_TextureAccess`. */
  datatype TextureAccess = Static | Streaming | Target

  /** The texture, source clip and destination rectangle of one
      `SDL_RenderCopyEx` call. */
  datatype DrawCall = DrawCall(texture: Option<Handle>, clip: Option<Rect>, dst: Rect)

  /** Oracle for `IMG_LoadTexture` followed by `SDL_QueryTexture`: the handle the
      first returned, and the dimensions the second wrote (None when it wrote none). */
  datatype FileLoad = FileLoad(loaded: Option<Handle>, query: Option<Dims>)

  /** SDL_QueryTexture rejects a null texture before writing its outputs. */
  predicate QueryRejectsNull(f: FileLoad) {
    f.loaded.None? ==> f.query.None?
  }

  /** Oracle for `TTF_RenderText_Solid` (the size of the surface it rasterised,
      or None when it returned null) followed by `SDL_CreateTextureFromSurface`
      (the handle it returned; not consulted when rasterisation failed). */
  datatype TextRender = TextRender(rendered: Option<Dims>, uploaded: Option<Handle>)

  /** Oracle for `SDL_LockTexture`: its return status and, when that is 0, the
      buffer and pitch it wrote. */
  datatype LockResult = LockResult(status: int, pixels: array<bv8>, pitch: int)
}

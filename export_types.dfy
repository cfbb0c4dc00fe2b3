/**
 * The exporter-neutral description of an atlas (`PackResultData`) and the
 * pieces that the JSON exporters share. JSON output is modelled as a
 * structured value, not as text.
 */
module ExportTypes {

  datatype FrameRect = FrameRect(x: int, y: int, width: int, height: int)

  datatype Size = Size(w: int, h: int)

  datatype SpriteFrame = SpriteFrame(
    name: string,
    frame: FrameRect,
    rotated: bool,
    trimmed: bool,
    spriteSourceSize: FrameRect,
    sourceSize: Size)

  datatype Meta = Meta(app: string, version: string, image: string, format: string, size: Size, scale: int)

  datatype PackResultData = PackResultData(frames: seq<SpriteFrame>, meta: Meta)

  /** The exporters the application knows of. */
  datatype ExporterKind = UnityJson | UnrealJson | GodotJson | CssSimple

  /** The name and file extension of an exporter, and which one it is. */
  datatype ExporterInfo = ExporterInfo(name: string, extension: string, kind: ExporterKind)

  /** The `{x, y, w, h}` rectangle the JSON exporters write. */
  datatype JsonRect = JsonRect(x: int, y: int, w: int, h: int)

  const App := "SpritePacker"
  const Version := "1.0"
  const Format := "RGBA8888"

  /** The `meta` record every writer builds: only the image name and the
      atlas size vary. */
  function AtlasMeta(size: Size, image: string): (m: Meta)
    ensures m.size == size && m.image == image
    ensures m.app == App && m.version == Version && m.format == Format && m.scale == 1
  {
    Meta(App, Version, image, Format, size, 1)
  }

  /** A frame rectangle with `width` and `height` renamed `w` and `h`. */
  function ToJsonRect(r: FrameRect): (j: JsonRect)
    ensures j.x == r.x && j.y == r.y && j.w == r.width && j.h == r.height
  {
    JsonRect(r.x, r.y, r.width, r.height)
  }

  /** The renaming back. */
  function FromJsonRect(j: JsonRect): FrameRect {
    FrameRect(j.x, j.y, j.w, j.h)
  }

  /** The renaming loses nothing. */
  lemma JsonRectRoundTrip(r: FrameRect)
    ensures FromJsonRect(ToJsonRect(r)) == r
  {
  }
}

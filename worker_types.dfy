/**
 * The records exchanged between the application and the packing worker.
 * Pixel sizes and coordinates are JavaScript numbers; they are modelled as
 * integers.
 */
module WorkerTypes {
  import opened Js

  /** A browser `File`; the model keeps only its name. */
  datatype File = File(name: string)

  /** Per-side padding of one sprite. */
  datatype Padding = Padding(top: int, bottom: int, left: int, right: int)

  /** A sprite as the packer reports it: its place and size in the atlas. */
  datatype Rect = Rect(
    id: string,
    width: int,
    height: int,
    x: int,
    y: int,
    rotated: bool,
    padding: Option<Padding>,
    file: Option<File>)

  datatype Layout = MaxRects | Vertical | Horizontal | Grid

  /** One image of a request. `rotatable` and `padding` are carried but never read. */
  datatype RequestImage = RequestImage(
    id: string,
    width: int,
    height: int,
    file: File,
    rotatable: Option<bool>,
    padding: Option<Padding>)

  /** `padding` is the spacing handed to the packing library; `layout`,
      `scaleToFit` and `autoSize` are carried but never read by the packer. */
  datatype PackRequest = PackRequest(
    id: string,
    images: seq<RequestImage>,
    width: int,
    height: int,
    padding: int,
    allowRotation: bool,
    layout: Layout,
    scaleToFit: Option<bool>,
    autoSize: Option<bool>)

  datatype PackResult = PackResult(
    id: string,
    success: bool,
    packed: seq<Rect>,
    unpacked: seq<Rect>,
    width: int,
    height: int,
    error: Option<string>)
}

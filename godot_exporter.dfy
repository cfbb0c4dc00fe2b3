/**
 * The Godot exporter: frames become an array in input order, each carrying
 * its name as `filename`, so frames with equal names are all kept.
 */
module GodotExporter {
  import opened ExportTypes
  import UnityExporter

  const Info := ExporterInfo("Godot (JSON)", "json", GodotJson)

  datatype GodotFrame = GodotFrame(
    filename: string,
    frame: JsonRect,
    rotated: bool,
    trimmed: bool,
    spriteSourceSize: JsonRect,
    sourceSize: Size)

  datatype GodotOutput = GodotOutput(frames: seq<GodotFrame>, meta: Meta)

  function EntryOf(f: SpriteFrame): (e: GodotFrame)
    ensures e.filename == f.name
    ensures e.frame == ToJsonRect(f.frame) && e.spriteSourceSize == ToJsonRect(f.spriteSourceSize)
    ensures e.rotated == f.rotated && e.trimmed == f.trimmed && e.sourceSize == f.sourceSize
  {
    GodotFrame(f.name, ToJsonRect(f.frame), f.rotated, f.trimmed, ToJsonRect(f.spriteSourceSize), Size(f.sourceSize.w, f.sourceSize.h))
  }

  /** `GodotExporter.export(data, fileName)`, as a value. */
  function Export(data: PackResultData, fileName: string): (out: GodotOutput)
    ensures |out.frames| == |data.frames|
    ensures forall i :: 0 <= i < |data.frames| ==> out.frames[i] == EntryOf(data.frames[i])
    ensures out.meta == AtlasMeta(data.meta.size, fileName + ".png")
  {
    GodotOutput(
      seq(|data.frames|, i requires 0 <= i < |data.frames| => EntryOf(data.frames[i])),
      AtlasMeta(data.meta.size, fileName + ".png"))
  }

  /** Reading the frames back out of an export. */
  function FramesOf(out: GodotOutput): (frames: seq<SpriteFrame>)
    ensures |frames| == |out.frames|
  {
    seq(|out.frames|, i requires 0 <= i < |out.frames| =>
      var e := out.frames[i];
      SpriteFrame(e.filename, FromJsonRect(e.frame), e.rotated, e.trimmed, FromJsonRect(e.spriteSourceSize), e.sourceSize))
  }

  /** The Godot export loses nothing: names, order, duplicates and every
      field come back. */
  lemma ExportLossless(data: PackResultData, fileName: string)
    ensures FramesOf(Export(data, fileName)) == data.frames
  {
    var back := FramesOf(Export(data, fileName));
    forall i | 0 <= i < |data.frames| ensures back[i] == data.frames[i] {
      JsonRectRoundTrip(data.frames[i].frame);
      JsonRectRoundTrip(data.frames[i].spriteSourceSize);
    }
  }

  /** Where the Unity record keeps a frame (its name is not `__proto__` and
      not used again later), it writes the same values as the Godot array
      does. */
  lemma AgreesWithUnity(data: PackResultData, fileName: string, i: int)
    requires 0 <= i < |data.frames| && data.frames[i].name != UnityExporter.ProtoKey
    requires forall j :: i < j < |data.frames| ==> data.frames[j].name != data.frames[i].name
    ensures data.frames[i].name in UnityExporter.FrameMap(data.frames)
    ensures var g := Export(data, fileName).frames[i];
      var u := UnityExporter.FrameMap(data.frames)[data.frames[i].name];
      && g.filename == data.frames[i].name
      && u == UnityExporter.UnityFrame(g.frame, g.rotated, g.trimmed, g.spriteSourceSize, g.sourceSize)
  {
    UnityExporter.LastFrameWins(data.frames, i);
  }
}

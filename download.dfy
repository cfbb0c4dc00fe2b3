/**
 * The export step of the download: packed rectangles become the
 * exporter-neutral `PackResultData`, an exporter is chosen by name (falling
 * back to the first registered one), and the chosen exporter writes the data
 * file `atlas.<extension>`. Zipping and saving are not part of this model.
 */
module Download {
  import opened Js
  import opened WorkerTypes
  import opened ExportTypes
  import PackingLogic
  import UnityExporter
  import GodotExporter
  import CssExporter

  /** The frame name of a sprite: its mapped name when that is a non-empty
      string, otherwise `sprite_<id>`. */
  function FrameName(id: string, imageNames: map<string, string>): (name: string)
    ensures name != []
    ensures id in imageNames && imageNames[id] != [] ==> name == imageNames[id]
    ensures id !in imageNames || imageNames[id] == [] ==> name == "sprite_" + id
  {
    if id in imageNames && imageNames[id] != [] then imageNames[id] else "sprite_" + id
  }

  /** A size, swapped when `rotated`. */
  function Oriented(w: int, h: int, rotated: bool): (s: Size)
    ensures !rotated ==> s == Size(w, h)
    ensures rotated ==> s.w == h && s.h == w
  {
    if rotated then Size(h, w) else Size(w, h)
  }

  /** The frame written for one packed rectangle. */
  function FrameOf(item: Rect, imageNames: map<string, string>): (f: SpriteFrame)
    ensures f.name == FrameName(item.id, imageNames)
    ensures f.frame == FrameRect(item.x, item.y, item.width, item.height)
    ensures f.rotated == item.rotated && !f.trimmed
    ensures f.spriteSourceSize == FrameRect(0, 0, item.width, item.height)
    ensures f.sourceSize == Oriented(item.width, item.height, item.rotated)
  {
    SpriteFrame(
      FrameName(item.id, imageNames),
      FrameRect(item.x, item.y, item.width, item.height),
      item.rotated,
      false,
      FrameRect(0, 0, item.width, item.height),
      Size(if item.rotated then item.height else item.width, if item.rotated then item.width else item.height))
  }

  /** `convertToPackResultData(items, width, height, imageNames)`. */
  function ConvertToPackResultData(items: seq<Rect>, width: int, height: int, imageNames: map<string, string>)
    : (data: PackResultData)
    ensures |data.frames| == |items|
    ensures forall i :: 0 <= i < |items| ==> data.frames[i] == FrameOf(items[i], imageNames)
    ensures data.meta == AtlasMeta(Size(width, height), "atlas.png")
  {
    PackResultData(
      seq(|items|, i requires 0 <= i < |items| => FrameOf(items[i], imageNames)),
      Meta("SpritePacker", "1.0", "atlas.png", "RGBA8888", Size(width, height), 1))
  }

  /** Index of the first exporter with the given name (`Array.prototype.find`). */
  function FindExporter(exporters: seq<ExporterInfo>, name: string): (r: Option<nat>)
    ensures r.Some? ==> r.value < |exporters| && exporters[r.value].name == name
    ensures r.Some? ==> forall j :: 0 <= j < r.value ==> exporters[j].name != name
    ensures r.None? ==> forall j :: 0 <= j < |exporters| ==> exporters[j].name != name
  {
    if exporters == [] then None
    else if exporters[0].name == name then Some(0)
    else match FindExporter(exporters[1..], name)
      case Some(k) => Some(k + 1)
      case None => None
  }

  /** `exporters.find(e => e.name === name) || exporters[0]`; `None` is the
      `undefined` an empty list gives. */
  function SelectExporter(exporters: seq<ExporterInfo>, name: string): (r: Option<ExporterInfo>)
    ensures r.None? <==> exporters == []
    ensures r.Some? ==> r.value in exporters
    ensures (exists j :: 0 <= j < |exporters| && exporters[j].name == name) ==> r.Some? && r.value.name == name
    ensures exporters != [] && (forall j :: 0 <= j < |exporters| ==> exporters[j].name != name) ==> r == Some(exporters[0])
    ensures FindExporter(exporters, name).Some? ==> r == Some(exporters[FindExporter(exporters, name).value])
  {
    match FindExporter(exporters, name)
    case Some(k) => Some(exporters[k])
    case None => if exporters == [] then None else Some(exporters[0])
  }

  /** The registered exporters, in order. The Unreal exporter's name and
      extension are parameters: its source is not part of this model. */
  function Registered(unrealName: string, unrealExtension: string): (list: seq<ExporterInfo>)
    ensures |list| == 3 && list[0] == UnityExporter.Info && list[2] == GodotExporter.Info
    ensures list[1].name == unrealName && list[1].kind == UnrealJson
    ensures forall j :: 0 <= j < |list| ==> list[j].kind != CssSimple
  {
    [UnityExporter.Info, ExporterInfo(unrealName, unrealExtension, UnrealJson), GodotExporter.Info]
  }

  /** What an exporter writes. */
  datatype ExportContent =
    | UnityContent(unity: UnityExporter.UnityOutput)
    | GodotContent(godot: GodotExporter.GodotOutput)
    | CssContent(css: string)

  datatype DataFile = DataFile(fileName: string, content: ExportContent)

  /** What the exporter of the given kind writes for `data` under the base
      name `atlas`; `None` for the Unreal exporter, which is not modelled. */
  function ExportedContent(kind: ExporterKind, data: PackResultData): (c: Option<ExportContent>)
    ensures c.None? <==> kind == UnrealJson
    ensures kind == UnityJson ==> (c.value.UnityContent? && c.value.unity.frames == UnityExporter.FrameMap(data.frames)
      && c.value.unity.meta == AtlasMeta(data.meta.size, "atlas.png"))
    ensures kind == GodotJson ==> c.value.GodotContent? && c.value.godot == GodotExporter.Export(data, "atlas")
    ensures kind == CssSimple ==> c.value.CssContent? && c.value.css == CssExporter.Export(data, "atlas")
  {
    match kind
    case UnityJson => Some(UnityContent(UnityExporter.UnityOutput(UnityExporter.FrameMap(data.frames), AtlasMeta(data.meta.size, "atlas.png"))))
    case GodotJson => Some(GodotContent(GodotExporter.Export(data, "atlas")))
    case CssSimple => Some(CssContent(CssExporter.Export(data, "atlas")))
    case UnrealJson => None
  }

  /** The data file the download holds beside the atlas image. */
  function DataFileFor(exporters: seq<ExporterInfo>, exporterName: string, data: PackResultData): (file: Option<DataFile>)
    ensures file.Some? ==> exporters != [] && file.value.fileName == "atlas." + SelectExporter(exporters, exporterName).value.extension
    ensures file.None? <==> exporters == [] || SelectExporter(exporters, exporterName).value.kind == UnrealJson
  {
    match SelectExporter(exporters, exporterName)
    case None => None
    case Some(exporter) =>
      match ExportedContent(exporter.kind, data)
      case None => None
      case Some(content) => Some(DataFile("atlas." + exporter.extension, content))
  }

  /** Step 2 of `downloadZip`: choose the exporter, convert the packed items
      and let the exporter write the data file. */
  method GenerateDataFile(
    exporters: seq<ExporterInfo>, exporterName: string,
    items: seq<Rect>, width: int, height: int, imageNames: map<string, string>)
    returns (file: Option<DataFile>)
    ensures file == DataFileFor(exporters, exporterName, ConvertToPackResultData(items, width, height, imageNames))
  {
    var chosen := SelectExporter(exporters, exporterName);
    if chosen.None? {
      return None;
    }
    var exporter := chosen.value;
    var data := ConvertToPackResultData(items, width, height, imageNames);
    match exporter.kind
    case UnityJson =>
      var out := UnityExporter.Export(data, "atlas");
      assert "atlas" + ".png" == "atlas.png";
      file := Some(DataFile("atlas." + exporter.extension, UnityContent(out)));
    case GodotJson =>
      file := Some(DataFile("atlas." + exporter.extension, GodotContent(GodotExporter.Export(data, "atlas"))));
    case CssSimple =>
      file := Some(DataFile("atlas." + exporter.extension, CssContent(CssExporter.Export(data, "atlas"))));
    case UnrealJson =>
      file := None;
  }

  // ---------------------------------------------------------------------
  // Properties

  /** Swapping a size twice gives it back. */
  lemma OrientedTwice(w: int, h: int, rotated: bool)
    ensures var s := Oriented(w, h, rotated);
      Oriented(s.w, s.h, rotated) == Size(w, h)
  {
  }

  /** The JSON data file, written under the base name `atlas`, carries the
      very meta the conversion produced, so it names the `atlas.png` stored
      beside it. */
  lemma DataFileMetaMatchesConversion(
    exporters: seq<ExporterInfo>, exporterName: string,
    items: seq<Rect>, width: int, height: int, imageNames: map<string, string>)
    ensures var data := ConvertToPackResultData(items, width, height, imageNames);
      var file := DataFileFor(exporters, exporterName, data);
      && (file.Some? && file.value.content.UnityContent? ==> file.value.content.unity.meta == data.meta)
      && (file.Some? && file.value.content.GodotContent? ==> file.value.content.godot.meta == data.meta)
      && data.meta.image == "atlas.png"
  {
  }

  /** `sourceSize` is the image's original size, whatever the pre-rotation
      did, provided the library either leaves an input at the size it was
      given, or turns it (reporting `rot`) into a place inside the bin. */
  lemma SourceSizeRecoversOriginal(
    req: PackRequest, i: int, p: PackingLogic.PlacedRect, imageNames: map<string, string>)
    requires 0 <= i < |req.images|
    requires var input := PackingLogic.Inputs(req)[i];
      && p.data == input.data
      && (!p.rot ==> p.width == input.width && p.height == input.height)
      && (p.rot ==> p.width == input.height && p.height == input.width && p.width <= req.width && p.height <= req.height)
    ensures FrameOf(PackingLogic.RectOf(p), imageNames).sourceSize == Size(req.images[i].width, req.images[i].height)
  {
    var img := req.images[i];
    var r := PackingLogic.PreRotate(img.width, img.height, req.width, req.height, req.allowRotation);
    PackingLogic.SwapCondition(img.width, img.height, req.width, req.height, req.allowRotation);
    if p.rot {
      // a pre-rotated input turned back would have the original size, which does not fit the bin
      assert r == (img.width, img.height);
    }
  }

  /** Under the registered list, an exporter is found by its name, and the
      CSS exporter, which is not registered, falls back to Unity. */
  lemma RegisteredLookups(unrealName: string, unrealExtension: string)
    requires unrealName != CssExporter.Info.name && unrealName != GodotExporter.Info.name
    requires unrealName != UnityExporter.Info.name
    ensures var list := Registered(unrealName, unrealExtension);
      && SelectExporter(list, UnityExporter.Info.name) == Some(UnityExporter.Info)
      && SelectExporter(list, GodotExporter.Info.name) == Some(GodotExporter.Info)
      && SelectExporter(list, unrealName).value.kind == UnrealJson
      && SelectExporter(list, CssExporter.Info.name) == Some(UnityExporter.Info)
  {
    var list := Registered(unrealName, unrealExtension);
    assert list[1].name == unrealName;
    assert list[2].name == GodotExporter.Info.name;
  }
}

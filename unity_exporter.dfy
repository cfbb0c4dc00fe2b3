/**
 * The Unity (TexturePacker hash) exporter: frames become a record keyed by
 * frame name, filled one frame at a time, so a later frame with a name
 * already used replaces the earlier one. The record is a plain JavaScript
 * object, on which assigning the key `__proto__` sets the object's prototype
 * instead of adding a key; the serialised record then has no such frame.
 */
module UnityExporter {
  import opened ExportTypes

  const Info := ExporterInfo("Unity (JSON)", "json", UnityJson)

  datatype UnityFrame = UnityFrame(
    frame: JsonRect,
    rotated: bool,
    trimmed: bool,
    spriteSourceSize: JsonRect,
    sourceSize: Size)

  datatype UnityOutput = UnityOutput(frames: map<string, UnityFrame>, meta: Meta)

  /** The value written under a frame's name. */
  function EntryOf(f: SpriteFrame): (e: UnityFrame)
    ensures e.frame == ToJsonRect(f.frame) && e.spriteSourceSize == ToJsonRect(f.spriteSourceSize)
    ensures e.rotated == f.rotated && e.trimmed == f.trimmed && e.sourceSize == f.sourceSize
  {
    UnityFrame(ToJsonRect(f.frame), f.rotated, f.trimmed, ToJsonRect(f.spriteSourceSize), Size(f.sourceSize.w, f.sourceSize.h))
  }

  /** Reading a frame back from its key and value. */
  function FrameOf(name: string, e: UnityFrame): SpriteFrame {
    SpriteFrame(name, FromJsonRect(e.frame), e.rotated, e.trimmed, FromJsonRect(e.spriteSourceSize), e.sourceSize)
  }

  /** The one name a plain object does not take as a key. */
  const ProtoKey := "__proto__"

  /** The frames record, as serialised, after assigning the frames in order. */
  function FrameMap(frames: seq<SpriteFrame>): (m: map<string, UnityFrame>)
    ensures ProtoKey !in m
    ensures frames != [] && frames[|frames| - 1].name != ProtoKey ==>
      frames[|frames| - 1].name in m && m[frames[|frames| - 1].name] == EntryOf(frames[|frames| - 1])
  {
    if frames == [] then map[]
    else if frames[|frames| - 1].name == ProtoKey then FrameMap(frames[..|frames| - 1])
    else FrameMap(frames[..|frames| - 1])[frames[|frames| - 1].name := EntryOf(frames[|frames| - 1])]
  }

  function Names(frames: seq<SpriteFrame>): set<string> {
    set i | 0 <= i < |frames| :: frames[i].name
  }

  /** `UnityExporter.export(data, fileName)`, as a value. */
  method Export(data: PackResultData, fileName: string) returns (out: UnityOutput)
    ensures out.meta == AtlasMeta(data.meta.size, fileName + ".png")
    ensures out.frames == FrameMap(data.frames)
  {
    out := UnityOutput(map[], AtlasMeta(data.meta.size, fileName + ".png"));
    var i := 0;
    while i < |data.frames|
      invariant 0 <= i <= |data.frames|
      invariant out.meta == AtlasMeta(data.meta.size, fileName + ".png")
      invariant out.frames == FrameMap(data.frames[..i])
    {
      var frame := data.frames[i];
      var entry := UnityFrame(
        JsonRect(frame.frame.x, frame.frame.y, frame.frame.width, frame.frame.height),
        frame.rotated,
        frame.trimmed,
        JsonRect(frame.spriteSourceSize.x, frame.spriteSourceSize.y, frame.spriteSourceSize.width, frame.spriteSourceSize.height),
        Size(frame.sourceSize.w, frame.sourceSize.h));
      if frame.name != ProtoKey {
        out := out.(frames := out.frames[frame.name := entry]);
      }
      assert data.frames[..i + 1][..i] == data.frames[..i];
      i := i + 1;
    }
    assert data.frames[..i] == data.frames;
  }

  /** The keys are exactly the frame names other than `__proto__`. */
  lemma {:induction false} FrameMapKeys(frames: seq<SpriteFrame>)
    ensures FrameMap(frames).Keys == Names(frames) - {ProtoKey}
    decreases |frames|
  {
    if frames != [] {
      var n := |frames| - 1;
      FrameMapKeys(frames[..n]);
      assert Names(frames) == Names(frames[..n]) + {frames[n].name} by {
        forall s | s in Names(frames) ensures s in Names(frames[..n]) + {frames[n].name} {
          var k :| 0 <= k < |frames| && frames[k].name == s;
          if k < n {
            assert frames[..n][k] == frames[k];
          }
        }
        forall s | s in Names(frames[..n]) ensures s in Names(frames) {
          var k :| 0 <= k < n && frames[..n][k].name == s;
          assert frames[k] == frames[..n][k];
        }
      }
    }
  }

  /** The value under a name is the entry of the last frame with that name. */
  lemma {:induction false} LastFrameWins(frames: seq<SpriteFrame>, i: int)
    requires 0 <= i < |frames| && frames[i].name != ProtoKey
    requires forall j :: i < j < |frames| ==> frames[j].name != frames[i].name
    ensures frames[i].name in FrameMap(frames)
    ensures FrameMap(frames)[frames[i].name] == EntryOf(frames[i])
    decreases |frames|
  {
    var n := |frames| - 1;
    if i < n {
      var init := frames[..n];
      forall j | i < j < |init| ensures init[j].name != init[i].name {
        assert init[j] == frames[j];
      }
      LastFrameWins(init, i);
    }
  }

  /** An entry together with its key gives the frame back. */
  lemma EntryRoundTrip(f: SpriteFrame)
    ensures FrameOf(f.name, EntryOf(f)) == f
  {
  }

  /** With distinct names no frame is lost, except one named `__proto__`:
      each other frame is read back from its key and value. */
  lemma DistinctNamesLossless(frames: seq<SpriteFrame>)
    requires forall i, j :: 0 <= i < j < |frames| ==> frames[i].name != frames[j].name
    ensures forall i :: 0 <= i < |frames| && frames[i].name != ProtoKey ==>
      frames[i].name in FrameMap(frames) && FrameOf(frames[i].name, FrameMap(frames)[frames[i].name]) == frames[i]
  {
    forall i | 0 <= i < |frames| && frames[i].name != ProtoKey
      ensures frames[i].name in FrameMap(frames) && FrameOf(frames[i].name, FrameMap(frames)[frames[i].name]) == frames[i]
    {
      LastFrameWins(frames, i);
    }
  }

  /** A frame named `__proto__` leaves the record as it was. */
  lemma ProtoFrameDropped(frames: seq<SpriteFrame>, f: SpriteFrame)
    requires f.name == ProtoKey
    ensures FrameMap(frames + [f]) == FrameMap(frames)
  {
    assert (frames + [f])[..|frames|] == frames;
  }

  /** Two frames with one name leave a single key holding the later frame. */
  lemma RepeatedNameKeepsLater(first: SpriteFrame, second: SpriteFrame)
    requires first.name == second.name && first.name != ProtoKey
    ensures FrameMap([first, second]) == map[first.name := EntryOf(second)]
  {
    assert [first, second][..1] == [first];
    assert [first][..0] == [];
    assert FrameMap([first]) == map[first.name := EntryOf(first)];
  }
}

/**
 * The application's state store: the image list, the packing settings, the
 * last packing result and the status of the packing run. Every action
 * overwrites some fields and leaves the others as they were; the `modifies`
 * clause of each method names exactly the fields the action sets.
 */
module PackerStore {
  import opened Js
  import WorkerTypes

  /** An image the user added. `url` is the preview URL made for the file. */
  datatype ImageItem = ImageItem(
    id: string,
    file: WorkerTypes.File,
    width: int,
    height: int,
    url: string,
    rotatable: bool)

  /** The layouts the settings can hold. The declared settings type names
      the first three; the sidebar's layout menu also stores `Grid`, and the
      spread in `updateSettings` keeps it. */
  datatype Layout = MaxRects | Vertical | Horizontal | Grid

  /** The settings record. `autoSize` is not in the declared type and is
      absent (`None`) at first, but the sidebar's checkbox stores it through
      `updateSettings`. */
  datatype PackingSettings = PackingSettings(
    width: int,
    height: int,
    padding: int,
    allowRotation: bool,
    layout: Layout,
    scaleToFit: bool,
    autoSize: Option<bool>)

  /** A `Partial<PackingSettings>`: `None` is a field the patch does not set. */
  datatype SettingsPatch = SettingsPatch(
    width: Option<int>,
    height: Option<int>,
    padding: Option<int>,
    allowRotation: Option<bool>,
    layout: Option<Layout>,
    scaleToFit: Option<bool>,
    autoSize: Option<bool>)

  datatype Status = Idle | Packing | Success | Error

  /** The atlas image the packer rendered, as bytes. */
  datatype Blob = Blob(bytes: seq<bv8>)

  const DefaultSettings := PackingSettings(2048, 2048, 2, false, MaxRects, false, None)

  const EmptyPatch := SettingsPatch(None, None, None, None, None, None, None)

  // ---------------------------------------------------------------------
  // Settings merge: `{ ...settings, ...patch }`

  /** The patch's value when it has one, else the current value. */
  function Pick<T>(current: T, patched: Option<T>): (r: T)
    ensures patched.Some? ==> r == patched.value
    ensures patched.None? ==> r == current
  {
    if patched.Some? then patched.value else current
  }

  function MergeSettings(s: PackingSettings, p: SettingsPatch): (r: PackingSettings)
    ensures p.width.Some? ==> r.width == p.width.value
    ensures p.width.None? ==> r.width == s.width
    ensures p.height.Some? ==> r.height == p.height.value
    ensures p.height.None? ==> r.height == s.height
    ensures p.padding.Some? ==> r.padding == p.padding.value
    ensures p.padding.None? ==> r.padding == s.padding
    ensures p.allowRotation.Some? ==> r.allowRotation == p.allowRotation.value
    ensures p.allowRotation.None? ==> r.allowRotation == s.allowRotation
    ensures p.layout.Some? ==> r.layout == p.layout.value
    ensures p.layout.None? ==> r.layout == s.layout
    ensures p.scaleToFit.Some? ==> r.scaleToFit == p.scaleToFit.value
    ensures p.scaleToFit.None? ==> r.scaleToFit == s.scaleToFit
    ensures p.autoSize.Some? ==> r.autoSize == p.autoSize
    ensures p.autoSize.None? ==> r.autoSize == s.autoSize
  {
    PackingSettings(
      Pick(s.width, p.width),
      Pick(s.height, p.height),
      Pick(s.padding, p.padding),
      Pick(s.allowRotation, p.allowRotation),
      Pick(s.layout, p.layout),
      Pick(s.scaleToFit, p.scaleToFit),
      if p.autoSize.Some? then p.autoSize else s.autoSize)
  }

  /** The patch that sets every field to the given settings; an absent
      `autoSize` stays absent from the patch. */
  function FullPatch(t: PackingSettings): SettingsPatch {
    SettingsPatch(Some(t.width), Some(t.height), Some(t.padding), Some(t.allowRotation), Some(t.layout), Some(t.scaleToFit), t.autoSize)
  }

  /** One patch after another, as a single patch: the later one wins. */
  function Then(p: SettingsPatch, q: SettingsPatch): SettingsPatch {
    SettingsPatch(
      if q.width.Some? then q.width else p.width,
      if q.height.Some? then q.height else p.height,
      if q.padding.Some? then q.padding else p.padding,
      if q.allowRotation.Some? then q.allowRotation else p.allowRotation,
      if q.layout.Some? then q.layout else p.layout,
      if q.scaleToFit.Some? then q.scaleToFit else p.scaleToFit,
      if q.autoSize.Some? then q.autoSize else p.autoSize)
  }

  lemma MergeEmptyPatch(s: PackingSettings)
    ensures MergeSettings(s, EmptyPatch) == s
  {
  }

  /** A full patch replaces every field, except that a patch cannot make a
      present `autoSize` absent again. */
  lemma MergeFullPatch(s: PackingSettings, t: PackingSettings)
    ensures t.autoSize.Some? || s.autoSize.None? ==> MergeSettings(s, FullPatch(t)) == t
    ensures t.autoSize.None? ==> MergeSettings(s, FullPatch(t)) == t.(autoSize := s.autoSize)
  {
  }

  /** Applying the same patch again changes nothing. */
  lemma MergeIdempotent(s: PackingSettings, p: SettingsPatch)
    ensures MergeSettings(MergeSettings(s, p), p) == MergeSettings(s, p)
  {
  }

  /** Two updates in a row are one update with the combined patch. */
  lemma MergeThen(s: PackingSettings, p: SettingsPatch, q: SettingsPatch)
    ensures MergeSettings(MergeSettings(s, p), q) == MergeSettings(s, Then(p, q))
  {
  }

  // ---------------------------------------------------------------------
  // Image-list operations

  predicate HasId(images: seq<ImageItem>, id: string) {
    exists i :: 0 <= i < |images| && images[i].id == id
  }

  predicate UniqueIds(images: seq<ImageItem>) {
    forall i, j :: 0 <= i < j < |images| ==> images[i].id != images[j].id
  }

  /** `images.filter(img => img.id !== id)`. */
  function RemoveById(images: seq<ImageItem>, id: string): (r: seq<ImageItem>)
    ensures |r| <= |images|
    ensures forall k :: 0 <= k < |r| ==> r[k].id != id
  {
    if images == [] then []
    else (if images[0].id == id then [] else [images[0]]) + RemoveById(images[1..], id)
  }

  /** `images.map(img => img.id === id ? { ...img, rotatable: !img.rotatable } : img)`. */
  function ToggleRotation(images: seq<ImageItem>, id: string): (r: seq<ImageItem>)
    ensures |r| == |images|
    ensures forall i :: 0 <= i < |images| ==>
      r[i].(rotatable := images[i].rotatable) == images[i]
      && (r[i].rotatable <==> (images[i].rotatable != (images[i].id == id)))
  {
    seq(|images|, i requires 0 <= i < |images| =>
      if images[i].id == id then images[i].(rotatable := !images[i].rotatable) else images[i])
  }

  /** The images kept are exactly those with another id. */
  lemma {:induction false} RemoveContents(images: seq<ImageItem>, id: string)
    ensures forall x :: x in RemoveById(images, id) <==> x in images && x.id != id
    decreases |images|
  {
    if images != [] {
      RemoveContents(images[1..], id);
      assert images == [images[0]] + images[1..];
    }
  }

  /** Removing distributes over concatenation: the kept images stay in order. */
  lemma {:induction false} RemoveAppend(a: seq<ImageItem>, b: seq<ImageItem>, id: string)
    ensures RemoveById(a + b, id) == RemoveById(a, id) + RemoveById(b, id)
    decreases |a|
  {
    if a != [] {
      var head := if a[0].id == id then [] else [a[0]];
      assert (a + b)[0] == a[0];
      assert (a + b)[1..] == a[1..] + b;
      RemoveAppend(a[1..], b, id);
      assert RemoveById(a, id) == head + RemoveById(a[1..], id);
      calc {
        RemoveById(a + b, id);
        head + RemoveById(a[1..] + b, id);
        head + (RemoveById(a[1..], id) + RemoveById(b, id));
        (head + RemoveById(a[1..], id)) + RemoveById(b, id);
      }
    } else {
      assert a + b == b;
    }
  }

  /** An id no image carries removes nothing. */
  lemma {:induction false} RemoveAbsent(images: seq<ImageItem>, id: string)
    requires !HasId(images, id)
    ensures RemoveById(images, id) == images
    decreases |images|
  {
    if images != [] {
      assert images[0].id != id;
      assert !HasId(images[1..], id) by {
        forall i | 0 <= i < |images[1..]| ensures images[1..][i].id != id {
          assert images[1..][i] == images[i + 1];
        }
      }
      RemoveAbsent(images[1..], id);
    }
  }

  /** With unique ids, no other image carries the id of image `i`. */
  lemma IdOnlyAt(images: seq<ImageItem>, i: int)
    requires UniqueIds(images) && 0 <= i < |images|
    ensures !HasId(images[..i], images[i].id) && !HasId(images[i + 1..], images[i].id)
  {
    var before, after := images[..i], images[i + 1..];
    forall k | 0 <= k < |before| ensures before[k].id != images[i].id {
      assert before[k] == images[k];
    }
    forall k | 0 <= k < |after| ensures after[k].id != images[i].id {
      assert after[k] == images[i + 1 + k];
    }
  }

  /** With unique ids, removing the id of image `i` removes that image alone. */
  lemma RemoveUnique(images: seq<ImageItem>, i: int)
    requires UniqueIds(images) && 0 <= i < |images|
    ensures RemoveById(images, images[i].id) == images[..i] + images[i + 1..]
  {
    var id := images[i].id;
    IdOnlyAt(images, i);
    RemoveSplit(images[..i], images[i], images[i + 1..]);
    assert images == images[..i] + [images[i]] + images[i + 1..];
  }

  /** Removing the id of `x` from `before + [x] + after`, when no other
      image carries it. */
  lemma RemoveSplit(before: seq<ImageItem>, x: ImageItem, after: seq<ImageItem>)
    requires !HasId(before, x.id) && !HasId(after, x.id)
    ensures RemoveById(before + [x] + after, x.id) == before + after
  {
    RemoveAppend(before + [x], after, x.id);
    RemoveAppend(before, [x], x.id);
    RemoveAbsent(before, x.id);
    RemoveAbsent(after, x.id);
    assert RemoveById([x], x.id) == [];
  }

  lemma RemoveIdempotent(images: seq<ImageItem>, id: string)
    ensures RemoveById(RemoveById(images, id), id) == RemoveById(images, id)
  {
    RemoveAbsent(RemoveById(images, id), id);
  }

  /** Removing keeps the ids unique. */
  lemma {:induction false} RemoveKeepsUniqueIds(images: seq<ImageItem>, id: string)
    requires UniqueIds(images)
    ensures UniqueIds(RemoveById(images, id))
    decreases |images|
  {
    if images != [] {
      var rest := RemoveById(images[1..], id);
      RemoveKeepsUniqueIds(images[1..], id);
      RemoveContents(images[1..], id);
      forall x | x in rest ensures x.id != images[0].id {
        var k :| 0 <= k < |images[1..]| && images[1..][k] == x;
        assert images[k + 1] == x;
      }
    }
  }

  /** Toggling twice gives the list back. */
  lemma ToggleTwice(images: seq<ImageItem>, id: string)
    ensures ToggleRotation(ToggleRotation(images, id), id) == images
  {
    var r := ToggleRotation(ToggleRotation(images, id), id);
    forall i | 0 <= i < |images| ensures r[i] == images[i] {
    }
  }

  /** Toggling two ids commutes. */
  lemma ToggleCommutes(images: seq<ImageItem>, a: string, b: string)
    ensures ToggleRotation(ToggleRotation(images, a), b) == ToggleRotation(ToggleRotation(images, b), a)
  {
  }

  /** Toggling changes no id, so unique ids stay unique. */
  lemma ToggleKeepsUniqueIds(images: seq<ImageItem>, id: string)
    requires UniqueIds(images)
    ensures UniqueIds(ToggleRotation(images, id))
  {
    var r := ToggleRotation(images, id);
    forall i | 0 <= i < |r| ensures r[i].id == images[i].id {
      assert r[i].(rotatable := images[i].rotatable) == images[i];
    }
  }

  /** Appending an image with a fresh id keeps the ids unique. */
  lemma AppendFreshKeepsUniqueIds(images: seq<ImageItem>, item: ImageItem)
    requires UniqueIds(images) && !HasId(images, item.id)
    ensures UniqueIds(images + [item])
  {
  }

  // ---------------------------------------------------------------------
  // The store

  class Store {
    var images: seq<ImageItem>
    var settings: PackingSettings
    var packedItems: seq<WorkerTypes.Rect>
    var status: Status
    var errorMessage: Option<string>
    var atlasUrl: Option<string>
    var atlasBlob: Option<Blob>

    /** The initial state. */
    constructor()
      ensures images == [] && settings == DefaultSettings && packedItems == []
      ensures status == Idle && errorMessage == None && atlasUrl == None && atlasBlob == None
    {
      images := [];
      settings := DefaultSettings;
      packedItems := [];
      status := Idle;
      errorMessage := None;
      atlasUrl := None;
      atlasBlob := None;
    }

    /** `addImage(file)` once the browser has given the image its id, size and
        preview URL: the image is appended, rotatable. */
    method AddImage(file: WorkerTypes.File, id: string, width: int, height: int, url: string)
      modifies this`images
      ensures images == old(images) + [ImageItem(id, file, width, height, url, true)]
    {
      images := images + [ImageItem(id, file, width, height, url, true)];
    }

    method RemoveImage(id: string)
      modifies this`images
      ensures images == RemoveById(old(images), id)
    {
      images := RemoveById(images, id);
    }

    method ReorderImages(newOrder: seq<ImageItem>)
      modifies this`images
      ensures images == newOrder
    {
      images := newOrder;
    }

    /** Empties the lists and forgets the atlas; settings and the error
        message stay. */
    method ClearImages()
      modifies this`images, this`packedItems, this`atlasUrl, this`atlasBlob, this`status
      ensures images == [] && packedItems == [] && atlasUrl == None && atlasBlob == None && status == Idle
    {
      images := [];
      packedItems := [];
      atlasUrl := None;
      atlasBlob := None;
      status := Idle;
    }

    method ToggleImageRotation(id: string)
      modifies this`images
      ensures images == ToggleRotation(old(images), id)
    {
      images := ToggleRotation(images, id);
    }

    method UpdateSettings(patch: SettingsPatch)
      modifies this`settings
      ensures settings == MergeSettings(old(settings), patch)
    {
      settings := MergeSettings(settings, patch);
    }

    /** Sets the status and overwrites the error message; no error clears it. */
    method SetPackingStatus(newStatus: Status, error: Option<string>)
      modifies this`status, this`errorMessage
      ensures status == newStatus && errorMessage == error
    {
      status := newStatus;
      errorMessage := error;
    }

    /** Stores a packing result; the status becomes `success` whatever it was. */
    method SetPackedResults(items: seq<WorkerTypes.Rect>, url: Option<string>)
      modifies this`packedItems, this`atlasUrl, this`status
      ensures packedItems == items && atlasUrl == url && status == Success
    {
      packedItems := items;
      atlasUrl := url;
      status := Success;
    }

    method SetAtlasBlob(blob: Blob)
      modifies this`atlasBlob
      ensures atlasBlob == Some(blob)
    {
      atlasBlob := Some(blob);
    }
  }

  /** Adding an image with a fresh id, toggling and removing keep the ids of
      the list unique: the store's list operations preserve that invariant. */
  method ListOperationsKeepUniqueIds(store: Store, file: WorkerTypes.File, id: string, url: string, other: string)
    requires UniqueIds(store.images) && !HasId(store.images, id)
    modifies store`images
    ensures UniqueIds(store.images)
    ensures |store.images| == |old(store.images)|
  {
    AppendFreshKeepsUniqueIds(store.images, ImageItem(id, file, 100, 100, url, true));
    store.AddImage(file, id, 100, 100, url);
    ToggleKeepsUniqueIds(store.images, other);
    store.ToggleImageRotation(other);
    RemoveKeepsUniqueIds(store.images, id);
    var before := store.images;
    store.RemoveImage(id);
    var k := |before| - 1;
    assert before[k].id == id;
    RemoveUnique(before, k);
  }

  /** A fresh store given one 100x100 image with id `test-id` holds exactly
      that image. */
  method AddImageScenario(file: WorkerTypes.File, url: string) returns (store: Store)
    ensures |store.images| == 1
    ensures store.images[0].id == "test-id" && store.images[0].width == 100 && store.images[0].rotatable
  {
    store := new Store();
    store.AddImage(file, "test-id", 100, 100, url);
  }

  /** Setting width and rotation keeps the height. */
  lemma UpdateSettingsScenario(layout: Layout, scaleToFit: bool)
    ensures var before := PackingSettings(1024, 1024, 0, false, layout, scaleToFit, None);
      var after := MergeSettings(before, EmptyPatch.(width := Some(512), allowRotation := Some(true)));
      after.width == 512 && after.height == 1024 && after.allowRotation
  {
  }
}

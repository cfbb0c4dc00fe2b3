/**
 * The logic inside the sidebar component: moving an image by drag and
 * drop, the export names built from file names, and the per-side padding
 * editor. Rendering and the browser's drag events are not modelled; the
 * index stored when a drag starts is a parameter.
 */
module Sidebar {
  import opened Js
  import opened WorkerTypes
  import PackerStore
  import ExportTypes
  import Download

  // ---------------------------------------------------------------------
  // Drag and drop

  /** `s` after `splice(i, 1)`. */
  function RemoveAt<T>(s: seq<T>, i: nat): (r: seq<T>)
    requires i < |s|
    ensures |r| == |s| - 1
    ensures forall k :: 0 <= k < |r| ==> r[k] == if k < i then s[k] else s[k + 1]
  {
    s[..i] + s[i + 1..]
  }

  /** `s` after `splice(i, 0, x)`. */
  function InsertAt<T>(s: seq<T>, i: nat, x: T): (r: seq<T>)
    requires i <= |s|
    ensures |r| == |s| + 1 && r[i] == x
    ensures forall k :: 0 <= k < |r| && k != i ==> r[k] == if k < i then s[k] else s[k - 1]
  {
    s[..i] + [x] + s[i..]
  }

  /** The list after the element at `from` is dragged onto position `to`. */
  function Moved<T>(s: seq<T>, from: nat, to: nat): (r: seq<T>)
    requires from < |s| && to < |s|
    ensures |r| == |s| && r[to] == s[from]
  {
    InsertAt(RemoveAt(s, from), to, s[from])
  }

  /** `a.splice(from, 1)` on an array: the elements after `from` move one
      place left; the last slot, now past the end of the list, keeps its
      old value. */
  method SpliceOut<T>(a: array<T>, from: nat)
    requires from < a.Length
    modifies a
    ensures a[..a.Length - 1] == RemoveAt(old(a[..]), from)
  {
    ghost var s := a[..];
    var i := from;
    while i < a.Length - 1
      invariant from <= i <= a.Length - 1
      invariant forall k :: 0 <= k < from ==> a[k] == s[k]
      invariant forall k :: from <= k < i ==> a[k] == s[k + 1]
      invariant forall k :: i <= k < a.Length ==> a[k] == s[k]
    {
      a[i] := a[i + 1];
      i := i + 1;
    }
    assert forall k :: 0 <= k < a.Length - 1 ==> a[..a.Length - 1][k] == RemoveAt(s, from)[k];
  }

  /** `a.splice(to, 0, x)` on an array whose list fills all but the last
      slot: the elements from `to` move one place right and `x` goes at
      `to`. */
  method SpliceIn<T>(a: array<T>, to: nat, x: T)
    requires to < a.Length
    modifies a
    ensures a[..] == InsertAt(old(a[..a.Length - 1]), to, x)
  {
    ghost var s := a[..a.Length - 1];
    var j := a.Length - 1;
    while j > to
      invariant to <= j <= a.Length - 1
      invariant forall k :: 0 <= k < j ==> a[k] == s[k]
      invariant forall k :: j < k < a.Length ==> a[k] == s[k - 1]
    {
      a[j] := a[j - 1];
      j := j - 1;
    }
    a[to] := x;
    assert forall k :: 0 <= k < a.Length ==> a[..][k] == InsertAt(s, to, x)[k];
  }

  /** The two `splice` calls of the drop on a copy of the list. */
  method SpliceMove<T>(images: seq<T>, from: nat, to: nat) returns (r: seq<T>)
    requires from < |images| && to < |images|
    ensures r == Moved(images, from, to)
  {
    var a := new T[|images|](k requires 0 <= k < |images| => images[k]);
    assert a[..] == images;
    var dragged := a[from];
    SpliceOut(a, from);
    SpliceIn(a, to, dragged);
    r := a[..];
  }

  /** `handleDrop(dropIndex)`: with no drag in progress, or a drop onto the
      dragged image itself, nothing happens; otherwise the store's list is
      replaced by the moved list. The drag index is a global that the early
      return does not clear, so it can be stale when the next drop arrives;
      this version ignores a drag index outside the list, where the code as
      written (`DropAsWritten`) inserts `undefined`. */
  method HandleDrop(store: PackerStore.Store, dragIndex: Option<int>, dropIndex: int) returns (reordered: bool)
    modifies store`images
    ensures reordered <==> (dragIndex.Some? && dragIndex.value != dropIndex
      && 0 <= dragIndex.value < |old(store.images)| && 0 <= dropIndex < |old(store.images)|)
    ensures reordered ==> store.images == Moved(old(store.images), dragIndex.value, dropIndex)
    ensures multiset(store.images) == multiset(old(store.images))
    ensures !reordered ==> store.images == old(store.images)
  {
    if dragIndex.None? || dragIndex.value == dropIndex {
      return false;
    }
    if !(0 <= dragIndex.value < |store.images| && 0 <= dropIndex < |store.images|) {
      return false;
    }
    var newImages := SpliceMove(store.images, dragIndex.value, dropIndex);
    MovedIsPermutation(store.images, dragIndex.value, dropIndex);
    store.ReorderImages(newImages);
    reordered := true;
  }

  /** Where `splice` starts for a start argument and a list length: a
      negative start counts from the end, and the result is clamped to the
      list. */
  function SpliceStart(start: int, len: nat): (r: nat)
    ensures r <= len
    ensures 0 <= start <= len ==> r == start
    ensures start > len ==> r == len
    ensures start < 0 ==> r == if len + start < 0 then 0 else len + start
  {
    if start < 0 then (if len + start < 0 then 0 else len + start)
    else if start > len then len
    else start
  }

  /** The list as values that may be `undefined`. */
  function Lift<T>(s: seq<T>): (r: seq<Option<T>>)
    ensures |r| == |s| && forall k :: 0 <= k < |s| ==> r[k] == Some(s[k])
  {
    seq(|s|, k requires 0 <= k < |s| => Some(s[k]))
  }

  /** The list `handleDrop` hands to the store for the drag index it reads,
      as written: `splice(dragIndex, 1)` removes nothing when the index is at
      or past the end, so the destructured `draggedItem` is `undefined`, and
      the second `splice` inserts it. */
  function DropAsWritten<T>(s: seq<T>, dragIndex: int, dropIndex: int): (r: seq<Option<T>>)
    ensures SpliceStart(dragIndex, |s|) < |s| ==> |r| == |s|
    ensures SpliceStart(dragIndex, |s|) == |s| ==> |r| == |s| + 1
  {
    var from := SpliceStart(dragIndex, |s|);
    var rest := if from < |s| then RemoveAt(Lift(s), from) else Lift(s);
    var dragged := if from < |s| then Some(s[from]) else None;
    InsertAt(rest, SpliceStart(dropIndex, |rest|), dragged)
  }

  /** With both indices inside the list, the code as written moves the item
      just as `Moved` does. */
  lemma DropAsWrittenInRange<T>(s: seq<T>, dragIndex: int, dropIndex: int)
    requires 0 <= dragIndex < |s| && 0 <= dropIndex < |s|
    ensures DropAsWritten(s, dragIndex, dropIndex) == Lift(Moved(s, dragIndex, dropIndex))
  {
    var r := DropAsWritten(s, dragIndex, dropIndex);
    var m := Moved(s, dragIndex, dropIndex);
    var rest := RemoveAt(s, dragIndex);
    assert RemoveAt(Lift(s), dragIndex) == Lift(rest);
    forall k | 0 <= k < |s| ensures r[k] == Some(m[k]) {
      if k != dropIndex {
        assert r[k] == Lift(rest)[if k < dropIndex then k else k - 1];
      }
    }
  }

  /** A stale drag index at or past the end of the list, with any drop
      index, makes the store's list one longer, holding `undefined`. */
  lemma StaleDragIndexInsertsUndefined<T>(s: seq<T>, dragIndex: int, dropIndex: int)
    requires dragIndex >= |s|
    ensures |DropAsWritten(s, dragIndex, dropIndex)| == |s| + 1
    ensures None in DropAsWritten(s, dragIndex, dropIndex)
  {
    var r := DropAsWritten(s, dragIndex, dropIndex);
    assert r[SpliceStart(dropIndex, |s|)] == None;
  }

  /** The sequence of events that leaves the index stale: dragging image 1
      of two onto itself keeps the index 1; after image 1 is removed, a drop
      from outside the list onto image 0 reads that index. */
  lemma StaleDropScenario(a: PackerStore.ImageItem, b: PackerStore.ImageItem)
    requires a.id != b.id
    ensures DropAsWritten(PackerStore.RemoveById([a, b], b.id), 1, 0) == [None, Some(a)]
  {
    assert PackerStore.RemoveById([b], b.id) == [];
    assert PackerStore.RemoveById([a, b], b.id) == [a];
  }

  /** The move only reorders: the same elements, as many times each. */
  lemma MovedIsPermutation<T>(s: seq<T>, from: nat, to: nat)
    requires from < |s| && to < |s|
    ensures multiset(Moved(s, from, to)) == multiset(s)
  {
    var x := s[from];
    var before, after := s[..from], s[from + 1..];
    var rest := RemoveAt(s, from);
    assert rest == before + after;
    assert s == before + [x] + after;
    var left, right := rest[..to], rest[to..];
    assert rest == left + right;
    assert Moved(s, from, to) == left + [x] + right;
    calc {
      multiset(Moved(s, from, to));
      multiset(left) + multiset([x]) + multiset(right);
      multiset(rest) + multiset([x]);
      multiset(before) + multiset(after) + multiset([x]);
      multiset(s);
    }
  }

  /** The other elements keep their relative order. */
  lemma MovedKeepsOthersInOrder<T>(s: seq<T>, from: nat, to: nat)
    requires from < |s| && to < |s|
    ensures RemoveAt(Moved(s, from, to), to) == RemoveAt(s, from)
  {
    var r := Moved(s, from, to);
    var rest := RemoveAt(s, from);
    assert forall k :: 0 <= k < |rest| ==> RemoveAt(r, to)[k] == rest[k];
  }

  /** Dragging the element back undoes the move. */
  lemma MovedBack<T>(s: seq<T>, from: nat, to: nat)
    requires from < |s| && to < |s|
    ensures Moved(Moved(s, from, to), to, from) == s
  {
    var r := Moved(s, from, to);
    MovedKeepsOthersInOrder(s, from, to);
    var back := Moved(r, to, from);
    assert RemoveAt(r, to) == RemoveAt(s, from);
    forall k | 0 <= k < |s| ensures back[k] == s[k] {
      if k != from {
        assert back[k] == RemoveAt(r, to)[if k < from then k else k - 1];
      }
    }
  }

  /** A drop onto the dragged position would leave the list as it is, so the
      guard only spares a needless update. */
  lemma MovedInPlace<T>(s: seq<T>, i: nat)
    requires i < |s|
    ensures Moved(s, i, i) == s
  {
    assert forall k :: 0 <= k < |s| ==> Moved(s, i, i)[k] == s[k];
  }

  // ---------------------------------------------------------------------
  // Export names: `file.name.replace(/\.[^/.]+$/, "")`

  /** `p` is where the pattern matches: a `.` followed, up to the end of the
      name, by one or more characters that are neither `.` nor `/`. */
  predicate IsExtensionAt(s: string, p: int) {
    0 <= p < |s| - 1 && s[p] == '.' && forall k :: p < k < |s| ==> s[k] != '.' && s[k] != '/'
  }

  /** Searches the match backwards from position `k - 1`, the characters from
      `k` on being neither `.` nor `/`. */
  function ExtensionDotFrom(s: string, k: nat): (r: Option<nat>)
    requires k <= |s|
    requires forall j :: k <= j < |s| ==> s[j] != '.' && s[j] != '/'
    ensures r.Some? ==> IsExtensionAt(s, r.value)
    ensures r.None? ==> forall p :: 0 <= p < |s| ==> !IsExtensionAt(s, p)
  {
    if k == 0 then None
    else if s[k - 1] == '.' then (if k < |s| then Some(k - 1) else None)
    else if s[k - 1] == '/' then None
    else ExtensionDotFrom(s, k - 1)
  }

  /** The name without its extension; a name without one is kept whole. */
  function StripExtension(name: string): (r: string)
    ensures (exists p :: IsExtensionAt(name, p)) ==> IsExtensionAt(name, |r|) && r == name[..|r|]
    ensures (forall p :: 0 <= p < |name| ==> !IsExtensionAt(name, p)) ==> r == name
  {
    match ExtensionDotFrom(name, |name|)
    case Some(p) => name[..p]
    case None => name
  }

  /** The pattern can match at one place only. */
  lemma ExtensionAtUnique(s: string, p: int, q: int)
    requires IsExtensionAt(s, p) && IsExtensionAt(s, q)
    ensures p == q
  {
  }

  /** Adding an extension and stripping it gives the base name back. */
  lemma StripAddedExtension(base: string, ext: string)
    requires ext != []
    requires forall k :: 0 <= k < |ext| ==> ext[k] != '.' && ext[k] != '/'
    ensures StripExtension(base + "." + ext) == base
  {
    var s := base + "." + ext;
    assert IsExtensionAt(s, |base|) by {
      forall k | |base| < k < |s| ensures s[k] != '.' && s[k] != '/' {
        assert s[k] == ext[k - |base| - 1];
      }
    }
    var r := StripExtension(s);
    ExtensionAtUnique(s, |r|, |base|);
    assert base == s[..|base|];
  }

  /** Only the last extension goes. */
  lemma StripLastExtensionOnly()
    ensures StripExtension("a.tar.gz") == "a.tar"
    ensures StripExtension("dir.v2/readme") == "dir.v2/readme"
    ensures StripExtension("name.") == "name."
  {
    StripAddedExtension("a.tar", "gz");
    assert "a.tar" + "." + "gz" == "a.tar.gz";
    var s := "dir.v2/readme";
    forall p | 0 <= p < |s| ensures !IsExtensionAt(s, p) {
      if p < 6 {
        assert s[6] == '/';
      }
    }
    var t := "name.";
    forall p | 0 <= p < |t| ensures !IsExtensionAt(t, p) {
      if p < 4 {
        assert t[4] == '.';
      }
    }
  }

  // ---------------------------------------------------------------------
  // The name map of `handleDownload`

  /** The map after assigning each image's stripped file name under its id,
      in list order. */
  function NameMap(images: seq<PackerStore.ImageItem>): (m: map<string, string>)
    ensures images == [] ==> m == map[]
    ensures images != [] ==> images[|images| - 1].id in m
  {
    if images == [] then map[]
    else
      var last := images[|images| - 1];
      NameMap(images[..|images| - 1])[last.id := StripExtension(last.file.name)]
  }

  method BuildNameMap(images: seq<PackerStore.ImageItem>) returns (nameMap: map<string, string>)
    ensures nameMap == NameMap(images)
  {
    nameMap := map[];
    var i := 0;
    while i < |images|
      invariant 0 <= i <= |images|
      invariant nameMap == NameMap(images[..i])
    {
      var img := images[i];
      nameMap := nameMap[img.id := StripExtension(img.file.name)];
      assert images[..i + 1][..i] == images[..i];
      i := i + 1;
    }
    assert images[..i] == images;
  }

  /** The map holds, under an image's id, the stripped name of the last image
      with that id. */
  lemma {:induction false} NameMapOfLast(images: seq<PackerStore.ImageItem>, i: int)
    requires 0 <= i < |images|
    requires forall j :: i < j < |images| ==> images[j].id != images[i].id
    ensures images[i].id in NameMap(images)
    ensures NameMap(images)[images[i].id] == StripExtension(images[i].file.name)
    decreases |images|
  {
    var n := |images| - 1;
    if i < n {
      var init := images[..n];
      forall j | i < j < |init| ensures init[j].id != init[i].id {
        assert init[j] == images[j];
      }
      NameMapOfLast(init, i);
      assert init[i] == images[i] && images[n].id != images[i].id;
      assert NameMap(images) == NameMap(init)[images[n].id := StripExtension(images[n].file.name)];
    }
  }

  /** The keys are the ids of the images. */
  lemma {:induction false} NameMapKeys(images: seq<PackerStore.ImageItem>)
    ensures forall id :: id in NameMap(images) <==> PackerStore.HasId(images, id)
    decreases |images|
  {
    if images != [] {
      var n := |images| - 1;
      NameMapKeys(images[..n]);
      forall id ensures id in NameMap(images) <==> PackerStore.HasId(images, id) {
        if PackerStore.HasId(images, id) {
          var k :| 0 <= k < |images| && images[k].id == id;
          if k < n {
            assert images[..n][k] == images[k];
          }
        }
        if id in NameMap(images[..n]) {
          var k :| 0 <= k < n && images[..n][k].id == id;
          assert images[k] == images[..n][k];
        }
      }
    }
  }

  /** The frame name the download gives a packed image with unique id: its
      file name without extension, or `sprite_<id>` when that is empty. */
  lemma ExportedFrameName(images: seq<PackerStore.ImageItem>, i: int)
    requires PackerStore.UniqueIds(images) && 0 <= i < |images|
    ensures var stripped := StripExtension(images[i].file.name);
      Download.FrameName(images[i].id, NameMap(images)) == if stripped != [] then stripped else "sprite_" + images[i].id
  {
    NameMapOfLast(images, i);
  }

  /** A file named `.png` has the empty base name and is exported as
      `sprite_<id>`. */
  lemma DotFileFallsBackToSpriteId(img: PackerStore.ImageItem)
    requires img.file.name == ".png"
    ensures Download.FrameName(img.id, NameMap([img])) == "sprite_" + img.id
  {
    StripAddedExtension("", "png");
    assert "" + "." + "png" == ".png";
    NameMapOfLast([img], 0);
  }

  /** `handleDownload`: nothing without an atlas image; otherwise the data
      file for the packed items, named after the images' files. */
  method HandleDownload(store: PackerStore.Store, exporters: seq<ExportTypes.ExporterInfo>, selectedExporter: string)
    returns (file: Option<Download.DataFile>)
    ensures store.atlasBlob.None? ==> file.None?
    ensures store.atlasBlob.Some? ==> file == Download.DataFileFor(exporters, selectedExporter,
      Download.ConvertToPackResultData(store.packedItems, store.settings.width, store.settings.height, NameMap(store.images)))
  {
    if store.atlasBlob.None? {
      return None;
    }
    var nameMap := BuildNameMap(store.images);
    file := Download.GenerateDataFile(exporters, selectedExporter, store.packedItems,
      store.settings.width, store.settings.height, nameMap);
  }

  // ---------------------------------------------------------------------
  // Per-side padding editor

  datatype Side = Top | Bottom | Left | Right

  function SideOf(p: Padding, side: Side): int {
    match side
    case Top => p.top
    case Bottom => p.bottom
    case Left => p.left
    case Right => p.right
  }

  /** The value shown for a side: `img.padding?.[side] || 0`. */
  function DisplayedPadding(padding: Option<Padding>, side: Side): (v: int)
    ensures padding.None? ==> v == 0
    ensures padding.Some? ==> v == SideOf(padding.value, side)
  {
    if padding.None? then 0 else SideOf(padding.value, side)
  }

  /** The value typed into a side: `Math.max(0, parseInt(text) || 0)`. */
  function PaddingInput(text: string): (v: nat)
    ensures ParseInt(text).None? ==> v == 0
    ensures ParseInt(text).Some? && ParseInt(text).value >= 0 ==> v == ParseInt(text).value
    ensures ParseInt(text).Some? && ParseInt(text).value < 0 ==> v == 0
  {
    match ParseInt(text)
    case None => 0
    case Some(n) => if n < 0 then 0 else n
  }

  /** `{ ...(padding || zeros), [side]: value }`. */
  function WithSide(padding: Option<Padding>, side: Side, value: nat): (q: Padding)
    ensures SideOf(q, side) == value
    ensures forall other :: other != side ==> SideOf(q, other) == DisplayedPadding(padding, other)
  {
    var current := if padding.Some? then padding.value else Padding(0, 0, 0, 0);
    match side
    case Top => current.(top := value)
    case Bottom => current.(bottom := value)
    case Left => current.(left := value)
    case Right => current.(right := value)
  }

  /** The new padding after typing `text` into `side`. */
  function EditPadding(padding: Option<Padding>, side: Side, text: string): (q: Padding)
    ensures SideOf(q, side) == PaddingInput(text) && SideOf(q, side) >= 0
    ensures forall other :: other != side ==> SideOf(q, other) == DisplayedPadding(padding, other)
  {
    WithSide(padding, side, PaddingInput(text))
  }

  /** Typing a non-negative number stores that number. */
  lemma PaddingInputOfNumber(n: int)
    ensures PaddingInput(IntToString(n)) == if n < 0 then 0 else n
  {
    ParseIntRoundTrip(n);
  }

  /** Text that is no number stores 0. */
  lemma PaddingInputOfText(text: string)
    requires ParseInt(text).None?
    ensures PaddingInput(text) == 0
  {
  }

  /** Writing the value a side already has changes nothing. */
  lemma WithSideUnchanged(p: Padding, side: Side)
    requires SideOf(p, side) >= 0
    ensures WithSide(Some(p), side, SideOf(p, side)) == p
  {
  }

  /** The later of two edits of one side wins. */
  lemma WithSideTwice(padding: Option<Padding>, side: Side, a: nat, b: nat)
    ensures WithSide(Some(WithSide(padding, side, a)), side, b) == WithSide(padding, side, b)
  {
  }

  /** Edits of two different sides commute. */
  lemma WithSideCommutes(padding: Option<Padding>, s1: Side, s2: Side, a: nat, b: nat)
    requires s1 != s2
    ensures WithSide(Some(WithSide(padding, s1, a)), s2, b) == WithSide(Some(WithSide(padding, s2, b)), s1, a)
  {
  }

  /** Editing an image without padding starts from all zeros. */
  lemma EditWithoutPadding(side: Side, text: string)
    ensures var q := EditPadding(None, side, text);
      forall other :: other != side ==> SideOf(q, other) == 0
  {
  }
}

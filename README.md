# SpritePacker core, modelled in Dafny

SpritePacker is a browser application that packs sprite images into one atlas
texture and exports a data file describing where each sprite landed. This
project models the logic the application owns around the packing library,
and proves properties of it:

- `PackingLogic` (`packing_logic.dfy`) models `performPacking`. It pre-rotates
  images that only fit the bin turned by a quarter, hands the inputs to the
  MaxRects library, and flattens the library's bins into one list of packed
  rectangles with a `rotated` flag. The library is a function parameter, so
  every property holds whatever bins the library returns.
- `ExportTypes`, `UnityExporter`, `GodotExporter` and `CssExporter` model the
  exporter-neutral atlas description and the three format writers. The JSON
  writers produce a structured value (a name-keyed map for Unity, an ordered
  array for Godot). The CSS writer produces the rule text itself.
- `Download` models `convertToPackResultData`, the choice of exporter by name
  with a fallback to the first registered one, and the data file written
  under the base name `atlas`.
- `PackerStore` models the application state store as a class. Each action
  is a method whose `modifies` clause names exactly the fields the action
  sets. The list and settings operations are functions with their own lemmas.
- `Sidebar` models the logic inside the sidebar component:
  - the drag-and-drop move, as two in-place `splice`s on an array;
  - the extension stripping and the id-to-name map used for export names;
  - the per-side padding editor.
- `Js` models the JavaScript behaviour the code relies on: `undefined` as
  `None`, the decimal text of an integer in a template string, and
  `parseInt` without a radix. `WorkerTypes` holds the records exchanged
  with the packing worker.

Numbers are modelled as mathematical integers and strings as sequences of
characters.

## Model

| member | source | states |
|---|---|---|
| `PackingLogic.OptionsFor` | src/workers/packingLogic.ts:5-12 | The library gets the request's bin width, height and padding and its rotation switch. `smart`, `pot`, `square` and `tag` are off and the border is 0. |
| `PackingLogic.PreRotate` | src/workers/packingLogic.ts:14-25 | The size handed over is the image's size or its swap, and the area is unchanged. |
| `PackingLogic.Inputs` | src/workers/packingLogic.ts:14-33 | There is one input per image, in order. Each input's `data` carries the id, the file and the original unswapped size. Its size is the pre-rotated one and it carries the request's rotation switch. |
| `PackingLogic.RectOf` | src/workers/packingLogic.ts:53-64 | The packed rectangle keeps the library's id, position and size, takes the file from `data` and has no padding. A rectangle the library turned (`rot`) is always reported rotated. An unturned one is reported rotated iff its width differs from the image's original width. |
| `PackingLogic.BinRects` | src/workers/packingLogic.ts:52-65 | One rectangle per library rectangle of a bin, in bin order. |
| `PackingLogic.Flattened` | src/workers/packingLogic.ts:51-66 | The flattened list holds as many rectangles as all the bins together. |
| `PackingLogic.PerformPacking` | src/workers/packingLogic.ts:46-84 | The result has the request's id, width and height, `success` true, `unpacked` empty and no error. `packed` is the flattening of whatever bins the library returns for the request's inputs. Nested loop invariants carry this. |
| `PackingLogic.NoRotationKeepsSize` | src/workers/packingLogic.ts:14-25 | With rotation disabled, every input keeps the image's width and height. |
| `PackingLogic.SwapCondition` | src/workers/packingLogic.ts:18-25 | The size is swapped iff rotation is allowed, the image does not fit as given, it fits swapped, and it is not square. |
| `PackingLogic.PreRotateFits` | src/workers/packingLogic.ts:17-25 | The handed-over size fits the bin iff the image fits as given, or rotation is allowed and it fits swapped. |
| `PackingLogic.PreRotateIdempotent` | src/workers/packingLogic.ts:18-25 | Pre-rotating a pre-rotated size changes nothing. |
| `PackingLogic.InputIsOrientationOfOriginal` | src/workers/packingLogic.ts:27-32 | An input's size is its `data` size or that size swapped, with the same area, and `data.id` is the image id. |
| `PackingLogic.RotatedIffPreRotated` | src/workers/packingLogic.ts:53-54 | Suppose the library leaves an input unturned and at its given size. Then the packed rectangle is reported rotated iff the wrapper pre-rotated the image. |
| `PackingLogic.FlattenedAppend` | src/workers/packingLogic.ts:51-66 | Flattening distributes over concatenation of bin lists: the order is bin order, then rectangle order. |
| `PackingLogic.FlattenedAt` | src/workers/packingLogic.ts:51-66 | Rectangle `j` of bin `i` is at position (rectangles in earlier bins) + `j` of `packed`. Its id, x, y, width and height are copied unchanged. |
| `PackingLogic.RotationScenarios` | src/workers/packingLogic.test.ts:41-82 | These are the tests' two requests: a 90x60 image with rotation allowed. In a 60x100 bin its input is 60x90. When the library returns one bin holding it as given, the packed list has one rectangle, reported rotated. In a 100x60 bin the input is 90x60, and the single rectangle is reported unrotated. |
| `ExportTypes.AtlasMeta` | src/utils/download.ts:36-43 | The meta record has the given size and image name. The app, version, format and scale are the fixed constants. |
| `ExportTypes.ToJsonRect` | src/exporters/UnityExporter.ts:30 | The JSON rectangle has the same x and y, with width renamed `w` and height renamed `h`. |
| `ExportTypes.JsonRectRoundTrip` | src/exporters/UnityExporter.ts:30-33 | Renaming back gives the original rectangle: the renaming loses nothing. |
| `UnityExporter.EntryOf` | src/exporters/UnityExporter.ts:29-35 | The entry renames the frame's two rectangles to `x, y, w, h` and copies `rotated`, `trimmed` and `sourceSize`. `EntryRoundTrip` shows nothing is lost. |
| `UnityExporter.FrameMap` | src/exporters/UnityExporter.ts:12-36 | The record never has the key `__proto__`. The last frame, unless it is named `__proto__`, has its entry under its name. `FrameMapKeys` and `LastFrameWins` pin down the rest. |
| `UnityExporter.Export` | src/exporters/UnityExporter.ts:7-40 | The meta is the atlas meta with image `fileName + ".png"` and the data's size. The frames record is the map built by assigning each frame's entry under its name, in order. A frame named `__proto__` adds no key. A loop invariant carries this. |
| `UnityExporter.FrameMapKeys` | src/exporters/UnityExporter.ts:8-36 | The keys of the frames record are exactly the frame names other than `__proto__`. On the plain object `{}`, assigning that name sets the prototype, so it is not a key of the serialised record. |
| `UnityExporter.LastFrameWins` | src/exporters/UnityExporter.ts:23-36 | The value under a name other than `__proto__` is the entry of the last frame with that name. |
| `UnityExporter.EntryRoundTrip` | src/exporters/UnityExporter.ts:29-35 | An entry and its key give the frame back. Rectangles are renamed, and `rotated`, `trimmed` and `sourceSize` are copied. |
| `UnityExporter.DistinctNamesLossless` | src/exporters/UnityExporter.ts:23-36 | With distinct names, every frame not named `__proto__` can be read back from the record. |
| `UnityExporter.ProtoFrameDropped` | src/exporters/UnityExporter.ts:12-29 | A frame named `__proto__` leaves the record unchanged: the serialised output loses it. |
| `UnityExporter.RepeatedNameKeepsLater` | src/exporters/UnityExporter.ts:29 | Two frames with one name other than `__proto__` leave a single key, holding the later frame's entry. |
| `GodotExporter.EntryOf` | src/exporters/GodotExporter.ts:11-18 | The entry carries the frame's name as `filename`, renames its two rectangles to `x, y, w, h`, and copies `rotated`, `trimmed` and `sourceSize`. |
| `GodotExporter.Export` | src/exporters/GodotExporter.ts:7-33 | There is one entry per frame, in order, duplicates included. The meta is the atlas meta with image `fileName + ".png"` and the data's size. |
| `GodotExporter.ExportLossless` | src/exporters/GodotExporter.ts:11-18 | Reading the frames back from the array gives exactly the input frames: names, order, duplicates and all fields. |
| `GodotExporter.AgreesWithUnity` | src/exporters/GodotExporter.ts:11-18 | Take a frame whose name is not `__proto__` and that no later frame repeats. Godot's entry has that name as `filename`, and carries the same values as Unity's entry under that name. |
| `CssExporter.Sanitize` | src/exporters/CssExporter.ts:12 | The sanitised name has the same length. Each character is kept if it is in `[a-zA-Z0-9-_]` and replaced by `-` otherwise. |
| `CssExporter.SanitizeOnlyClassChars` | src/exporters/CssExporter.ts:12 | Sanitising leaves only `[a-zA-Z0-9-_]` characters. |
| `CssExporter.SanitizeKeepsCleanName` | src/exporters/CssExporter.ts:12 | A name made of allowed characters is kept as it is. |
| `CssExporter.SanitizeIdempotent` | src/exporters/CssExporter.ts:12 | Sanitising twice is sanitising once. |
| `CssExporter.ClassName` | src/exporters/CssExporter.ts:12 | The class name is `sprite-` followed by the sanitised name, 7 characters longer. `ClassNameWellFormed` adds that it holds class-name characters only. |
| `CssExporter.Join` | src/exporters/CssExporter.ts:30 | `join` of no parts is empty, and of one part is that part. `JoinStartsWithFirst` and `ExportAppend` fix the rest. |
| `CssExporter.ClassNameWellFormed` | src/exporters/CssExporter.ts:12 | The class name is `sprite-` followed by the sanitised name. It is 7 characters longer than the name and uses allowed characters only. |
| `CssExporter.RuleLines` | src/exporters/CssExporter.ts:18-27 | A rule has ten lines. It opens with the `/* fileName */` comment and the `.sprite-… {` selector of the frame's class name, and ends with `}`. The rotation note is present exactly for a rotated frame, and the line is bare indentation otherwise. |
| `CssExporter.Rule` | src/exporters/CssExporter.ts:18-27 | The rule text starts with the file-name comment and ends with the closing `}`. |
| `CssExporter.Rules` | src/exporters/CssExporter.ts:9-28 | There is one rule per frame, and rule `i` is the rule of frame `i`. |
| `CssExporter.Export` | src/exporters/CssExporter.ts:7-31 | No frames give the empty text. One frame gives its rule alone. A text with frames starts with the file-name comment. With `ExportAppend`, this fixes the whole text as the rules in frame order, joined by blank lines. |
| `CssExporter.ExportEmptyIff` | src/exporters/CssExporter.ts:9-30 | The CSS text is empty iff there are no frames. |
| `CssExporter.ExportAppend` | src/exporters/CssExporter.ts:30 | One more frame appends a blank line and its rule, so the rules appear in frame order, separated by blank lines. |
| `CssExporter.FileNameOnlyInComment` | src/exporters/CssExporter.ts:18-24 | The file name is written in the leading comment. Lines 1 to 9 of the rule do not depend on it. |
| `CssExporter.RuleReadsWidth` | src/exporters/CssExporter.ts:20 | `parseInt` of the width line after `    width: ` gives the frame's width. |
| `CssExporter.RuleReadsHeight` | src/exporters/CssExporter.ts:21 | `parseInt` of the height line after `    height: ` gives the frame's height. |
| `CssExporter.RuleReadsImage` | src/exporters/CssExporter.ts:22 | The `url('…')` of the `background-image` line holds exactly `meta.image`. |
| `CssExporter.RuleReadsPosition` | src/exporters/CssExporter.ts:23 | The `background-position` line gives the frame's x after the first `-`, and its y after the `px -` that follows. |
| `CssExporter.RuleReadsAtlasSize` | src/exporters/CssExporter.ts:24 | The `background-size` line gives the atlas width `meta.size.w`, and then the atlas height `meta.size.h` after `px `. |
| `CssExporter.RuleDeterminesFrame` | src/exporters/CssExporter.ts:18-27 | Two frames with the same rule lines have the same x, y, width, height, rotation flag and class name. The width and height lines, the `-x px -y px` position and the rotation-note line encode them without loss. |
| `Js.IntToString` | src/exporters/CssExporter.ts:20-24 | The text of `${n}` is non-empty. It is decimal digits for a non-negative `n`, and `-` followed by digits otherwise. `ParseIntRoundTrip` shows it is read back. |
| `Js.ParseInt` | src/components/Sidebar.tsx:247 | Text without any decimal digit gives NaN (`None`). `ParseIntRoundTrip` and `ParseIntBeforeText` give the value read for integer texts. |
| `Js.ParseIntBeforeText` | src/exporters/CssExporter.ts:20-24 | `parseInt` of `${n}` followed by text that continues with neither a digit nor the `x` of a hexadecimal prefix gives `n`, as for the `${n}px` of the CSS rules. |
| `Js.ParseIntRoundTrip` | src/components/Sidebar.tsx:247 | `parseInt` reads back exactly the integer whose decimal text a template string writes. |
| `Js.IntToStringInjective` | src/exporters/CssExporter.ts:20-23 | Different integers are written as different texts. |
| `Download.FrameName` | src/utils/download.ts:16 | The frame name is the mapped name when that is a non-empty string, and `sprite_<id>` otherwise. It is never empty. |
| `Download.FrameOf` | src/utils/download.ts:15-35 | The frame copies the item's x, y, width and height, `rotated` is the item's, and `trimmed` is false. `spriteSourceSize` is (0, 0, width, height). `sourceSize` is the size, swapped iff rotated. |
| `Download.ConvertToPackResultData` | src/utils/download.ts:8-45 | There is one frame per item, in order. The meta is the atlas meta of the given size with image `atlas.png`. |
| `Download.FindExporter` | src/utils/download.ts:62 | The index is of the first exporter with that name, and `None` iff no exporter has it. |
| `Download.SelectExporter` | src/utils/download.ts:62 | The result is a registered exporter. When some exporter has the requested name, it is the first such one (`FindExporter`'s index). Otherwise it is the first exporter. It is undefined only for an empty list. |
| `Download.DataFileFor` | src/utils/download.ts:61-66 | The data file is named `atlas.<extension>` of the chosen exporter. There is none iff no exporter is registered or the chosen one is the unmodelled Unreal exporter. |
| `Download.GenerateDataFile` | src/utils/download.ts:61-66 | Choosing, converting and exporting gives exactly the data file specified for the converted data. |
| `Download.Oriented` | src/utils/download.ts:31-34 | An unrotated size is kept, and a rotated one has its width and height swapped. |
| `Download.ExportedContent` | src/utils/download.ts:62-64 | Each modelled exporter writes its own content for `data` under the base name `atlas`: Unity the frame record with meta image `atlas.png`, Godot its array, and CSS its text. There is none exactly for Unreal. |
| `Download.OrientedTwice` | src/utils/download.ts:31-34 | Swapping a size twice gives it back. |
| `Download.DataFileMetaMatchesConversion` | src/utils/download.ts:36-43 | The JSON data file written under the base name `atlas` carries the conversion's meta, which names `atlas.png`. |
| `Download.SourceSizeRecoversOriginal` | src/utils/download.ts:31-34 | Suppose the library leaves an input at its given size, or turns it into a place inside the bin. Then the exported `sourceSize` is the image's original size, whatever the pre-rotation did. |
| `Download.Registered` | src/exporters/index.ts:6-10 | Three exporters are registered: Unity first, then Unreal under its own name, then Godot. None of them is the CSS exporter. |
| `Download.RegisteredLookups` | src/exporters/index.ts:6-10 | With the registered list, Unity, Godot and Unreal are found by name. The unregistered CSS exporter's name falls back to Unity. |
| `PackerStore.MergeSettings` | src/store/usePackerStore.ts:96-100 | Each field the patch sets takes the patch's value, and every other field keeps its value. This includes `autoSize` and the `Grid` layout the sidebar stores. |
| `PackerStore.MergeEmptyPatch` | src/store/usePackerStore.ts:96-100 | An empty patch changes nothing. |
| `PackerStore.MergeFullPatch` | src/store/usePackerStore.ts:96-100 | A patch that sets every field replaces the settings. A patch without `autoSize` leaves the current one. |
| `PackerStore.MergeIdempotent` | src/store/usePackerStore.ts:96-100 | Applying the same patch again changes nothing. |
| `PackerStore.MergeThen` | src/store/usePackerStore.ts:96-100 | Two updates in a row are one update with the combined patch, the later one winning. |
| `PackerStore.RemoveById` | src/store/usePackerStore.ts:74-78 | No image with the id is left. |
| `PackerStore.RemoveContents` | src/store/usePackerStore.ts:76 | The kept images are exactly the images with another id. |
| `PackerStore.RemoveAppend` | src/store/usePackerStore.ts:76 | Removing distributes over concatenation, so the kept images stay in their order. |
| `PackerStore.RemoveAbsent` | src/store/usePackerStore.ts:76 | An id no image carries removes nothing. |
| `PackerStore.RemoveUnique` | src/store/usePackerStore.ts:74-78 | With unique ids, removing image `i`'s id removes that image alone. |
| `PackerStore.RemoveIdempotent` | src/store/usePackerStore.ts:74-78 | Removing twice is removing once. |
| `PackerStore.RemoveKeepsUniqueIds` | src/store/usePackerStore.ts:74-78 | Removing keeps unique ids unique. |
| `PackerStore.ToggleRotation` | src/store/usePackerStore.ts:88-94 | The length is the same. Each image keeps every field except `rotatable`, which flips exactly on images with the id. |
| `PackerStore.ToggleTwice` | src/store/usePackerStore.ts:88-94 | Toggling twice gives the list back. |
| `PackerStore.ToggleCommutes` | src/store/usePackerStore.ts:88-94 | Toggling two ids in either order gives the same list. |
| `PackerStore.ToggleKeepsUniqueIds` | src/store/usePackerStore.ts:88-94 | Toggling changes no id, so unique ids stay unique. |
| `PackerStore.AppendFreshKeepsUniqueIds` | src/store/usePackerStore.ts:59-71 | Appending an image with a fresh id keeps the ids unique. |
| `PackerStore.Store.constructor` | src/store/usePackerStore.ts:43-54 | The initial state has no images and no packed items, and the status is idle. The settings are 2048x2048, padding 2, no rotation, maxrects and no scale-to-fit. There is no error, URL or blob. |
| `PackerStore.Store.AddImage` | src/store/usePackerStore.ts:56-72 | Exactly one image is appended, rotatable, with the given id, file, size and URL. Nothing else changes. |
| `PackerStore.Store.RemoveImage` | src/store/usePackerStore.ts:74-78 | The list becomes `RemoveById` of the old list. Nothing else changes. |
| `PackerStore.Store.ReorderImages` | src/store/usePackerStore.ts:80-82 | The list is replaced wholesale. Nothing else changes. |
| `PackerStore.Store.ClearImages` | src/store/usePackerStore.ts:84-86 | The images and packed items are emptied, the atlas URL and blob cleared, and the status is idle. The settings and error message stay. |
| `PackerStore.Store.ToggleImageRotation` | src/store/usePackerStore.ts:88-94 | The list becomes `ToggleRotation` of the old list. Nothing else changes. |
| `PackerStore.Store.UpdateSettings` | src/store/usePackerStore.ts:96-100 | The settings become the merge of the old settings with the patch. Nothing else changes. |
| `PackerStore.Store.SetPackingStatus` | src/store/usePackerStore.ts:102-104 | The status is set and the error message overwritten; no error clears it. Nothing else changes. |
| `PackerStore.Store.SetPackedResults` | src/store/usePackerStore.ts:106-108 | The packed items and atlas URL are set, and the status becomes success whatever it was. Nothing else changes. |
| `PackerStore.Store.SetAtlasBlob` | src/store/usePackerStore.ts:110-112 | The blob is set. Nothing else changes. |
| `PackerStore.ListOperationsKeepUniqueIds` | src/store/usePackerStore.ts:56-94 | Adding an image with a fresh id, toggling and then removing that id keep the ids unique and restore the list's length. |
| `PackerStore.AddImageScenario` | src/store/usePackerStore.test.ts:20-28 | A fresh store given one 100x100 image with id `test-id` holds exactly that image, rotatable. |
| `PackerStore.UpdateSettingsScenario` | src/store/usePackerStore.test.ts:30-36 | Setting width 512 and rotation on 1024x1024 settings keeps the height 1024. |
| `Sidebar.RemoveAt` | src/components/Sidebar.tsx:62 | `splice(i, 1)`: one element fewer, with the elements after `i` moved one place left. |
| `Sidebar.InsertAt` | src/components/Sidebar.tsx:63 | `splice(i, 0, x)`: one element more, with `x` at `i` and the elements from `i` moved one place right. |
| `Sidebar.Moved` | src/components/Sidebar.tsx:61-63 | The length is the same, and the dragged element is at the drop index. |
| `Sidebar.SpliceOut` | src/components/Sidebar.tsx:62 | In place on the array: the first `length - 1` slots hold the list without the element at `from`. |
| `Sidebar.SpliceIn` | src/components/Sidebar.tsx:63 | In place on the array: the slots hold the list with `x` inserted at `to`. |
| `Sidebar.SpliceMove` | src/components/Sidebar.tsx:61-63 | The two splices on a copy of the list give the moved list. |
| `Sidebar.HandleDrop` | src/components/Sidebar.tsx:57-67 | Nothing is reordered with no drag index, with a drop on the drag index, or with an index outside the list. Otherwise the store's list becomes the moved list. The list is always a permutation of the old one. |
| `Sidebar.SpliceStart` | src/components/Sidebar.tsx:62-63 | Where `splice` starts: an in-range start is kept, a start past the end becomes the length, and a negative start counts back from the end, down to 0. |
| `Sidebar.DropAsWritten` | src/components/Sidebar.tsx:57-65 | The list handed to the store as the code is written. It keeps the length when the clamped drag index is inside the list, and is one longer when it is at the end. |
| `Sidebar.DropAsWrittenInRange` | src/components/Sidebar.tsx:61-63 | With both indices inside the list, the code as written gives the moved list. |
| `Sidebar.StaleDragIndexInsertsUndefined` | src/components/Sidebar.tsx:58-63 | A drag index at or past the end makes the list one longer and puts `undefined` into it. |
| `Sidebar.StaleDropScenario` | src/components/Sidebar.tsx:50-66 | Drag image 1 of `[a, b]` onto itself, remove `b`, then drop from outside onto image 0. The store receives `[undefined, a]`. |
| `Sidebar.MovedIsPermutation` | src/components/Sidebar.tsx:61-63 | The move returns a permutation: the same elements, as many times each. |
| `Sidebar.MovedKeepsOthersInOrder` | src/components/Sidebar.tsx:61-63 | Without the dragged element, the moved list equals the original without it, so the others keep their relative order. |
| `Sidebar.MovedBack` | src/components/Sidebar.tsx:61-63 | Dragging the element back from the drop index to the drag index restores the list. |
| `Sidebar.MovedInPlace` | src/components/Sidebar.tsx:59 | A move onto its own index would be the identity, so the guard only skips a no-op update. |
| `Sidebar.ExtensionDotFrom` | src/components/Sidebar.tsx:43 | The backward search returns a position where the pattern `\.[^/.]+$` matches, or `None` when it matches nowhere. |
| `Sidebar.StripExtension` | src/components/Sidebar.tsx:43 | When the pattern matches, the result is the name up to the matching `.`. Otherwise the name is unchanged. |
| `Sidebar.ExtensionAtUnique` | src/components/Sidebar.tsx:43 | The pattern can match at one position only. |
| `Sidebar.StripAddedExtension` | src/components/Sidebar.tsx:43 | Stripping `base.ext` gives `base` when `ext` is non-empty and has no `.` or `/`. |
| `Sidebar.StripLastExtensionOnly` | src/components/Sidebar.tsx:43 | `a.tar.gz` becomes `a.tar`. `dir.v2/readme` and `name.` are unchanged. |
| `Sidebar.NameMap` | src/components/Sidebar.tsx:40-44 | No images give the empty map, and the last image's id is always a key. `NameMapOfLast` and `NameMapKeys` pin down the rest. |
| `Sidebar.BuildNameMap` | src/components/Sidebar.tsx:40-44 | The `forEach` loop builds the map assigning each image's stripped file name under its id, in list order. |
| `Sidebar.NameMapOfLast` | src/components/Sidebar.tsx:41-44 | Under an id, the map holds the stripped name of the last image with that id. |
| `Sidebar.NameMapKeys` | src/components/Sidebar.tsx:41-44 | The keys of the map are exactly the image ids. |
| `Sidebar.ExportedFrameName` | src/components/Sidebar.tsx:43 | With unique ids, an image's exported frame name is its file name without extension, or `sprite_<id>` when that is empty. |
| `Sidebar.DotFileFallsBackToSpriteId` | src/components/Sidebar.tsx:43 | A file named `.png` has an empty base name and is exported as `sprite_<id>`. |
| `Sidebar.HandleDownload` | src/components/Sidebar.tsx:36-47 | Without an atlas blob, nothing happens. Otherwise the download's data file is specified for the packed items, the settings' size and the name map of the images. |
| `Sidebar.DisplayedPadding` | src/components/Sidebar.tsx:245 | The shown value of a side is the padding's side, or 0 when the image has no padding. |
| `Sidebar.PaddingInput` | src/components/Sidebar.tsx:247 | Typed text that is no number gives 0, a negative number gives 0, and any other number is kept. |
| `Sidebar.WithSide` | src/components/Sidebar.tsx:248-250 | The edited side gets the value. The other three sides keep their shown values: the current ones, or zeros for absent padding. |
| `Sidebar.EditPadding` | src/components/Sidebar.tsx:246-251 | The edited side holds `PaddingInput(text)`, so it is never negative. The other sides keep their shown values. |
| `Sidebar.PaddingInputOfNumber` | src/components/Sidebar.tsx:247 | Typing the text of an integer stores it if it is non-negative, and 0 otherwise. |
| `Sidebar.PaddingInputOfText` | src/components/Sidebar.tsx:247 | Text `parseInt` cannot read stores 0. |
| `Sidebar.WithSideUnchanged` | src/components/Sidebar.tsx:248-250 | Writing the value a side already has changes nothing. |
| `Sidebar.WithSideTwice` | src/components/Sidebar.tsx:248-250 | Of two edits of one side, the later wins. |
| `Sidebar.WithSideCommutes` | src/components/Sidebar.tsx:248-250 | Edits of two different sides commute. |
| `Sidebar.EditWithoutPadding` | src/components/Sidebar.tsx:248 | Editing an image without padding leaves the other three sides at 0. |

## Left out

- The MaxRects library is not part of this model (src/workers/packingLogic.ts:1,37): its placement, bin creation and rotation decisions. `PerformPacking` takes it as a function parameter from options and inputs to bins. Nothing is claimed about overlap or containment of its placements.
- Fields that are carried but never read: the request's layouts (vertical, horizontal, grid), `scaleToFit`, `autoSize`, and per-image `padding` and `rotatable`. The model carries them and gives them no behaviour. The store's settings hold `autoSize` (absent at first) and the `Grid` layout, which the sidebar stores through `updateSettings`. The forwarding of the store's settings to the worker (src/hooks/useWorker.ts) is not part of this model.
- Worker messaging and error wrapping (src/workers/PackerWorker.ts, src/hooks/useWorker.ts) are transport glue and are not part of this model.
- `downloadZip`'s zip archive, `saveAs` call and thrown error for a missing blob are file I/O. `GenerateDataFile` returns the data file that goes beside `atlas.png`.
- `JSON.stringify` formatting: the JSON exporters produce structured values.
- The browser calls in `addImage` (`createImageBitmap`, `crypto.randomUUID`, `URL.createObjectURL`) and the async wait. Their results are the parameters of `Store.AddImage`.
- React rendering, `handleFileChange`, `handleProcess`, the drag events and the `window.draggedItemIndex` global. The drag index is a parameter of `HandleDrop`. Its reset to `undefined` after a successful drop, and the missing reset on the early return, are not modelled as state.
- Sidebar.HandleDrop: ignores a drag index outside the list. The code as written inserts `undefined` there (see Findings; `DropAsWritten` models it with JavaScript's `splice` clamping). The global drag index is a parameter, so how it goes stale is described in `StaleDropScenario` rather than tracked as state.
- `updateImage` is called by the padding editor but does not exist in the store, so the model has no store action for it. `EditPadding` models only the new padding record. The store's image type has no `padding` field.
- The Unreal exporter is not part of this model. Its name and extension are parameters of `Registered`, and `DataFileFor` gives no file for it.
- Numbers are integers: there is no NaN, infinity, fraction or precision loss. The settings edits through `Number(...)` are therefore not modelled. `Js.ParseInt` returns `None` where JavaScript returns NaN.
- PackerStore.MergeSettings: a patch key that is present with the value `undefined` overwrites the setting under the spread. An `Option` field cannot express it, so `None` always means an absent key. No caller passes such a key.
- Download.SelectExporter: for an empty exporter list the model gives `None`. There, the source's `exporters[0]` is `undefined` and the following `.export` call throws a TypeError. The registered list is never empty.
- CssExporter.Sanitize: works on characters, whereas JavaScript strings are UTF-16 code units. A character outside the Basic Multilingual Plane becomes one `-` here, where the regex replaces each of its two code units. Other string operations (`FrameName`, `StripExtension`) share this character-level view.

## Findings

| source | as written | input that shows it | evidently intended | confidence | as-written member | corrected member |
|---|---|---|---|---|---|---|
| src/components/Sidebar.tsx:58-66 | The early return on `dragIndex === dropIndex` leaves the global drag index set. A later drop that did not start from a row drag reads it. When it is past the end, `splice(dragIndex, 1)` removes nothing and `undefined` is inserted. | Images `[a, b]`: drag `b` onto itself, remove `b`, then drop from outside the list onto `a`. The store receives `[undefined, a]`. | A drop only moves an item of the list, so the list stays a permutation of itself. | medium, not executed | `Sidebar.StaleDragIndexInsertsUndefined` | `Sidebar.HandleDrop` |

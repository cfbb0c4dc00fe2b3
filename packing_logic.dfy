/**
 * `performPacking`: the wrapper around the external MaxRects packing
 * library. The wrapper pre-rotates images that only fit the bin turned by a
 * quarter, hands them to the library, and flattens the library's bins into
 * one list of packed rectangles. The library's own placement is not part of
 * this model: it is a function parameter, and every statement below holds
 * whatever bins it returns.
 */
module PackingLogic {
  import opened Js
  import opened WorkerTypes

  /** The record attached to every rectangle handed to the library: the
      image's id, file and ORIGINAL (unswapped) size. */
  datatype RectData = RectData(id: string, file: File, width: int, height: int)

  /** A rectangle handed to the library, possibly pre-rotated. */
  datatype PackerInput = PackerInput(width: int, height: int, data: RectData, allowRotation: bool)

  /** A rectangle as the library reports it inside one of its bins; `rot`
      says that the library itself turned it. */
  datatype PlacedRect = PlacedRect(x: int, y: int, width: int, height: int, rot: bool, data: RectData)

  type Bin = seq<PlacedRect>

  /** The options the library is constructed with. */
  datatype PackerOptions = PackerOptions(
    maxWidth: int,
    maxHeight: int,
    padding: int,
    smart: bool,
    pot: bool,
    square: bool,
    allowRotation: bool,
    tag: bool,
    border: int)

  /** The packing library: options and inputs to bins of placed rectangles. */
  type Packer = (PackerOptions, seq<PackerInput>) -> seq<Bin>

  function OptionsFor(req: PackRequest): (o: PackerOptions)
    ensures o.maxWidth == req.width && o.maxHeight == req.height && o.padding == req.padding
    ensures o.allowRotation == req.allowRotation
    ensures !o.smart && !o.pot && !o.square && !o.tag && o.border == 0
  {
    PackerOptions(req.width, req.height, req.padding, false, false, false, req.allowRotation, false, 0)
  }

  predicate Fits(w: int, h: int, binWidth: int, binHeight: int) {
    w <= binWidth && h <= binHeight
  }

  /** The size handed to the library for a `w` x `h` image: swapped only when
      rotation is allowed and the image does not fit the bin as given but
      does fit it swapped. */
  function PreRotate(w: int, h: int, binWidth: int, binHeight: int, allowRotation: bool): (r: (int, int))
    ensures r == (w, h) || r == (h, w)
    ensures r.0 * r.1 == w * h
  {
    if allowRotation && (w > binWidth || h > binHeight) && (h <= binWidth && w <= binHeight) then (h, w)
    else (w, h)
  }

  /** The inputs handed to the library, one per request image, in order. */
  function Inputs(req: PackRequest): (inputs: seq<PackerInput>)
    ensures |inputs| == |req.images|
    ensures forall i :: 0 <= i < |inputs| ==>
      var img := req.images[i];
      && inputs[i].data == RectData(img.id, img.file, img.width, img.height)
      && (inputs[i].width, inputs[i].height) == PreRotate(img.width, img.height, req.width, req.height, req.allowRotation)
      && inputs[i].allowRotation == req.allowRotation
  {
    seq(|req.images|, i requires 0 <= i < |req.images| =>
      var img := req.images[i];
      var size := PreRotate(img.width, img.height, req.width, req.height, req.allowRotation);
      PackerInput(size.0, size.1, RectData(img.id, img.file, img.width, img.height), req.allowRotation))
  }

  /** A library rectangle is reported rotated when the library turned it or
      when its width is not the image's original width. */
  function RectOf(p: PlacedRect): (r: Rect)
    ensures r.id == p.data.id && r.file == Some(p.data.file) && r.padding == None
    ensures r.x == p.x && r.y == p.y && r.width == p.width && r.height == p.height
    ensures p.rot ==> r.rotated
    ensures !p.rot ==> (r.rotated <==> p.width != p.data.width)
  {
    Rect(p.data.id, p.width, p.height, p.x, p.y, p.rot || p.width != p.data.width, None, Some(p.data.file))
  }

  function BinRects(bin: Bin): (rects: seq<Rect>)
    ensures |rects| == |bin|
    ensures forall j :: 0 <= j < |bin| ==> rects[j] == RectOf(bin[j])
  {
    seq(|bin|, j requires 0 <= j < |bin| => RectOf(bin[j]))
  }

  /** Number of rectangles in all the bins. */
  function RectCount(bins: seq<Bin>): nat {
    if bins == [] then 0 else RectCount(bins[..|bins| - 1]) + |bins[|bins| - 1]|
  }

  /** The rectangles of all bins, bin after bin. */
  function Flattened(bins: seq<Bin>): (packed: seq<Rect>)
    ensures |packed| == RectCount(bins)
  {
    if bins == [] then [] else Flattened(bins[..|bins| - 1]) + BinRects(bins[|bins| - 1])
  }

  /** `performPacking(req)` with the library's answer to the inputs of `req`. */
  method PerformPacking(req: PackRequest, library: Packer) returns (res: PackResult)
    ensures res.id == req.id && res.success && res.unpacked == []
    ensures res.width == req.width && res.height == req.height && res.error == None
    ensures res.packed == Flattened(library(OptionsFor(req), Inputs(req)))
  {
    var bins := library(OptionsFor(req), Inputs(req));
    var packed: seq<Rect> := [];
    var b := 0;
    while b < |bins|
      invariant 0 <= b <= |bins|
      invariant packed == Flattened(bins[..b])
    {
      var bin := bins[b];
      var k := 0;
      while k < |bin|
        invariant 0 <= k <= |bin|
        invariant packed == Flattened(bins[..b]) + BinRects(bin[..k])
      {
        var r := bin[k];
        var originalWidth := r.data.width;
        var isRotated := r.rot || r.width != originalWidth;
        packed := packed + [Rect(r.data.id, r.width, r.height, r.x, r.y, isRotated, None, Some(r.data.file))];
        assert BinRects(bin[..k + 1]) == BinRects(bin[..k]) + [RectOf(bin[k])];
        k := k + 1;
      }
      assert bin[..k] == bin;
      assert bins[..b + 1][..b] == bins[..b];
      b := b + 1;
    }
    assert bins[..b] == bins;
    res := PackResult(req.id, true, packed, [], req.width, req.height, None);
  }

  // ---------------------------------------------------------------------
  // Pre-rotation

  /** With rotation disabled every image keeps its size. */
  lemma NoRotationKeepsSize(req: PackRequest, i: int)
    requires !req.allowRotation && 0 <= i < |req.images|
    ensures Inputs(req)[i].width == req.images[i].width
    ensures Inputs(req)[i].height == req.images[i].height
  {
  }

  /** The size changes exactly when rotation is allowed, the image does not
      fit as given, fits swapped, and is not square. */
  lemma SwapCondition(w: int, h: int, binWidth: int, binHeight: int, allowRotation: bool)
    ensures (PreRotate(w, h, binWidth, binHeight, allowRotation) != (w, h))
        <==> allowRotation && !Fits(w, h, binWidth, binHeight) && Fits(h, w, binWidth, binHeight) && w != h
  {
  }

  /** The size handed to the library fits the bin exactly when the image
      fits as given, or (rotation allowed) fits swapped. */
  lemma PreRotateFits(w: int, h: int, binWidth: int, binHeight: int, allowRotation: bool)
    ensures var r := PreRotate(w, h, binWidth, binHeight, allowRotation);
      (Fits(r.0, r.1, binWidth, binHeight)
       <==> Fits(w, h, binWidth, binHeight) || (allowRotation && Fits(h, w, binWidth, binHeight)))
  {
  }

  /** Pre-rotating a pre-rotated size changes nothing. */
  lemma PreRotateIdempotent(w: int, h: int, binWidth: int, binHeight: int, allowRotation: bool)
    ensures var r := PreRotate(w, h, binWidth, binHeight, allowRotation);
      PreRotate(r.0, r.1, binWidth, binHeight, allowRotation) == r
  {
  }

  /** The library receives the original size or the swapped one, never another. */
  lemma InputIsOrientationOfOriginal(req: PackRequest, i: int)
    requires 0 <= i < |req.images|
    ensures var input := Inputs(req)[i];
      && input.data.id == req.images[i].id
      && ((input.width, input.height) == (input.data.width, input.data.height)
          || (input.width, input.height) == (input.data.height, input.data.width))
      && input.width * input.height == input.data.width * input.data.height
  {
  }

  // ---------------------------------------------------------------------
  // Rotation flag

  /** When the library places an input unturned and at the size it was
      given, the rectangle is reported rotated exactly when the wrapper
      pre-rotated it. */
  lemma RotatedIffPreRotated(req: PackRequest, i: int, p: PlacedRect)
    requires 0 <= i < |req.images|
    requires p.data == Inputs(req)[i].data && !p.rot && p.width == Inputs(req)[i].width
    ensures var img := req.images[i];
      (RectOf(p).rotated <==> PreRotate(img.width, img.height, req.width, req.height, req.allowRotation) != (img.width, img.height))
  {
    var img := req.images[i];
    var r := PreRotate(img.width, img.height, req.width, req.height, req.allowRotation);
    if r != (img.width, img.height) {
      assert r == (img.height, img.width) && img.height != img.width;
    }
  }

  // ---------------------------------------------------------------------
  // Flattening

  lemma {:induction false} FlattenedAppend(a: seq<Bin>, b: seq<Bin>)
    ensures Flattened(a + b) == Flattened(a) + Flattened(b)
    decreases |b|
  {
    if b == [] {
      assert a + b == a;
    } else {
      var n := |b| - 1;
      var ab := a + b;
      assert ab[..|ab| - 1] == a + b[..n];
      assert ab[|ab| - 1] == b[n];
      assert b[..n] == b[..|b| - 1];
      FlattenedAppend(a, b[..n]);
      calc {
        Flattened(ab);
        Flattened(a + b[..n]) + BinRects(b[n]);
        (Flattened(a) + Flattened(b[..n])) + BinRects(b[n]);
        Flattened(a) + (Flattened(b[..n]) + BinRects(b[n]));
        Flattened(a) + Flattened(b);
      }
    }
  }

  /** Rectangle `j` of bin `i` sits at position `RectCount(bins[..i]) + j` of
      the flattened list, copied field by field. */
  lemma {:induction false} FlattenedAt(bins: seq<Bin>, i: int, j: int)
    requires 0 <= i < |bins| && 0 <= j < |bins[i]|
    ensures RectCount(bins[..i]) + j < |Flattened(bins)|
    ensures var r := Flattened(bins)[RectCount(bins[..i]) + j];
      && r == RectOf(bins[i][j])
      && r.id == bins[i][j].data.id
      && r.x == bins[i][j].x && r.y == bins[i][j].y
      && r.width == bins[i][j].width && r.height == bins[i][j].height
    decreases |bins|
  {
    var n := |bins| - 1;
    var init := bins[..n];
    if i == n {
      assert bins[..i] == init;
    } else {
      assert init[..i] == bins[..i];
      FlattenedAt(init, i, j);
    }
  }

  // ---------------------------------------------------------------------
  // Scenarios of the packing tests

  /** The request of the packing tests: one 90x60 image with id `1` in a
      bin of the given size, with rotation allowed and no padding. */
  function TestRequest(id: string, binWidth: int, binHeight: int, file: File): PackRequest {
    PackRequest(id, [RequestImage("1", 90, 60, file, None, None)], binWidth, binHeight, 0, true, MaxRects, None, None)
  }

  /** The two rotation tests, end to end. In a 60x100 bin the image is
      handed over as 60x90; when the library returns one bin holding it as
      given, the single packed rectangle is reported rotated. In a 100x60 bin
      it is handed over as 90x60 and, placed as given, reported unrotated. */
  lemma RotationScenarios(file: File, p: PlacedRect, q: PlacedRect)
    requires p.data == Inputs(TestRequest("test-rot-2", 60, 100, file))[0].data
    requires !p.rot && p.width == Inputs(TestRequest("test-rot-2", 60, 100, file))[0].width
    requires q.data == Inputs(TestRequest("test-nrot", 100, 60, file))[0].data
    requires !q.rot && q.width == Inputs(TestRequest("test-nrot", 100, 60, file))[0].width
    ensures var input := Inputs(TestRequest("test-rot-2", 60, 100, file))[0];
      input.width == 60 && input.height == 90
    ensures var input := Inputs(TestRequest("test-nrot", 100, 60, file))[0];
      input.width == 90 && input.height == 60
    ensures |Flattened([[p]])| == 1 && Flattened([[p]])[0].rotated
    ensures |Flattened([[q]])| == 1 && !Flattened([[q]])[0].rotated
  {
    assert Flattened([[p]]) == BinRects([p]);
    assert Flattened([[q]]) == BinRects([q]);
  }
}

/** `render_layered`: transform every layer, size a canvas that fits all of
    them around its centre, copy the first layer onto it and blend the
    others over it in order. */
module Layering {
  import opened Common
  import opened Images
  import opened Transforms

  /** Layer `i` after its transform. The colour, scale and rotation lists are
      indexed first, so a list shorter than the images panics. */
  function TransformLayer(images: seq<Image>, colors: seq<Color>, scales: seq<Option<(real, real)>>,
                          rotations: seq<Option<i32>>, i: nat, sample: Sampler): Result<Image>
    requires i < |images|
  {
    if i >= |colors| || i >= |scales| || i >= |rotations| then Panic(IndexOutOfBounds)
    else Transformed(images[i], Some(colors[i]), scales[i], rotations[i], sample)
  }

  /** Every layer's own transform, in order. */
  function LayerResults(images: seq<Image>, colors: seq<Color>, scales: seq<Option<(real, real)>>,
                        rotations: seq<Option<i32>>, sample: Sampler): (r: seq<Result<Image>>)
    ensures |r| == |images|
  {
    seq(|images|, i requires 0 <= i < |images| => TransformLayer(images, colors, scales, rotations, i, sample))
  }

  /** The first `n` results collected in order, or the panic of the first
      one that failed: `map(..).collect()` over a panicking closure. */
  function Collected(results: seq<Result<Image>>, n: nat): (r: Result<seq<Image>>)
    requires n <= |results|
    ensures r.Ok? ==> |r.value| == n
  {
    if n == 0 then Ok([])
    else
      var done :- Collected(results, n - 1);
      var last :- results[n - 1];
      Ok(done + [last])
  }

  /** The first `n` layers transformed in order, or the panic of the first
      one that fails. */
  function TransformPrefix(images: seq<Image>, colors: seq<Color>, scales: seq<Option<(real, real)>>,
                           rotations: seq<Option<i32>>, n: nat, sample: Sampler): (r: Result<seq<Image>>)
    requires n <= |images|
    ensures r.Ok? ==> |r.value| == n
  {
    Collected(LayerResults(images, colors, scales, rotations, sample), n)
  }

  /** Collecting succeeds exactly when every result does, and then holds
      each result's value at its own index; a failure is the failure of one
      of the results. */
  lemma {:induction false} CollectedSpec(results: seq<Result<Image>>, n: nat)
    requires n <= |results|
    ensures Collected(results, n).Ok? <==> forall i | 0 <= i < n :: results[i].Ok?
    ensures Collected(results, n).Ok? ==> forall i | 0 <= i < n :: Collected(results, n).value[i] == results[i].value
    ensures Collected(results, n).Panic? ==> exists i | 0 <= i < n :: results[i] == Panic(Collected(results, n).reason)
  {
    if n > 0 {
      CollectedSpec(results, n - 1);
      var done := Collected(results, n - 1);
      if done.Panic? {
        assert Collected(results, n) == Panic(done.reason);
      } else if results[n - 1].Panic? {
        assert Collected(results, n) == Panic(results[n - 1].reason);
      } else {
        var all := done.value + [results[n - 1].value];
        assert Collected(results, n) == Ok(all);
        assert forall i | 0 <= i < n - 1 :: all[i] == done.value[i];
      }
    }
  }

  /** Once collecting panics, collecting more panics the same way. */
  lemma {:induction false} CollectedPanicPersists(results: seq<Result<Image>>, n: nat, m: nat)
    requires n <= m <= |results|
    requires Collected(results, n).Panic?
    ensures Collected(results, m) == Collected(results, n)
    decreases m
  {
    if n < m {
      CollectedPanicPersists(results, n, m - 1);
    }
  }

  /** The prefix succeeds exactly when every layer in it does, and then holds
      each layer's own transform at its own index. */
  lemma TransformPrefixSpec(images: seq<Image>, colors: seq<Color>, scales: seq<Option<(real, real)>>,
                            rotations: seq<Option<i32>>, n: nat, sample: Sampler)
    requires n <= |images|
    ensures TransformPrefix(images, colors, scales, rotations, n, sample).Ok? <==>
              forall i | 0 <= i < n :: TransformLayer(images, colors, scales, rotations, i, sample).Ok?
    ensures TransformPrefix(images, colors, scales, rotations, n, sample).Ok? ==>
              forall i | 0 <= i < n :: TransformPrefix(images, colors, scales, rotations, n, sample).value[i]
                                       == TransformLayer(images, colors, scales, rotations, i, sample).value
  {
    var results := LayerResults(images, colors, scales, rotations, sample);
    CollectedSpec(results, n);
    assert forall i | 0 <= i < n :: results[i] == TransformLayer(images, colors, scales, rotations, i, sample);
  }

  /** Once a prefix panics, every longer prefix panics the same way. */
  lemma TransformPanicPersists(images: seq<Image>, colors: seq<Color>, scales: seq<Option<(real, real)>>,
                               rotations: seq<Option<i32>>, n: nat, m: nat, sample: Sampler)
    requires n <= m <= |images|
    requires TransformPrefix(images, colors, scales, rotations, n, sample).Panic?
    ensures TransformPrefix(images, colors, scales, rotations, m, sample)
            == TransformPrefix(images, colors, scales, rotations, n, sample)
  {
    CollectedPanicPersists(LayerResults(images, colors, scales, rotations, sample), n, m);
  }

  /** `positions[i].unwrap_or((0.0, 0.0))` for every image index. */
  function DefaultPositions(positions: seq<Option<(real, real)>>, n: nat): (r: Result<seq<(real, real)>>)
    ensures r.Ok? <==> n <= |positions|
    ensures r.Panic? ==> r.reason == IndexOutOfBounds
    ensures r.Ok? ==> |r.value| == n
    ensures r.Ok? ==> forall i | 0 <= i < n ::
              r.value[i] == (if positions[i].Some? then positions[i].value else (0.0, 0.0))
  {
    if |positions| < n then Panic(IndexOutOfBounds)
    else Ok(seq(n, i requires 0 <= i < n => if positions[i].Some? then positions[i].value else (0.0, 0.0)))
  }

  /** `positions.get(i).cloned().unwrap_or((0.0, 0.0))`. */
  function PositionAt(positions: seq<(real, real)>, i: nat): (real, real) {
    if i < |positions| then positions[i] else (0.0, 0.0)
  }

  /** The canvas side a layer needs: its own side plus twice the distance of
      its centre from the canvas centre, as an `i32`. */
  function Extent(side: nat, offset: real): int {
    AsI32(side as real + Abs(offset) * 2.0)
  }

  /** The bounding-box fold over the first `n` layers, starting from (0, 0). */
  function BoundingBox(layers: seq<Image>, positions: seq<(real, real)>, n: nat): (r: (int, int))
    requires n <= |layers|
    ensures 0 <= r.0 && 0 <= r.1
  {
    if n == 0 then (0, 0)
    else
      var acc := BoundingBox(layers, positions, n - 1);
      var (x, y) := PositionAt(positions, n - 1);
      (Max(acc.0, Extent(layers[n - 1].width, x)), Max(acc.1, Extent(layers[n - 1].height, y)))
  }

  /** Each side of the box is the largest extent of any layer along it, or 0
      when there is no layer: no layer sticks out, and the box is no larger
      than the widest and the tallest layer need. The two sides are
      maximised independently. */
  lemma {:induction false} BoundingBoxIsMaximum(layers: seq<Image>, positions: seq<(real, real)>, n: nat)
    requires n <= |layers|
    ensures forall i | 0 <= i < n ::
              Extent(layers[i].width, PositionAt(positions, i).0) <= BoundingBox(layers, positions, n).0 &&
              Extent(layers[i].height, PositionAt(positions, i).1) <= BoundingBox(layers, positions, n).1
    ensures BoundingBox(layers, positions, n).0 == 0 ||
            exists i | 0 <= i < n :: BoundingBox(layers, positions, n).0 == Extent(layers[i].width, PositionAt(positions, i).0)
    ensures BoundingBox(layers, positions, n).1 == 0 ||
            exists i | 0 <= i < n :: BoundingBox(layers, positions, n).1 == Extent(layers[i].height, PositionAt(positions, i).1)
  {
    if n > 0 {
      BoundingBoxIsMaximum(layers, positions, n - 1);
    }
  }

  /** Where a layer's top-left corner goes along one axis:
      half the canvas, plus the offset, minus half the layer. */
  function Centred(canvasSide: int, offset: real, side: nat): real {
    canvasSide as real / 2.0 + offset - side as real / 2.0
  }

  /** The base layer's corner, cast to `u32`. */
  function BaseOffset(canvasSide: int, offset: real, side: nat): nat {
    AsU32(Centred(canvasSide, offset, side))
  }

  /** A stacked layer's corner, cast to `i64`. */
  function OverlayOffset(canvasSide: int, offset: real, side: nat): int {
    AsI64(Centred(canvasSide, offset, side))
  }

  /** The canvas after the base and layers 1 to n - 1 have been blended over
      it, in list order. */
  function Stacked(base: Image, layers: seq<Image>, positions: seq<(real, real)>, bw: int, bh: int,
                   n: nat, blend: Blender): (r: Image)
    requires 1 <= n <= |layers| && |layers| <= |positions|
    ensures SameSize(r, base)
  {
    if n == 1 then base
    else
      var layer := layers[n - 1];
      Overlaid(Stacked(base, layers, positions, bw, bh, n - 1, blend), layer,
               OverlayOffset(bw, positions[n - 1].0, layer.width),
               OverlayOffset(bh, positions[n - 1].1, layer.height), blend)
  }

  /** What `render_layered` returns. */
  function Layered(images: seq<Image>, positions: seq<Option<(real, real)>>, colors: seq<Color>,
                   scales: seq<Option<(real, real)>>, rotations: seq<Option<i32>>,
                   sample: Sampler, blend: Blender): Result<Image>
  {
    var transformed :- TransformPrefix(images, colors, scales, rotations, |images|, sample);
    var placed :- DefaultPositions(positions, |images|);
    var (bw, bh) := BoundingBox(transformed, placed, |transformed|);
    if |transformed| == 0 then Panic(NoImages)
    else
      var base := transformed[0];
      var x0 := BaseOffset(bw, placed[0].0, base.width);
      var y0 := BaseOffset(bh, placed[0].1, base.height);
      if bw < base.width + x0 || bh < base.height + y0 then Panic(CopyOutOfBounds)
      else Ok(Stacked(Pasted(Blank(bw, bh), base, x0, y0), transformed, placed, bw, bh, |transformed|, blend))
  }

  /** `copy_from(src, x, y)`: refuses a source that does not fit at (x, y),
      otherwise writes it over the canvas row by row. */
  method CopyFrom(canvas: array2<Pixel>, src: Image, x: nat, y: nat) returns (ok: bool)
    modifies canvas
    ensures ok <==> src.width + x <= canvas.Length1 && src.height + y <= canvas.Length0
    ensures Snapshot(canvas) == if ok then Pasted(old(Snapshot(canvas)), src, x, y) else old(Snapshot(canvas))
  {
    if canvas.Length1 < src.width + x || canvas.Length0 < src.height + y {
      return false;
    }
    ghost var before := Snapshot(canvas);
    for k := 0 to src.height
      invariant forall j, i | 0 <= j < canvas.Length0 && 0 <= i < canvas.Length1 ::
        canvas[j, i] == if y <= j < y + k && x <= i < x + src.width then src.rows[j - y][i - x] else before.rows[j][i]
    {
      CopyRow(canvas, src, x, y, k);
    }
    PastedAll(before, src, x, y, Snapshot(canvas));
    return true;
  }

  /** One row of `copy_from`: row `k` of `src` written at row `y + k`. */
  method CopyRow(canvas: array2<Pixel>, src: Image, x: nat, y: nat, k: nat)
    requires k < src.height && y + src.height <= canvas.Length0 && x + src.width <= canvas.Length1
    modifies canvas
    ensures forall j, i | 0 <= j < canvas.Length0 && 0 <= i < canvas.Length1 ::
      canvas[j, i] == if j == y + k && x <= i < x + src.width then src.rows[k][i - x] else old(canvas[j, i])
  {
    for l := 0 to src.width
      invariant forall j, i | 0 <= j < canvas.Length0 && 0 <= i < canvas.Length1 ::
        canvas[j, i] == if j == y + k && x <= i < x + l then src.rows[k][i - x] else old(canvas[j, i])
    {
      canvas[y + k, x + l] := src.rows[k][l];
    }
  }

  /** A canvas holding `src` at (x, y) and the old pixels elsewhere is
      `before` with `src` pasted there. */
  lemma PastedAll(before: Image, src: Image, x: nat, y: nat, after: Image)
    requires SameSize(after, before)
    requires forall j, i | 0 <= j < before.height && 0 <= i < before.width ::
               after.rows[j][i] == if Covers(src, x, y, j, i) then src.rows[j - y][i - x] else before.rows[j][i]
    ensures after == Pasted(before, src, x, y)
  {
    Extensional(after, Pasted(before, src, x, y));
  }

  /** `imageops::overlay(canvas, top, x, y)`: the part of `top` that falls on
      the canvas is clipped out and blended into it pixel by pixel. */
  method Overlay(canvas: array2<Pixel>, top: Image, x: int, y: int, blend: Blender)
    modifies canvas
    ensures Snapshot(canvas) == Overlaid(old(Snapshot(canvas)), top, x, y, blend)
  {
    ghost var before := Snapshot(canvas);
    if x > canvas.Length1 || y > canvas.Length0 || x + top.width <= 0 || y + top.height <= 0 {
      OverlaidClipped(before, top, x, y, blend, 0, 0, 0, 0, before);
      return;
    }
    var originX := if x < 0 then 0 else x;
    var originY := if y < 0 then 0 else y;
    var endX := if x + top.width < canvas.Length1 then x + top.width else canvas.Length1;
    var endY := if y + top.height < canvas.Length0 then y + top.height else canvas.Length0;
    for j := originY to endY
      invariant forall j', i | 0 <= j' < canvas.Length0 && 0 <= i < canvas.Length1 ::
        canvas[j', i] == if originY <= j' < j && originX <= i < endX
                         then blend(before.rows[j'][i], top.rows[j' - y][i - x]) else before.rows[j'][i]
    {
      BlendRow(canvas, top, x, y, j, originX, endX, blend);
    }
    OverlaidClipped(before, top, x, y, blend, originX, endX, originY, endY, Snapshot(canvas));
  }

  /** One row of the overlay loop: columns `x0..x1` of row `j` blended. */
  method BlendRow(canvas: array2<Pixel>, top: Image, x: int, y: int, j: nat, x0: nat, x1: nat, blend: Blender)
    requires j < canvas.Length0 && x0 <= x1 <= canvas.Length1
    requires y <= j < y + top.height && x <= x0 && x1 <= x + top.width
    modifies canvas
    ensures forall j', i | 0 <= j' < canvas.Length0 && 0 <= i < canvas.Length1 ::
      canvas[j', i] == if j' == j && x0 <= i < x1 then blend(old(canvas[j', i]), top.rows[j - y][i - x]) else old(canvas[j', i])
  {
    for i := x0 to x1
      invariant forall j', i' | 0 <= j' < canvas.Length0 && 0 <= i' < canvas.Length1 ::
        canvas[j', i'] == if j' == j && x0 <= i' < i then blend(old(canvas[j', i']), top.rows[j - y][i' - x]) else old(canvas[j', i'])
    {
      canvas[j, i] := blend(canvas[j, i], top.rows[j - y][i - x]);
    }
  }

  /** Row j, column i lies in rows `y0..y1` and columns `x0..x1`. */
  predicate InBox(j: int, i: int, y0: int, y1: int, x0: int, x1: int) {
    y0 <= j < y1 && x0 <= i < x1
  }

  /** The canvas after blending exactly the region where `top` overlaps it is
      the overlay of `top` at (x, y). */
  lemma OverlaidClipped(before: Image, top: Image, x: int, y: int, blend: Blender,
                        x0: int, x1: int, y0: int, y1: int, after: Image)
    requires SameSize(after, before)
    requires forall j, i | 0 <= j < before.height && 0 <= i < before.width ::
               InBox(j, i, y0, y1, x0, x1) <==> Covers(top, x, y, j, i)
    requires forall j, i | 0 <= j < before.height && 0 <= i < before.width ::
               after.rows[j][i] == if InBox(j, i, y0, y1, x0, x1) && Covers(top, x, y, j, i)
                                   then blend(before.rows[j][i], top.rows[j - y][i - x]) else before.rows[j][i]
    ensures after == Overlaid(before, top, x, y, blend)
  {
    Extensional(after, Overlaid(before, top, x, y, blend));
  }

  /** The `transformed` list of `render_layered`, built layer by layer. */
  method TransformLayers(images: seq<Image>, colors: seq<Color>, scales: seq<Option<(real, real)>>,
                         rotations: seq<Option<i32>>, sample: Sampler) returns (r: Result<seq<Image>>)
    ensures r == TransformPrefix(images, colors, scales, rotations, |images|, sample)
  {
    var transformed: seq<Image> := [];
    for i := 0 to |images|
      invariant TransformPrefix(images, colors, scales, rotations, i, sample) == Ok(transformed)
    {
      var next := TransformNext(images, colors, scales, rotations, i, transformed, sample);
      if next.Panic? {
        TransformPanicPersists(images, colors, scales, rotations, i + 1, |images|, sample);
        return next;
      }
      transformed := next.value;
    }
    return Ok(transformed);
  }

  /** One step of the `transformed` list: layer `i` transformed and appended. */
  method TransformNext(images: seq<Image>, colors: seq<Color>, scales: seq<Option<(real, real)>>,
                       rotations: seq<Option<i32>>, i: nat, transformed: seq<Image>, sample: Sampler)
    returns (r: Result<seq<Image>>)
    requires i < |images|
    requires TransformPrefix(images, colors, scales, rotations, i, sample) == Ok(transformed)
    ensures r == TransformPrefix(images, colors, scales, rotations, i + 1, sample)
  {
    if i >= |colors| || i >= |scales| || i >= |rotations| {
      return Panic(IndexOutOfBounds);
    }
    var t := Transform(images[i], Some(colors[i]), scales[i], rotations[i], sample);
    if t.Panic? {
      return Panic(t.reason);
    }
    return Ok(transformed + [t.value]);
  }

  /** The stacking loop of `render_layered`: layers 1 to the last are
      blended over the canvas in list order, each at its centred corner. */
  method StackLayers(canvas: array2<Pixel>, layers: seq<Image>, placed: seq<(real, real)>,
                     bw: int, bh: int, blend: Blender)
    requires 1 <= |layers| <= |placed|
    modifies canvas
    ensures Snapshot(canvas) == Stacked(old(Snapshot(canvas)), layers, placed, bw, bh, |layers|, blend)
  {
    ghost var start := Snapshot(canvas);
    for i := 1 to |layers|
      invariant Snapshot(canvas) == Stacked(start, layers, placed, bw, bh, i, blend)
    {
      var image := layers[i];
      var x := OverlayOffset(bw, placed[i].0, image.width);
      var y := OverlayOffset(bh, placed[i].1, image.height);
      Overlay(canvas, image, x, y, blend);
    }
  }

  /** `render_layered`: the layers are transformed one after another, then
      the canvas is allocated, the base copied in and the rest stacked. */
  method RenderLayered(images: seq<Image>, positions: seq<Option<(real, real)>>, colors: seq<Color>,
                       scales: seq<Option<(real, real)>>, rotations: seq<Option<i32>>,
                       sample: Sampler, blend: Blender) returns (r: Result<Image>)
    ensures r == Layered(images, positions, colors, scales, rotations, sample, blend)
  {
    var transformed :- TransformLayers(images, colors, scales, rotations, sample);
    var placed :- DefaultPositions(positions, |images|);
    var (bw, bh) := BoundingBox(transformed, placed, |transformed|);
    var canvas := new Pixel[bh, bw]((_, _) => Transparent);
    SnapshotIs(canvas, Blank(bw, bh));
    if |transformed| == 0 {
      return Panic(NoImages);
    }
    var base := transformed[0];
    var x0 := BaseOffset(bw, placed[0].0, base.width);
    var y0 := BaseOffset(bh, placed[0].1, base.height);
    var copied := CopyFrom(canvas, base, x0, y0);
    if !copied {
      return Panic(CopyOutOfBounds);
    }
    StackLayers(canvas, transformed, placed, bw, bh, blend);
    return Ok(Snapshot(canvas));
  }

  /** `render_layered` panics for want of a base layer exactly when it is
      given no images. */
  lemma LayeredNoImages(images: seq<Image>, positions: seq<Option<(real, real)>>, colors: seq<Color>,
                        scales: seq<Option<(real, real)>>, rotations: seq<Option<i32>>,
                        sample: Sampler, blend: Blender)
    ensures Layered(images, positions, colors, scales, rotations, sample, blend) == Panic(NoImages) <==> |images| == 0
  {
    var t := TransformPrefix(images, colors, scales, rotations, |images|, sample);
    if |images| > 0 && t.Panic? {
      TransformPrefixSpec(images, colors, scales, rotations, |images|, sample);
      var i :| 0 <= i < |images| && TransformLayer(images, colors, scales, rotations, i, sample).Panic?;
      TransformLayerReasons(images, colors, scales, rotations, i, sample);
      assert TransformPrefix(images, colors, scales, rotations, |images|, sample).reason != NoImages by {
        TransformPrefixReasons(images, colors, scales, rotations, |images|, sample);
      }
    }
  }

  /** A single layer fails only on a short list or a bad angle. */
  lemma TransformLayerReasons(images: seq<Image>, colors: seq<Color>, scales: seq<Option<(real, real)>>,
                              rotations: seq<Option<i32>>, i: nat, sample: Sampler)
    requires i < |images|
    ensures TransformLayer(images, colors, scales, rotations, i, sample).Panic? ==>
              TransformLayer(images, colors, scales, rotations, i, sample).reason.IndexOutOfBounds? ||
              TransformLayer(images, colors, scales, rotations, i, sample).reason.BadRotation?
  {
  }

  /** Transforming the layers fails only on a short list or a bad angle. */
  lemma TransformPrefixReasons(images: seq<Image>, colors: seq<Color>, scales: seq<Option<(real, real)>>,
                               rotations: seq<Option<i32>>, n: nat, sample: Sampler)
    requires n <= |images|
    ensures TransformPrefix(images, colors, scales, rotations, n, sample).Panic? ==>
              TransformPrefix(images, colors, scales, rotations, n, sample).reason.IndexOutOfBounds? ||
              TransformPrefix(images, colors, scales, rotations, n, sample).reason.BadRotation?
  {
    var results := LayerResults(images, colors, scales, rotations, sample);
    CollectedSpec(results, n);
    var r := TransformPrefix(images, colors, scales, rotations, n, sample);
    if r.Panic? {
      var i :| 0 <= i < n && results[i] == Panic(r.reason);
      assert results[i] == TransformLayer(images, colors, scales, rotations, i, sample);
      TransformLayerReasons(images, colors, scales, rotations, i, sample);
    }
  }

  /** A rendering that succeeds had every list at least as long as the
      images, a right angle (or none) for every rotation, and comes out the
      size of the bounding box of the transformed layers. */
  lemma LayeredSuccess(images: seq<Image>, positions: seq<Option<(real, real)>>, colors: seq<Color>,
                       scales: seq<Option<(real, real)>>, rotations: seq<Option<i32>>,
                       sample: Sampler, blend: Blender)
    requires Layered(images, positions, colors, scales, rotations, sample, blend).Ok?
    ensures 0 < |images| <= |positions| && |images| <= |colors| && |images| <= |scales| && |images| <= |rotations|
    ensures forall i | 0 <= i < |images| ::
              rotations[i].None? || rotations[i].value in {0, 90, 180, 270}
    ensures var t := TransformPrefix(images, colors, scales, rotations, |images|, sample).value;
            var p := DefaultPositions(positions, |images|).value;
            var r := Layered(images, positions, colors, scales, rotations, sample, blend).value;
            r.width == BoundingBox(t, p, |t|).0 && r.height == BoundingBox(t, p, |t|).1
  {
    TransformPrefixSpec(images, colors, scales, rotations, |images|, sample);
    forall i | 0 <= i < |images|
      ensures i < |colors| && i < |scales| && i < |rotations|
      ensures rotations[i].None? || rotations[i].value in {0, 90, 180, 270}
    {
      assert TransformLayer(images, colors, scales, rotations, i, sample).Ok?;
    }
  }

  /** With exact arithmetic the base layer always fits: a canvas side at
      least the base's extent leaves room for the base at its centred
      corner, provided that extent does not saturate the `i32` cast. */
  lemma BaseCopyFits(canvasSide: int, offset: real, side: nat)
    requires side as real + Abs(offset) * 2.0 <= I32_MAX as real
    requires Extent(side, offset) <= canvasSide
    ensures BaseOffset(canvasSide, offset, side) + side <= canvasSide
  {
    var e := side as real + Abs(offset) * 2.0;
    SaturatingCastCases(e, I32_MIN, I32_MAX);
    assert (canvasSide as real) > e - 1.0;
    var m := Centred(canvasSide, offset, side);
    SaturatingCastCases(m, 0, U32_MAX);
    if m < 0.0 {
      assert side as real <= e;
    } else {
      assert m < (canvasSide - side + 1) as real;
    }
  }

  /** So `render_layered` succeeds whenever the transforms and the position
      lookups do, there is a base layer and its extents fit an `i32`: the
      copy of the base cannot fail. */
  lemma LayeredBaseFits(images: seq<Image>, positions: seq<Option<(real, real)>>, colors: seq<Color>,
                        scales: seq<Option<(real, real)>>, rotations: seq<Option<i32>>,
                        sample: Sampler, blend: Blender)
    requires 0 < |images| <= |positions|
    requires TransformPrefix(images, colors, scales, rotations, |images|, sample).Ok?
    requires var base := TransformPrefix(images, colors, scales, rotations, |images|, sample).value[0];
             var p := DefaultPositions(positions, |images|).value[0];
             base.width as real + Abs(p.0) * 2.0 <= I32_MAX as real &&
             base.height as real + Abs(p.1) * 2.0 <= I32_MAX as real
    ensures Layered(images, positions, colors, scales, rotations, sample, blend).Ok?
  {
    var t := TransformPrefix(images, colors, scales, rotations, |images|, sample).value;
    var p := DefaultPositions(positions, |images|).value;
    BoundingBoxIsMaximum(t, p, |t|);
    var bb := BoundingBox(t, p, |t|);
    assert PositionAt(p, 0) == p[0];
    BaseCopyFits(bb.0, p[0].0, t[0].width);
    BaseCopyFits(bb.1, p[0].1, t[0].height);
  }

  /** A single untinted, unmoved, unscaled, unrotated layer renders as itself. */
  lemma LayeredSingle(img: Image, sample: Sampler, blend: Blender)
    requires img.width <= I32_MAX && img.height <= I32_MAX
    ensures Layered([img], [None], [White], [None], [None], sample, blend) == Ok(img)
  {
    TintWhiteIsIdentity(img);
    assert TransformLayer([img], [White], [None], [None], 0, sample) == Ok(img);
    assert TransformPrefix([img], [White], [None], [None], 0, sample) == Ok([]);
    assert [] + [img] == [img];
    assert TransformPrefix([img], [White], [None], [None], 1, sample) == Ok([img]);
    var placed := DefaultPositions([None], 1).value;
    assert placed == [(0.0, 0.0)];
    assert img.width as real + Abs(0.0) * 2.0 == img.width as real;
    assert img.height as real + Abs(0.0) * 2.0 == img.height as real;
    SaturatingCastOfInt(img.width, I32_MIN, I32_MAX);
    SaturatingCastOfInt(img.height, I32_MIN, I32_MAX);
    assert BoundingBox([img], placed, 1) == (img.width, img.height);
    SaturatingCastOfInt(0, 0, U32_MAX);
    assert Centred(img.width, 0.0, img.width) == 0.0;
    assert Centred(img.height, 0.0, img.height) == 0.0;
    var pasted := Pasted(Blank(img.width, img.height), img, 0, 0);
    Extensional(pasted, img);
  }

  /** The layer at corner (x, y) lies over canvas pixel (i, j). */
  predicate Covers(layer: Image, x: int, y: int, j: int, i: int) {
    x <= i < x + layer.width && y <= j < y + layer.height
  }

  /** A pixel that no stacked layer covers keeps the base's colour. */
  lemma {:induction false} StackedKeepsUncovered(base: Image, layers: seq<Image>, positions: seq<(real, real)>,
                                                bw: int, bh: int, n: nat, blend: Blender, j: nat, i: nat)
    requires 1 <= n <= |layers| && |layers| <= |positions|
    requires j < base.height && i < base.width
    requires forall k | 1 <= k < n ::
               !Covers(layers[k], OverlayOffset(bw, positions[k].0, layers[k].width),
                       OverlayOffset(bh, positions[k].1, layers[k].height), j, i)
    ensures Stacked(base, layers, positions, bw, bh, n, blend).rows[j][i] == base.rows[j][i]
    decreases n
  {
    if n > 1 {
      StackedKeepsUncovered(base, layers, positions, bw, bh, n - 1, blend, j, i);
    }
  }

  /** Given lists as long as the images and no rotations, `render_layered`
      can only fail for want of a base layer or on the copy of the base. */
  lemma LayeredFailures(images: seq<Image>, positions: seq<Option<(real, real)>>, colors: seq<Color>,
                        scales: seq<Option<(real, real)>>, rotations: seq<Option<i32>>,
                        sample: Sampler, blend: Blender)
    requires |images| <= |positions| && |images| <= |colors| && |images| <= |scales| && |images| <= |rotations|
    requires forall i | 0 <= i < |rotations| :: rotations[i].None?
    ensures var r := Layered(images, positions, colors, scales, rotations, sample, blend);
            r.Panic? ==> r.reason == NoImages || r.reason == CopyOutOfBounds
  {
    TransformPrefixSpec(images, colors, scales, rotations, |images|, sample);
    forall i | 0 <= i < |images|
      ensures TransformLayer(images, colors, scales, rotations, i, sample).Ok?
    {
      assert rotations[i].None?;
    }
  }
}

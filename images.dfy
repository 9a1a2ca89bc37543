/** RGBA rasters and the operations of the image library that the renderer
    calls: crop, the quarter-turn rotations, the flips, paste (`copy_from`),
    overlay and exact resize.  Images are values; a buffer that the renderer
    mutates in place is an `array2<Pixel>` indexed `[y, x]`, read back with
    `Snapshot`. */
module Images {
  import opened Common

  /** One RGBA8 pixel: channels 0, 1, 2 are red, green, blue; channel 3 is alpha. */
  type Pixel = p: seq<byte> | |p| == 4 witness [0, 0, 0, 0]

  const Transparent: Pixel := [0, 0, 0, 0]

  /** A raster of `height` rows of `width` pixels each. */
  datatype Bitmap = Bitmap(width: nat, height: nat, rows: seq<seq<Pixel>>) {
    predicate Valid() {
      |rows| == height && forall y | 0 <= y < |rows| :: |rows[y]| == width
    }
  }

  type Image = b: Bitmap | b.Valid() witness Bitmap(0, 0, [])

  /** The resampling filter of `resize_exact`: the pixel at (x, y) of the
      `w` by `h` result computed from the source image. */
  type Sampler = (Image, nat, nat, nat, nat) -> Pixel

  /** The per-pixel alpha blend of `overlay`: the new bottom pixel from the
      old bottom pixel and the top pixel. */
  type Blender = (Pixel, Pixel) -> Pixel

  predicate SameSize(a: Image, b: Image) {
    a.width == b.width && a.height == b.height
  }

  /** Two images with the same size and the same pixels are equal. */
  lemma Extensional(a: Image, b: Image)
    requires SameSize(a, b)
    requires forall y, x | 0 <= y < a.height && 0 <= x < a.width :: a.rows[y][x] == b.rows[y][x]
    ensures a == b
  {
    forall y | 0 <= y < a.height
      ensures a.rows[y] == b.rows[y]
    {
      assert forall x | 0 <= x < a.width :: a.rows[y][x] == b.rows[y][x];
    }
  }

  function Blank(w: nat, h: nat): (r: Image)
    ensures r.width == w && r.height == h
    ensures forall y, x | 0 <= y < h && 0 <= x < w :: r.rows[y][x] == Transparent
  {
    Bitmap(w, h, seq(h, _ => seq(w, _ => Transparent)))
  }

  /** `crop(x, y, w, h)` first clamps the requested rectangle to the image,
      then copies it out. */
  function Crop(img: Image, x: nat, y: nat, w: nat, h: nat): Image {
    var x' := Min(x, img.width);
    var y' := Min(y, img.height);
    var h' := Min(h, img.height - y');
    var w' := Min(w, img.width - x');
    Bitmap(w', h', seq(h', j requires 0 <= j < h' =>
                         seq(w', i requires 0 <= i < w' => img.rows[y' + j][x' + i])))
  }

  /** A rectangle inside the image is cropped to exactly its own size and pixels. */
  lemma CropInBounds(img: Image, x: nat, y: nat, w: nat, h: nat)
    requires x + w <= img.width && y + h <= img.height
    ensures Crop(img, x, y, w, h).width == w && Crop(img, x, y, w, h).height == h
    ensures forall j, i | 0 <= j < h && 0 <= i < w ::
              Crop(img, x, y, w, h).rows[j][i] == img.rows[y + j][x + i]
  {
  }

  /** A crop never exceeds the requested size nor the image. */
  lemma CropBounded(img: Image, x: nat, y: nat, w: nat, h: nat)
    ensures Crop(img, x, y, w, h).width <= w && Crop(img, x, y, w, h).width <= img.width
    ensures Crop(img, x, y, w, h).height <= h && Crop(img, x, y, w, h).height <= img.height
  {
  }

  /** Quarter turn clockwise: the pixel at (x, y) moves to (height - 1 - y, x). */
  function Rotate90(img: Image): (r: Image)
    ensures r.width == img.height && r.height == img.width
  {
    Bitmap(img.height, img.width, seq(img.width, j requires 0 <= j < img.width =>
      seq(img.height, i requires 0 <= i < img.height => img.rows[img.height - 1 - i][j])))
  }

  /** Half turn: the pixel at (x, y) moves to (width - 1 - x, height - 1 - y). */
  function Rotate180(img: Image): (r: Image)
    ensures SameSize(r, img)
  {
    Bitmap(img.width, img.height, seq(img.height, j requires 0 <= j < img.height =>
      seq(img.width, i requires 0 <= i < img.width => img.rows[img.height - 1 - j][img.width - 1 - i])))
  }

  /** Quarter turn counter-clockwise: the pixel at (x, y) moves to (y, width - 1 - x). */
  function Rotate270(img: Image): (r: Image)
    ensures r.width == img.height && r.height == img.width
  {
    Bitmap(img.height, img.width, seq(img.width, j requires 0 <= j < img.width =>
      seq(img.height, i requires 0 <= i < img.height => img.rows[i][img.width - 1 - j])))
  }

  /** Mirror left to right. */
  function FlipH(img: Image): (r: Image)
    ensures SameSize(r, img)
  {
    Bitmap(img.width, img.height, seq(img.height, j requires 0 <= j < img.height =>
      seq(img.width, i requires 0 <= i < img.width => img.rows[j][img.width - 1 - i])))
  }

  /** Mirror top to bottom. */
  function FlipV(img: Image): (r: Image)
    ensures SameSize(r, img)
  {
    Bitmap(img.width, img.height, seq(img.height, j requires 0 <= j < img.height =>
      seq(img.width, i requires 0 <= i < img.width => img.rows[img.height - 1 - j][i])))
  }

  lemma {:induction false} Rotate270Then90(img: Image)
    ensures Rotate90(Rotate270(img)) == img
  {
    var r := Rotate90(Rotate270(img));
    forall y, x | 0 <= y < img.height && 0 <= x < img.width
      ensures r.rows[y][x] == img.rows[y][x]
    {
      assert r.rows[y][x] == Rotate270(img).rows[img.width - 1 - x][y];
    }
    Extensional(r, img);
  }

  lemma {:induction false} Rotate90Then270(img: Image)
    ensures Rotate270(Rotate90(img)) == img
  {
    var r := Rotate270(Rotate90(img));
    forall y, x | 0 <= y < img.height && 0 <= x < img.width
      ensures r.rows[y][x] == img.rows[y][x]
    {
      assert r.rows[y][x] == Rotate90(img).rows[x][img.height - 1 - y];
    }
    Extensional(r, img);
  }

  lemma {:induction false} Rotate180Twice(img: Image)
    ensures Rotate180(Rotate180(img)) == img
  {
    var r := Rotate180(Rotate180(img));
    forall y, x | 0 <= y < img.height && 0 <= x < img.width
      ensures r.rows[y][x] == img.rows[y][x]
    {
      assert r.rows[y][x] == Rotate180(img).rows[img.height - 1 - y][img.width - 1 - x];
    }
    Extensional(r, img);
  }

  /** Two quarter turns are a half turn, so four are the identity. */
  lemma {:induction false} Rotate90Twice(img: Image)
    ensures Rotate90(Rotate90(img)) == Rotate180(img)
    ensures Rotate90(Rotate90(Rotate90(Rotate90(img)))) == img
  {
    var r := Rotate90(Rotate90(img));
    forall y, x | 0 <= y < img.height && 0 <= x < img.width
      ensures r.rows[y][x] == Rotate180(img).rows[y][x]
    {
      assert r.rows[y][x] == Rotate90(img).rows[img.width - 1 - x][y];
    }
    Extensional(r, Rotate180(img));
    var i2 := Rotate90(Rotate90(img));
    var r4 := Rotate90(Rotate90(i2));
    forall y, x | 0 <= y < i2.height && 0 <= x < i2.width
      ensures r4.rows[y][x] == Rotate180(i2).rows[y][x]
    {
      assert r4.rows[y][x] == Rotate90(i2).rows[i2.width - 1 - x][y];
    }
    Extensional(r4, Rotate180(i2));
    Rotate180Twice(img);
  }

  lemma {:induction false} FlipsAreInvolutions(img: Image)
    ensures FlipH(FlipH(img)) == img
    ensures FlipV(FlipV(img)) == img
  {
    var h := FlipH(FlipH(img));
    forall y, x | 0 <= y < img.height && 0 <= x < img.width
      ensures h.rows[y][x] == img.rows[y][x]
    {
      assert h.rows[y][x] == FlipH(img).rows[y][img.width - 1 - x];
    }
    Extensional(h, img);
    var v := FlipV(FlipV(img));
    forall y, x | 0 <= y < img.height && 0 <= x < img.width
      ensures v.rows[y][x] == img.rows[y][x]
    {
      assert v.rows[y][x] == FlipV(img).rows[img.height - 1 - y][x];
    }
    Extensional(v, img);
  }

  /** A half turn is both flips. */
  lemma {:induction false} Rotate180IsBothFlips(img: Image)
    ensures Rotate180(img) == FlipV(FlipH(img))
  {
    var r := FlipV(FlipH(img));
    forall y, x | 0 <= y < img.height && 0 <= x < img.width
      ensures r.rows[y][x] == Rotate180(img).rows[y][x]
    {
      assert r.rows[y][x] == FlipH(img).rows[img.height - 1 - y][x];
    }
    Extensional(r, Rotate180(img));
  }

  /** `copy_from(src, x, y)` writes `src` over the canvas with its top-left
      corner at (x, y), without blending. */
  function Pasted(canvas: Image, src: Image, x: nat, y: nat): (r: Image)
    ensures SameSize(r, canvas)
  {
    Bitmap(canvas.width, canvas.height, seq(canvas.height, j requires 0 <= j < canvas.height =>
      seq(canvas.width, i requires 0 <= i < canvas.width =>
        if x <= i < x + src.width && y <= j < y + src.height
        then src.rows[j - y][i - x] else canvas.rows[j][i])))
  }

  /** `overlay(canvas, top, x, y)` blends every pixel of `top` that falls on
      the canvas into it; the parts of `top` outside the canvas are dropped. */
  function Overlaid(canvas: Image, top: Image, x: int, y: int, blend: Blender): (r: Image)
    ensures SameSize(r, canvas)
  {
    Bitmap(canvas.width, canvas.height, seq(canvas.height, j requires 0 <= j < canvas.height =>
      seq(canvas.width, i requires 0 <= i < canvas.width =>
        if x <= i < x + top.width && y <= j < y + top.height
        then blend(canvas.rows[j][i], top.rows[j - y][i - x]) else canvas.rows[j][i])))
  }

  /** `resize_exact(w, h, filter)`: copies the image when the size does not
      change, otherwise resamples it to exactly w by h. */
  function ResizeExact(img: Image, w: nat, h: nat, sample: Sampler): (r: Image)
    ensures r.width == w && r.height == h
  {
    if w == img.width && h == img.height then img
    else Bitmap(w, h, seq(h, j requires 0 <= j < h => seq(w, i requires 0 <= i < w => sample(img, w, h, i, j))))
  }

  /** The image held by a buffer. */
  function Snapshot(buf: array2<Pixel>): (r: Image)
    reads buf
    ensures r.width == buf.Length1 && r.height == buf.Length0
    ensures forall y, x | 0 <= y < buf.Length0 && 0 <= x < buf.Length1 :: r.rows[y][x] == buf[y, x]
  {
    Bitmap(buf.Length1, buf.Length0, seq(buf.Length0, j requires 0 <= j < buf.Length0 reads buf =>
      seq(buf.Length1, i requires 0 <= i < buf.Length1 reads buf => buf[j, i])))
  }

  /** A buffer that agrees with an image pixel by pixel holds that image. */
  lemma SnapshotIs(buf: array2<Pixel>, img: Image)
    requires buf.Length1 == img.width && buf.Length0 == img.height
    requires forall y, x | 0 <= y < img.height && 0 <= x < img.width :: buf[y, x] == img.rows[y][x]
    ensures Snapshot(buf) == img
  {
    Extensional(Snapshot(buf), img);
  }

  /** `to_rgba8()`: a fresh buffer holding the image. */
  method ToBuffer(img: Image) returns (buf: array2<Pixel>)
    ensures fresh(buf)
    ensures Snapshot(buf) == img
  {
    buf := new Pixel[img.height, img.width]((y, x) requires 0 <= y < img.height && 0 <= x < img.width => img.rows[y][x]);
    SnapshotIs(buf, img);
  }
}

/** The per-layer transform of the renderer: an RGB tint, an exact resize
    with mirroring for negative scale factors, and a rotation by a multiple
    of a quarter turn. */
module Transforms {
  import opened Common
  import opened Images

  /** A tint factor for each of the red, green and blue channels. */
  type Color = c: seq<real> | |c| == 3 witness [0.0, 0.0, 0.0]

  const White: Color := [1.0, 1.0, 1.0]
  const Black: Color := [0.0, 0.0, 0.0]

  /** One channel multiplied by its factor and cast back to a byte
      (truncated toward zero, saturated at 0 and 255). */
  function TintChannel(v: byte, factor: real): byte {
    AsU8(v as real * factor)
  }

  /** Red, green and blue scaled by their factors; alpha untouched. */
  function TintPixel(p: Pixel, color: Color): Pixel {
    [TintChannel(p[0], color[0]), TintChannel(p[1], color[1]), TintChannel(p[2], color[2]), p[3]]
  }

  function Tinted(img: Image, color: Color): Image {
    Bitmap(img.width, img.height, seq(img.height, y requires 0 <= y < img.height =>
      seq(img.width, x requires 0 <= x < img.width => TintPixel(img.rows[y][x], color))))
  }

  /** The resize of the scale step: each side multiplied by the magnitude of
      its factor and truncated; then a horizontal mirror for a negative x
      factor and a vertical one for a negative y factor. */
  function Scaled(img: Image, sx: real, sy: real, sample: Sampler): Image {
    var resized := ResizeExact(img, ScaledSide(img.width, sx), ScaledSide(img.height, sy), sample);
    var mirrored := if sx < 0.0 then FlipH(resized) else resized;
    if sy < 0.0 then FlipV(mirrored) else mirrored
  }

  /** `(side as f32 * factor.abs()) as u32`. */
  function ScaledSide(side: nat, factor: real): nat {
    AsU32(side as real * Abs(factor))
  }

  /** The rotation step: only 0, 90, 180 and 270 degrees are accepted. */
  function Rotated(img: Image, degrees: int): Result<Image> {
    if degrees == 0 then Ok(img)
    else if degrees == 90 then Ok(Rotate90(img))
    else if degrees == 180 then Ok(Rotate180(img))
    else if degrees == 270 then Ok(Rotate270(img))
    else Panic(BadRotation(degrees))
  }

  /** What `transform` returns: tint, then scale, then rotate, each step
      only when its argument is given. */
  function Transformed(img: Image, color: Option<Color>, scale: Option<(real, real)>,
                       rotation: Option<i32>, sample: Sampler): Result<Image> {
    var tinted := if color.Some? then Tinted(img, color.value) else img;
    var scaled := if scale.Some? then Scaled(tinted, scale.value.0, scale.value.1, sample) else tinted;
    if rotation.Some? then Rotated(scaled, rotation.value) else Ok(scaled)
  }

  /** `transform`: the tint rewrites the red, green and blue channels of a
      fresh RGBA buffer pixel by pixel; the later steps replace the image. */
  method Transform(image: Image, color: Option<Color>, scale: Option<(real, real)>,
                   rotation: Option<i32>, sample: Sampler) returns (r: Result<Image>)
    ensures r == Transformed(image, color, scale, rotation, sample)
  {
    var transformed := image;
    if color.Some? {
      var c := color.value;
      var buf := ToBuffer(image);
      for y := 0 to buf.Length0
        invariant forall j, i | 0 <= j < buf.Length0 && 0 <= i < buf.Length1 ::
          buf[j, i] == if j < y then TintPixel(image.rows[j][i], c) else image.rows[j][i]
      {
        for x := 0 to buf.Length1
          invariant forall j, i | 0 <= j < buf.Length0 && 0 <= i < buf.Length1 ::
            buf[j, i] == if j < y || (j == y && i < x) then TintPixel(image.rows[j][i], c) else image.rows[j][i]
        {
          var pixel := buf[y, x];
          for channel := 0 to 3
            invariant forall k | 0 <= k < 4 ::
              pixel[k] == if k < channel then TintChannel(image.rows[y][x][k], c[k]) else image.rows[y][x][k]
          {
            pixel := pixel[channel := TintChannel(pixel[channel], c[channel])];
          }
          assert pixel == TintPixel(image.rows[y][x], c);
          buf[y, x] := pixel;
        }
      }
      SnapshotIs(buf, Tinted(image, c));
      transformed := Snapshot(buf);
    }
    if scale.Some? {
      var (scaleX, scaleY) := scale.value;
      var width, height := transformed.width, transformed.height;
      transformed := ResizeExact(transformed, ScaledSide(width, scaleX), ScaledSide(height, scaleY), sample);
      if scaleX < 0.0 {
        transformed := FlipH(transformed);
      }
      if scaleY < 0.0 {
        transformed := FlipV(transformed);
      }
    }
    if rotation.Some? {
      match rotation.value
      case 0 =>
      case 90 => transformed := Rotate90(transformed);
      case 180 => transformed := Rotate180(transformed);
      case 270 => transformed := Rotate270(transformed);
      case _ => return Panic(BadRotation(rotation.value));
    }
    return Ok(transformed);
  }

  /** With nothing to do, or only a rotation by 0, the image comes back unchanged. */
  lemma TransformIdentity(img: Image, sample: Sampler)
    ensures Transformed(img, None, None, None, sample) == Ok(img)
    ensures Transformed(img, None, None, Some(0), sample) == Ok(img)
  {
  }

  /** The tint keeps the size and the alpha of every pixel, and each colour
      channel becomes the truncated, saturated product with its factor. */
  lemma TintKeepsAlphaAndSize(img: Image, color: Color)
    ensures SameSize(Tinted(img, color), img)
    ensures forall y, x | 0 <= y < img.height && 0 <= x < img.width ::
              Tinted(img, color).rows[y][x][3] == img.rows[y][x][3]
    ensures forall y, x, k | 0 <= y < img.height && 0 <= x < img.width && 0 <= k < 3 ::
              Tinted(img, color).rows[y][x][k] == AsU8(img.rows[y][x][k] as real * color[k])
  {
    forall y, x, k | 0 <= y < img.height && 0 <= x < img.width && 0 <= k < 3
      ensures Tinted(img, color).rows[y][x][k] == AsU8(img.rows[y][x][k] as real * color[k])
    {
      TintPixelChannel(img.rows[y][x], color, k);
      assert Tinted(img, color).rows[y][x] == TintPixel(img.rows[y][x], color);
    }
  }

  lemma TintPixelChannel(p: Pixel, color: Color, k: nat)
    requires k < 3
    ensures TintPixel(p, color)[k] == TintChannel(p[k], color[k])
  {
    if k == 0 {} else if k == 1 {} else {}
  }

  lemma TintChannelByOne(v: byte)
    ensures TintChannel(v, 1.0) == v
  {
    assert v as real * 1.0 == v as real;
    SaturatingCastOfInt(v, 0, 0xFF);
  }

  /** A white tint changes nothing. */
  lemma TintWhiteIsIdentity(img: Image)
    ensures Tinted(img, White) == img
  {
    var t := Tinted(img, White);
    forall y, x | 0 <= y < img.height && 0 <= x < img.width
      ensures t.rows[y][x] == img.rows[y][x]
    {
      var p := img.rows[y][x];
      TintChannelByOne(p[0]);
      TintChannelByOne(p[1]);
      TintChannelByOne(p[2]);
      assert t.rows[y][x] == TintPixel(p, White);
    }
    Extensional(t, img);
  }

  /** A black tint clears the colour channels and keeps alpha. */
  lemma TintBlackClearsColour(img: Image)
    ensures SameSize(Tinted(img, Black), img)
    ensures forall y, x | 0 <= y < img.height && 0 <= x < img.width ::
              Tinted(img, Black).rows[y][x] == [0, 0, 0, img.rows[y][x][3]]
  {
  }

  lemma TintChannelDarkens(v: byte, factor: real)
    requires 0.0 <= factor <= 1.0
    ensures TintChannel(v, factor) <= v
  {
    var p := v as real * factor;
    assert v as real - p == v as real * (1.0 - factor);
    ProductNonNegative(v as real, factor);
    ProductNonNegative(v as real, 1.0 - factor);
    SaturatingCastCases(p, 0, 0xFF);
  }

  lemma ProductNonNegative(a: real, b: real)
    requires 0.0 <= a && 0.0 <= b
    ensures 0.0 <= a * b
  {
  }

  /** Factors between 0 and 1 never brighten a channel. */
  lemma TintDarkens(img: Image, color: Color)
    requires forall k | 0 <= k < 3 :: 0.0 <= color[k] <= 1.0
    ensures forall y, x, k | 0 <= y < img.height && 0 <= x < img.width && 0 <= k < 3 ::
              Tinted(img, color).rows[y][x][k] <= img.rows[y][x][k]
  {
    forall y, x, k | 0 <= y < img.height && 0 <= x < img.width && 0 <= k < 3
      ensures Tinted(img, color).rows[y][x][k] <= img.rows[y][x][k]
    {
      TintChannelDarkens(img.rows[y][x][k], color[k]);
      TintPixelChannel(img.rows[y][x], color, k);
      assert Tinted(img, color).rows[y][x] == TintPixel(img.rows[y][x], color);
    }
  }

  /** The scaled side does not reach the saturation bound of a u32. */
  predicate FitsU32(side: nat, factor: real) {
    side as real * Abs(factor) <= U32_MAX as real
  }

  /** A scaled side is the side times the magnitude of the factor,
      truncated, as long as that fits in a u32; the sign of the factor does
      not matter. */
  lemma ScaledSideSpec(side: nat, factor: real)
    requires FitsU32(side, factor)
    ensures ScaledSide(side, factor) == Trunc(side as real * Abs(factor))
    ensures ScaledSide(side, -factor) == ScaledSide(side, factor)
  {
    var p := side as real * Abs(factor);
    assert 0.0 <= p;
    SaturatingCastCases(p, 0, U32_MAX);
    SignFree(side, factor);
  }

  /** The scaled image has the scaled sides, whatever the signs of the
      factors (see `ScaledSideSpec` for what a scaled side is). */
  lemma ScaledSize(img: Image, sx: real, sy: real, sample: Sampler)
    ensures Scaled(img, sx, sy, sample).width == ScaledSide(img.width, sx)
    ensures Scaled(img, sx, sy, sample).height == ScaledSide(img.height, sy)
  {
  }

  /** The sign of a scale factor does not change the scaled side. */
  lemma SignFree(side: nat, factor: real)
    ensures ScaledSide(side, -factor) == ScaledSide(side, factor)
  {
    assert Abs(-factor) == Abs(factor);
  }

  /** Negating a positive x factor mirrors the result left to right, and
      negating a positive y factor mirrors it top to bottom. */
  lemma ScaledMirror(img: Image, sx: real, sy: real, sample: Sampler)
    requires 0.0 < sx && 0.0 < sy
    ensures Scaled(img, -sx, sy, sample) == FlipH(Scaled(img, sx, sy, sample))
    ensures Scaled(img, sx, -sy, sample) == FlipV(Scaled(img, sx, sy, sample))
    ensures Scaled(img, -sx, -sy, sample) == Rotate180(Scaled(img, sx, sy, sample))
  {
    SignFree(img.width, sx);
    SignFree(img.height, sy);
    var resized := ResizeExact(img, ScaledSide(img.width, sx), ScaledSide(img.height, sy), sample);
    assert Scaled(img, sx, sy, sample) == resized;
    assert Scaled(img, -sx, -sy, sample) == FlipV(FlipH(resized));
    Rotate180IsBothFlips(resized);
  }

  lemma ScaledSideByOne(side: nat)
    requires side <= U32_MAX
    ensures ScaledSide(side, 1.0) == side
  {
    assert Abs(1.0) == 1.0;
    assert side as real * 1.0 == side as real;
    SaturatingCastOfInt(side, 0, U32_MAX);
  }

  /** A scale of 1 keeps a u32-sized image; -1 on one or both axes mirrors it
      or turns it a half turn. */
  lemma ScaledByUnit(img: Image, sample: Sampler)
    requires img.width <= U32_MAX && img.height <= U32_MAX
    ensures Scaled(img, 1.0, 1.0, sample) == img
    ensures Scaled(img, -1.0, 1.0, sample) == FlipH(img)
    ensures Scaled(img, 1.0, -1.0, sample) == FlipV(img)
    ensures Scaled(img, -1.0, -1.0, sample) == Rotate180(img)
  {
    ScaledSideByOne(img.width);
    ScaledSideByOne(img.height);
    assert Scaled(img, 1.0, 1.0, sample) == img;
    ScaledMirror(img, 1.0, 1.0, sample);
  }

  /** Only the four right angles are accepted; a quarter or three-quarter
      turn swaps width and height, a half turn or none keeps them; any other
      angle panics naming that angle. */
  lemma RotatedSpec(img: Image, degrees: int)
    ensures Rotated(img, degrees).Ok? <==> degrees == 0 || degrees == 90 || degrees == 180 || degrees == 270
    ensures Rotated(img, degrees).Panic? ==> Rotated(img, degrees).reason == BadRotation(degrees)
    ensures (degrees == 90 || degrees == 270) ==>
              Rotated(img, degrees).value.width == img.height && Rotated(img, degrees).value.height == img.width
    ensures (degrees == 0 || degrees == 180) ==> SameSize(Rotated(img, degrees).value, img)
  {
  }

  /** Turning by 90 and then by 270 degrees (either way round), or twice by
      180, gives back the image. */
  lemma RotatedRoundTrips(img: Image)
    ensures Rotated(Rotated(img, 90).value, 270) == Ok(img)
    ensures Rotated(Rotated(img, 270).value, 90) == Ok(img)
    ensures Rotated(Rotated(img, 180).value, 180) == Ok(img)
  {
    Rotate90Then270(img);
    Rotate270Then90(img);
    Rotate180Twice(img);
  }
}

/**
 * `Image` of `src/image.rs`: raw pixel bytes with a width, a height, an
 * OpenGL pixel format and an OpenGL pixel type. `from_color` makes a solid
 * image by repeating one color's bytes for every pixel; `with_format`
 * relabels the format.
 */
module Images {
  newtype Byte = x: int | 0 <= x < 256

  /** `gl::SRGB`, `gl::SRGB_ALPHA` and `gl::UNSIGNED_BYTE`. */
  const Srgb: nat := 0x8C40
  const SrgbAlpha: nat := 0x8C42
  const UnsignedByte: nat := 0x1401

  const I32Min: int := -0x8000_0000
  const I32Max: int := 0x7FFF_FFFF

  datatype Image = Image(pixels: seq<Byte>, width: int, height: int, format: nat, pixelType: nat)

  /** The bytes of a solid image of `count` pixels: byte `i` is byte
      `i % |color|` of the color. */
  function SolidPixels(count: nat, color: seq<Byte>): (ps: seq<Byte>)
    ensures |ps| == count * |color|
  {
    seq(count * |color|, i requires 0 <= i < count * |color| => color[i % |color|])
  }

  /** Every pixel of a solid image is a copy of the color. */
  lemma {:induction false} EveryPixelIsTheColor(count: nat, color: seq<Byte>, p: nat)
    requires p < count
    ensures p * |color| + |color| <= count * |color|
    ensures SolidPixels(count, color)[p * |color| .. p * |color| + |color|] == color
  {
    var ps := SolidPixels(count, color);
    var n := |color|;
    assert p * n + n == (p + 1) * n;
    assert (p + 1) * n <= count * n by {
      MulMonotone(p + 1, count, n);
    }
    forall k | 0 <= k < n
      ensures ps[p * n + k] == color[k]
    {
      ModOfPixel(p, n, k);
    }
  }

  lemma MulMonotone(a: nat, b: nat, n: nat)
    requires a <= b
    ensures a * n <= b * n
  {
  }

  lemma ModOfPixel(p: nat, n: nat, k: nat)
    requires k < n
    ensures (p * n + k) % n == k
  {
    var a := p * n + k;
    var q, r := a / n, a % n;
    assert a == q * n + r;
    if q > p {
      MulMonotone(p + 1, q, n);
      assert false;
    } else if q < p {
      MulMonotone(q + 1, p, n);
      assert false;
    }
  }

  /** `from_color`: `width * height` pixels of `color`, in SRGB when the
      color has three channels and SRGB with alpha otherwise, of unsigned
      bytes. The product `width * height` is an `i32` and its conversion
      to `usize` must not wrap, so it is non-negative and in range unless
      the color is empty, when no byte is made at all. */
  method FromColor(width: int, height: int, color: seq<Byte>) returns (image: Image)
    requires I32Min <= width <= I32Max && I32Min <= height <= I32Max
    requires I32Min <= width * height <= I32Max
    requires |color| > 0 ==> width * height >= 0
    ensures var count := if |color| == 0 then 0 else width * height;
      count >= 0 && image.pixels == SolidPixels(count, color)
    ensures image.width == width && image.height == height
    ensures image.format == (if |color| == 3 then Srgb else SrgbAlpha)
    ensures image.pixelType == UnsignedByte
  {
    var size: nat := if |color| == 0 then 0 else width * height * |color|;
    var pixels := new Byte[size](_ => 0);
    for i := 0 to pixels.Length
      invariant forall j :: 0 <= j < i ==> pixels[j] == color[j % |color|]
    {
      pixels[i] := color[i % |color|];
    }
    var format := if |color| == 3 then Srgb else SrgbAlpha;
    image := Image(pixels[..], width, height, format, UnsignedByte);
    ghost var count := if |color| == 0 then 0 else width * height;
    assert pixels[..] == SolidPixels(count, color);
  }

  /** `with_format`: the image with only its format replaced. */
  function WithFormat(image: Image, format: nat): (r: Image)
    ensures r.format == format
    ensures r.pixels == image.pixels && r.width == image.width && r.height == image.height
    ensures r.pixelType == image.pixelType
  {
    image.(format := format)
  }

  /** Relabelling twice keeps only the last format, and relabelling with the
      image's own format changes nothing. */
  lemma WithFormatLastWins(image: Image, f: nat, g: nat)
    ensures WithFormat(WithFormat(image, f), g) == WithFormat(image, g)
    ensures WithFormat(image, image.format) == image
  {
  }
}

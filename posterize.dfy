/**
 * `DropCircle._posterize`: every colour channel of every pixel is rounded
 * down to a multiple of `step = 255 // max(1, levels - 1)` (51 for the
 * default six levels). The image is a grid of ARGB32 pixels indexed
 * `[y, x]`.
 */
module Posterize {
  import opened Text
  import opened Arith

  type Channel = c: int | 0 <= c < 256

  /** An ARGB32 pixel: red, green, blue and alpha, 0 to 255 each. */
  datatype Pixel = Pixel(r: Channel, g: Channel, b: Channel, a: Channel)

  /** `255 // max(1, levels - 1)`; positive for up to 256 levels. */
  function Step(levels: int): (step: int)
    ensures 0 <= step <= 255
    ensures levels <= 256 ==> step >= 1
    ensures levels == 6 ==> step == 51
  {
    var d := Max(1, levels - 1);
    assert 255 == (255 / d) * d + 255 % d;
    255 / d
  }

  /**
   * `(c // step) * step`: the multiple of `step` that is at most `c` and
   * less than `step` below it.
   */
  function Quantize(c: Channel, step: int): (q: Channel)
    requires step >= 1
    ensures q <= c < q + step
    ensures q % step == 0
  {
    var k := c / step;
    assert c == k * step + c % step;
    ModOfDecomposition(k * step, step, k, 0);
    k * step
  }

  /** Only one value is a multiple of `step` at most `c` and within `step` of it: `Quantize` is that value. */
  lemma QuantizeUnique(c: Channel, q: int, step: int)
    requires step >= 1
    requires q <= c < q + step && q % step == 0
    ensures q == Quantize(c, step)
  {
    var q' := Quantize(c, step);
    assert q == (q / step) * step;
    assert q' == (q' / step) * step;
    assert (q / step - q' / step) * step == q - q';
    SmallMultiple(q / step - q' / step, step, q - q');
  }

  /** Quantising a quantised channel changes nothing. */
  lemma QuantizeIdempotent(c: Channel, step: int)
    requires step >= 1
    ensures Quantize(Quantize(c, step), step) == Quantize(c, step)
  {
    QuantizeUnique(Quantize(c, step), Quantize(c, step), step);
  }

  /** Every colour channel of `p` is a multiple of `step`. */
  predicate IsPosterized(p: Pixel, step: int)
    requires step >= 1
  {
    p.r % step == 0 && p.g % step == 0 && p.b % step == 0
  }

  /**
   * `QColor(rgb)` built from the `QRgb` value that `QImage.pixel` returns:
   * Qt ignores the alpha of a `QRgb` in this constructor and sets it to 255.
   */
  function ColorFromRgb(p: Pixel): (c: Pixel)
    ensures c.a == 255 && c.(a := p.a) == p
  {
    p.(a := 255)
  }

  /**
   * The pixel `_posterize` writes as the code stands: the channels of
   * `QColor(out.pixel(x, y))` quantised, with that colour's alpha, which
   * is always 255.
   */
  function PosterizedAsWritten(p: Pixel, step: int): (q: Pixel)
    requires step >= 1
    ensures q.a == 255
  {
    var c := ColorFromRgb(p);
    Pixel(Quantize(c.r, step), Quantize(c.g, step), Quantize(c.b, step), c.a)
  }

  /** As written, a fully transparent pixel comes out fully opaque: its alpha is not kept. */
  lemma AsWrittenMakesOpaque()
    ensures PosterizedAsWritten(Pixel(0, 0, 0, 0), Step(6)) == Pixel(0, 0, 0, 255)
    ensures PosterizedAsWritten(Pixel(0, 0, 0, 0), Step(6)).a != Pixel(0, 0, 0, 0).a
  {
  }

  /**
   * The pixel `_posterize` is meant to write (the alpha read with
   * `QColor.fromRgba`): each colour channel rounded down to a multiple of
   * `step`, less than `step` below the original, and alpha kept.
   */
  function Posterized(p: Pixel, step: int): (q: Pixel)
    requires step >= 1
    ensures q.a == p.a
    ensures q.r <= p.r < q.r + step && q.g <= p.g < q.g + step && q.b <= p.b < q.b + step
    ensures IsPosterized(q, step)
  {
    Pixel(Quantize(p.r, step), Quantize(p.g, step), Quantize(p.b, step), p.a)
  }

  /** Posterizing twice gives the same pixel as posterizing once; a posterized pixel is a fixed point. */
  lemma PosterizedIdempotent(p: Pixel, step: int)
    requires step >= 1
    ensures Posterized(Posterized(p, step), step) == Posterized(p, step)
    ensures IsPosterized(p, step) ==> Posterized(p, step) == p
  {
    QuantizeIdempotent(p.r, step);
    QuantizeIdempotent(p.g, step);
    QuantizeIdempotent(p.b, step);
    if IsPosterized(p, step) {
      QuantizeUnique(p.r, p.r, step);
      QuantizeUnique(p.g, p.g, step);
      QuantizeUnique(p.b, p.b, step);
    }
  }

  /**
   * `_posterize(img, levels)`: a new image of the same size whose every
   * pixel is the posterized pixel of `img`, computed by visiting the copy of
   * `img` row by row and replacing each pixel.
   */
  method PosterizeImage(img: array2<Pixel>, levels: int) returns (out: array2<Pixel>)
    requires levels <= 256
    ensures fresh(out)
    ensures out.Length0 == img.Length0 && out.Length1 == img.Length1
    ensures forall y, x :: 0 <= y < out.Length0 && 0 <= x < out.Length1 ==>
              out[y, x] == Posterized(img[y, x], Step(levels))
  {
    var step := Step(levels);
    var h, w := img.Length0, img.Length1;
    out := new Pixel[h, w]((y, x) requires 0 <= y < h && 0 <= x < w reads img => img[y, x]);
    for y := 0 to h
      invariant forall i, j :: 0 <= i < y && 0 <= j < w ==> out[i, j] == Posterized(img[i, j], step)
      invariant forall i, j :: y <= i < h && 0 <= j < w ==> out[i, j] == img[i, j]
    {
      for x := 0 to w
        invariant forall i, j :: 0 <= i < y && 0 <= j < w ==> out[i, j] == Posterized(img[i, j], step)
        invariant forall j :: 0 <= j < x ==> out[y, j] == Posterized(img[y, j], step)
        invariant forall i, j :: y <= i < h && 0 <= j < w && (i > y || j >= x) ==> out[i, j] == img[i, j]
      {
        var c := out[y, x];
        out[y, x] := Posterized(c, step);
      }
    }
  }
}

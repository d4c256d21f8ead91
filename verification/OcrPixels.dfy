/** What the pixel tests and the rectangles of OcrGeometry are in numbers: which colours count as
    white or as coloured print, how bright a colour is, and how far crops and regions reach. */
module OcrPixels {
  import opened Text
  import opened OcrGeometry

  // ---------- colours ----------

  // Nearly white is 246 or more out of 255 in every channel.
  lemma NearWhiteIff(c: Color)
    ensures NearWhite(c) <==> 246 * 256 <= c.red && 246 * 256 <= c.green && 246 * 256 <= c.blue
  {
  }

  // The weights of red, green and blue in the brightness of a colour, by ITU-R BT.601.
  function Weighted(c: Color): real {
    (0.299 * c.red as real + 0.587 * c.green as real + 0.114 * c.blue as real) / 257.0
  }

  /** The grey value of a colour is its brightness to within one step of 256. */
  lemma LuminanceNear(c: Color)
    ensures Weighted(c) - 1.0 <= Luminance(c) as real <= Weighted(c) + 1.0
  {
    var r, g, b := c.red as real, c.green as real, c.blue as real;
    var sum := 19595 * c.red + 38470 * c.green + 7471 * c.blue + 32768;
    QuotientWithin(sum);
    assert sum as real == 19595.0 * r + 38470.0 * g + 7471.0 * b + 32768.0;
    assert 257.0 * Weighted(c) == 0.299 * r + 0.587 * g + 0.114 * b;
  }

  lemma QuotientWithin(n: nat)
    ensures (n as real) - 16777216.0 <= 16777216.0 * (n / 16777216) as real <= n as real
  {
    var q := n / 16777216;
    assert 16777216 * q <= n < 16777216 * q + 16777216;
    assert (16777216 * q) as real == 16777216.0 * q as real;
  }

  // Two channels differ by more than 38 out of 255, and one is above 75.
  ghost predicate Coloured(c: Color) {
    var high := [c.red / 256, c.green / 256, c.blue / 256];
    (exists i, j :: 0 <= i < 3 && 0 <= j < 3 && 38 < high[i] - high[j]) && exists i :: 0 <= i < 3 && 75 < high[i]
  }

  lemma ColouredIff(c: Color)
    ensures Coloured(c) <==>
      Spread(c) > 38 && Max(High(c.red), Max(High(c.green), High(c.blue))) > 75
  {
    var high := [c.red / 256, c.green / 256, c.blue / 256];
    assert high[0] == High(c.red) && high[1] == High(c.green) && high[2] == High(c.blue);
    var top := if high[0] >= high[1] && high[0] >= high[2] then 0 else if high[1] >= high[2] then 1 else 2;
    var low := if high[0] <= high[1] && high[0] <= high[2] then 0 else if high[1] <= high[2] then 1 else 2;
    assert Spread(c) == high[top] - high[low];
  }

  /** Cleaning makes coloured print and light greys white and dark greys black, and leaves the
      brightness of everything between. */
  lemma CleanPixelIs(c: Color)
    ensures Coloured(c) || 206 <= Luminance(c) ==> CleanPixel(c) == 255
    ensures !Coloured(c) && Luminance(c) <= 94 ==> CleanPixel(c) == 0
    ensures !Coloured(c) && 95 <= Luminance(c) <= 205 ==> CleanPixel(c) == Luminance(c)
  {
    ColouredIff(c);
    hide Luminance, Spread, Coloured;
  }

  // ---------- rectangles ----------

  // The crop is every pixel of the page within twenty of the box, up to it on the far sides.
  lemma GrowReaches(img: Image, box: Rect, x: int, y: int)
    ensures In(Grow(img, box), x, y) <==>
      img.Inside(x, y) && box.minX - 20 <= x < box.maxX + 20 && box.minY - 20 <= y < box.maxY + 20
  {
  }

  // A crop is small when it has less than a quarter of the page's width or an eighth of its height.
  lemma TooSmallIff(img: Image, r: Rect)
    ensures TooSmall(img, r) <==>
      4 * (r.maxX - r.minX + 1) <= img.Dx() || 8 * (r.maxY - r.minY + 1) <= img.Dy()
  {
  }

  // A page counts as wide when the quotient of its sides is at least 2.2.
  lemma WideIff(img: Image)
    requires 0 < img.Dy()
    ensures Wide(img) <==> 2.2 <= img.Dx() as real / img.Dy() as real
  {
    QuotientAtLeast(img.Dx() as real, img.Dy() as real, 2.2);
    assert Wide(img) <==> 2.2 * img.Dy() as real <= img.Dx() as real;
  }

  lemma QuotientAtLeast(a: real, b: real, c: real)
    requires 0.0 < b
    ensures c <= a / b <==> c * b <= a
  {
    var q := a / b;
    QuotientTimes(a, b);
    if c <= q {
      TimesMonotone(c, q, b);
    } else {
      TimesStrict(q, c, b);
    }
  }

  lemma QuotientTimes(a: real, b: real)
    requires b != 0.0
    ensures a / b * b == a
  {
  }

  lemma TimesMonotone(a: real, b: real, c: real)
    requires a <= b && 0.0 <= c
    ensures a * c <= b * c
  {
  }

  lemma TimesStrict(a: real, b: real, c: real)
    requires a < b && 0.0 < c
    ensures a * c < b * c
  {
  }

  // A distance that was rounded down from a fraction of a length.
  predicate RoundedDown(distance: int, length: nat, fraction: real) {
    var exact := length as real * fraction;
    distance as real <= exact < distance as real + 1.0
  }

  // The corners of a region are its fractions of the card, rounded down to a pixel.
  lemma RegionRounded(img: Image, region: Region)
    ensures var r := RegionRect(img, region);
      RoundedDown(r.minX - img.x0, img.Dx(), region.x1) && RoundedDown(r.maxX - img.x0, img.Dx(), region.x2) &&
      RoundedDown(r.minY - img.y0, img.Dy(), region.y1) && RoundedDown(r.maxY - img.y0, img.Dy(), region.y2)
  {
  }
}

/** The pixels that text recognition gets to see (services/document_extraction.go): cropping a page
    to its dark part, cutting a wide one in two, and enlarging the regions of a card. */
module OcrGeometry {
  import opened Text

  // ---------- colours ----------

  type Channel = c: nat | c < 65536
  type Gray8 = c: nat | c < 256

  // What Color.RGBA returns, alpha aside.
  datatype Color = Rgb(red: Channel, green: Channel, blue: Channel)

  function High(c: Channel): Gray8 {
    c / 256
  }

  function Max(a: int, b: int): int {
    if a < b then b else a
  }

  function Min(a: int, b: int): int {
    if a < b then a else b
  }

  predicate NearWhite(c: Color) {
    High(c.red) > 245 && High(c.green) > 245 && High(c.blue) > 245
  }

  // color.GrayModel.
  function Luminance(c: Color): (y: Gray8) {
    (19595 * c.red + 38470 * c.green + 7471 * c.blue + 32768) / 16777216
  }

  function Spread(c: Color): int {
    Max(High(c.red), Max(High(c.green), High(c.blue))) - Min(High(c.red), Min(High(c.green), High(c.blue)))
  }

  // Coloured print is removed, light and dark greys become white and black.
  function CleanPixel(c: Color): Gray8 {
    var top := Max(High(c.red), Max(High(c.green), High(c.blue)));
    if Spread(c) > 38 && top > 75 then 255
    else
      var value := Luminance(c);
      if value > 205 then 255 else if value < 95 then 0 else value
  }

  // The colour of a grey pixel is its grey value in all three channels.
  function GrayColor(y: Gray8): Color {
    Rgb(257 * y, 257 * y, 257 * y)
  }

  // Cleaning what has been cleaned changes nothing.
  lemma CleanTwice(c: Color)
    ensures CleanPixel(GrayColor(CleanPixel(c))) == CleanPixel(c)
  {
    var y := CleanPixel(c);
    assert High(GrayColor(y).red) == y;
    assert Luminance(GrayColor(y)) == y;
  }

  // What an RGBA image gives back for a colour set in it: it keeps the high byte of every channel.
  function Stored(c: Color): Color {
    Rgb(257 * High(c.red), 257 * High(c.green), 257 * High(c.blue))
  }

  lemma StoredChannel(c: Channel)
    ensures High(257 * High(c)) == High(c) && (257 * High(c) == c <==> c % 257 == 0)
  {
    var h := c / 256;
    if c % 257 == 0 {
      var q := c / 257;
      assert c == 257 * q && q < 256;
      assert c == 256 * q + q;
      assert h == q;
    }
  }

  /** An RGBA image keeps what the tests for white and for coloured print look at; it keeps the
      colour itself exactly when every channel is a multiple of 257. */
  lemma StoredKeeps(c: Color)
    ensures NearWhite(Stored(c)) == NearWhite(c) && Spread(Stored(c)) == Spread(c)
    ensures Stored(Stored(c)) == Stored(c)
    ensures Stored(c) == c <==> c.red % 257 == 0 && c.green % 257 == 0 && c.blue % 257 == 0
  {
    StoredChannel(c.red);
    StoredChannel(c.green);
    StoredChannel(c.blue);
    hide High;
  }

  // ---------- images ----------

  // A decoded image; its top left pixel is at (x0, y0).
  class Image {
    const x0: int
    const y0: int
    const pixels: array2<Color>

    constructor (x0: int, y0: int, pixels: array2<Color>)
      ensures this.x0 == x0 && this.y0 == y0 && this.pixels == pixels
    {
      this.x0, this.y0, this.pixels := x0, y0, pixels;
    }

    function Dx(): nat {
      pixels.Length0
    }

    function Dy(): nat {
      pixels.Length1
    }

    predicate Inside(x: int, y: int) {
      x0 <= x < x0 + Dx() && y0 <= y < y0 + Dy()
    }

    function At(x: int, y: int): Color
      requires Inside(x, y)
      reads pixels
    {
      pixels[x - x0, y - y0]
    }
  }

  // minX <= x < maxX and minY <= y < maxY.
  datatype Rect = Rect(minX: int, minY: int, maxX: int, maxY: int)

  predicate In(r: Rect, x: int, y: int) {
    r.minX <= x < r.maxX && r.minY <= y < r.maxY
  }

  predicate Fits(img: Image, r: Rect) {
    img.x0 <= r.minX <= r.maxX <= img.x0 + img.Dx() && img.y0 <= r.minY <= r.maxY <= img.y0 + img.Dy()
  }

  // The crop holds the rectangle, pixel for pixel, as an RGBA image holds it.
  ghost predicate HoldsRect(crop: array2<Color>, img: Image, r: Rect)
    requires Fits(img, r)
    reads crop, img.pixels
  {
    crop.Length0 == r.maxX - r.minX && crop.Length1 == r.maxY - r.minY &&
    forall x, y :: In(r, x, y) ==> crop[x - r.minX, y - r.minY] == Stored(img.At(x, y))
  }

  method CopyRect(img: Image, r: Rect) returns (crop: array2<Color>)
    requires Fits(img, r)
    ensures fresh(crop) && HoldsRect(crop, img, r)
  {
    hide Stored;
    crop := new Color[r.maxX - r.minX, r.maxY - r.minY]((_, _) => Rgb(0, 0, 0));
    for y := r.minY to r.maxY
      modifies crop
      invariant forall i, j :: r.minX <= i < r.maxX && r.minY <= j < y ==>
        crop[i - r.minX, j - r.minY] == Stored(img.At(i, j))
    {
      for x := r.minX to r.maxX
        modifies crop
        invariant forall i, j :: r.minX <= i < r.maxX && r.minY <= j < y ==>
          crop[i - r.minX, j - r.minY] == Stored(img.At(i, j))
        invariant forall i :: r.minX <= i < x ==> crop[i - r.minX, y - r.minY] == Stored(img.At(i, y))
      {
        crop[x - r.minX, y - r.minY] := Stored(img.At(x, y));
      }
    }
  }

  // ---------- the dark part of a page ----------

  // A pixel that the scan looks at, and that is not nearly white.
  predicate Dark(img: Image, x: int, y: int)
    reads img.pixels
  {
    img.Inside(x, y) && (x - img.x0) % 2 == 0 && (y - img.y0) % 2 == 0 && !NearWhite(img.At(x, y))
  }

  // Pixels are scanned row by row.
  predicate Before(x: int, y: int, endX: int, endY: int) {
    y < endY || (y == endY && x < endX)
  }

  predicate DarkBefore(img: Image, x: int, y: int, endX: int, endY: int)
    reads img.pixels
  {
    Dark(img, x, y) && Before(x, y, endX, endY)
  }

  // The box spans the dark pixels scanned so far and touches one on every side; box.maxX and
  // box.maxY are still those pixels themselves.
  ghost predicate Spans(img: Image, box: Rect, found: bool, endX: int, endY: int)
    reads img.pixels
  {
    (forall x, y :: DarkBefore(img, x, y, endX, endY) ==>
      found && box.minX <= x <= box.maxX && box.minY <= y <= box.maxY) &&
    (if found then Touches(img, box, endX, endY)
     else box == Rect(img.x0 + img.Dx(), img.y0 + img.Dy(), img.x0, img.y0))
  }

  ghost predicate Touches(img: Image, box: Rect, endX: int, endY: int)
    reads img.pixels
  {
    (exists y :: DarkBefore(img, box.minX, y, endX, endY)) && (exists y :: DarkBefore(img, box.maxX, y, endX, endY)) &&
    (exists x :: DarkBefore(img, x, box.minY, endX, endY)) && (exists x :: DarkBefore(img, x, box.maxY, endX, endY))
  }

  function Widen(box: Rect, x: int, y: int): Rect {
    Rect(Min(box.minX, x), Min(box.minY, y), Max(box.maxX, x), Max(box.maxY, y))
  }

  // Scanning on over pixels that are not dark changes nothing.
  lemma SpansSame(img: Image, box: Rect, found: bool, x: int, y: int, endX: int, endY: int)
    requires Spans(img, box, found, x, y)
    requires forall i, j :: DarkBefore(img, i, j, x, y) <==> DarkBefore(img, i, j, endX, endY)
    ensures Spans(img, box, found, endX, endY)
  {
    hide DarkBefore;
  }

  lemma NextIsOdd(n: int)
    requires n % 2 == 0
    ensures (n + 1) % 2 == 1
  {
  }

  lemma SkippedIsNotDark(img: Image, x: int, y: int)
    requires (x - img.x0) % 2 == 0 || (y - img.y0) % 2 == 0
    ensures (x - img.x0) % 2 == 0 ==> !Dark(img, x + 1, y)
    ensures (y - img.y0) % 2 == 0 ==> !Dark(img, x, y + 1)
  {
    hide NearWhite;
    if (x - img.x0) % 2 == 0 {
      NextIsOdd(x - img.x0);
      assert x + 1 - img.x0 == x - img.x0 + 1;
    }
    if (y - img.y0) % 2 == 0 {
      NextIsOdd(y - img.y0);
      assert y + 1 - img.y0 == y - img.y0 + 1;
    }
  }

  lemma ScannedPixel(img: Image, x: int, y: int)
    requires (x - img.x0) % 2 == 0
    ensures forall i, j :: DarkBefore(img, i, j, x + 2, y) <==>
      DarkBefore(img, i, j, x, y) || (i == x && j == y && Dark(img, x, y))
  {
    hide Dark;
    forall i, j
      ensures DarkBefore(img, i, j, x + 2, y) <==> DarkBefore(img, i, j, x, y) || (i == x && j == y && Dark(img, x, y))
    {
      if j == y && i == x + 1 {
        SkippedIsNotDark(img, x, y);
      }
    }
  }

  lemma ScannedRow(img: Image, x: int, y: int)
    requires (y - img.y0) % 2 == 0 && img.x0 + img.Dx() <= x
    ensures forall i, j :: DarkBefore(img, i, j, x, y) <==> DarkBefore(img, i, j, img.x0, y + 2)
  {
    hide Dark;
    DarkInside(img);
    forall i, j ensures DarkBefore(img, i, j, x, y) <==> DarkBefore(img, i, j, img.x0, y + 2) {
      if j == y + 1 {
        SkippedIsNotDark(img, i, y);
      }
    }
  }

  lemma DarkInside(img: Image)
    ensures forall i, j :: Dark(img, i, j) ==> img.Inside(i, j)
  {
  }

  lemma SpansDark(img: Image, box: Rect, found: bool, x: int, y: int)
    requires Spans(img, box, found, x, y) && Dark(img, x, y) && (x - img.x0) % 2 == 0
    ensures Spans(img, Widen(box, x, y), true, x + 2, y)
  {
    ScannedPixel(img, x, y);
    hide DarkBefore, NearWhite, Dark;
    assert DarkBefore(img, x, y, x + 2, y);
    var w, next := Widen(box, x, y), x + 2;
    forall i, j | DarkBefore(img, i, j, next, y) ensures w.minX <= i <= w.maxX && w.minY <= j <= w.maxY {
      assert DarkBefore(img, i, j, x, y) || (i == x && j == y);
    }
    if found {
      TouchesDark(img, box, x, y);
    } else {
      assert Widen(box, x, y) == Rect(x, y, x, y);
      assert Touches(img, Rect(x, y, x, y), x + 2, y);
    }
  }

  lemma TouchesDark(img: Image, box: Rect, x: int, y: int)
    requires Touches(img, box, x, y) && DarkBefore(img, x, y, x + 2, y)
    requires forall i, j :: DarkBefore(img, i, j, x, y) ==> DarkBefore(img, i, j, x + 2, y)
    ensures Touches(img, Widen(box, x, y), x + 2, y)
  {
    hide DarkBefore;
    var a :| DarkBefore(img, box.minX, a, x, y);
    var b :| DarkBefore(img, box.maxX, b, x, y);
    var c :| DarkBefore(img, c, box.minY, x, y);
    var d :| DarkBefore(img, d, box.maxY, x, y);
    var w := Widen(box, x, y);
    assert DarkBefore(img, w.minX, if x < box.minX then y else a, x + 2, y);
    assert DarkBefore(img, w.maxX, if box.maxX < x then y else b, x + 2, y);
    assert DarkBefore(img, if y < box.minY then x else c, w.minY, x + 2, y);
    assert DarkBefore(img, if box.maxY < y then x else d, w.maxY, x + 2, y);
  }

  // A box that spans every dark pixel of the image, and touches one on every side.
  ghost predicate TightBox(img: Image, box: Rect)
    reads img.pixels
  {
    (forall x, y :: Dark(img, x, y) ==> box.minX <= x <= box.maxX && box.minY <= y <= box.maxY) &&
    (exists y :: Dark(img, box.minX, y)) && (exists y :: Dark(img, box.maxX, y)) &&
    (exists x :: Dark(img, x, box.minY)) && (exists x :: Dark(img, x, box.maxY))
  }

  /** Scans every second pixel of every second row: the smallest box of the dark ones, or nothing
      when there is none. */
  method FindBox(img: Image) returns (box: Option<Rect>)
    ensures match box
      case None => forall x, y :: !Dark(img, x, y)
      case Some(b) => TightBox(img, b)
  {
    hide NearWhite, DarkBefore, Touches, Spans;
    var minX, minY, maxX, maxY := img.x0 + img.Dx(), img.y0 + img.Dy(), img.x0, img.y0;
    var found := false;
    var y := img.y0;
    SpansNothing(img);
    while y < img.y0 + img.Dy()
      invariant (y - img.y0) % 2 == 0
      invariant Spans(img, Rect(minX, minY, maxX, maxY), found, img.x0, y)
    {
      var x := img.x0;
      while x < img.x0 + img.Dx()
        invariant (x - img.x0) % 2 == 0 && img.x0 <= x
        invariant Spans(img, Rect(minX, minY, maxX, maxY), found, x, y)
      {
        StepPixel(img, Rect(minX, minY, maxX, maxY), found, x, y);
        if !NearWhite(img.At(x, y)) {
          found := true;
          if x < minX {
            minX := x;
          }
          if x > maxX {
            maxX := x;
          }
          if y < minY {
            minY := y;
          }
          if y > maxY {
            maxY := y;
          }
        }
        x := x + 2;
      }
      ScannedRow(img, x, y);
      SpansSame(img, Rect(minX, minY, maxX, maxY), found, x, y, img.x0, y + 2);
      y := y + 2;
    }
    SpansAll(img, Rect(minX, minY, maxX, maxY), found, y);
    box := if found then Some(Rect(minX, minY, maxX, maxY)) else None;
  }

  lemma SpansNothing(img: Image)
    ensures Spans(img, Rect(img.x0 + img.Dx(), img.y0 + img.Dy(), img.x0, img.y0), false, img.x0, img.y0)
  {
  }

  lemma StepPixel(img: Image, box: Rect, found: bool, x: int, y: int)
    requires Spans(img, box, found, x, y) && img.Inside(x, y) && (x - img.x0) % 2 == 0 && (y - img.y0) % 2 == 0
    ensures !NearWhite(img.At(x, y)) ==> Spans(img, Widen(box, x, y), true, x + 2, y)
    ensures NearWhite(img.At(x, y)) ==> Spans(img, box, found, x + 2, y)
  {
    hide NearWhite, Spans;
    if NearWhite(img.At(x, y)) {
      ScannedPixel(img, x, y);
      SpansSame(img, box, found, x, y, x + 2, y);
    } else {
      SpansDark(img, box, found, x, y);
    }
  }

  lemma SpansAll(img: Image, box: Rect, found: bool, y: int)
    requires Spans(img, box, found, img.x0, y) && img.y0 + img.Dy() <= y
    ensures if found then TightBox(img, box) else forall i, j :: !Dark(img, i, j)
  {
    assert forall i, j :: Dark(img, i, j) <==> DarkBefore(img, i, j, img.x0, y);
    hide DarkBefore, Dark;
  }

  // ---------- cropping ----------

  // The box and a margin around it, as far as the image goes.
  function Grow(img: Image, box: Rect): Rect {
    Rect(Max(img.x0, box.minX - 20), Max(img.y0, box.minY - 20),
         Min(img.x0 + img.Dx(), box.maxX + 20), Min(img.y0 + img.Dy(), box.maxY + 20))
  }

  predicate TooSmall(img: Image, r: Rect) {
    r.maxX - r.minX < img.Dx() / 4 || r.maxY - r.minY < img.Dy() / 8
  }

  // The crop lies inside the image, and every dark pixel inside the crop.
  lemma GrowKeepsDark(img: Image, box: Rect)
    requires TightBox(img, box)
    ensures Fits(img, Grow(img, box)) && forall x, y :: Dark(img, x, y) ==> In(Grow(img, box), x, y)
  {
    hide NearWhite;
    var a :| Dark(img, box.minX, a);
    var b :| Dark(img, box.maxX, b);
    var c :| Dark(img, c, box.minY);
    var d :| Dark(img, d, box.maxY);
  }

  /** The page is left as it is when no sampled pixel is dark, or when the dark part with its margin
      is small; otherwise the crop is that part of the page, and no sampled dark pixel is lost. */
  method PrepareOCRImage(img: Image) returns (crop: Option<array2<Color>>, ghost area: Rect)
    ensures crop.Some? ==>
      Fits(img, area) && fresh(crop.value) && HoldsRect(crop.value, img, area) && !TooSmall(img, area) &&
      (forall x, y :: Dark(img, x, y) ==> In(area, x, y)) &&
      exists box :: TightBox(img, box) && area == Grow(img, box)
    ensures crop.None? ==>
      (forall x, y :: !Dark(img, x, y)) || exists box :: TightBox(img, box) && TooSmall(img, Grow(img, box))
  {
    hide NearWhite, Dark, HoldsRect, Stored;
    area := Rect(0, 0, 0, 0);
    var box := FindBox(img);
    if box.None? {
      return None, area;
    }
    var margin := 20;
    var minX := Max(img.x0, box.value.minX - margin);
    var minY := Max(img.y0, box.value.minY - margin);
    var maxX := Min(img.x0 + img.Dx(), box.value.maxX + margin);
    var maxY := Min(img.y0 + img.Dy(), box.value.maxY + margin);
    GrowKeepsDark(img, box.value);
    area := Grow(img, box.value);
    hide TightBox;
    if maxX - minX < img.Dx() / 4 || maxY - minY < img.Dy() / 8 {
      return None, area;
    }
    var copy := CopyRect(img, Rect(minX, minY, maxX, maxY));
    crop := Some(copy);
  }

  // The crop is dark where the page is.
  lemma CropAsDark(crop: array2<Color>, img: Image, r: Rect, x: int, y: int)
    requires Fits(img, r) && HoldsRect(crop, img, r) && In(r, x, y)
    ensures NearWhite(crop[x - r.minX, y - r.minY]) == NearWhite(img.At(x, y))
  {
    StoredKeeps(img.At(x, y));
    hide NearWhite, Stored;
  }

  // ---------- cutting a wide page in two ----------

  // dx/dy at least 2.2; an image of no height counts as wide.
  predicate Wide(img: Image) {
    10 * img.Dx() >= 22 * img.Dy()
  }

  function Midpoint(img: Image): int {
    img.x0 + img.Dx() / 2
  }

  // Putting the right half after the left gives the image back, as an RGBA image holds it.
  ghost predicate Rejoins(img: Image, left: array2<Color>, right: array2<Color>)
    reads img.pixels, left, right
  {
    left.Length0 + right.Length0 == img.Dx() && left.Length1 == right.Length1 == img.Dy() &&
    forall x, y :: img.Inside(x, y) ==>
      Stored(img.At(x, y)) == if x - img.x0 < left.Length0 then left[x - img.x0, y - img.y0]
                              else right[x - img.x0 - left.Length0, y - img.y0]
  }

  /** A page that is at least 2.2 times as wide as high is cut in the middle, and the two halves
      rejoin to the page pixel for pixel, at eight bits a channel; any other is left whole. */
  method SplitWideOCRImage(img: Image) returns (halves: Option<(array2<Color>, array2<Color>)>)
    ensures halves.Some? <==> Wide(img)
    ensures halves.Some? ==>
      fresh(halves.value.0) && fresh(halves.value.1) && Rejoins(img, halves.value.0, halves.value.1) &&
      0 <= halves.value.1.Length0 - halves.value.0.Length0 <= 1
  {
    hide Stored;
    if !Wide(img) {
      return None;
    }
    var midpoint := img.x0 + img.Dx() / 2;
    var left := CopyRect(img, Rect(img.x0, img.y0, midpoint, img.y0 + img.Dy()));
    var right := CopyRect(img, Rect(midpoint, img.y0, img.x0 + img.Dx(), img.y0 + img.Dy()));
    HalvesRejoin(img, left, right);
    halves := Some((left, right));
  }

  lemma HalvesRejoin(img: Image, left: array2<Color>, right: array2<Color>)
    requires HoldsRect(left, img, Rect(img.x0, img.y0, Midpoint(img), img.y0 + img.Dy()))
    requires HoldsRect(right, img, Rect(Midpoint(img), img.y0, img.x0 + img.Dx(), img.y0 + img.Dy()))
    ensures Rejoins(img, left, right)
  {
    hide Stored;
    var r := Rect(Midpoint(img), img.y0, img.x0 + img.Dx(), img.y0 + img.Dy());
    forall x, y | img.Inside(x, y) && Midpoint(img) <= x
      ensures Stored(img.At(x, y)) == right[x - img.x0 - left.Length0, y - img.y0]
    {
      assert In(r, x, y);
    }
    var l := Rect(img.x0, img.y0, Midpoint(img), img.y0 + img.Dy());
    forall x, y | img.Inside(x, y) && x < Midpoint(img) ensures Stored(img.At(x, y)) == left[x - img.x0, y - img.y0] {
      assert In(l, x, y);
    }
  }

  // ---------- the regions of a card ----------

  // A region of the card, as fractions of its width and height.
  datatype Region = Region(x1: real, y1: real, x2: real, y2: real)

  predicate Proper(region: Region) {
    0.0 <= region.x1 && region.x2 <= 1.0 && 0.0 <= region.y1 && region.y2 <= 1.0
  }

  const FRONT_TEMPLATE_REGIONS: seq<Region> := [
    Region(0.36, 0.23, 0.64, 0.36), Region(0.07, 0.36, 0.60, 0.54), Region(0.07, 0.53, 0.30, 0.67),
    Region(0.27, 0.53, 0.61, 0.67), Region(0.07, 0.66, 0.61, 0.92)]

  const BACK_TEMPLATE_REGIONS: seq<Region> := [
    Region(0.02, 0.01, 0.40, 0.12), Region(0.38, 0.47, 0.96, 0.70), Region(0.38, 0.74, 0.68, 0.95),
    Region(0.66, 0.74, 0.96, 0.95)]

  // The regions that the service cuts out all lie on the card.
  lemma TemplatesProper(region: Region)
    requires region in FRONT_TEMPLATE_REGIONS + BACK_TEMPLATE_REGIONS
    ensures Proper(region)
  {
    var all := FRONT_TEMPLATE_REGIONS + BACK_TEMPLATE_REGIONS;
    assert |all| == 9;
    var i :| 0 <= i < 9 && all[i] == region;
  }

  function RegionRect(img: Image, region: Region): Rect {
    Rect(img.x0 + (img.Dx() as real * region.x1).Floor, img.y0 + (img.Dy() as real * region.y1).Floor,
         img.x0 + (img.Dx() as real * region.x2).Floor, img.y0 + (img.Dy() as real * region.y2).Floor)
  }

  predicate Empty(r: Rect) {
    r.maxX <= r.minX || r.maxY <= r.minY
  }

  lemma FloorWithin(n: nat, f: real)
    ensures 0.0 <= f ==> 0 <= (n as real * f).Floor
    ensures f <= 1.0 ==> (n as real * f).Floor <= n
  {
    assert f <= 1.0 ==> n as real * f <= n as real;
  }

  // A proper region that is not empty lies inside the image.
  lemma RegionFits(img: Image, region: Region)
    requires Proper(region) && !Empty(RegionRect(img, region))
    ensures Fits(img, RegionRect(img, region))
  {
    FloorWithin(img.Dx(), region.x1);
    FloorWithin(img.Dy(), region.y1);
    FloorWithin(img.Dx(), region.x2);
    FloorWithin(img.Dy(), region.y2);
  }

  // Every pixel of the rectangle, cleaned, as a square of three by three.
  ghost predicate Enlarges(crop: array2<Gray8>, img: Image, r: Rect)
    requires Fits(img, r)
    reads crop, img.pixels
  {
    crop.Length0 == 3 * (r.maxX - r.minX) && crop.Length1 == 3 * (r.maxY - r.minY) &&
    forall x, y :: 0 <= x < crop.Length0 && 0 <= y < crop.Length1 ==>
      crop[x, y] == CleanPixel(img.At(r.minX + x / 3, r.minY + y / 3))
  }

  lemma Thirds(r: Rect, x: int, y: int)
    requires 0 <= x < 3 * (r.maxX - r.minX) && 0 <= y < 3 * (r.maxY - r.minY)
    ensures In(r, r.minX + x / 3, r.minY + y / 3)
  {
  }

  /** Cuts a region out and enlarges it three times. Only pixels of the region are read: the call
      that reads one is given no others. */
  method WriteTemplateRegion(img: Image, region: Region) returns (crop: Option<array2<Gray8>>)
    requires Proper(region)
    ensures crop.None? <==> Empty(RegionRect(img, region))
    ensures crop.Some? ==>
      Fits(img, RegionRect(img, region)) && fresh(crop.value) && Enlarges(crop.value, img, RegionRect(img, region))
  {
    hide CleanPixel;
    var r := RegionRect(img, region);
    if r.maxX <= r.minX || r.maxY <= r.minY {
      return None;
    }
    RegionFits(img, region);
    hide RegionRect;
    var scale := 3;
    var width, height := (r.maxX - r.minX) * scale, (r.maxY - r.minY) * scale;
    var out := new Gray8[width, height]((_, _) => 0);
    for y := 0 to height
      modifies out
      invariant forall i, j :: 0 <= i < width && 0 <= j < y ==> out[i, j] == CleanedAt(img, r, i, j)
    {
      for x := 0 to width
        modifies out
        invariant forall i, j :: 0 <= i < width && 0 <= j < y ==> out[i, j] == CleanedAt(img, r, i, j)
        invariant forall i :: 0 <= i < x ==> out[i, y] == CleanedAt(img, r, i, y)
      {
        Thirds(r, x, y);
        var value := Clean(img, r.minX + x / scale, r.minY + y / scale);
        out[x, y] := value;
      }
    }
    crop := Some(out);
  }

  function CleanedAt(img: Image, r: Rect, x: int, y: int): Gray8
    requires Fits(img, r) && 0 <= x < 3 * (r.maxX - r.minX) && 0 <= y < 3 * (r.maxY - r.minY)
    reads img.pixels
  {
    Thirds(r, x, y);
    CleanPixel(img.At(r.minX + x / 3, r.minY + y / 3))
  }

  method Clean(img: Image, x: int, y: int) returns (value: Gray8)
    requires img.Inside(x, y)
    ensures value == CleanPixel(img.At(x, y))
  {
    var c := img.At(x, y);
    var red, green, blue := High(c.red), High(c.green), High(c.blue);
    var maxChannel, minChannel := Max(red, Max(green, blue)), Min(red, Min(green, blue));
    if maxChannel - minChannel > 38 && maxChannel > 75 {
      return 255;
    }
    value := Luminance(c);
    if value > 205 {
      value := 255;
    } else if value < 95 {
      value := 0;
    }
  }

  // Taking every third pixel of the enlarged region gives back the cleaned region.
  lemma EveryThirdPixel(crop: array2<Gray8>, img: Image, r: Rect, x: int, y: int)
    requires Fits(img, r) && In(r, x, y) && Enlarges(crop, img, r)
    ensures crop[3 * (x - r.minX), 3 * (y - r.minY)] == CleanPixel(img.At(x, y))
  {
    hide CleanPixel;
    assert 3 * (x - r.minX) / 3 == x - r.minX && 3 * (y - r.minY) / 3 == y - r.minY;
  }
}

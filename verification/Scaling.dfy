/** Frame geometry and nearest-neighbour scaling of BGRA buffers. `r` is the rounding of the 64-bit floats the width goes through. */
module Scaling {
  import opened Basics
  import opened Floats

  datatype Frame = Frame(width: u32, height: u32, timestamp: u64, data: bytes) {
    predicate Valid() {
      |data| == 4 * (width * height)
    }

    predicate Empty() {
      width == 0 || height == 0
    }
  }

  // ---------- dimensions ----------

  function MakeEven(v: u32): (r: u32)
    ensures r % 2 == 0 && r >= 2
    ensures v >= 2 ==> v - 1 <= r <= v
    ensures v < 2 ==> r == 2
  {
    var e := v - v % 2;
    if e < 2 then 2 else e
  }

  lemma MulOrder(a: nat, b: nat, c: nat)
    requires a <= b
    ensures a * c <= b * c && c * a <= c * b
  {
  }

  lemma QuotientBelow(a: nat, b: nat, c: nat)
    requires b > 0 && a < b * c
    ensures a / b < c
  {
    assert a == b * (a / b) + a % b;
    if a / b >= c { MulOrder(c, a / b, b); }
  }

  lemma QuotientAtLeast(a: nat, b: nat, q: nat)
    requires b > 0 && b * q <= a
    ensures q <= a / b
  {
    assert a == b * (a / b) + a % b;
    if a / b < q { MulOrder(a / b + 1, q, b); }
  }

  /** The width times the ratio of the heights, in floats, before it is rounded to an integer. */
  function FloatWidth(r: Rounding, w: u32, m: u32, h: u32): real
    requires h > 0
  {
    r(w as real * r(m as real / h as real))
  }

  /** The ratio loses at most its relative error. */
  lemma RatioNear(r: Rounding, m: u32, h: u32)
    requires Binary64(r) && m <= h && h > 0
    ensures 0.0 <= m as real / h as real <= 1.0 && 0.0 <= r(m as real / h as real) <= 1.0
    ensures var x := m as real / h as real; 0.99999999999999988897 * x <= r(x) <= 1.00000000000000011103 * x
  {
    var x := m as real / h as real;
    assert x * h as real == m as real;
    assert ExactAt(r, 0) && ExactAt(r, 1);
    if m > 0 {
      assert x >= 1.0 / h as real >= 0.0000000002;
    }
  }

  /** Scaling down does not widen. */
  lemma WidthFits(r: Rounding, w: u32, m: u32, h: u32)
    requires Binary64(r) && m <= h && h > 0
    ensures 0.0 <= FloatWidth(r, w, m, h) <= w as real
    ensures 0 <= (FloatWidth(r, w, m, h) + 0.5).Floor <= w
  {
    RatioNear(r, m, h);
    var scale := r(m as real / h as real);
    ProductOrder(0.0, scale, w as real);
    ProductOrder(scale, 1.0, w as real);
    assert ExactAt(r, w) && ExactAt(r, 0);
  }

  /** `round() as u32`: to the nearest integer, halves up. */
  function ScaledWidth(r: Rounding, w: u32, m: u32, h: u32): (q: u32)
    requires Binary64(r) && m <= h && h > 0
    ensures q <= w
  {
    WidthFits(r, w, m, h);
    (FloatWidth(r, w, m, h) + 0.5).Floor
  }

  function FitDimensions(r: Rounding, w: u32, h: u32, maxH: u32): (u32, u32)
    requires Binary64(r)
  {
    if w == 0 || h == 0 then (2, 2)
    else if h <= maxH then (MakeEven(w), MakeEven(h))
    else (MakeEven(ScaledWidth(r, w, maxH, h)), MakeEven(maxH))
  }

  // ---------- pixels ----------

  /** Which of `from` rows (or columns) row `d` of `to` is taken from. */
  function Nearest(d: nat, from: nat, to: nat): nat
    requires to > 0
  {
    d * from / to
  }

  lemma NearestInside(d: nat, from: nat, to: nat)
    requires d < to && from > 0
    ensures Nearest(d, from, to) < from
  {
    assert d * from < to * from by { assert (to - d) * from > 0; }
    QuotientBelow(d * from, to, from);
  }

  /** Sampling keeps order, and takes nothing twice when it shrinks. */
  lemma NearestOrdered(d: nat, e: nat, from: nat, to: nat)
    requires d <= e < to
    ensures Nearest(d, from, to) <= Nearest(e, from, to)
    ensures d < e && to <= from ==> Nearest(d, from, to) < Nearest(e, from, to)
  {
    var q := Nearest(d, from, to);
    assert d * from == to * q + (d * from) % to;
    MulOrder(d, e, from);
    QuotientAtLeast(e * from, to, q);
    if d < e && to <= from {
      MulOrder(d + 1, e, from);
      assert (d + 1) * from == d * from + from;
      assert to * (q + 1) == to * q + to;
      QuotientAtLeast(e * from, to, q + 1);
    }
  }

  lemma NearestSame(d: nat, n: nat)
    requires n > 0
    ensures Nearest(d, n, n) == d
  {
    QuotientBelow(d * n, n, d + 1);
    QuotientAtLeast(d * n, n, d);
  }

  /** The source pixel of destination pixel `p`, both counted row by row. */
  function SourcePixel(p: nat, sw: nat, sh: nat, dw: nat, dh: nat): nat
    requires dw > 0 && dh > 0
  {
    Nearest(p / dw, sh, dh) * sw + Nearest(p % dw, sw, dw)
  }

  /** Pixel (x, y) of a buffer `w` pixels wide. */
  function PixelAt(x: nat, y: nat, w: nat): nat {
    y * w + x
  }

  lemma PixelInside(x: nat, y: nat, w: nat, h: nat)
    requires x < w && y < h
    ensures PixelAt(x, y, w) < w * h
    ensures PixelAt(x, y, w) / w == y && PixelAt(x, y, w) % w == x
  {
    MulOrder(y + 1, h, w);
    assert (y + 1) * w == y * w + w;
    var p := PixelAt(x, y, w);
    QuotientBelow(p, w, y + 1);
    QuotientAtLeast(p, w, y);
    assert p == w * (p / w) + p % w;
  }

  /** The code indexes the source up to the pixel of the last destination pixel: what it needs not to panic. */
  predicate Covers(src: Frame, dw: nat, dh: nat)
    requires dw > 0 && dh > 0
  {
    |src.data| >= 4 * (Nearest(dh - 1, src.height, dh) * src.width + Nearest(dw - 1, src.width, dw)) + 4
  }

  lemma ReadsInside(src: Frame, dw: nat, dh: nat, x: nat, y: nat)
    requires x < dw && y < dh && Covers(src, dw, dh)
    ensures 4 * (Nearest(y, src.height, dh) * src.width + Nearest(x, src.width, dw)) + 4 <= |src.data|
  {
    NearestOrdered(x, dw - 1, src.width, dw);
    NearestOrdered(y, dh - 1, src.height, dh);
    MulOrder(Nearest(y, src.height, dh), Nearest(dh - 1, src.height, dh), src.width);
  }

  lemma PixelBack(p: nat, w: nat, h: nat)
    requires p < w * h
    ensures w > 0 && p % w < w && p / w < h
    ensures PixelAt(p % w, p / w, w) == p
  {
    assert w > 0;
    QuotientBelow(p, w, h);
    assert p == w * (p / w) + p % w;
  }

  /** A valid, non-empty source is enough. */
  lemma ValidCovers(src: Frame, dw: nat, dh: nat)
    requires src.Valid() && !src.Empty() && dw > 0 && dh > 0
    ensures Covers(src, dw, dh)
  {
    NearestInside(dw - 1, src.width, dw);
    NearestInside(dh - 1, src.height, dh);
    PixelInside(Nearest(dw - 1, src.width, dw), Nearest(dh - 1, src.height, dh), src.width, src.height);
  }

  lemma PixelReadInside(src: Frame, dw: nat, dh: nat, p: nat)
    requires dw > 0 && dh > 0 && Covers(src, dw, dh) && p < dw * dh
    ensures 4 * SourcePixel(p, src.width, src.height, dw, dh) + 4 <= |src.data|
  {
    PixelBack(p, dw, dh);
    ReadsInside(src, dw, dh, p % dw, p / dw);
  }

  /** The first `n` pixels of the scaled buffer. */
  function ScaledPixels(src: Frame, dw: nat, dh: nat, n: nat): (data: bytes)
    requires dw > 0 && dh > 0 && Covers(src, dw, dh) && n <= dw * dh
    ensures |data| == 4 * n
  {
    if n == 0 then [] else
    PixelReadInside(src, dw, dh, n - 1);
    var si := 4 * SourcePixel(n - 1, src.width, src.height, dw, dh);
    ScaledPixels(src, dw, dh, n - 1) + src.data[si..si + 4]
  }

  function ScaledData(src: Frame, dw: nat, dh: nat): (data: bytes)
    requires dw > 0 && dh > 0 && Covers(src, dw, dh)
    ensures |data| == 4 * (dw * dh)
  {
    ScaledPixels(src, dw, dh, dw * dh)
  }

  function AtLeastOne(n: u32): u32 {
    if n < 1 then 1 else n
  }

  /** What the code needs: the clone of the equal-size shortcut reads nothing. */
  predicate Scalable(src: Frame, w: u32, h: u32) {
    var dw, dh := AtLeastOne(w), AtLeastOne(h);
    (src.width == dw && src.height == dh) || Covers(src, dw, dh)
  }

  function Scaled(src: Frame, w: u32, h: u32): Frame
    requires Scalable(src, w, h)
  {
    var dw, dh := AtLeastOne(w), AtLeastOne(h);
    if src.width == dw && src.height == dh then src else Frame(dw, dh, src.timestamp, ScaledData(src, dw, dh))
  }

  /** Pixel (x, y) of the result is pixel (floor(x * sw / dw), floor(y * sh / dh)) of the source, all four bytes. */
  lemma ScaledPixel(src: Frame, dw: nat, dh: nat, x: nat, y: nat, c: nat)
    requires x < dw && y < dh && c < 4 && Covers(src, dw, dh)
    ensures 4 * PixelAt(x, y, dw) + c < 4 * (dw * dh)
    ensures 4 * PixelAt(Nearest(x, src.width, dw), Nearest(y, src.height, dh), src.width) + c < |src.data|
    ensures ScaledData(src, dw, dh)[4 * PixelAt(x, y, dw) + c]
         == src.data[4 * PixelAt(Nearest(x, src.width, dw), Nearest(y, src.height, dh), src.width) + c]
  {
    PixelInside(x, y, dw, dh);
    ReadsInside(src, dw, dh, x, y);
    ByteFromPixel(src, dw, dh, dw * dh, PixelAt(x, y, dw), c);
  }

  lemma {:induction false} ByteFromPixel(src: Frame, dw: nat, dh: nat, n: nat, p: nat, c: nat)
    requires dw > 0 && dh > 0 && Covers(src, dw, dh) && p < n <= dw * dh && c < 4
    requires 4 * SourcePixel(p, src.width, src.height, dw, dh) + 4 <= |src.data|
    ensures ScaledPixels(src, dw, dh, n)[4 * p + c] == src.data[4 * SourcePixel(p, src.width, src.height, dw, dh) + c]
  {
    PixelReadInside(src, dw, dh, n - 1);
    if p < n - 1 { ByteFromPixel(src, dw, dh, n - 1, p, c); }
  }

  /** The equal-size shortcut gives what the loops would. */
  lemma ShortcutAgrees(src: Frame)
    requires src.Valid() && !src.Empty()
    ensures Covers(src, src.width, src.height) && ScaledData(src, src.width, src.height) == src.data
  {
    var w, h := src.width as nat, src.height as nat;
    ValidCovers(src, w, h);
    forall i | 0 <= i < |src.data| ensures ScaledData(src, w, h)[i] == src.data[i] {
      SamePixel(i / 4, w, h);
      ByteFromPixel(src, w, h, w * h, i / 4, i % 4);
    }
  }

  lemma SamePixel(p: nat, w: nat, h: nat)
    requires p < w * h
    ensures w > 0 && h > 0 && SourcePixel(p, w, h, w, h) == p
  {
    PixelBack(p, w, h);
    NearestSame(p % w, w);
    NearestSame(p / w, h);
  }

  // ---------- downscaling ----------

  function Downscaled(r: Rounding, f: Frame, maxH: u32): Frame
    requires Binary64(r) && f.Valid() && !f.Empty()
  {
    var (w, h) := FitDimensions(r, f.width, f.height, maxH);
    if w == f.width && h == f.height then f else
    ValidCovers(f, w, h);
    Scaled(f, w, h)
  }

  /** The result is valid, non-empty and of even size. */
  lemma DownscaledIsSound(r: Rounding, f: Frame, maxH: u32)
    requires Binary64(r) && f.Valid() && !f.Empty()
    ensures var d := Downscaled(r, f, maxH);
      && d.Valid() && !d.Empty() && d.timestamp == f.timestamp && d.width % 2 == 0 && d.height % 2 == 0
      && (d.width, d.height) == FitDimensions(r, f.width, f.height, maxH)
  {
  }

  /** Neither side grows exactly when neither side of the source is 1: a side of 1 becomes 2. */
  lemma NeverGrowsIff(r: Rounding, f: Frame, maxH: u32)
    requires Binary64(r) && f.Valid() && !f.Empty()
    ensures var d := Downscaled(r, f, maxH); d.width <= f.width && d.height <= f.height <==> f.width >= 2 && f.height >= 2
  {
    DownscaledIsSound(r, f, maxH);
  }

  /** The height stays within the bound exactly when the bound is at least 2. */
  lemma HeightBoundIff(r: Rounding, f: Frame, maxH: u32)
    requires Binary64(r) && f.Valid() && !f.Empty()
    ensures Downscaled(r, f, maxH).height <= maxH <==> maxH >= 2
  {
  }

  lemma WidthAtOne(r: Rounding, w: u32)
    requires Binary64(r)
    ensures ScaledWidth(r, w, 1, 1) == w
  {
    assert ExactAt(r, 1) && ExactAt(r, w);
    assert 1 as real / 1 as real == 1.0;
  }

  lemma WidthHalved(r: Rounding, w: u32)
    requires Binary64(r) && w % 2 == 0
    ensures ScaledWidth(r, w, 1, 2) == w / 2
  {
    assert 1 as real / 2 as real == 0.5;
    assert w as real * 0.5 == (w / 2) as real;
    assert ExactAt(r, w / 2);
  }

  lemma WidthAtZero(r: Rounding, w: u32, h: u32)
    requires Binary64(r) && h > 0
    ensures ScaledWidth(r, w, 0, h) == 0
  {
    assert 0 as real / h as real == 0.0;
    assert ExactAt(r, 0);
  }

  /** The two passes in integers: `q` and `q2` are the widths they round to. */
  lemma EvenTwice(q: u32, q2: u32)
    requires q2 == MakeEven(q) / 2
    ensures MakeEven(q2) == MakeEven(q) <==> q <= 3
  {
  }

  lemma SecondPassAtOne(r: Rounding, w: u32, h: u32)
    requires Binary64(r) && w > 0 && h > 0
    ensures FitDimensions(r, w, h, 1) == (MakeEven(ScaledWidth(r, w, 1, h)), 2)
    ensures var (w1, h1) := FitDimensions(r, w, h, 1);
      FitDimensions(r, w1, h1, 1) == (w1, h1) <==> ScaledWidth(r, w, 1, h) <= 3
  {
    if h == 1 { WidthAtOne(r, w); }
    var q := ScaledWidth(r, w, 1, h);
    WidthHalved(r, MakeEven(q));
    EvenTwice(q, ScaledWidth(r, MakeEven(q), 1, 2));
  }

  lemma SecondPassAtZero(r: Rounding, w: u32, h: u32)
    requires Binary64(r) && w > 0 && h > 0
    ensures FitDimensions(r, w, h, 0) == (2, 2) && FitDimensions(r, 2, 2, 0) == (2, 2)
  {
    WidthAtZero(r, w, h);
    WidthAtZero(r, 2, 2);
  }

  /** What a second pass does to the dimensions of the first. */
  lemma SecondPass(r: Rounding, w: u32, h: u32, maxH: u32)
    requires Binary64(r) && w > 0 && h > 0
    ensures var (w1, h1) := FitDimensions(r, w, h, maxH);
      FitDimensions(r, w1, h1, maxH) == (w1, h1) <==> maxH != 1 || ScaledWidth(r, w, 1, h) <= 3
  {
    if maxH == 1 {
      SecondPassAtOne(r, w, h);
    } else if maxH == 0 {
      SecondPassAtZero(r, w, h);
    }
  }

  /**
   A second pass with the same bound changes nothing, exactly when the bound is not 1 or the frame scaled to a height of 1
   is at most three pixels wide. Otherwise every pass halves the width again.
   */
  lemma IdempotentIff(r: Rounding, f: Frame, maxH: u32)
    requires Binary64(r) && f.Valid() && !f.Empty()
    ensures var d := Downscaled(r, f, maxH);
      && d.Valid() && !d.Empty()
      && (Downscaled(r, d, maxH) == d <==> maxH != 1 || ScaledWidth(r, f.width, 1, f.height) <= 3)
  {
    DownscaledIsSound(r, f, maxH);
    var d := Downscaled(r, f, maxH);
    DownscaledIsSound(r, d, maxH);
    SecondPass(r, f.width, f.height, maxH);
  }

  /** For instance, a frame of 100 by 2 goes to a width of 50 and then of 24. */
  lemma HalvedAgain(r: Rounding, f: Frame)
    requires Binary64(r) && f.width == 100 && f.height == 2 && f.Valid()
    ensures var d := Downscaled(r, f, 1); d.width == 50 && d.Valid() && !d.Empty() && Downscaled(r, d, 1).width == 24
  {
    DownscaledIsSound(r, f, 1);
    WidthHalved(r, 100);
    WidthHalved(r, 50);
  }

  /** The width, before it is made even, is within half a pixel and a millionth of the exact one. */
  lemma RoundsToNearest(r: Rounding, w: u32, m: u32, h: u32)
    requires Binary64(r) && m <= h && h > 0
    ensures var exact := w as real * (m as real / h as real);
      exact - 0.500001 <= ScaledWidth(r, w, m, h) as real <= exact + 0.500001
  {
    WidthFits(r, w, m, h);
    WidthNear(r, w, m, h);
  }

  /** Two roundings of a number up to 2^32 lose less than a millionth. */
  lemma TwoRoundings(r: Rounding, w: real, x: real, scale: real) returns (product: real, exact: real)
    requires Binary64(r) && 0.0 <= w <= 4_294_967_296.0 && 0.0 <= x <= 1.0
    requires 0.99999999999999988897 * x <= scale <= 1.00000000000000011103 * x && 0.0 <= scale <= 1.0
    ensures product == w * scale && exact == w * x
    ensures exact - 0.000001 <= r(product) <= exact + 0.000001
  {
    product, exact := ErrorScales(w, x, scale);
    var p := FractionOf(w, scale);
    var e := FractionOf(w, x);
    OneRounding(r, product, exact);
  }

  lemma OneRounding(r: Rounding, product: real, exact: real)
    requires Binary64(r) && 0.0 <= exact <= 4_294_967_296.0 && 0.0 <= product
    requires 0.99999999999999988897 * exact <= product <= 1.00000000000000011103 * exact
    ensures exact - 0.000001 <= r(product) <= exact + 0.000001
  {
    assert ExactAt(r, 0);
    if product >= 0.00000000001 {
      assert 0.99999999999999988897 * product <= r(product) <= 1.00000000000000011103 * product;
    } else {
      assert r(0.0) <= r(product) <= r(0.00000000001);
    }
  }

  lemma WidthNear(r: Rounding, w: u32, m: u32, h: u32)
    requires Binary64(r) && m <= h && h > 0
    ensures var exact := w as real * (m as real / h as real); exact - 0.000001 <= FloatWidth(r, w, m, h) <= exact + 0.000001
  {
    RatioNear(r, m, h);
    var x := m as real / h as real;
    var product, exact := TwoRoundings(r, w as real, x, r(x));
  }

  /** So the width follows the height's ratio to within a pixel and a half and a millionth, unless the floor of 2 lifts it. */
  lemma AspectKept(r: Rounding, w: u32, h: u32, maxH: u32)
    requires Binary64(r) && w > 0 && h > maxH
    ensures var w', exact := FitDimensions(r, w, h, maxH).0 as real, w as real * (maxH as real / h as real);
      exact - 1.500001 <= w' && (w' == 2.0 || w' <= exact + 0.500001)
  {
    RoundsToNearest(r, w, maxH, h);
    EvenStaysNear(ScaledWidth(r, w, maxH, h), w as real * (maxH as real / h as real));
  }

  lemma EvenStaysNear(q: u32, exact: real)
    requires exact - 0.500001 <= q as real <= exact + 0.500001
    ensures var w := MakeEven(q) as real; exact - 1.500001 <= w && (w == 2.0 || w <= exact + 0.500001)
  {
  }

  /** What is left of a side: its even part, and never less than 2. */
  predicate EvenPart(side: u32, even: u32) {
    even % 2 == 0 && even >= 2 && (side >= 2 ==> side - 1 <= even <= side) && (side < 2 ==> even == 2)
  }

  /**
   An empty frame is fitted to 2x2; one within the bound keeps both sides but for oddness, and one above it gets the
   bound's even part as its height.
   */
  lemma FittedSides(r: Rounding, w: u32, h: u32, maxH: u32)
    requires Binary64(r)
    ensures var (w', h') := FitDimensions(r, w, h, maxH);
      && (w == 0 || h == 0 ==> w' == h' == 2)
      && (w > 0 && 0 < h <= maxH ==> EvenPart(w, w') && EvenPart(h, h'))
      && (w > 0 && h > maxH ==> EvenPart(maxH, h') && w' <= (if w < 2 then 2 else w))
  {
  }

  // ---------- the code ----------

  /** Destination pixel (x, y) is the next one after the rows above and the pixels to its left. */
  lemma NextPixel(src: Frame, dw: nat, dh: nat, x: nat, y: nat, p: nat, sx: nat, sy: nat, si: nat)
    requires x < dw && y < dh && Covers(src, dw, dh)
    requires p == y * dw + x && sy == y * src.height / dh && sx == x * src.width / dw && si == (sy * src.width + sx) * 4
    ensures p < dw * dh && si + 4 <= |src.data|
    ensures ScaledPixels(src, dw, dh, p + 1) == ScaledPixels(src, dw, dh, p) + src.data[si..si + 4]
  {
    PixelInside(x, y, dw, dh);
    ReadsInside(src, dw, dh, x, y);
    assert si == 4 * SourcePixel(p, src.width, src.height, dw, dh);
  }

  /** `data[di..di + 4].copy_from_slice(&src[si..si + 4])` */
  method CopyPixel(data: array<byte>, di: nat, src: bytes, si: nat)
    requires di + 4 <= data.Length && si + 4 <= |src|
    modifies data
    ensures data[..di + 4] == old(data[..di]) + src[si..si + 4] && data[di + 4..] == old(data[di + 4..])
  {
    data[di], data[di + 1], data[di + 2], data[di + 3] := src[si], src[si + 1], src[si + 2], src[si + 3];
  }

  method ScaleBgraNearest(src: Frame, w: u32, h: u32) returns (r: Frame)
    requires Scalable(src, w, h)
    ensures r == Scaled(src, w, h)
  {
    var dw, dh := AtLeastOne(w), AtLeastOne(h);
    if src.width == dw && src.height == dh {
      return src;
    }
    var data := ScaleLoops(src, dw, dh);
    return Frame(dw, dh, src.timestamp, data[..]);
  }

  lemma RowInside(dw: nat, dh: nat, dy: nat)
    requires dy < dh
    ensures 0 <= dy * dw && (dy + 1) * dw == dy * dw + dw <= dw * dh
  {
    MulOrder(dy + 1, dh, dw);
  }

  /** A zeroed buffer, filled by two loops; the inner one is `ScaleRow`. */
  method ScaleLoops(src: Frame, dw: nat, dh: nat) returns (data: array<byte>)
    requires dw > 0 && dh > 0 && Covers(src, dw, dh)
    ensures fresh(data) && data[..] == ScaledData(src, dw, dh)
  {
    data := new byte[4 * (dw * dh)](_ => 0);
    ScaleRows(src, dw, dh, data);
    WholeArray(data, dw, dh);
  }

  method ScaleRows(src: Frame, dw: nat, dh: nat, data: array<byte>)
    requires dw > 0 && dh > 0 && Covers(src, dw, dh) && data.Length == 4 * (dw * dh)
    modifies data
    ensures data[..4 * (dw * dh)] == ScaledPixels(src, dw, dh, dw * dh)
  {
    for dy := 0 to dh
      invariant 0 <= dy * dw <= dw * dh
      invariant data[..4 * (dy * dw)] == ScaledPixels(src, dw, dh, dy * dw)
    {
      ScaleNextRow(src, dw, dh, dy, data);
    }
    assert dh * dw == dw * dh;
  }

  lemma WholeArray(data: array<byte>, dw: nat, dh: nat)
    requires data.Length == 4 * (dw * dh)
    ensures data[..] == data[..4 * (dw * dh)]
  {
  }

  method ScaleNextRow(src: Frame, dw: nat, dh: nat, dy: nat, data: array<byte>)
    requires dw > 0 && dy < dh && Covers(src, dw, dh) && data.Length == 4 * (dw * dh)
    requires 0 <= dy * dw <= dw * dh && data[..4 * (dy * dw)] == ScaledPixels(src, dw, dh, dy * dw)
    modifies data
    ensures 0 <= (dy + 1) * dw <= dw * dh && data[..4 * ((dy + 1) * dw)] == ScaledPixels(src, dw, dh, (dy + 1) * dw)
  {
    RowInside(dw, dh, dy);
    ScaleRow(src, dw, dh, dy, data, dy * dw);
  }

  method ScaleRow(src: Frame, dw: nat, dh: nat, dy: nat, data: array<byte>, row: nat)
    requires dw > 0 && dy < dh && Covers(src, dw, dh) && data.Length == 4 * (dw * dh)
    requires row == dy * dw && row + dw <= dw * dh
    requires data[..4 * row] == ScaledPixels(src, dw, dh, row)
    modifies data
    ensures data[..4 * (row + dw)] == ScaledPixels(src, dw, dh, row + dw)
  {
    var sy := Nearest(dy, src.height, dh);
    for dx := 0 to dw
      invariant data[..4 * (row + dx)] == ScaledPixels(src, dw, dh, row + dx)
    {
      ScalePixel(src, dw, dh, dx, dy, sy, data, row + dx);
    }
  }

  /** The body of the inner loop, for the `p`-th pixel. */
  method ScalePixel(src: Frame, dw: nat, dh: nat, dx: nat, dy: nat, sy: nat, data: array<byte>, p: nat)
    requires dx < dw && dy < dh && Covers(src, dw, dh) && data.Length == 4 * (dw * dh)
    requires p == dy * dw + dx && p < dw * dh && sy == Nearest(dy, src.height, dh)
    requires data[..4 * p] == ScaledPixels(src, dw, dh, p)
    modifies data
    ensures data[..4 * (p + 1)] == ScaledPixels(src, dw, dh, p + 1)
  {
    var si := SourceOffset(src, dw, dh, dx, dy, sy, p);
    CopyPixel(data, p * 4, src.data, si);
  }

  method SourceOffset(src: Frame, dw: nat, dh: nat, dx: nat, dy: nat, sy: nat, ghost p: nat) returns (si: nat)
    requires dx < dw && dy < dh && Covers(src, dw, dh)
    requires p == dy * dw + dx && p < dw * dh && sy == Nearest(dy, src.height, dh)
    ensures si + 4 <= |src.data|
    ensures ScaledPixels(src, dw, dh, p + 1) == ScaledPixels(src, dw, dh, p) + src.data[si..si + 4]
  {
    var sx := Nearest(dx, src.width, dw);
    si := PixelAt(sx, sy, src.width) * 4;
    NextPixel(src, dw, dh, dx, dy, p, sx, sy, si);
  }

  /** Nothing is asked of a frame that fits already. */
  method DownscaleToMaxHeight(r: Rounding, f: Frame, maxH: u32) returns (d: Frame)
    requires Binary64(r)
    requires Scalable(f, FitDimensions(r, f.width, f.height, maxH).0, FitDimensions(r, f.width, f.height, maxH).1)
    ensures d == Scaled(f, FitDimensions(r, f.width, f.height, maxH).0, FitDimensions(r, f.width, f.height, maxH).1)
    ensures f.Valid() && !f.Empty() ==> d == Downscaled(r, f, maxH)
  {
    var (w, h) := FitDimensions(r, f.width, f.height, maxH);
    if w == f.width && h == f.height {
      return f;
    }
    d := ScaleBgraNearest(f, w, h);
  }
}

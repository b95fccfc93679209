/** The matrix rain effect.  One random speed is drawn per 20-pixel column;
    then the buffer is scanned column by column, top to bottom, and each
    pixel draws one random number: below `0.1 * strength / 50` its red,
    green and blue channels become (0, 255, 0).  The per-column drop offset
    the scan computes is never used, so the speeds only consume draws.

    The random source is the parameter `draws`: `draws(k)` is the `k`-th
    number drawn, counting from 0. */
module MatrixEffect {

  import opened Pixels

  /** How many drop speeds are drawn before the scan. */
  function Columns(w: nat): (n: nat)
    ensures 20 * n <= w < 20 * (n + 1)
  {
    w / 20
  }

  /** The draw made for the pixel at column `x`, row `y` of a `w` by `h` buffer. */
  function DrawIndex(w: nat, h: nat, x: nat, y: nat): nat {
    Columns(w) + x * h + y
  }

  /** The pixel at (x, y) turns green. */
  predicate Rains(draws: nat -> real, strength: real, w: nat, h: nat, x: nat, y: nat) {
    draws(DrawIndex(w, h, x, y)) < 0.1 * (strength / 50.0)
  }

  function Green(p: Rgba): Rgba {
    Rgba(0, 255, 0, p.a)
  }

  /** The pixel at (x, y) after the pass, given its original value `p`. */
  function RainAt(draws: nat -> real, strength: real, w: nat, h: nat, x: nat, y: nat, p: Rgba): Rgba {
    if Rains(draws, strength, w, h, x, y) then Green(p) else p
  }

  function RainPixel(draws: nat -> real, strength: real, w: nat, h: nat, q: nat, p: Rgba): Rgba {
    if w > 0 then RainAt(draws, strength, w, h, q % w, q / w, p) else p
  }

  /** The buffer the matrix pass leaves behind. */
  function Rained(data: seq<int>, w: nat, h: nat, strength: real, draws: nat -> real): seq<int>
    requires |data| == 4 * (w * h)
  {
    MapPixels(data, (q: nat, p: Rgba) => RainPixel(draws, strength, w, h, q, p))
  }

  /** The scan has visited the columns before `x` and the first `y` pixels
      of column `x`: those pixels hold their rained value, the rest their
      original one. */
  predicate ScannedTo(data: seq<int>, pixels: seq<int>, w: nat, h: nat, strength: real, draws: nat -> real, x: nat, y: nat)
    requires |data| == |pixels| == 4 * (w * h)
  {
    forall i, j :: 0 <= i < w && 0 <= j < h ==>
      && Index(w, i, j) < w * h
      && PixelAt(pixels, Index(w, i, j)) ==
           if i < x || (i == x && j < y) then RainAt(draws, strength, w, h, i, j, PixelAt(data, Index(w, i, j)))
           else PixelAt(data, Index(w, i, j))
  }

  /** The scan: columns left to right, each column top to bottom. */
  method ApplyMatrix(data: seq<int>, w: nat, h: nat, strength: real, draws: nat -> real)
    returns (pixels: seq<int>)
    requires |data| == 4 * (w * h)
    ensures pixels == Rained(data, w, h, strength, draws)
  {
    var columns := Columns(w);
    pixels := data;
    ScanStart(data, w, h, strength, draws);
    var x := 0;
    while x < w
      invariant 0 <= x <= w && |pixels| == |data|
      invariant ScannedTo(data, pixels, w, h, strength, draws, x, 0)
    {
      var y := 0;
      while y < h
        invariant 0 <= y <= h && |pixels| == |data|
        invariant ScannedTo(data, pixels, w, h, strength, draws, x, y)
      {
        var before := pixels;
        pixels := GreenAt(pixels, w, h, x, y, draws(columns + x * h + y) < 0.1 * (strength / 50.0));
        ScanStep(data, before, pixels, w, h, strength, draws, x, y);
        y := y + 1;
      }
      ScanColumnDone(data, pixels, w, h, strength, draws, x);
      x := x + 1;
    }
    ScanDone(data, pixels, w, h, strength, draws);
  }

  /** One iteration: the pixel at (x, y) turns green when `rains`. */
  method GreenAt(pixels: seq<int>, w: nat, h: nat, x: nat, y: nat, rains: bool) returns (out: seq<int>)
    requires |pixels| == 4 * (w * h) && x < w && y < h
    ensures |out| == |pixels| && Index(w, x, y) < w * h
    ensures PixelAt(out, Index(w, x, y)) ==
      if rains then Green(PixelAt(pixels, Index(w, x, y))) else PixelAt(pixels, Index(w, x, y))
    ensures forall q :: 0 <= q < w * h && q != Index(w, x, y) ==> PixelAt(out, q) == PixelAt(pixels, q)
  {
    IndexInRange(w, h, x, y);
    var idx := (y * w + x) * 4;
    out := pixels;
    if rains {
      out := out[idx := 0][idx + 1 := 255][idx + 2 := 0];
    }
  }

  lemma ScanStart(data: seq<int>, w: nat, h: nat, strength: real, draws: nat -> real)
    requires |data| == 4 * (w * h)
    ensures ScannedTo(data, data, w, h, strength, draws, 0, 0)
  {
    forall i, j | 0 <= i < w && 0 <= j < h
      ensures Index(w, i, j) < w * h
    {
      IndexInRange(w, h, i, j);
    }
  }

  /** Visiting (x, y) extends the scanned part by that pixel. */
  lemma ScanStep(data: seq<int>, before: seq<int>, after: seq<int>, w: nat, h: nat, strength: real,
                 draws: nat -> real, x: nat, y: nat)
    requires |data| == |before| == |after| == 4 * (w * h) && x < w && y < h
    requires ScannedTo(data, before, w, h, strength, draws, x, y)
    requires Index(w, x, y) < w * h
    requires PixelAt(after, Index(w, x, y)) ==
      if draws(Columns(w) + x * h + y) < 0.1 * (strength / 50.0) then Green(PixelAt(before, Index(w, x, y)))
      else PixelAt(before, Index(w, x, y))
    requires forall q :: 0 <= q < w * h && q != Index(w, x, y) ==> PixelAt(after, q) == PixelAt(before, q)
    ensures ScannedTo(data, after, w, h, strength, draws, x, y + 1)
  {
    forall i, j | 0 <= i < w && 0 <= j < h && (i, j) != (x, y)
      ensures Index(w, i, j) != Index(w, x, y)
    {
      IndexCoords(w, i, j);
      IndexCoords(w, x, y);
    }
  }

  /** A finished column is the start of the next one. */
  lemma ScanColumnDone(data: seq<int>, pixels: seq<int>, w: nat, h: nat, strength: real, draws: nat -> real, x: nat)
    requires |data| == |pixels| == 4 * (w * h)
    requires ScannedTo(data, pixels, w, h, strength, draws, x, h)
    ensures ScannedTo(data, pixels, w, h, strength, draws, x + 1, 0)
  {
  }

  /** A finished scan is the pass. */
  lemma ScanDone(data: seq<int>, pixels: seq<int>, w: nat, h: nat, strength: real, draws: nat -> real)
    requires |data| == |pixels| == 4 * (w * h)
    requires ScannedTo(data, pixels, w, h, strength, draws, w, 0)
    ensures pixels == Rained(data, w, h, strength, draws)
  {
    var r := Rained(data, w, h, strength, draws);
    forall q | 0 <= q < w * h
      ensures PixelAt(pixels, q) == PixelAt(r, q)
    {
      CoordsIndex(w, h, q);
      assert PixelAt(pixels, Index(w, q % w, q / w)) == RainAt(draws, strength, w, h, q % w, q / w, PixelAt(data, Index(w, q % w, q / w)));
    }
    SamePixels(pixels, r);
  }

  /** The column count is the width divided by 20, rounded down. */
  lemma ColumnsOfWidth()
    ensures Columns(19) == 0 && Columns(20) == 1 && Columns(399) == 19 && Columns(400) == 20
  {
  }

  /** What the pass does to each pixel: it is either unchanged or has its
      colour channels set to pure green, and its alpha is never modified. */
  lemma {:induction false} RainedPixel(data: seq<int>, w: nat, h: nat, strength: real, draws: nat -> real, x: nat, y: nat)
    requires |data| == 4 * (w * h) && x < w && y < h
    ensures Index(w, x, y) < |data| / 4
    ensures var q := Index(w, x, y);
      var before, after := PixelAt(data, q), PixelAt(Rained(data, w, h, strength, draws), q);
      && after.a == before.a
      && (Rains(draws, strength, w, h, x, y) ==> after == Rgba(0, 255, 0, before.a))
      && (!Rains(draws, strength, w, h, x, y) ==> after == before)
  {
    IndexInRange(w, h, x, y);
    IndexCoords(w, x, y);
    var q := Index(w, x, y);
    var before := PixelAt(data, q);
    assert PixelAt(Rained(data, w, h, strength, draws), q) == RainPixel(draws, strength, w, h, q, before);
    assert RainPixel(draws, strength, w, h, q, before) == RainAt(draws, strength, w, h, x, y, before);
  }

  /** At strength 0 no draw in [0, 1) falls below the threshold, so the
      buffer is unchanged. */
  lemma {:induction false} MatrixZeroStrength(data: seq<int>, w: nat, h: nat, draws: nat -> real)
    requires |data| == 4 * (w * h)
    requires forall k :: 0.0 <= draws(k)
    ensures Rained(data, w, h, 0.0, draws) == data
  {
    var r := Rained(data, w, h, 0.0, draws);
    forall q | 0 <= q < |data| / 4
      ensures PixelAt(r, q) == PixelAt(data, q)
    {
    }
    SamePixels(r, data);
  }
}

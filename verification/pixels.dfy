/** RGBA pixel buffers as the effects see them: a flat sequence of channel
    values, four per pixel (red, green, blue, alpha), pixels in row-major
    order.  A channel store behaves like a clamped byte array: the value is
    clamped to [0, 255] and rounded to the nearest integer, ties to even. */
module Pixels {

  datatype Rgba = Rgba(r: int, g: int, b: int, a: int)

  predicate IsChannel(v: int) {
    0 <= v <= 255
  }

  /** A buffer of `w` by `h` pixels whose channels are all bytes. */
  predicate IsImage(data: seq<int>, w: nat, h: nat) {
    |data| == 4 * (w * h) && forall j :: 0 <= j < |data| ==> IsChannel(data[j])
  }

  /** Row-major pixel index of column `x`, row `y` in a buffer `w` pixels wide. */
  function Index(w: nat, x: nat, y: nat): nat {
    y * w + x
  }

  /** The pixel whose channels start at `4 * q`. */
  function PixelAt(data: seq<int>, q: nat): Rgba
    requires 4 * q + 3 < |data|
  {
    Rgba(data[4 * q], data[4 * q + 1], data[4 * q + 2], data[4 * q + 3])
  }

  /** Channel `c` of a pixel: 0 red, 1 green, 2 blue, 3 alpha. */
  function Channel(p: Rgba, c: nat): int
    requires c < 4
  {
    match c
    case 0 => p.r
    case 1 => p.g
    case 2 => p.b
    case _ => p.a
  }

  /** The buffer obtained by replacing every pixel `px` at index `q` by
      `f(q, px)`. */
  function MapPixels(data: seq<int>, f: (nat, Rgba) -> Rgba): (r: seq<int>)
    requires |data| % 4 == 0
    ensures |r| == |data|
    ensures forall q :: 0 <= q < |data| / 4 ==> PixelAt(r, q) == f(q, PixelAt(data, q))
  {
    var r := seq(|data|, j requires 0 <= j < |data| => Channel(f(j / 4, PixelAt(data, j / 4)), j % 4));
    assert forall q :: 0 <= q < |data| / 4 ==> PixelAt(r, q) == f(q, PixelAt(data, q)) by {
      forall q | 0 <= q < |data| / 4
        ensures PixelAt(r, q) == f(q, PixelAt(data, q))
      {
        ChannelOffsets(q);
      }
    }
    r
  }

  /** The four channels of pixel `q` sit at offsets 0 to 3 from `4 * q`. */
  lemma ChannelOffsets(q: nat)
    ensures (4 * q) / 4 == q && (4 * q) % 4 == 0
    ensures (4 * q + 1) / 4 == q && (4 * q + 1) % 4 == 1
    ensures (4 * q + 2) / 4 == q && (4 * q + 2) % 4 == 2
    ensures (4 * q + 3) / 4 == q && (4 * q + 3) % 4 == 3
  {
  }

  /** Two buffers of equal length that agree on every pixel are equal. */
  lemma SamePixels(a: seq<int>, b: seq<int>)
    requires |a| == |b| && |a| % 4 == 0
    requires forall q :: 0 <= q < |a| / 4 ==> PixelAt(a, q) == PixelAt(b, q)
    ensures a == b
  {
    forall j | 0 <= j < |a|
      ensures a[j] == b[j]
    {
      assert PixelAt(a, j / 4) == PixelAt(b, j / 4);
    }
  }

  // ---------------------------------------------------------------------
  // Row-major indexing
  // ---------------------------------------------------------------------

  lemma MulLeq(a: nat, b: nat, w: nat)
    requires a <= b
    ensures a * w <= b * w
  {
  }

  /** The pixel at (x, y) lies inside a `w` by `h` buffer. */
  lemma IndexInRange(w: nat, h: nat, x: nat, y: nat)
    requires x < w && y < h
    ensures Index(w, x, y) < w * h
  {
    MulLeq(y + 1, h, w);
  }

  /** Column and row are recovered from the row-major index. */
  lemma IndexCoords(w: nat, x: nat, y: nat)
    requires x < w
    ensures Index(w, x, y) / w == y && Index(w, x, y) % w == x
  {
    var q := Index(w, x, y);
    var qy, qx := q / w, q % w;
    assert q == qy * w + qx;
    if qy < y {
      MulLeq(qy + 1, y, w);
    } else if qy > y {
      MulLeq(y + 1, qy, w);
    }
  }

  /** Every index of a `w` by `h` buffer is the index of its own column and row. */
  lemma CoordsIndex(w: nat, h: nat, q: nat)
    requires q < w * h
    ensures w > 0 && q / w < h && Index(w, q % w, q / w) == q
  {
    if q / w >= h {
      MulLeq(h, q / w, w);
    }
  }

  // ---------------------------------------------------------------------
  // Clamped byte stores
  // ---------------------------------------------------------------------

  /** Rounds to the nearest integer, halves to the even neighbour. */
  function RoundHalfEven(v: real): (n: int)
    ensures (n as real) - 0.5 <= v <= (n as real) + 0.5
  {
    var f := v.Floor;
    var d := v - f as real;
    if d < 0.5 then f
    else if d > 0.5 then f + 1
    else if f % 2 == 0 then f
    else f + 1
  }

  /** The byte a clamped byte array stores when assigned `v`. */
  function ToClamped(v: real): (b: int)
    ensures IsChannel(b)
    ensures v <= 0.0 ==> b == 0
    ensures v >= 255.0 ==> b == 255
    ensures 0.0 <= v <= 255.0 ==> (b as real) - 0.5 <= v <= (b as real) + 0.5
  {
    if v <= 0.0 then 0 else if v >= 255.0 then 255 else RoundHalfEven(v)
  }

  /** Storing a byte value stores exactly that value. */
  lemma ToClampedExact(k: int)
    requires IsChannel(k)
    ensures ToClamped(k as real) == k
  {
  }

  /** A store never falls below a byte the assigned value reaches. */
  lemma ToClampedAtLeast(v: real, k: int)
    requires IsChannel(k) && k as real <= v
    ensures k <= ToClamped(v)
  {
  }

  function MinReal(a: real, b: real): real {
    if a <= b then a else b
  }

  function MaxReal(a: real, b: real): real {
    if a >= b then a else b
  }
}

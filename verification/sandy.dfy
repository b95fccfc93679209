/** The sandy effect: every pixel draws one random number `u` and its red,
    green and blue channels all move by the same noise `(u - 0.5) * strength`,
    clamped to [0, 255]; alpha is left alone.  The random source is the
    parameter `draws`: `draws(q)` is the number drawn for pixel `q`. */
module SandyEffect {

  import opened Pixels

  function Noise(draws: nat -> real, q: nat, strength: real): real {
    (draws(q) - 0.5) * strength
  }

  /** A grainy channel: moved by `noise`, clamped to [0, 255], stored as a byte. */
  function Grain(v: int, noise: real): int {
    ToClamped(MinReal(255.0, MaxReal(0.0, v as real + noise)))
  }

  function SandPixel(p: Rgba, noise: real): Rgba {
    Rgba(Grain(p.r, noise), Grain(p.g, noise), Grain(p.b, noise), p.a)
  }

  /** The buffer the sandy pass leaves behind. */
  function Sanded(data: seq<int>, strength: real, draws: nat -> real): seq<int>
    requires |data| % 4 == 0
  {
    MapPixels(data, (q: nat, p: Rgba) => SandPixel(p, Noise(draws, q, strength)))
  }

  /** The pixels before `k` are sanded and the rest are as they were. */
  predicate SandedBelow(data: seq<int>, pixels: seq<int>, strength: real, draws: nat -> real, k: nat)
    requires |pixels| == |data| && |data| % 4 == 0
  {
    forall q :: 0 <= q < |data| / 4 ==>
      PixelAt(pixels, q) == if q < k then SandPixel(PixelAt(data, q), Noise(draws, q, strength)) else PixelAt(data, q)
  }

  /** The pixel loop, four channels at a time over the buffer: the loop
      counts pixels, and pixel `q` starts at channel `4 * q`. */
  method ApplySandy(data: seq<int>, strength: real, draws: nat -> real) returns (pixels: seq<int>)
    requires |data| % 4 == 0
    ensures pixels == Sanded(data, strength, draws)
  {
    pixels := data;
    var q := 0;
    while q < |data| / 4
      invariant 0 <= q <= |data| / 4 && |pixels| == |data|
      invariant SandedBelow(data, pixels, strength, draws, q)
    {
      var before := pixels;
      pixels := SandAt(pixels, q, Noise(draws, q, strength));
      SandStep(data, before, pixels, strength, draws, q);
      q := q + 1;
    }
    SamePixels(pixels, Sanded(data, strength, draws));
  }

  lemma SandStep(data: seq<int>, before: seq<int>, after: seq<int>, strength: real, draws: nat -> real, k: nat)
    requires |before| == |after| == |data| && |data| % 4 == 0 && k < |data| / 4
    requires SandedBelow(data, before, strength, draws, k)
    requires PixelAt(after, k) == SandPixel(PixelAt(before, k), Noise(draws, k, strength))
    requires forall q :: 0 <= q < |data| / 4 && q != k ==> PixelAt(after, q) == PixelAt(before, q)
    ensures SandedBelow(data, after, strength, draws, k + 1)
  {
  }

  /** The channel stores of one iteration of the pixel loop, given its noise. */
  method SandAt(pixels: seq<int>, q: nat, noise: real) returns (out: seq<int>)
    requires 4 * q + 3 < |pixels|
    ensures |out| == |pixels|
    ensures PixelAt(out, q) == SandPixel(PixelAt(pixels, q), noise)
    ensures forall k :: 0 <= k < |pixels| / 4 && k != q ==> PixelAt(out, k) == PixelAt(pixels, k)
  {
    var i := 4 * q;
    out := pixels;
    out := out[i := ToClamped(MinReal(255.0, MaxReal(0.0, out[i] as real + noise)))];
    out := out[i + 1 := ToClamped(MinReal(255.0, MaxReal(0.0, out[i + 1] as real + noise)))];
    out := out[i + 2 := ToClamped(MinReal(255.0, MaxReal(0.0, out[i + 2] as real + noise)))];
  }

  /** A channel that stays inside [0, 255] after adding the noise ends within
      half a unit of the sum; one pushed outside ends at the nearer bound. */
  lemma GrainIsClampedSum(v: int, noise: real)
    ensures IsChannel(Grain(v, noise))
    ensures 0.0 <= v as real + noise <= 255.0 ==>
      (Grain(v, noise) as real) - 0.5 <= v as real + noise <= (Grain(v, noise) as real) + 0.5
    ensures v as real + noise <= 0.0 ==> Grain(v, noise) == 0
    ensures v as real + noise >= 255.0 ==> Grain(v, noise) == 255
  {
  }

  /** With draws in [0, 1) a channel moves by at most half the strength,
      plus half a unit of rounding. */
  lemma {:induction false} GrainBounded(v: int, u: real, strength: real)
    requires IsChannel(v) && 0.0 <= u < 1.0 && strength >= 0.0
    ensures var g := Grain(v, (u - 0.5) * strength);
      -(strength / 2.0 + 0.5) <= (g - v) as real <= strength / 2.0 + 0.5
  {
    var noise := (u - 0.5) * strength;
    var t := u * strength;
    MulNonneg(u, strength);
    MulNonneg(1.0 - u, strength);
    assert strength - t == (1.0 - u) * strength;
    assert noise == t - 0.5 * strength;
    var c := MinReal(255.0, MaxReal(0.0, v as real + noise));
    assert 0.0 <= c <= 255.0;
    assert -(strength / 2.0) <= c - v as real <= strength / 2.0;
    var g := ToClamped(c);
    assert (g as real) - 0.5 <= c <= (g as real) + 0.5;
  }

  lemma MulNonneg(a: real, b: real)
    requires 0.0 <= a && 0.0 <= b
    ensures 0.0 <= a * b
  {
  }

  /** What the pass does to each pixel: alpha is kept and the three colour
      channels are all moved by the one noise value the pixel drew. */
  lemma {:induction false} SandedPixel(data: seq<int>, strength: real, draws: nat -> real, q: nat)
    requires |data| % 4 == 0 && q < |data| / 4
    ensures var before, after, n := PixelAt(data, q), PixelAt(Sanded(data, strength, draws), q), Noise(draws, q, strength);
      && after.a == before.a
      && after.r == Grain(before.r, n) && after.g == Grain(before.g, n) && after.b == Grain(before.b, n)
  {
  }

  /** At strength 0 the pass leaves a byte buffer unchanged, whatever is drawn. */
  lemma {:induction false} SandyZeroStrength(data: seq<int>, draws: nat -> real)
    requires |data| % 4 == 0
    requires forall j :: 0 <= j < |data| ==> IsChannel(data[j])
    ensures Sanded(data, 0.0, draws) == data
  {
    var r := Sanded(data, 0.0, draws);
    forall q | 0 <= q < |data| / 4
      ensures PixelAt(r, q) == PixelAt(data, q)
    {
      var p := PixelAt(data, q);
      assert IsChannel(data[4 * q]) && IsChannel(data[4 * q + 1]) && IsChannel(data[4 * q + 2]);
      assert Noise(draws, q, 0.0) == 0.0;
      ToClampedExact(p.r);
      ToClampedExact(p.g);
      ToClampedExact(p.b);
    }
    SamePixels(r, data);
  }
}

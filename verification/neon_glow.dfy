/** The pixel pass of the neon glow effect: every pixel whose mean RGB value
    exceeds 100 has its red, green and blue channels raised by 100, 150 and
    255 times `strength / 50`, capped at 255.  The shadow-blur redraw that
    precedes the pass is canvas rendering and is not part of this module. */
module NeonGlowEffect {

  import opened Pixels

  /** The mean of the colour channels exceeds 100. */
  predicate IsBright(p: Rgba) {
    (p.r + p.g + p.b) as real / 3.0 > 100.0
  }

  /** A glowing channel: raised by `boost`, capped at 255, stored as a byte. */
  function Boost(v: int, boost: real): int {
    ToClamped(MinReal(255.0, v as real + boost))
  }

  function GlowPixel(p: Rgba, strength: real): Rgba {
    var s := strength / 50.0;
    if IsBright(p) then Rgba(Boost(p.r, 100.0 * s), Boost(p.g, 150.0 * s), Boost(p.b, 255.0 * s), p.a)
    else p
  }

  /** The buffer the neon glow pass leaves behind. */
  function Glowed(data: seq<int>, strength: real): seq<int>
    requires |data| % 4 == 0
  {
    MapPixels(data, (q: nat, p: Rgba) => GlowPixel(p, strength))
  }

  /** The pixels before `k` glow and the rest are as they were. */
  predicate GlowedBelow(data: seq<int>, pixels: seq<int>, strength: real, k: nat)
    requires |pixels| == |data| && |data| % 4 == 0
  {
    forall q :: 0 <= q < |data| / 4 ==>
      PixelAt(pixels, q) == if q < k then GlowPixel(PixelAt(data, q), strength) else PixelAt(data, q)
  }

  /** The pixel loop, four channels at a time over the buffer: the loop
      counts pixels, and pixel `q` starts at channel `4 * q`. */
  method ApplyNeonGlow(data: seq<int>, strength: real) returns (pixels: seq<int>)
    requires |data| % 4 == 0
    ensures pixels == Glowed(data, strength)
  {
    pixels := data;
    var q := 0;
    while q < |data| / 4
      invariant 0 <= q <= |data| / 4 && |pixels| == |data|
      invariant GlowedBelow(data, pixels, strength, q)
    {
      var before := pixels;
      pixels := GlowAt(pixels, q, strength);
      GlowStep(data, before, pixels, strength, q);
      q := q + 1;
    }
    SamePixels(pixels, Glowed(data, strength));
  }

  lemma GlowStep(data: seq<int>, before: seq<int>, after: seq<int>, strength: real, k: nat)
    requires |before| == |after| == |data| && |data| % 4 == 0 && k < |data| / 4
    requires GlowedBelow(data, before, strength, k)
    requires PixelAt(after, k) == GlowPixel(PixelAt(before, k), strength)
    requires forall q :: 0 <= q < |data| / 4 && q != k ==> PixelAt(after, q) == PixelAt(before, q)
    ensures GlowedBelow(data, after, strength, k + 1)
  {
  }

  /** One iteration of the pixel loop: pixel `q`. */
  method GlowAt(pixels: seq<int>, q: nat, strength: real) returns (out: seq<int>)
    requires 4 * q + 3 < |pixels|
    ensures |out| == |pixels|
    ensures PixelAt(out, q) == GlowPixel(PixelAt(pixels, q), strength)
    ensures forall k :: 0 <= k < |pixels| / 4 && k != q ==> PixelAt(out, k) == PixelAt(pixels, k)
  {
    var i := 4 * q;
    var s := strength / 50.0;
    out := pixels;
    var brightness := (out[i] + out[i + 1] + out[i + 2]) as real / 3.0;
    if brightness > 100.0 {
      var r, g, b := Boost(out[i], 100.0 * s), Boost(out[i + 1], 150.0 * s), Boost(out[i + 2], 255.0 * s);
      out := out[i := r][i + 1 := g][i + 2 := b];
    }
  }

  /** The brightness test is an integer comparison: the channel sum exceeds 300. */
  lemma BrightIffSumAbove300(p: Rgba)
    ensures IsBright(p) <==> p.r + p.g + p.b > 300
  {
  }

  /** What the pass does to each pixel: dark pixels are untouched, alpha is
      never modified, and for a non-negative strength no colour channel of a
      bright pixel decreases or leaves the byte range. */
  lemma {:induction false} GlowedPixel(data: seq<int>, strength: real, q: nat)
    requires |data| % 4 == 0 && q < |data| / 4
    requires forall j :: 0 <= j < |data| ==> IsChannel(data[j])
    ensures var before, after := PixelAt(data, q), PixelAt(Glowed(data, strength), q);
      && after.a == before.a
      && (!IsBright(before) ==> after == before)
      && IsChannel(after.r) && IsChannel(after.g) && IsChannel(after.b)
      && (strength >= 0.0 ==> before.r <= after.r && before.g <= after.g && before.b <= after.b)
  {
    var before, after := PixelAt(data, q), PixelAt(Glowed(data, strength), q);
    assert IsChannel(data[4 * q]) && IsChannel(data[4 * q + 1]) && IsChannel(data[4 * q + 2]);
    if strength >= 0.0 && IsBright(before) {
      var s := strength / 50.0;
      ToClampedAtLeast(MinReal(255.0, before.r as real + 100.0 * s), before.r);
      ToClampedAtLeast(MinReal(255.0, before.g as real + 150.0 * s), before.g);
      ToClampedAtLeast(MinReal(255.0, before.b as real + 255.0 * s), before.b);
    }
  }

  /** At strength 0 the pass leaves a byte buffer unchanged, bright pixels included. */
  lemma {:induction false} GlowZeroStrength(data: seq<int>)
    requires |data| % 4 == 0
    requires forall j :: 0 <= j < |data| ==> IsChannel(data[j])
    ensures Glowed(data, 0.0) == data
  {
    var r := Glowed(data, 0.0);
    forall q | 0 <= q < |data| / 4
      ensures PixelAt(r, q) == PixelAt(data, q)
    {
      var p := PixelAt(data, q);
      assert IsChannel(data[4 * q]) && IsChannel(data[4 * q + 1]) && IsChannel(data[4 * q + 2]);
      ToClampedExact(p.r);
      ToClampedExact(p.g);
      ToClampedExact(p.b);
    }
    SamePixels(r, data);
  }
}

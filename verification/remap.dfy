/** The coordinate-remap pass shared by the liquid and ripple effects.  Each
    destination pixel (x, y) is displaced by `d = wave(x, y) * strength`
    along both axes; when the source (floor(x + d), floor(y + d)) lies inside
    the buffer its four channels are copied onto the destination, otherwise
    the destination is left as it is.  The scan runs row by row over the
    buffer it writes, so a source the scan has already passed holds its
    remapped value, not its original one.

    `wave` stands for the trigonometric factor of each effect, which also
    carries the time: `sin(x/20 + t) * cos(y/20 + t)` for liquid and
    `sin(distance/10 - 5t)` for ripple, `distance` being the distance from
    the buffer's centre.  Since x and y are integers, floor(x + d) is
    x + floor(d): the scan is stated over the integer shift floor(d). */
module RemapEffect {

  import opened Wrappers
  import opened Pixels

  /** The integer shift of pixel (x, y): the displacement rounded down. */
  function ShiftField(wave: (int, int) -> real, strength: real): (int, int) -> int {
    (x: int, y: int) => (wave(x, y) * strength).Floor
  }

  /** Rounding the displaced coordinate down is adding the rounded-down
      displacement to it. */
  lemma FloorOfDisplaced(x: int, d: real)
    ensures (x as real + d).Floor == x + d.Floor
  {
  }

  /** At strength 0 every shift is 0. */
  lemma ShiftFieldZero(wave: (int, int) -> real, x: int, y: int)
    ensures ShiftField(wave, 0.0)(x, y) == 0
  {
  }

  /** The index of the source pixel of destination (x, y), if it lies inside
      the buffer. */
  function SourceOf(w: nat, h: nat, x: int, y: int, k: int): (r: Option<nat>)
    ensures r.Some? ==> r.value < w * h
  {
    var sx, sy := x + k, y + k;
    if 0 <= sx < w && 0 <= sy < h then
      IndexInRange(w, h, sx, sy);
      Some(Index(w, sx, sy))
    else None
  }

  function Source(w: nat, h: nat, shift: (int, int) -> int, p: nat): (r: Option<nat>)
    ensures r.Some? ==> r.value < w * h
  {
    if w == 0 then None
    else SourceOf(w, h, p % w, p / w, shift(p % w, p / w))
  }

  /** What the in-place scan leaves at pixel `p`: the pixel itself when its
      source is outside, the source's original value when the scan has not
      yet passed the source, and the source's final value when it has. */
  predicate RemapStep(before: seq<int>, after: seq<int>, w: nat, h: nat, shift: (int, int) -> int, p: nat)
    requires |before| == |after| == 4 * (w * h) && p < w * h
  {
    match Source(w, h, shift, p)
    case None => PixelAt(after, p) == PixelAt(before, p)
    case Some(s) =>
      if s >= p then PixelAt(after, p) == PixelAt(before, s)
      else PixelAt(after, p) == PixelAt(after, s)
  }

  /** `after` is what the in-place scan leaves of `before`. */
  predicate InPlaceRemapped(before: seq<int>, after: seq<int>, w: nat, h: nat, shift: (int, int) -> int) {
    && |before| == 4 * (w * h) && |after| == |before|
    && forall p :: 0 <= p < w * h ==> RemapStep(before, after, w, h, shift, p)
  }

  /** The pixels below `k` are remapped. */
  predicate RemappedBelow(before: seq<int>, after: seq<int>, w: nat, h: nat, shift: (int, int) -> int, k: nat)
    requires |before| == |after| == 4 * (w * h) && k <= w * h
  {
    forall r :: 0 <= r < k ==> RemapStep(before, after, w, h, shift, r)
  }

  /** The pixels from `k` on still hold their original values. */
  predicate OriginalFrom(before: seq<int>, after: seq<int>, w: nat, h: nat, k: nat)
    requires |before| == |after| == 4 * (w * h)
  {
    forall r :: k <= r < w * h ==> PixelAt(after, r) == PixelAt(before, r)
  }

  /** The scan, row by row. */
  method ApplyRemap(data: seq<int>, w: nat, h: nat, shift: (int, int) -> int) returns (pixels: seq<int>)
    requires |data| == 4 * (w * h)
    ensures InPlaceRemapped(data, pixels, w, h, shift)
  {
    pixels := data;
    var y := 0;
    while y < h
      invariant 0 <= y <= h && |pixels| == |data|
      invariant y * w <= w * h
      invariant RemappedBelow(data, pixels, w, h, shift, y * w)
      invariant OriginalFrom(data, pixels, w, h, y * w)
    {
      pixels := ScanRow(data, pixels, w, h, shift, y);
      MulLeq(y + 1, h, w);
      y := y + 1;
    }
    MulLeq(h, y, w);
  }

  /** One row of the scan, left to right: the pixels before the row are
      already remapped, the pixels from the row on still hold their original
      values. */
  method ScanRow(data: seq<int>, pixels: seq<int>, w: nat, h: nat, shift: (int, int) -> int, y: nat)
    returns (out: seq<int>)
    requires |data| == |pixels| == 4 * (w * h) && y < h
    requires y * w <= w * h
    requires RemappedBelow(data, pixels, w, h, shift, y * w)
    requires OriginalFrom(data, pixels, w, h, y * w)
    ensures |out| == |data| && (y + 1) * w <= w * h
    ensures RemappedBelow(data, out, w, h, shift, (y + 1) * w)
    ensures OriginalFrom(data, out, w, h, (y + 1) * w)
  {
    MulLeq(y + 1, h, w);
    out := pixels;
    var x := 0;
    while x < w
      invariant 0 <= x <= w && |out| == |data|
      invariant Index(w, x, y) <= w * h
      invariant RemappedBelow(data, out, w, h, shift, Index(w, x, y))
      invariant OriginalFrom(data, out, w, h, Index(w, x, y))
    {
      var before := out;
      out := RemapAt(out, w, h, x, y, shift(x, y));
      StepPreserved(data, before, out, w, h, shift, x, y);
      x := x + 1;
    }
  }

  /** The bookkeeping of one iteration: remapping pixel (x, y) extends the
      remapped prefix by that pixel and leaves the rest original. */
  lemma StepPreserved(data: seq<int>, before: seq<int>, after: seq<int>, w: nat, h: nat,
                      shift: (int, int) -> int, x: nat, y: nat)
    requires |data| == |before| == |after| == 4 * (w * h) && x < w && y < h
    requires Index(w, x, y) < w * h
    requires RemappedBelow(data, before, w, h, shift, Index(w, x, y))
    requires OriginalFrom(data, before, w, h, Index(w, x, y))
    requires match SourceOf(w, h, x, y, shift(x, y))
      case None => PixelAt(after, Index(w, x, y)) == PixelAt(before, Index(w, x, y))
      case Some(s) => PixelAt(after, Index(w, x, y)) == PixelAt(before, s)
    requires forall r :: 0 <= r < w * h && r != Index(w, x, y) ==> PixelAt(after, r) == PixelAt(before, r)
    ensures Index(w, x + 1, y) == Index(w, x, y) + 1 <= w * h
    ensures RemappedBelow(data, after, w, h, shift, Index(w, x + 1, y))
    ensures OriginalFrom(data, after, w, h, Index(w, x + 1, y))
  {
    var p := Index(w, x, y);
    IndexCoords(w, x, y);
    assert Source(w, h, shift, p) == SourceOf(w, h, x, y, shift(x, y));
    assert RemapStep(data, after, w, h, shift, p);
    forall r | 0 <= r < p
      ensures RemapStep(data, after, w, h, shift, r)
    {
      assert RemapStep(data, before, w, h, shift, r);
    }
  }

  /** One iteration of the scan: pixel (x, y) with its shift `k`. */
  method RemapAt(pixels: seq<int>, w: nat, h: nat, x: nat, y: nat, k: int) returns (out: seq<int>)
    requires |pixels| == 4 * (w * h) && x < w && y < h
    ensures |out| == |pixels| && Index(w, x, y) < w * h
    ensures var p := Index(w, x, y);
      match SourceOf(w, h, x, y, k)
      case None => PixelAt(out, p) == PixelAt(pixels, p)
      case Some(s) => PixelAt(out, p) == PixelAt(pixels, s)
    ensures forall r :: 0 <= r < w * h && r != Index(w, x, y) ==> PixelAt(out, r) == PixelAt(pixels, r)
  {
    IndexInRange(w, h, x, y);
    out := pixels;
    var sourceX := x + k;
    var sourceY := y + k;
    if sourceX >= 0 && sourceX < w && sourceY >= 0 && sourceY < h {
      IndexInRange(w, h, sourceX, sourceY);
      var target := 4 * Index(w, x, y);
      var source := 4 * Index(w, sourceX, sourceY);
      // the stores never touch a channel of the source still to be read
      var red, green, blue, alpha := out[source], out[source + 1], out[source + 2], out[source + 3];
      out := out[target := red][target + 1 := green][target + 2 := blue][target + 3 := alpha];
    }
  }

  // ---------------------------------------------------------------------
  // Properties
  // ---------------------------------------------------------------------

  /** The in-place scan has exactly one outcome: the characterisation above
      fixes every pixel of the result. */
  lemma {:induction false} RemapDeterministic(before: seq<int>, a: seq<int>, b: seq<int>, w: nat, h: nat,
                                              shift: (int, int) -> int)
    requires InPlaceRemapped(before, a, w, h, shift)
    requires InPlaceRemapped(before, b, w, h, shift)
    ensures a == b
  {
    AgreeBelow(before, a, b, w, h, shift, w * h);
    SamePixels(a, b);
  }

  /** Two results of the scan agree on every pixel below `k`. */
  lemma {:induction false} AgreeBelow(before: seq<int>, a: seq<int>, b: seq<int>, w: nat, h: nat,
                                      shift: (int, int) -> int, k: nat)
    requires InPlaceRemapped(before, a, w, h, shift)
    requires InPlaceRemapped(before, b, w, h, shift)
    requires k <= w * h
    ensures forall p :: 0 <= p < k ==> PixelAt(a, p) == PixelAt(b, p)
    decreases k
  {
    if k > 0 {
      AgreeBelow(before, a, b, w, h, shift, k - 1);
      StepAgrees(before, a, b, w, h, shift, k - 1);
    }
  }

  /** Two results that agree below pixel `k` agree at `k`. */
  lemma StepAgrees(before: seq<int>, a: seq<int>, b: seq<int>, w: nat, h: nat, shift: (int, int) -> int, k: nat)
    requires |before| == |a| == |b| == 4 * (w * h) && k < w * h
    requires RemapStep(before, a, w, h, shift, k) && RemapStep(before, b, w, h, shift, k)
    requires forall p :: 0 <= p < k ==> PixelAt(a, p) == PixelAt(b, p)
    ensures PixelAt(a, k) == PixelAt(b, k)
  {
  }

  /** With zero shift, as at strength 0, every pixel is its own source and
      the buffer is unchanged. */
  lemma {:induction false} RemapZeroShift(before: seq<int>, after: seq<int>, w: nat, h: nat, shift: (int, int) -> int)
    requires InPlaceRemapped(before, after, w, h, shift)
    requires forall x, y :: shift(x, y) == 0
    ensures after == before
  {
    forall p | 0 <= p < w * h
      ensures PixelAt(after, p) == PixelAt(before, p)
    {
      CoordsIndex(w, h, p);
      assert Source(w, h, shift, p) == Some(p);
      assert RemapStep(before, after, w, h, shift, p);
    }
    SamePixels(after, before);
  }

  /** The shift is applied to both axes alike, so a source lies on the
      diagonal through its destination. */
  lemma SourceOnDiagonal(w: nat, h: nat, shift: (int, int) -> int, p: nat)
    requires p < w * h && Source(w, h, shift, p).Some?
    ensures var s := Source(w, h, shift, p).value;
      s % w - p % w == s / w - p / w
  {
    var k := shift(p % w, p / w);
    IndexCoords(w, p % w + k, p / w + k);
  }

  // ---------------------------------------------------------------------
  // The scan against a snapshot remap
  // ---------------------------------------------------------------------

  /** A remap that reads every source from a snapshot of the buffer taken
      before the scan. */
  function SnapshotRemapped(before: seq<int>, w: nat, h: nat, shift: (int, int) -> int): (r: seq<int>)
    requires |before| == 4 * (w * h)
    ensures |r| == |before|
  {
    MapPixels(before, (p: nat, px: Rgba) =>
      match Source(w, h, shift, p)
      case None => px
      case Some(s) => PixelAt(before, s))
  }

  /** Each pixel of a snapshot remap is the original value of its source,
      or its own original value when the source is outside. */
  lemma SnapshotPixel(before: seq<int>, w: nat, h: nat, shift: (int, int) -> int, p: nat)
    requires |before| == 4 * (w * h) && p < w * h
    ensures Source(w, h, shift, p).None? ==> PixelAt(SnapshotRemapped(before, w, h, shift), p) == PixelAt(before, p)
    ensures Source(w, h, shift, p).Some? ==>
      PixelAt(SnapshotRemapped(before, w, h, shift), p) == PixelAt(before, Source(w, h, shift, p).value)
  {
  }

  /** Pixels `s` before `p` read each other. */
  predicate SwapPair(w: nat, h: nat, shift: (int, int) -> int, s: nat, p: nat) {
    s < p < w * h && Source(w, h, shift, p) == Some(s) && Source(w, h, shift, s) == Some(p)
  }

  /** What the scan left at `p`, given the source of `p`. */
  lemma StepFromSource(before: seq<int>, after: seq<int>, w: nat, h: nat, shift: (int, int) -> int, p: nat, s: nat)
    requires InPlaceRemapped(before, after, w, h, shift)
    requires p < w * h && Source(w, h, shift, p) == Some(s)
    ensures s >= p ==> PixelAt(after, p) == PixelAt(before, s)
    ensures s < p ==> PixelAt(after, p) == PixelAt(after, s)
  {
    assert RemapStep(before, after, w, h, shift, p);
  }

  /** On a swap pair the scan first copies `p` onto `s` and then reads `s`
      back for `p`, so both end with the original value of `p` and the
      original value of `s` is lost; a snapshot remap swaps the two.  So when
      the two differ, the scan is not the snapshot remap. */
  lemma InPlaceDiffersFromSnapshot(before: seq<int>, after: seq<int>, w: nat, h: nat, shift: (int, int) -> int,
                                   s: nat, p: nat)
    requires InPlaceRemapped(before, after, w, h, shift)
    requires SwapPair(w, h, shift, s, p) && PixelAt(before, s) != PixelAt(before, p)
    ensures PixelAt(after, s) == PixelAt(before, p) && PixelAt(after, p) == PixelAt(before, p)
    ensures PixelAt(SnapshotRemapped(before, w, h, shift), s) == PixelAt(before, p)
    ensures PixelAt(SnapshotRemapped(before, w, h, shift), p) == PixelAt(before, s)
    ensures after != SnapshotRemapped(before, w, h, shift)
  {
    StepFromSource(before, after, w, h, shift, s, p);
    StepFromSource(before, after, w, h, shift, p, s);
    SnapshotPixel(before, w, h, shift, s);
    SnapshotPixel(before, w, h, shift, p);
  }

  /** A shift field on a 2 by 2 buffer: (0, 0) reads (1, 1), (1, 1) reads
      (0, 0), and the other two pixels read outside the buffer. */
  function SwapShift(x: int, y: int): int {
    if x == 0 && y == 0 then 1 else if x == 1 && y == 1 then -1 else 5
  }

  /** Swap pairs occur: under that field pixels 0 and 3 of a 2 by 2 buffer
      form one, so a buffer whose corners (0, 0) and (1, 1) differ is
      remapped differently by the scan and by a snapshot. */
  lemma SwapPairExists()
    ensures SwapPair(2, 2, SwapShift, 0, 3)
  {
    assert 3 % 2 == 1 && 3 / 2 == 1;
  }
}

/** The pixelate effect.  The buffer is tiled by square blocks of side
    max(2, floor(strength / 5)) whose origins step by that side from (0, 0),
    row by row; each block is filled with the colour of its origin pixel.
    The fills are modelled as commands: what a fill with a translucent colour
    composites onto the canvas is canvas rendering and is not modelled. */
module PixelateEffect {

  import opened Pixels

  /** The side of a block. */
  function BlockSize(strength: real): (size: nat)
    ensures size >= 2 && size >= (strength / 5.0).Floor
    ensures size == 2 || size == (strength / 5.0).Floor
  {
    var s := (strength / 5.0).Floor;
    if s > 2 then s else 2
  }

  /** The top-left corner of a block. */
  datatype Origin = Origin(x: nat, y: nat)

  /** A `fillRect` of a `size` by `size` square at (x, y) in one colour. */
  datatype Fill = Fill(x: nat, y: nat, size: nat, color: Rgba)

  /** Pixel (x, y) lies inside the block at `o`. */
  predicate InBlock(o: Origin, size: nat, x: nat, y: nat) {
    o.x <= x < o.x + size && o.y <= y < o.y + size
  }

  /** `o` comes before `p` in row-major order. */
  predicate Before(o: Origin, p: Origin) {
    o.y < p.y || (o.y == p.y && o.x < p.x)
  }

  /** `d` is a multiple of `size`, counted in steps of `size`. */
  predicate Aligned(d: int, size: nat)
    requires size > 0
    decreases if d < 0 then 0 else d
  {
    d == 0 || (d >= size && Aligned(d - size, size))
  }

  /** The origins of row `y` from column `x` on. */
  function Row(y: nat, x: nat, w: nat, size: nat): seq<Origin>
    requires size > 0
    decreases w - x
  {
    if x >= w then [] else [Origin(x, y)] + Row(y, x + size, w, size)
  }

  /** The origins of the rows from row `y` on. */
  function Grid(y: nat, w: nat, h: nat, size: nat): seq<Origin>
    requires size > 0
    decreases h - y
  {
    if y >= h then [] else Row(y, 0, w, size) + Grid(y + size, w, h, size)
  }

  /** Row `y` holds the origins at every `size`-th column from `x`. */
  lemma {:induction false} RowMembers(y: nat, x: nat, w: nat, size: nat)
    requires size > 0
    ensures forall o :: o in Row(y, x, w, size) <==> o.y == y && x <= o.x < w && Aligned(o.x - x, size)
    decreases w - x
  {
    if x < w {
      RowMembers(y, x + size, w, size);
      assert Row(y, x, w, size) == [Origin(x, y)] + Row(y, x + size, w, size);
    }
  }

  /** Row `y` runs left to right and stays in row `y`. */
  lemma {:induction false} RowSorted(y: nat, x: nat, w: nat, size: nat)
    requires size > 0
    ensures forall i, j :: 0 <= i < j < |Row(y, x, w, size)| ==> Before(Row(y, x, w, size)[i], Row(y, x, w, size)[j])
    ensures forall i :: 0 <= i < |Row(y, x, w, size)| ==> Row(y, x, w, size)[i].y == y
    decreases w - x
  {
    if x < w {
      RowSorted(y, x + size, w, size);
      RowMembers(y, x + size, w, size);
      var r, rest := Row(y, x, w, size), Row(y, x + size, w, size);
      assert r == [Origin(x, y)] + rest;
      forall i, j | 0 <= i < j < |r|
        ensures Before(r[i], r[j])
      {
        assert r[j] == rest[j - 1] && rest[j - 1] in rest;
        if i > 0 {
          assert r[i] == rest[i - 1];
        }
      }
    }
  }

  /** The grid from row `y` holds the origins at every `size`-th row from `y`
      and every `size`-th column from 0. */
  lemma {:induction false} GridMembers(y: nat, w: nat, h: nat, size: nat)
    requires size > 0
    ensures forall o :: o in Grid(y, w, h, size) <==>
      y <= o.y < h && Aligned(o.y - y, size) && o.x < w && Aligned(o.x, size)
    decreases h - y
  {
    if y < h {
      RowMembers(y, 0, w, size);
      GridMembers(y + size, w, h, size);
    }
  }

  /** The grid from row `y` is in row-major order. */
  lemma {:induction false} GridSorted(y: nat, w: nat, h: nat, size: nat)
    requires size > 0
    ensures forall i, j :: 0 <= i < j < |Grid(y, w, h, size)| ==> Before(Grid(y, w, h, size)[i], Grid(y, w, h, size)[j])
    decreases h - y
  {
    if y < h {
      RowSorted(y, 0, w, size);
      GridSorted(y + size, w, h, size);
      GridMembers(y + size, w, h, size);
      var row, rest := Row(y, 0, w, size), Grid(y + size, w, h, size);
      forall i, j | 0 <= i < |row| && 0 <= j < |rest|
        ensures Before(row[i], rest[j])
      {
        assert rest[j] in rest;
      }
      SortedJoin(row, rest);
    }
  }

  /** The grid from row `y` holds the origins at every `size`-th row from `y`
      and every `size`-th column from 0, in row-major order. */
  lemma GridOrigins(y: nat, w: nat, h: nat, size: nat)
    requires size > 0
    ensures forall o :: o in Grid(y, w, h, size) <==>
      y <= o.y < h && Aligned(o.y - y, size) && o.x < w && Aligned(o.x, size)
    ensures forall i, j :: 0 <= i < j < |Grid(y, w, h, size)| ==> Before(Grid(y, w, h, size)[i], Grid(y, w, h, size)[j])
  {
    GridMembers(y, w, h, size);
    GridSorted(y, w, h, size);
  }

  lemma SortedJoin(a: seq<Origin>, b: seq<Origin>)
    requires forall i, j :: 0 <= i < j < |a| ==> Before(a[i], a[j])
    requires forall i, j :: 0 <= i < j < |b| ==> Before(b[i], b[j])
    requires forall i, j :: 0 <= i < |a| && 0 <= j < |b| ==> Before(a[i], b[j])
    ensures forall i, j :: 0 <= i < j < |a + b| ==> Before((a + b)[i], (a + b)[j])
  {
  }

  /** Stepping by `size` from 0 reaches exactly the multiples of `size`. */
  lemma {:induction false} AlignedIsMultiple(d: nat, size: nat)
    requires size > 0
    ensures Aligned(d, size) <==> d % size == 0
    decreases d
  {
    if d >= size {
      AlignedIsMultiple(d - size, size);
      var k, r := (d - size) / size, (d - size) % size;
      assert d == (k + 1) * size + r;
      DivModUnique(d, size, k + 1, r);
    } else if d > 0 {
      DivModUnique(d, size, 0, d);
    }
  }

  /** The fill of the block at `o`, coloured by the pixel at `o`. */
  function FillAt(data: seq<int>, w: nat, h: nat, size: nat, o: Origin): Fill
    requires |data| == 4 * (w * h) && o.x < w && o.y < h
  {
    IndexInRange(w, h, o.x, o.y);
    Fill(o.x, o.y, size, PixelAt(data, Index(w, o.x, o.y)))
  }

  /** The fills of a pixelate pass at `strength`, in the order they are made. */
  function PixelatePlan(data: seq<int>, w: nat, h: nat, strength: real): (r: seq<Fill>)
    requires |data| == 4 * (w * h)
  {
    var size := BlockSize(strength);
    GridOrigins(0, w, h, size);
    var g := Grid(0, w, h, size);
    assert forall i :: 0 <= i < |g| ==> g[i] in g;
    seq(|g|, i requires 0 <= i < |g| => FillAt(data, w, h, size, g[i]))
  }

  /** `fills` are the fills of the blocks at `origins`, in the same order. */
  predicate FillsOf(data: seq<int>, w: nat, h: nat, size: nat, origins: seq<Origin>, fills: seq<Fill>)
    requires |data| == 4 * (w * h)
  {
    && |fills| == |origins|
    && (forall i :: 0 <= i < |origins| ==> origins[i].x < w && origins[i].y < h)
    && forall i :: 0 <= i < |fills| ==> fills[i] == FillAt(data, w, h, size, origins[i])
  }

  /** The two loops: rows of blocks top to bottom, blocks left to right. */
  method ApplyPixelate(data: seq<int>, w: nat, h: nat, strength: real) returns (fills: seq<Fill>)
    requires |data| == 4 * (w * h)
    ensures fills == PixelatePlan(data, w, h, strength)
  {
    var size := BlockSize(strength);
    ghost var all := Grid(0, w, h, size);
    ghost var origins: seq<Origin> := [];
    fills := [];
    var y := 0;
    while y < h
      invariant origins + Grid(y, w, h, size) == all
      invariant FillsOf(data, w, h, size, origins, fills)
      decreases h - y
    {
      fills := FillRow(data, w, h, size, y, origins, fills);
      GridStep(origins, y, w, h, size);
      origins := origins + Row(y, 0, w, size);
      y := y + size;
    }
    PlanIsFills(data, w, h, strength, fills);
  }

  /** The inner loop: the blocks of row `y`, left to right, each filled
      with the colour of its origin pixel, appended to `fills`. */
  method FillRow(data: seq<int>, w: nat, h: nat, size: nat, y: nat, ghost origins: seq<Origin>, fills: seq<Fill>)
    returns (r: seq<Fill>)
    requires |data| == 4 * (w * h) && size > 0 && y < h
    requires FillsOf(data, w, h, size, origins, fills)
    ensures FillsOf(data, w, h, size, origins + Row(y, 0, w, size), r)
  {
    ghost var done := origins;
    r := fills;
    var x := 0;
    while x < w
      invariant done + Row(y, x, w, size) == origins + Row(y, 0, w, size)
      invariant FillsOf(data, w, h, size, done, r)
      decreases w - x
    {
      IndexInRange(w, h, x, y);
      var q := Index(w, x, y);
      var fill := Fill(x, y, size, Rgba(data[4 * q], data[4 * q + 1], data[4 * q + 2], data[4 * q + 3]));
      FillStep(data, w, h, size, done, r, Origin(x, y), fill);
      RowStep(done, y, x, w, size, []);
      r := r + [fill];
      done := done + [Origin(x, y)];
      x := x + size;
    }
  }

  lemma FillStep(data: seq<int>, w: nat, h: nat, size: nat, origins: seq<Origin>, fills: seq<Fill>, o: Origin, fill: Fill)
    requires |data| == 4 * (w * h) && o.x < w && o.y < h
    requires FillsOf(data, w, h, size, origins, fills)
    requires Index(w, o.x, o.y) < w * h
    requires fill == Fill(o.x, o.y, size, PixelAt(data, Index(w, o.x, o.y)))
    ensures FillsOf(data, w, h, size, origins + [o], fills + [fill])
  {
  }

  lemma RowStep(origins: seq<Origin>, y: nat, x: nat, w: nat, size: nat, rest: seq<Origin>)
    requires size > 0 && x < w
    ensures origins + Row(y, x, w, size) + rest == (origins + [Origin(x, y)]) + Row(y, x + size, w, size) + rest
  {
  }

  lemma GridStep(origins: seq<Origin>, y: nat, w: nat, h: nat, size: nat)
    requires size > 0 && y < h
    ensures origins + Grid(y, w, h, size) == (origins + Row(y, 0, w, size)) + Grid(y + size, w, h, size)
  {
    assert Grid(y, w, h, size) == Row(y, 0, w, size) + Grid(y + size, w, h, size);
  }

  lemma PlanIsFills(data: seq<int>, w: nat, h: nat, strength: real, fills: seq<Fill>)
    requires |data| == 4 * (w * h)
    requires FillsOf(data, w, h, BlockSize(strength), Grid(0, w, h, BlockSize(strength)), fills)
    ensures fills == PixelatePlan(data, w, h, strength)
  {
  }

  /** The block size never drops below 2, not even at strength 0, so the
      pass is never the identity on a buffer with a non-uniform block. */
  lemma BlockSizeSamples()
    ensures BlockSize(0.0) == 2 && BlockSize(-100.0) == 2 && BlockSize(14.9) == 2
    ensures BlockSize(15.0) == 3 && BlockSize(100.0) == 20
  {
  }

  /** Every pixel of the buffer lies in exactly one block, the one at
      (x - x mod size, y - y mod size). */
  lemma {:induction false} BlockOfPixel(w: nat, h: nat, size: nat, x: nat, y: nat)
    requires size > 0 && x < w && y < h
    ensures Origin(x - x % size, y - y % size) in Grid(0, w, h, size)
    ensures InBlock(Origin(x - x % size, y - y % size), size, x, y)
    ensures forall o :: o in Grid(0, w, h, size) && InBlock(o, size, x, y) ==> o == Origin(x - x % size, y - y % size)
  {
    GridOrigins(0, w, h, size);
    AlignedBelow(x, size);
    AlignedBelow(y, size);
    forall o | o in Grid(0, w, h, size) && InBlock(o, size, x, y)
      ensures o == Origin(x - x % size, y - y % size)
    {
      AlignedUnique(o.x, x, size);
      AlignedUnique(o.y, y, size);
    }
  }

  /** `v - v mod size` is a multiple of `size` at most `v`. */
  lemma AlignedBelow(v: nat, size: nat)
    requires size > 0
    ensures Aligned(v - v % size, size) && 0 <= v - v % size <= v < v - v % size + size
  {
    DivModUnique(v - v % size, size, v / size, 0);
    AlignedIsMultiple(v - v % size, size);
  }

  /** The only multiple of `size` within `size` below `v` is `v - v mod size`. */
  lemma AlignedUnique(a: nat, v: nat, size: nat)
    requires size > 0 && Aligned(a, size) && a <= v < a + size
    ensures a == v - v % size
  {
    AlignedIsMultiple(a, size);
    var k := a / size;
    assert a == k * size;
    DivModUnique(v, size, k, v - a);
  }

  /** Division with remainder has one answer. */
  lemma DivModUnique(v: nat, size: nat, k: nat, r: int)
    requires size > 0 && 0 <= r < size && v == k * size + r
    ensures v % size == r && v / size == k
  {
    var k', r' := v / size, v % size;
    assert v == k' * size + r';
    if k < k' {
      MulLeq(k + 1, k', size);
    } else if k' < k {
      MulLeq(k' + 1, k, size);
    }
  }

  /** The blocks are disjoint: no block contains the origin of another, so
      when a block's origin pixel is read, no earlier fill has covered it and
      it still holds its original colour. */
  lemma {:induction false} OriginsUncovered(w: nat, h: nat, size: nat, o: Origin, p: Origin)
    requires size > 0
    requires o in Grid(0, w, h, size) && p in Grid(0, w, h, size) && o != p
    ensures !InBlock(o, size, p.x, p.y)
  {
    GridOrigins(0, w, h, size);
    if InBlock(o, size, p.x, p.y) {
      AlignedUnique(o.x, p.x, size);
      AlignedUnique(o.y, p.y, size);
      AlignedUnique(p.x, p.x, size);
      AlignedUnique(p.y, p.y, size);
    }
  }

  /** Fills are made in row-major order of their origins, each origin once,
      and each fill is coloured by the pixel at its origin. */
  lemma {:induction false} PlanOrder(data: seq<int>, w: nat, h: nat, strength: real, i: nat, j: nat)
    requires |data| == 4 * (w * h)
    requires i < j < |PixelatePlan(data, w, h, strength)|
    ensures var r := PixelatePlan(data, w, h, strength);
      Before(Origin(r[i].x, r[i].y), Origin(r[j].x, r[j].y))
    ensures var f := PixelatePlan(data, w, h, strength)[i];
      f.x < w && f.y < h && f == FillAt(data, w, h, BlockSize(strength), Origin(f.x, f.y))
  {
    var size := BlockSize(strength);
    GridOrigins(0, w, h, size);
    var g := Grid(0, w, h, size);
    var r := PixelatePlan(data, w, h, strength);
    assert g[i] in g && g[j] in g;
    assert r[i] == FillAt(data, w, h, size, g[i]);
    assert r[j] == FillAt(data, w, h, size, g[j]);
    assert Before(g[i], g[j]);
  }
}

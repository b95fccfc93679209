/** The kaleidoscope effect.  The canvas is copied to a scratch canvas and
    cleared; then the copy is drawn back `segments = floor(strength / 10) + 2`
    times, the `i`-th time turned about the centre by `i` times a full turn
    divided by `segments`.  The draws are modelled as commands; the
    rotation angle is kept as the pair (turn, segments). */
module KaleidoscopeEffect {

  datatype Op =
    | CopyToScratch
    | ClearCanvas
    | DrawTurned(turn: nat, segments: int)

  function Segments(strength: real): int {
    (strength / 10.0).Floor + 2
  }

  /** The draws with turns `i`, `i + 1`, ..., up to `segments - 1`. */
  function Turns(i: nat, segments: int): seq<Op>
    decreases segments - i
  {
    if i >= segments then [] else [DrawTurned(i, segments)] + Turns(i + 1, segments)
  }

  /** The operations of a kaleidoscope pass at `strength`. */
  function KaleidoscopePlan(strength: real): seq<Op> {
    [CopyToScratch, ClearCanvas] + Turns(0, Segments(strength))
  }

  /** The pass: copy, clear, and the drawing loop. */
  method ApplyKaleidoscope(strength: real) returns (ops: seq<Op>)
    ensures ops == KaleidoscopePlan(strength)
  {
    var segments := (strength / 10.0).Floor + 2;
    ops := [CopyToScratch, ClearCanvas];
    var i: nat := 0;
    while i < segments
      invariant ops + Turns(i, segments) == KaleidoscopePlan(strength)
      decreases segments - i
    {
      assert Turns(i, segments) == [DrawTurned(i, segments)] + Turns(i + 1, segments);
      ops := ops + [DrawTurned(i, segments)];
      i := i + 1;
    }
  }

  /** The draws of `Turns(i, n)` are the turns `i` to `n - 1`, in order. */
  lemma {:induction false} TurnsShape(i: nat, n: int)
    ensures |Turns(i, n)| == if i < n then n - i else 0
    ensures forall k :: 0 <= k < |Turns(i, n)| ==> Turns(i, n)[k] == DrawTurned(i + k, n)
    decreases n - i
  {
    if i < n {
      TurnsShape(i + 1, n);
    }
  }

  /** A pass copies, clears, and then draws `max(0, segments)` turned copies,
      the `k`-th turned by `k / segments` of a full turn; so the first copy
      is drawn unturned. */
  lemma {:induction false} PlanShape(strength: real)
    ensures var ops, n := KaleidoscopePlan(strength), Segments(strength);
      && |ops| == 2 + (if n > 0 then n else 0)
      && ops[0] == CopyToScratch && ops[1] == ClearCanvas
      && forall k :: 2 <= k < |ops| ==> ops[k] == DrawTurned(k - 2, n)
  {
    TurnsShape(0, Segments(strength));
  }

  /** There are at least two segments exactly when the strength is not negative. */
  lemma SegmentsAtLeastTwo(strength: real)
    ensures Segments(strength) >= 2 <==> strength >= 0.0
  {
  }

  /** At strength 0 the pass draws the copy unturned and then turned by half
      a turn, so it is not the identity. */
  lemma {:induction false} ZeroStrengthDrawsTwo()
    ensures KaleidoscopePlan(0.0) == [CopyToScratch, ClearCanvas, DrawTurned(0, 2), DrawTurned(1, 2)]
  {
    assert Segments(0.0) == 2;
    assert Turns(2, 2) == [];
    assert Turns(1, 2) == [DrawTurned(1, 2)] + Turns(2, 2);
  }

  /** Below strength -10 the segment count is not positive and the pass
      only clears the canvas. */
  lemma {:induction false} NegativeStrengthClears(strength: real)
    requires strength < -10.0
    ensures KaleidoscopePlan(strength) == [CopyToScratch, ClearCanvas]
  {
    assert Segments(strength) <= 0;
  }
}

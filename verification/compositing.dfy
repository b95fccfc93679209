/** The compositing plan of the drawing canvas.  A redraw clears the canvas
    and then, for each visible layer in order, draws the layer's paths in
    order onto a fresh scratch canvas, runs the layer's effect on the scratch
    canvas when its shader is not "normal" and its strength is positive, and
    draws the scratch canvas onto the canvas with global alpha opacity / 100.
    An unmounted canvas is not redrawn at all.  `now` is the clock reading in
    seconds passed to the effect. */
module Compositing {

  import opened Wrappers
  import opened Json
  import opened Schema
  import Drawing
  import Shaders

  /** The effect run on a layer's scratch canvas: the shader value and the
      parameters handed to the dispatcher. */
  datatype EffectCall = EffectCall(shader: Option<Value>, params: Shaders.ShaderParams)

  /** The compositing of one layer. */
  datatype Pass = Pass(layer: nat, strokes: seq<Drawing.Cmd>, effect: Option<EffectCall>, alpha: real)

  /** A step of a redraw; `Raise` is the error a layer's effect raised,
      which ends the redraw. */
  datatype Op = ClearCanvas | Composite(pass: Pass) | Raise(layer: nat)

  /** The commands of each path, in order. */
  function Strokes(paths: seq<Path>): seq<Drawing.Cmd>
    decreases |paths|
  {
    if paths == [] then [] else Drawing.DrawPath(paths[0]) + Strokes(paths[1..])
  }

  /** The effect branch is taken. */
  predicate EffectApplies(layer: Layer) {
    layer.shader != Some(Str("normal")) && layer.shaderStrength > 0.0
  }

  function LayerPass(layer: Layer, index: nat, now: real): Pass {
    var effect :=
      if EffectApplies(layer) then Some(EffectCall(layer.shader, Shaders.ShaderParams(Some(layer.shaderStrength), Some(now))))
      else None;
    Pass(index, Strokes(layer.paths), effect, layer.opacity / 100.0)
  }

  /** The passes of the visible layers among `layers`, numbered from `from`. */
  function Passes(layers: seq<Layer>, from: nat, now: real): seq<Pass>
    decreases |layers|
  {
    if layers == [] then []
    else (if layers[0].visible then [LayerPass(layers[0], from, now)] else []) + Passes(layers[1..], from + 1, now)
  }

  /** The passes are numbered within the layers' range. */
  lemma {:induction false} PassesInRange(layers: seq<Layer>, from: nat, now: real)
    ensures forall k :: 0 <= k < |Passes(layers, from, now)| ==>
      from <= Passes(layers, from, now)[k].layer < from + |layers|
    decreases |layers|
  {
    if layers != [] {
      PassesInRange(layers[1..], from + 1, now);
      var rest := Passes(layers[1..], from + 1, now);
      var head := if layers[0].visible then [LayerPass(layers[0], from, now)] else [];
      assert Passes(layers, from, now) == head + rest;
      assert forall k :: |head| <= k < |head + rest| ==> (head + rest)[k] == rest[k - |head|];
    }
  }

  /** `p` is the pass of a visible layer among `layers`, numbered from `from`. */
  predicate PassOf(layers: seq<Layer>, from: nat, now: real, p: Pass) {
    && from <= p.layer < from + |layers|
    && layers[p.layer - from].visible
    && p == LayerPass(layers[p.layer - from], p.layer, now)
  }

  /** Every pass is the pass of a visible layer. */
  lemma {:induction false} PassesOfVisibleLayers(layers: seq<Layer>, from: nat, now: real)
    ensures forall k :: 0 <= k < |Passes(layers, from, now)| ==> PassOf(layers, from, now, Passes(layers, from, now)[k])
    decreases |layers|
  {
    if layers != [] {
      PassesOfVisibleLayers(layers[1..], from + 1, now);
      var rest := Passes(layers[1..], from + 1, now);
      var head := if layers[0].visible then [LayerPass(layers[0], from, now)] else [];
      var r := head + rest;
      assert r == Passes(layers, from, now);
      forall k | 0 <= k < |r|
        ensures PassOf(layers, from, now, r[k])
      {
        if k >= |head| {
          assert r[k] == rest[k - |head|];
          PassOfTail(layers, from, now, rest[k - |head|]);
        }
      }
    }
  }

  lemma PassOfTail(layers: seq<Layer>, from: nat, now: real, p: Pass)
    requires |layers| > 0 && PassOf(layers[1..], from + 1, now, p)
    ensures PassOf(layers, from, now, p)
  {
    assert layers[1..][p.layer - (from + 1)] == layers[p.layer - from];
  }

  /** The passes follow layer order. */
  lemma {:induction false} PassesOrdered(layers: seq<Layer>, from: nat, now: real)
    ensures forall i, j :: 0 <= i < j < |Passes(layers, from, now)| ==>
      Passes(layers, from, now)[i].layer < Passes(layers, from, now)[j].layer
    decreases |layers|
  {
    if layers != [] {
      PassesOrdered(layers[1..], from + 1, now);
      PassesInRange(layers[1..], from + 1, now);
      var rest := Passes(layers[1..], from + 1, now);
      var head := if layers[0].visible then [LayerPass(layers[0], from, now)] else [];
      var r := head + rest;
      assert r == Passes(layers, from, now);
      forall i, j | 0 <= i < j < |r|
        ensures r[i].layer < r[j].layer
      {
        assert r[j] == rest[j - |head|];
        if i >= |head| {
          assert r[i] == rest[i - |head|];
        }
      }
    }
  }

  /** Every visible layer has a pass. */
  lemma {:induction false} PassesCoverVisible(layers: seq<Layer>, from: nat, now: real)
    ensures forall i :: 0 <= i < |layers| && layers[i].visible ==>
      exists k :: 0 <= k < |Passes(layers, from, now)| && Passes(layers, from, now)[k].layer == from + i
    decreases |layers|
  {
    if layers != [] {
      PassesCoverVisible(layers[1..], from + 1, now);
      var rest := Passes(layers[1..], from + 1, now);
      var head := if layers[0].visible then [LayerPass(layers[0], from, now)] else [];
      var r := head + rest;
      assert r == Passes(layers, from, now);
      forall i | 0 <= i < |layers| && layers[i].visible
        ensures exists k :: 0 <= k < |r| && r[k].layer == from + i
      {
        if i == 0 {
          assert r[0].layer == from;
        } else {
          assert layers[1..][i - 1].visible;
          var k' :| 0 <= k' < |rest| && rest[k'].layer == from + 1 + (i - 1);
          assert r[k' + |head|] == rest[k'];
        }
      }
    }
  }

  /** The layer's effect raises an error on a `w` by `h` canvas: the layer is
      visible, takes the effect branch, and its shader selects the pass that
      throws. */
  predicate Aborts(layer: Layer, w: nat, h: nat) {
    layer.visible && EffectApplies(layer) && Shaders.Throws(layer.shader, w, h)
  }

  /** How many layers the redraw gets through: the index of the first layer
      whose effect raises an error, or all of them. */
  function Reached(layers: seq<Layer>, w: nat, h: nat): (n: nat)
    ensures n <= |layers|
    ensures forall j :: 0 <= j < n ==> !Aborts(layers[j], w, h)
    ensures n < |layers| ==> Aborts(layers[n], w, h)
    decreases |layers|
  {
    if layers == [] then 0
    else if Aborts(layers[0], w, h) then 0
    else
      var n := Reached(layers[1..], w, h);
      assert forall j :: 1 <= j < |layers| ==> layers[j] == layers[1..][j - 1];
      n + 1
  }

  /** The layer whose effect raised the error that ended the redraw, if any. */
  function RaisedAt(layers: seq<Layer>, w: nat, h: nat): Option<nat> {
    var n := Reached(layers, w, h);
    if n < |layers| then Some(n) else None
  }

  /** A redraw that clears, composites `passes` in order and, when `raised`
      names a layer, stops there with the error that layer's effect raised. */
  function Frame(passes: seq<Pass>, raised: Option<nat>): seq<Op> {
    [ClearCanvas] + seq(|passes|, k requires 0 <= k < |passes| => Composite(passes[k]))
      + (if raised.Some? then [Raise(raised.value)] else [])
  }

  /** A redraw of a `w` by `h` canvas.  The error a layer's effect raises
      leaves the layer loop, so no later layer is composited. */
  function RedrawLayers(mounted: bool, layers: seq<Layer>, w: nat, h: nat, now: real): seq<Op> {
    if !mounted then []
    else Frame(Passes(layers[..Reached(layers, w, h)], 0, now), RaisedAt(layers, w, h))
  }

  // ---------------------------------------------------------------------
  // Properties
  // ---------------------------------------------------------------------

  /** A mounted redraw clears first, then composites in strictly increasing
      layer order, and an error, if one is raised, is its last step. */
  lemma RedrawOrder(layers: seq<Layer>, w: nat, h: nat, now: real)
    ensures var ops := RedrawLayers(true, layers, w, h, now);
      && |ops| >= 1 && ops[0] == ClearCanvas
      && (forall k :: 1 <= k < |ops| - 1 ==> ops[k].Composite?)
      && (forall k :: 1 <= k < |ops| && !ops[k].Composite? ==> k == |ops| - 1 && ops[k].Raise?)
      && (forall k, l :: 1 <= k < l < |ops| && ops[l].Composite? ==> ops[k].pass.layer < ops[l].pass.layer)
  {
    var n := Reached(layers, w, h);
    PassesOrdered(layers[..n], 0, now);
    var passes := Passes(layers[..n], 0, now);
    var ops := RedrawLayers(true, layers, w, h, now);
    assert forall k :: 1 <= k <= |passes| ==> ops[k] == Composite(passes[k - 1]);
    assert |ops| == |passes| + 1 || (|ops| == |passes| + 2 && ops[|ops| - 1].Raise?);
  }

  /** The redraw ends with an error exactly when some layer's effect raises
      one, and the error is that of the first such layer. */
  lemma RedrawRaises(layers: seq<Layer>, w: nat, h: nat, now: real)
    ensures var ops := RedrawLayers(true, layers, w, h, now);
      (exists i :: 0 <= i < |layers| && Aborts(layers[i], w, h)) <==> ops[|ops| - 1].Raise?
    ensures var ops := RedrawLayers(true, layers, w, h, now);
      ops[|ops| - 1].Raise? ==>
        var i := ops[|ops| - 1].layer;
        i < |layers| && Aborts(layers[i], w, h) && forall j :: 0 <= j < i ==> !Aborts(layers[j], w, h)
  {
    var n := Reached(layers, w, h);
    var passes := Passes(layers[..n], 0, now);
    var ops := RedrawLayers(true, layers, w, h, now);
    if n == |layers| {
      assert ops[|ops| - 1] == if passes == [] then ClearCanvas else Composite(passes[|passes| - 1]);
    }
  }

  /** A first layer whose effect raises an error stops the redraw right after
      the clear, whatever the other layers hold. */
  lemma FirstLayerAborts(layers: seq<Layer>, w: nat, h: nat, now: real)
    requires |layers| > 0 && Aborts(layers[0], w, h)
    ensures RedrawLayers(true, layers, w, h, now) == [ClearCanvas, Raise(0)]
  {
    assert layers[..0] == [];
  }

  /** The steps of a frame: the clear, one composite per pass in order, and
      the raised error last, if there is one. */
  lemma FrameShape(passes: seq<Pass>, raised: Option<nat>)
    ensures var ops := Frame(passes, raised);
      && |ops| == |passes| + 1 + (if raised.Some? then 1 else 0)
      && ops[0] == ClearCanvas
      && (forall k :: 1 <= k <= |passes| ==> ops[k] == Composite(passes[k - 1]))
      && (raised.Some? ==> ops[|ops| - 1] == Raise(raised.value))
  {
  }

  /** A mounted redraw composites a layer exactly when the layer is visible
      and comes before the first layer whose effect raises an error. */
  lemma RedrawVisible(layers: seq<Layer>, w: nat, h: nat, now: real, i: nat)
    requires i < |layers|
    ensures var ops := RedrawLayers(true, layers, w, h, now);
      (layers[i].visible && i < Reached(layers, w, h)) <==>
        exists k :: 1 <= k < |ops| && ops[k] == Composite(LayerPass(layers[i], i, now))
  {
    var n := Reached(layers, w, h);
    var before := layers[..n];
    var passes := Passes(before, 0, now);
    var ops := RedrawLayers(true, layers, w, h, now);
    FrameShape(passes, RaisedAt(layers, w, h));
    if layers[i].visible && i < n {
      assert before[i] == layers[i];
      ReachedLayerComposited(before, now, i);
      var k :| 0 <= k < |passes| && passes[k] == LayerPass(before[i], i, now);
      assert ops[k + 1] == Composite(LayerPass(layers[i], i, now));
    } else {
      UnreachedLayerNotComposited(layers, n, now, i);
      forall k | 1 <= k < |ops|
        ensures ops[k] != Composite(LayerPass(layers[i], i, now))
      {
        if k <= |passes| {
          assert ops[k] == Composite(passes[k - 1]);
        }
      }
    }
  }

  /** A visible layer among those reached is composited. */
  lemma ReachedLayerComposited(before: seq<Layer>, now: real, i: nat)
    requires i < |before| && before[i].visible
    ensures exists k :: 0 <= k < |Passes(before, 0, now)| && Passes(before, 0, now)[k] == LayerPass(before[i], i, now)
  {
    var passes := Passes(before, 0, now);
    PassesCoverVisible(before, 0, now);
    PassesOfVisibleLayers(before, 0, now);
    var k :| 0 <= k < |passes| && passes[k].layer == i;
    assert PassOf(before, 0, now, passes[k]);
  }

  /** No pass of the layers before `n` is that of a hidden layer or of a
      layer at `n` or later. */
  lemma UnreachedLayerNotComposited(layers: seq<Layer>, n: nat, now: real, i: nat)
    requires n <= |layers| && i < |layers|
    requires !layers[i].visible || n <= i
    ensures forall k :: 0 <= k < |Passes(layers[..n], 0, now)| ==> Passes(layers[..n], 0, now)[k] != LayerPass(layers[i], i, now)
  {
    var before := layers[..n];
    PassesOfVisibleLayers(before, 0, now);
    assert forall j :: 0 <= j < n ==> before[j] == layers[j];
  }

  /** Each composite draws the layer's paths in order, runs an effect exactly
      when the shader is not "normal" and the strength is positive, and uses
      alpha opacity / 100 whether or not the effect runs. */
  lemma LayerPassShape(layer: Layer, index: nat, now: real)
    ensures var p := LayerPass(layer, index, now);
      && p.layer == index
      && p.strokes == Strokes(layer.paths)
      && (p.effect.Some? <==> layer.shader != Some(Str("normal")) && layer.shaderStrength > 0.0)
      && (p.effect.Some? ==> p.effect.value == EffectCall(layer.shader, Shaders.ShaderParams(Some(layer.shaderStrength), Some(now))))
      && p.alpha == layer.opacity / 100.0
  {
  }

  /** Hiding a layer the redraw reaches removes its composite and nothing
      else. */
  lemma HidingRedraw(layers: seq<Layer>, w: nat, h: nat, now: real, i: nat)
    requires i < |layers|
    ensures var n, hidden := Reached(layers, w, h), layers[i := layers[i].(visible := false)];
      i < n ==>
        RedrawLayers(true, hidden, w, h, now) == Frame(Without(Passes(layers[..n], 0, now), i), RaisedAt(layers, w, h))
  {
    var n := Reached(layers, w, h);
    var hidden := layers[i := layers[i].(visible := false)];
    if i < n {
      SameReach(layers, hidden, w, h, i);
      HiddenPasses(layers, n, now, i);
    }
  }

  /** Among the first `n` layers, hiding layer `i` removes its pass. */
  lemma HiddenPasses(layers: seq<Layer>, n: nat, now: real, i: nat)
    requires i < n <= |layers|
    ensures Passes(layers[i := layers[i].(visible := false)][..n], 0, now) == Without(Passes(layers[..n], 0, now), i)
  {
    var before := layers[..n];
    assert layers[i := layers[i].(visible := false)][..n] == before[i := before[i].(visible := false)];
    HidingRemovesPass(before, 0, now, i);
  }

  /** Hiding a layer after the one whose effect raised the error changes
      nothing. */
  lemma HidingLaterLayer(layers: seq<Layer>, w: nat, h: nat, now: real, i: nat)
    requires i < |layers|
    ensures Reached(layers, w, h) < i ==>
      RedrawLayers(true, layers[i := layers[i].(visible := false)], w, h, now) == RedrawLayers(true, layers, w, h, now)
  {
    var n := Reached(layers, w, h);
    var hidden := layers[i := layers[i].(visible := false)];
    if n < i {
      SameReach(layers, hidden, w, h, i);
      assert hidden[..n] == layers[..n];
    }
  }

  /** Hiding layer `i` other than the first that aborts leaves the reach and
      the raised error as they were. */
  lemma SameReach(layers: seq<Layer>, hidden: seq<Layer>, w: nat, h: nat, i: nat)
    requires i < |layers| && hidden == layers[i := layers[i].(visible := false)]
    requires i != Reached(layers, w, h)
    ensures Reached(hidden, w, h) == Reached(layers, w, h)
    ensures RaisedAt(hidden, w, h) == RaisedAt(layers, w, h)
  {
    var n := Reached(layers, w, h);
    assert !Aborts(hidden[i], w, h);
    assert forall j :: 0 <= j < |layers| && j != i ==> hidden[j] == layers[j];
    ReachedIs(hidden, w, h, n);
  }

  /** `n` is the first index whose layer aborts, or the length. */
  lemma ReachedIs(layers: seq<Layer>, w: nat, h: nat, n: nat)
    requires n <= |layers|
    requires forall j :: 0 <= j < n ==> !Aborts(layers[j], w, h)
    requires n < |layers| ==> Aborts(layers[n], w, h)
    ensures Reached(layers, w, h) == n
  {
  }

  /** Hiding the layer at `i` removes its pass and nothing else. */
  lemma {:induction false} HidingRemovesPass(layers: seq<Layer>, from: nat, now: real, i: nat)
    requires i < |layers|
    ensures Passes(layers[i := layers[i].(visible := false)], from, now) == Without(Passes(layers, from, now), from + i)
    decreases |layers|
  {
    if i == 0 {
      HidingFirst(layers, from, now);
    } else {
      var hidden := layers[i := layers[i].(visible := false)];
      var rest := Passes(layers[1..], from + 1, now);
      assert hidden[1..] == layers[1..][i - 1 := layers[i].(visible := false)];
      HidingRemovesPass(layers[1..], from + 1, now, i - 1);
      assert hidden[0] == layers[0];
      var hiddenRest := Passes(hidden[1..], from + 1, now);
      if layers[0].visible {
        var all := [LayerPass(layers[0], from, now)] + rest;
        assert Passes(layers, from, now) == all;
        assert all[0].layer != from + i && all[1..] == rest;
        assert Passes(hidden, from, now) == [LayerPass(layers[0], from, now)] + hiddenRest;
      } else {
        assert Passes(layers, from, now) == [] + rest == rest;
        assert Passes(hidden, from, now) == [] + hiddenRest == hiddenRest;
      }
    }
  }

  /** Hiding the first layer removes its pass and nothing else. */
  lemma HidingFirst(layers: seq<Layer>, from: nat, now: real)
    requires |layers| > 0
    ensures Passes(layers[0 := layers[0].(visible := false)], from, now) == Without(Passes(layers, from, now), from)
  {
    var hidden := layers[0 := layers[0].(visible := false)];
    var rest := Passes(layers[1..], from + 1, now);
    PassesInRange(layers[1..], from + 1, now);
    assert hidden[1..] == layers[1..];
    WithoutAbsent(rest, from);
    assert Passes(hidden, from, now) == [] + rest == rest;
    if layers[0].visible {
      var all := [LayerPass(layers[0], from, now)] + rest;
      assert Passes(layers, from, now) == all;
      assert all[0].layer == from && all[1..] == rest;
    } else {
      assert Passes(layers, from, now) == [] + rest == rest;
    }
  }

  /** The passes other than that of layer `index`. */
  function Without(passes: seq<Pass>, index: nat): seq<Pass>
    decreases |passes|
  {
    if passes == [] then []
    else (if passes[0].layer == index then [] else [passes[0]]) + Without(passes[1..], index)
  }

  lemma {:induction false} WithoutAbsent(passes: seq<Pass>, index: nat)
    requires forall k :: 0 <= k < |passes| ==> passes[k].layer != index
    ensures Without(passes, index) == passes
    decreases |passes|
  {
    if passes != [] {
      WithoutAbsent(passes[1..], index);
    }
  }

  /** An unmounted canvas is not redrawn. */
  lemma UnmountedDrawsNothing(layers: seq<Layer>, w: nat, h: nat, now: real)
    ensures RedrawLayers(false, layers, w, h, now) == []
  {
  }

  /** The effect receives the layer's own positive strength, and a layer
      whose shader value is missing or is not an effect key takes the effect
      branch but the dispatcher leaves its scratch canvas untouched. */
  lemma {:induction false} EffectStrength(layer: Layer, index: nat, now: real, data: seq<int>, w: nat, h: nat,
                                          inputs: Shaders.Inputs, o: Shaders.Outcome)
    requires |data| == 4 * (w * h)
    requires LayerPass(layer, index, now).effect.Some?
    ensures var call := LayerPass(layer, index, now).effect.value;
      Shaders.StrengthOf(call.params) == layer.shaderStrength > 0.0
    ensures var call := LayerPass(layer, index, now).effect.value;
      ((layer.shader.None? || !layer.shader.value.Str? || Shaders.FromKey(layer.shader.value.s).None?) &&
       Shaders.Dispatched(data, w, h, call.shader, call.params, inputs, o)) ==> o == Shaders.Untouched
  {
  }

  /** The strokes of a layer stroke exactly its paths of two or more points. */
  lemma {:induction false} StrokeCount(paths: seq<Path>)
    ensures Drawing.Count(Strokes(paths), Drawing.IsStroke) == |DrawnPaths(paths)|
    decreases |paths|
  {
    if paths != [] {
      StrokeCount(paths[1..]);
      Drawing.CountJoin(Drawing.DrawPath(paths[0]), Strokes(paths[1..]), Drawing.IsStroke);
      if |paths[0].points| >= 2 {
        Drawing.DrawPathCounts(paths[0]);
      }
    }
  }

  /** The paths with two or more points, in order. */
  function DrawnPaths(paths: seq<Path>): seq<Path>
    decreases |paths|
  {
    if paths == [] then []
    else (if |paths[0].points| >= 2 then [paths[0]] else []) + DrawnPaths(paths[1..])
  }
}

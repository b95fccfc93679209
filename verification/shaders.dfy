/** The effect library's registry and its dispatcher.  The registry extends
    the layer shader names with four more effects; the dispatcher compares
    the layer's shader value with each effect key and runs the matching
    effect at the requested strength, a missing strength counting as 0.

    The effects work on the RGBA buffer of a `w` by `h` canvas.  What each
    effect reads from the random source or the clock is a parameter
    (`Inputs`): `draws(k)` is the `k`-th random number the effect draws, and
    the two wave fields are the trigonometric factors of liquid and ripple at
    the current time.  The neon glow pass is applied to the buffer as it
    stands after the glow redraw. */
module Shaders {

  import opened Wrappers
  import opened Json
  import opened Pixels
  import ShaderTypes
  import NeonGlowEffect
  import SandyEffect
  import MatrixEffect
  import RemapEffect
  import PixelateEffect
  import KaleidoscopeEffect

  datatype EffectType =
    | Normal | NeonGlow | Plasma | Matrix | Kaleidoscope | Psychedelic | Glitch
    | Liquid | Sandy | Pixelate | Ripple

  /** The effect registry in declaration order. */
  const AllEffectTypes: seq<EffectType> :=
    [Normal, NeonGlow, Plasma, Matrix, Kaleidoscope, Psychedelic, Glitch, Liquid, Sandy, Pixelate, Ripple]

  function Key(e: EffectType): string {
    match e
    case Normal => "normal"
    case NeonGlow => "neonGlow"
    case Plasma => "plasma"
    case Matrix => "matrix"
    case Kaleidoscope => "kaleidoscope"
    case Psychedelic => "psychedelic"
    case Glitch => "glitch"
    case Liquid => "liquid"
    case Sandy => "sandy"
    case Pixelate => "pixelate"
    case Ripple => "ripple"
  }

  function DisplayName(e: EffectType): string {
    match e
    case Normal => "Normal"
    case NeonGlow => "Neon Glow"
    case Plasma => "Plasma"
    case Matrix => "Matrix Rain"
    case Kaleidoscope => "Kaleidoscope"
    case Psychedelic => "Psychedelic"
    case Glitch => "Glitch"
    case Liquid => "Liquid"
    case Sandy => "Sandy"
    case Pixelate => "Pixelate"
    case Ripple => "Ripple"
  }

  /** The effect a string names, if it is a registry key. */
  function FromKey(k: string): (r: Option<EffectType>)
    ensures r.Some? ==> Key(r.value) == k
    ensures r.None? ==> forall e: EffectType :: Key(e) != k
  {
    match ShaderTypes.FromKey(k)
    case Some(t) => Some(Widen(t))
    case None =>
      if k == "liquid" then Some(Liquid)
      else if k == "sandy" then Some(Sandy)
      else if k == "pixelate" then Some(Pixelate)
      else if k == "ripple" then Some(Ripple)
      else None
  }

  /** A layer shader name as an effect: same key, same display name. */
  function Widen(t: ShaderTypes.ShaderType): (e: EffectType)
    ensures Key(e) == ShaderTypes.Key(t)
    ensures DisplayName(e) == ShaderTypes.DisplayName(t)
  {
    match t
    case Normal => Normal
    case NeonGlow => NeonGlow
    case Plasma => Plasma
    case Matrix => Matrix
    case Kaleidoscope => Kaleidoscope
    case Psychedelic => Psychedelic
    case Glitch => Glitch
  }

  /** Every layer shader name is an effect key with the same display name,
      and the effects that are not layer shader names are exactly liquid,
      sandy, pixelate and ripple. */
  lemma {:induction false} RegistryExtendsShaderTypes(t: ShaderTypes.ShaderType, e: EffectType)
    ensures FromKey(ShaderTypes.Key(t)) == Some(Widen(t))
    ensures DisplayName(Widen(t)) == ShaderTypes.DisplayName(t)
    ensures ShaderTypes.FromKey(Key(e)).None? <==> e in {Liquid, Sandy, Pixelate, Ripple}
  {
    ShaderTypes.KeyRoundTrip(t, ShaderTypes.Key(t));
    if ShaderTypes.FromKey(Key(e)).Some? {
      var u := ShaderTypes.FromKey(Key(e)).value;
      assert Key(Widen(u)) == Key(e);
    }
  }

  /** Every effect is registered and its key reads back as itself. */
  lemma EffectKeyRoundTrip(e: EffectType)
    ensures |AllEffectTypes| == 11 && e in AllEffectTypes
    ensures FromKey(Key(e)) == Some(e)
  {
    Registered(e);
    match e
    case Liquid =>
    case Sandy =>
    case Pixelate =>
    case Ripple =>
    case _ => assert Key(e) == ShaderTypes.Key(ShaderTypes.FromKey(Key(e)).value);
  }

  /** Every effect is one of the registry's eleven entries. */
  lemma Registered(e: EffectType)
    ensures |AllEffectTypes| == 11 && e in AllEffectTypes
  {
  }

  /** Eleven keys, no two alike, and display names no two alike. */
  lemma EffectsDistinct(e: EffectType, f: EffectType)
    ensures e != f ==> Key(e) != Key(f) && DisplayName(e) != DisplayName(f)
  {
  }

  // ---------------------------------------------------------------------
  // The dispatcher
  // ---------------------------------------------------------------------

  datatype ShaderParams = ShaderParams(strength: Option<real>, time: Option<real>)

  /** The strength the effects receive: missing counts as 0. */
  function StrengthOf(params: ShaderParams): (s: real)
    ensures params.strength.None? ==> s == 0.0
    ensures params.strength.Some? ==> s == params.strength.value
  {
    ValueOr(params.strength, 0.0)
  }

  /** What the effects read from the random source and the clock. */
  datatype Inputs = Inputs(draws: nat -> real, liquidWave: (int, int) -> real, rippleWave: (int, int) -> real)

  /** The branch of the switch a shader value takes: an effect other than
      "normal" whose key the value is, or none. */
  function Selected(shader: Option<Value>): (r: Option<EffectType>)
    ensures r.Some? ==> r.value != Normal && shader == Some(Str(Key(r.value)))
    ensures r.None? ==> forall e: EffectType :: e != Normal ==> shader != Some(Str(Key(e)))
  {
    match shader
    case Some(Str(k)) =>
      (match FromKey(k)
       case Some(e) => if e == Normal then None else Some(e)
       case None => None)
    case _ => None
  }

  /** The number of slices of a glitch pass, the largest integer not above
      strength / 50 * 20; their geometry is not modelled. */
  function GlitchSlices(strength: real): (n: int)
    ensures n as real <= strength / 50.0 * 20.0 < n as real + 1.0
  {
    (strength / 50.0 * 20.0).Floor
  }

  /** The psychedelic pass reads its block-scoped `s` in the pixel loop
      before that name's declaration further down the loop body, so its first
      iteration raises a reference error; a canvas without pixels never runs
      the loop. */
  predicate Throws(shader: Option<Value>, w: nat, h: nat) {
    Selected(shader) == Some(Psychedelic) && w * h > 0
  }

  datatype Outcome =
    | Untouched
    | Repainted(pixels: seq<int>)
    | Filled(fills: seq<PixelateEffect.Fill>)
    | Mirrored(ops: seq<KaleidoscopeEffect.Op>)
    | Sliced(count: int)
    | Thrown
    | NotModelled(effect: EffectType)

  /** `o` is what dispatching `shader` with `params` does to the buffer. */
  predicate Dispatched(data: seq<int>, w: nat, h: nat, shader: Option<Value>, params: ShaderParams,
                       inputs: Inputs, o: Outcome)
    requires |data| == 4 * (w * h)
  {
    var s := StrengthOf(params);
    match Selected(shader)
    case None => o == Untouched
    case Some(e) =>
      match e
      case NeonGlow => o == Repainted(NeonGlowEffect.Glowed(data, s))
      case Sandy => o == Repainted(SandyEffect.Sanded(data, s, inputs.draws))
      case Matrix => o == Repainted(MatrixEffect.Rained(data, w, h, s, inputs.draws))
      case Liquid =>
        o.Repainted? && RemapEffect.InPlaceRemapped(data, o.pixels, w, h, RemapEffect.ShiftField(inputs.liquidWave, s))
      case Ripple =>
        o.Repainted? && RemapEffect.InPlaceRemapped(data, o.pixels, w, h, RemapEffect.ShiftField(inputs.rippleWave, s))
      case Pixelate => o == Filled(PixelateEffect.PixelatePlan(data, w, h, s))
      case Kaleidoscope => o == Mirrored(KaleidoscopeEffect.KaleidoscopePlan(s))
      case Glitch => o == Sliced(GlitchSlices(s))
      case Psychedelic => o == if w * h > 0 then Thrown else Untouched
      case _ => o == NotModelled(e)
  }

  /** The dispatcher. */
  method ApplyShaderEffect(data: seq<int>, w: nat, h: nat, shader: Option<Value>, params: ShaderParams, inputs: Inputs)
    returns (o: Outcome)
    requires |data| == 4 * (w * h)
    ensures Dispatched(data, w, h, shader, params, inputs, o)
  {
    var strength := StrengthOf(params);
    var selected := Selected(shader);
    if selected.None? {
      return Untouched;
    }
    match selected.value {
      case Liquid =>
        var pixels := RemapEffect.ApplyRemap(data, w, h, RemapEffect.ShiftField(inputs.liquidWave, strength));
        o := Repainted(pixels);
      case Sandy =>
        var pixels := SandyEffect.ApplySandy(data, strength, inputs.draws);
        o := Repainted(pixels);
      case Pixelate =>
        var fills := PixelateEffect.ApplyPixelate(data, w, h, strength);
        o := Filled(fills);
      case Glitch =>
        o := Sliced(GlitchSlices(strength));
      case Ripple =>
        var pixels := RemapEffect.ApplyRemap(data, w, h, RemapEffect.ShiftField(inputs.rippleWave, strength));
        o := Repainted(pixels);
      case NeonGlow =>
        var pixels := NeonGlowEffect.ApplyNeonGlow(data, strength);
        o := Repainted(pixels);
      case Plasma =>
        o := NotModelled(Plasma);
      case Matrix =>
        var pixels := MatrixEffect.ApplyMatrix(data, w, h, strength, inputs.draws);
        o := Repainted(pixels);
      case Kaleidoscope =>
        var ops := KaleidoscopeEffect.ApplyKaleidoscope(strength);
        o := Mirrored(ops);
      case Psychedelic =>
        o := if w * h > 0 then Thrown else Untouched;
      case Normal =>
        o := Untouched;
    }
  }

  // ---------------------------------------------------------------------
  // Properties of the dispatcher
  // ---------------------------------------------------------------------

  /** Every layer shader name takes the branch of its own effect, except
      "normal", which matches no branch and leaves the buffer untouched. */
  lemma {:induction false} ShaderTypesDispatched(t: ShaderTypes.ShaderType)
    ensures Selected(Some(Str(ShaderTypes.Key(t)))) == if t == ShaderTypes.Normal then None else Some(Widen(t))
  {
    RegistryExtendsShaderTypes(t, Normal);
  }

  /** A value that is not an effect key, a missing shader included, leaves
      the buffer untouched, as does "normal". */
  lemma UnknownShaderUntouched(data: seq<int>, w: nat, h: nat, shader: Option<Value>, params: ShaderParams,
                               inputs: Inputs, o: Outcome)
    requires |data| == 4 * (w * h)
    requires shader.None? || !shader.value.Str? || FromKey(shader.value.s).None? || shader == Some(Str("normal"))
    requires Dispatched(data, w, h, shader, params, inputs, o)
    ensures o == Untouched
  {
  }

  /** A dispatch raises an error exactly when it runs the psychedelic pass
      over a canvas with pixels; every other shader value returns normally,
      whatever the strength. */
  lemma {:induction false} ThrowsExactly(data: seq<int>, w: nat, h: nat, shader: Option<Value>, params: ShaderParams,
                                         inputs: Inputs, o: Outcome)
    requires |data| == 4 * (w * h)
    requires Dispatched(data, w, h, shader, params, inputs, o)
    ensures o == Thrown <==> Throws(shader, w, h)
    ensures shader == Some(Str("psychedelic")) && w > 0 && h > 0 ==> o == Thrown
  {
    if shader == Some(Str("psychedelic")) {
      assert FromKey("psychedelic") == Some(Psychedelic);
      if w > 0 && h > 0 {
        assert w * h > 0;
      }
    }
  }

  /** The outcome depends on the strength, never on the time, and is unique. */
  lemma {:induction false} DispatchIgnoresTime(data: seq<int>, w: nat, h: nat, shader: Option<Value>,
                                               p1: ShaderParams, p2: ShaderParams, inputs: Inputs, o1: Outcome, o2: Outcome)
    requires |data| == 4 * (w * h)
    requires p1.strength == p2.strength
    requires Dispatched(data, w, h, shader, p1, inputs, o1)
    requires Dispatched(data, w, h, shader, p2, inputs, o2)
    ensures o1 == o2
  {
    var s := StrengthOf(p1);
    match Selected(shader)
    case None =>
    case Some(e) =>
      if e == Liquid {
        RemapEffect.RemapDeterministic(data, o1.pixels, o2.pixels, w, h, RemapEffect.ShiftField(inputs.liquidWave, s));
      } else if e == Ripple {
        RemapEffect.RemapDeterministic(data, o1.pixels, o2.pixels, w, h, RemapEffect.ShiftField(inputs.rippleWave, s));
      }
  }

  /** With no strength given, the pixel passes leave a byte buffer as it is
      (matrix provided its draws are not negative). */
  lemma {:induction false} MissingStrengthKeepsPixels(data: seq<int>, w: nat, h: nat, shader: Option<Value>,
                                                      time: Option<real>, inputs: Inputs, o: Outcome)
    requires IsImage(data, w, h)
    requires forall k :: 0.0 <= inputs.draws(k)
    requires Dispatched(data, w, h, shader, ShaderParams(None, time), inputs, o)
    requires o.Repainted?
    ensures o.pixels == data
  {
    match Selected(shader).value
    case NeonGlow => NeonGlowEffect.GlowZeroStrength(data);
    case Sandy => SandyEffect.SandyZeroStrength(data, inputs.draws);
    case Matrix => MatrixEffect.MatrixZeroStrength(data, w, h, inputs.draws);
    case Liquid =>
      ZeroShift(inputs.liquidWave);
      RemapEffect.RemapZeroShift(data, o.pixels, w, h, RemapEffect.ShiftField(inputs.liquidWave, 0.0));
    case Ripple =>
      ZeroShift(inputs.rippleWave);
      RemapEffect.RemapZeroShift(data, o.pixels, w, h, RemapEffect.ShiftField(inputs.rippleWave, 0.0));
  }

  lemma ZeroShift(wave: (int, int) -> real)
    ensures forall x, y :: RemapEffect.ShiftField(wave, 0.0)(x, y) == 0
  {
    forall x, y
      ensures RemapEffect.ShiftField(wave, 0.0)(x, y) == 0
    {
      RemapEffect.ShiftFieldZero(wave, x, y);
    }
  }

  /** Forty percent of the strength, rounded down, is the glitch slice count. */
  lemma GlitchSliceSamples()
    ensures GlitchSlices(0.0) == 0 && GlitchSlices(2.4) == 0 && GlitchSlices(2.5) == 1
    ensures GlitchSlices(50.0) == 20 && GlitchSlices(100.0) == 40
  {
  }
}

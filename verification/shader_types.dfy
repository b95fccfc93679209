/** The shader names a layer may carry: a closed registry of seven keys, each
    with a display name.  The key "normal" is the one that turns effects off
    when layers are composited. */
module ShaderTypes {

  import opened Wrappers

  datatype ShaderType = Normal | NeonGlow | Plasma | Matrix | Kaleidoscope | Psychedelic | Glitch

  /** The registry in declaration order. */
  const AllShaderTypes: seq<ShaderType> := [Normal, NeonGlow, Plasma, Matrix, Kaleidoscope, Psychedelic, Glitch]

  function Key(t: ShaderType): string {
    match t
    case Normal => "normal"
    case NeonGlow => "neonGlow"
    case Plasma => "plasma"
    case Matrix => "matrix"
    case Kaleidoscope => "kaleidoscope"
    case Psychedelic => "psychedelic"
    case Glitch => "glitch"
  }

  function DisplayName(t: ShaderType): string {
    match t
    case Normal => "Normal"
    case NeonGlow => "Neon Glow"
    case Plasma => "Plasma"
    case Matrix => "Matrix Rain"
    case Kaleidoscope => "Kaleidoscope"
    case Psychedelic => "Psychedelic"
    case Glitch => "Glitch"
  }

  /** The registry keys in declaration order: these seven, no two alike. */
  function Keys(): (ks: seq<string>)
    ensures ks == ["normal", "neonGlow", "plasma", "matrix", "kaleidoscope", "psychedelic", "glitch"]
    ensures forall i, j :: 0 <= i < j < |ks| ==> ks[i] != ks[j]
  {
    var ks := seq(|AllShaderTypes|, i requires 0 <= i < |AllShaderTypes| => Key(AllShaderTypes[i]));
    assert ks[0] == "normal" && ks[1] == "neonGlow" && ks[2] == "plasma" && ks[3] == "matrix";
    assert ks[4] == "kaleidoscope" && ks[5] == "psychedelic" && ks[6] == "glitch";
    ks
  }

  /** The shader type a string names, if it is a registry key. */
  function FromKey(k: string): (r: Option<ShaderType>)
    ensures r.Some? ==> Key(r.value) == k
    ensures r.None? ==> forall t: ShaderType :: Key(t) != k
  {
    if k == "normal" then Some(Normal)
    else if k == "neonGlow" then Some(NeonGlow)
    else if k == "plasma" then Some(Plasma)
    else if k == "matrix" then Some(Matrix)
    else if k == "kaleidoscope" then Some(Kaleidoscope)
    else if k == "psychedelic" then Some(Psychedelic)
    else if k == "glitch" then Some(Glitch)
    else None
  }

  /** Every shader type is named by its key, and by no other string. */
  lemma KeyRoundTrip(t: ShaderType, k: string)
    ensures FromKey(Key(t)) == Some(t)
    ensures FromKey(k) == Some(t) ==> k == Key(t)
  {
  }

  /** The registry lists every shader type exactly once. */
  lemma AllShaderTypesComplete(t: ShaderType)
    ensures t in AllShaderTypes
    ensures forall i, j :: 0 <= i < j < |AllShaderTypes| ==> AllShaderTypes[i] != AllShaderTypes[j]
  {
  }

  /** A string is a registry key exactly when it names a shader type, and
      the key at each position names the type declared there. */
  lemma KeysNameTheTypes(k: string)
    ensures k in Keys() <==> FromKey(k).Some?
    ensures forall i :: 0 <= i < |Keys()| ==> FromKey(Keys()[i]) == Some(AllShaderTypes[i])
  {
  }

  /** Distinct shader types have distinct keys and distinct display names. */
  lemma KeysAndNamesDistinct(t: ShaderType, u: ShaderType)
    requires t != u
    ensures Key(t) != Key(u)
    ensures DisplayName(t) != DisplayName(u)
  {
  }

  /** "normal" is a member of the enumeration. */
  lemma NormalIsMember()
    ensures FromKey("normal") == Some(Normal) && "normal" in Keys()
  {
  }
}

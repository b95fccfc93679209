/** The interchange schema of a drawing: points, paths, layers, the drawing
    content and the stored drawing, together with the validators that accept
    an untyped value as one of them.

    Each validator mirrors one object schema: the input must be an object,
    every declared key must hold a value of the declared kind, and keys the
    schema does not declare are dropped from the result.  The validators check
    nothing beyond that: no lengths, no ranges, no cross-references. */
module Schema {

  import opened Wrappers
  import opened Json

  datatype Point = Point(x: real, y: real)

  /** A freehand stroke: its points in capture order, a CSS color string and a width. */
  datatype Path = Path(points: seq<Point>, color: string, strokeWidth: real)

  /** `shader` is whatever value the input held under that key (`None` when
      the key is absent): the schema declares it without a runtime check. */
  datatype Layer = Layer(
    id: string,
    name: string,
    visible: bool,
    opacity: real,
    paths: seq<Path>,
    shader: Option<Value>,
    shaderStrength: real)

  datatype DrawingContent = DrawingContent(layers: seq<Layer>, activeLayerId: string)

  /** A stored drawing, identified by a numeric id. */
  datatype Drawing = Drawing(id: real, name: string, content: DrawingContent)

  /** A drawing about to be stored: it has no id yet. */
  datatype InsertDrawing = InsertDrawing(name: string, content: DrawingContent)

  // ---------------------------------------------------------------------
  // Validators
  // ---------------------------------------------------------------------

  /** Validates every element of an array with `parse`; fails if any element fails. */
  function ParseArray<T>(items: seq<Value>, parse: Value -> Option<T>): (r: Option<seq<T>>)
    ensures r.Some? <==> forall i :: 0 <= i < |items| ==> parse(items[i]).Some?
    ensures r.Some? ==> |r.value| == |items|
    ensures r.Some? ==> forall i :: 0 <= i < |items| ==> parse(items[i]) == Some(r.value[i])
    decreases |items|
  {
    if items == [] then Some([])
    else
      match parse(items[0])
      case None => None
      case Some(head) =>
        match ParseArray(items[1..], parse)
        case None => None
        case Some(tail) => Some([head] + tail)
  }

  function ParsePoint(v: Value): (r: Option<Point>)
    ensures r.Some? <==> v.Obj? && NumField(v.fields, "x").Some? && NumField(v.fields, "y").Some?
    ensures r.Some? ==> v.fields["x"] == Num(r.value.x) && v.fields["y"] == Num(r.value.y)
  {
    if !v.Obj? then None
    else
      match (NumField(v.fields, "x"), NumField(v.fields, "y"))
      case (Some(x), Some(y)) => Some(Point(x, y))
      case _ => None
  }

  function ParsePath(v: Value): (r: Option<Path>)
    ensures r.Some? <==>
      && v.Obj? && "points" in v.fields && v.fields["points"].Arr?
      && (forall i :: 0 <= i < |v.fields["points"].items| ==> ParsePoint(v.fields["points"].items[i]).Some?)
      && StrField(v.fields, "color").Some? && NumField(v.fields, "strokeWidth").Some?
    ensures r.Some? ==>
      && |r.value.points| == |v.fields["points"].items|
      && (forall i :: 0 <= i < |r.value.points| ==> ParsePoint(v.fields["points"].items[i]) == Some(r.value.points[i]))
      && v.fields["color"] == Str(r.value.color) && v.fields["strokeWidth"] == Num(r.value.strokeWidth)
  {
    if !v.Obj? || !("points" in v.fields) || !v.fields["points"].Arr? then None
    else
      match (ParseArray(v.fields["points"].items, ParsePoint),
             StrField(v.fields, "color"), NumField(v.fields, "strokeWidth"))
      case (Some(points), Some(color), Some(width)) => Some(Path(points, color, width))
      case _ => None
  }

  /** The value under `shader` is taken as it is, present or not. */
  function ParseLayer(v: Value): (r: Option<Layer>)
    ensures r.Some? <==>
      && v.Obj? && "paths" in v.fields && v.fields["paths"].Arr?
      && (forall i :: 0 <= i < |v.fields["paths"].items| ==> ParsePath(v.fields["paths"].items[i]).Some?)
      && StrField(v.fields, "id").Some? && StrField(v.fields, "name").Some?
      && BoolField(v.fields, "visible").Some? && NumField(v.fields, "opacity").Some?
      && NumField(v.fields, "shaderStrength").Some?
    ensures r.Some? ==>
      && |r.value.paths| == |v.fields["paths"].items|
      && (forall i :: 0 <= i < |r.value.paths| ==> ParsePath(v.fields["paths"].items[i]) == Some(r.value.paths[i]))
      && v.fields["id"] == Str(r.value.id) && v.fields["name"] == Str(r.value.name)
      && v.fields["visible"] == Bool(r.value.visible) && v.fields["opacity"] == Num(r.value.opacity)
      && v.fields["shaderStrength"] == Num(r.value.shaderStrength)
      && (r.value.shader.Some? <==> "shader" in v.fields)
      && (r.value.shader.Some? ==> v.fields["shader"] == r.value.shader.value)
  {
    if !v.Obj? || !("paths" in v.fields) || !v.fields["paths"].Arr? then None
    else
      var f := v.fields;
      var id, name, visible := StrField(f, "id"), StrField(f, "name"), BoolField(f, "visible");
      var opacity, paths, strength := NumField(f, "opacity"), ParseArray(f["paths"].items, ParsePath), NumField(f, "shaderStrength");
      var shader := if "shader" in f then Some(f["shader"]) else None;
      if id.Some? && name.Some? && visible.Some? && opacity.Some? && paths.Some? && strength.Some? then
        Some(Layer(id.value, name.value, visible.value, opacity.value, paths.value, shader, strength.value))
      else None
  }

  function ParseContent(v: Value): (r: Option<DrawingContent>)
    ensures r.Some? <==>
      && v.Obj? && "layers" in v.fields && v.fields["layers"].Arr?
      && (forall i :: 0 <= i < |v.fields["layers"].items| ==> ParseLayer(v.fields["layers"].items[i]).Some?)
      && StrField(v.fields, "activeLayerId").Some?
    ensures r.Some? ==>
      && |r.value.layers| == |v.fields["layers"].items|
      && (forall i :: 0 <= i < |r.value.layers| ==> ParseLayer(v.fields["layers"].items[i]) == Some(r.value.layers[i]))
      && v.fields["activeLayerId"] == Str(r.value.activeLayerId)
  {
    if !v.Obj? || !("layers" in v.fields) || !v.fields["layers"].Arr? then None
    else
      match (ParseArray(v.fields["layers"].items, ParseLayer), StrField(v.fields, "activeLayerId"))
      case (Some(layers), Some(active)) => Some(DrawingContent(layers, active))
      case _ => None
  }

  function ParseDrawing(v: Value): (r: Option<Drawing>)
    ensures r.Some? <==>
      && v.Obj? && NumField(v.fields, "id").Some? && StrField(v.fields, "name").Some?
      && "content" in v.fields && ParseContent(v.fields["content"]).Some?
    ensures r.Some? ==>
      && v.fields["id"] == Num(r.value.id) && v.fields["name"] == Str(r.value.name)
      && ParseContent(v.fields["content"]) == Some(r.value.content)
  {
    if !v.Obj? || !("content" in v.fields) then None
    else
      match (NumField(v.fields, "id"), StrField(v.fields, "name"), ParseContent(v.fields["content"]))
      case (Some(id), Some(name), Some(content)) => Some(Drawing(id, name, content))
      case _ => None
  }

  /** An `id` key, if present, is dropped like any other undeclared key. */
  function ParseInsertDrawing(v: Value): (r: Option<InsertDrawing>)
    ensures r.Some? <==>
      && v.Obj? && StrField(v.fields, "name").Some?
      && "content" in v.fields && ParseContent(v.fields["content"]).Some?
    ensures r.Some? ==>
      && v.fields["name"] == Str(r.value.name)
      && ParseContent(v.fields["content"]) == Some(r.value.content)
  {
    if !v.Obj? || !("content" in v.fields) then None
    else
      match (StrField(v.fields, "name"), ParseContent(v.fields["content"]))
      case (Some(name), Some(content)) => Some(InsertDrawing(name, content))
      case _ => None
  }

  // ---------------------------------------------------------------------
  // Encoders: the plain object each typed value stands for
  // ---------------------------------------------------------------------

  function EncodePoint(p: Point): Value {
    Obj(map["x" := Num(p.x), "y" := Num(p.y)])
  }

  function EncodePath(p: Path): Value {
    Obj(map[
      "points" := Arr(seq(|p.points|, i requires 0 <= i < |p.points| => EncodePoint(p.points[i]))),
      "color" := Str(p.color),
      "strokeWidth" := Num(p.strokeWidth)])
  }

  function EncodePaths(paths: seq<Path>): seq<Value> {
    seq(|paths|, i requires 0 <= i < |paths| => EncodePath(paths[i]))
  }
  function EncodeLayer(l: Layer): Value {
    var fields := map[
      "id" := Str(l.id),
      "name" := Str(l.name),
      "visible" := Bool(l.visible),
      "opacity" := Num(l.opacity),
      "paths" := Arr(EncodePaths(l.paths)),
      "shaderStrength" := Num(l.shaderStrength)];
    if l.shader.Some? then Obj(fields["shader" := l.shader.value]) else Obj(fields)
  }

  function EncodeContent(c: DrawingContent): Value {
    Obj(map[
      "layers" := Arr(seq(|c.layers|, i requires 0 <= i < |c.layers| => EncodeLayer(c.layers[i]))),
      "activeLayerId" := Str(c.activeLayerId)])
  }

  function EncodeDrawing(d: Drawing): Value {
    Obj(map["id" := Num(d.id), "name" := Str(d.name), "content" := EncodeContent(d.content)])
  }

  function EncodeInsertDrawing(d: InsertDrawing): Value {
    Obj(map["name" := Str(d.name), "content" := EncodeContent(d.content)])
  }

  // ---------------------------------------------------------------------
  // Drawing <-> InsertDrawing
  // ---------------------------------------------------------------------

  /** The insert form of a stored drawing: everything but its id. */
  function DropId(d: Drawing): (r: InsertDrawing)
    ensures AttachId(r, d.id) == d
  {
    InsertDrawing(d.name, d.content)
  }

  /** The stored form of an insert drawing once the store has assigned `id`. */
  function AttachId(d: InsertDrawing, id: real): Drawing {
    Drawing(id, d.name, d.content)
  }

  // ---------------------------------------------------------------------
  // Properties
  // ---------------------------------------------------------------------

  /** Every point is accepted and comes back unchanged. */
  lemma PointRoundTrip(p: Point)
    ensures ParsePoint(EncodePoint(p)) == Some(p)
  {
  }

  /** Every path is accepted and comes back unchanged, whatever the number
      of its points (none and one included) and whatever its width (zero and
      negative included). */
  lemma {:induction false} PathRoundTrip(p: Path)
    ensures ParsePath(EncodePath(p)) == Some(p)
  {
    var items := EncodePath(p).fields["points"].items;
    forall i | 0 <= i < |items|
      ensures ParsePoint(items[i]) == Some(p.points[i])
    {
      PointRoundTrip(p.points[i]);
    }
    var parsed := ParseArray(items, ParsePoint);
    assert parsed.Some?;
    assert parsed.value == p.points;
  }

  /** Every layer is accepted and comes back unchanged: opacity and shader
      strength may lie anywhere, and the shader may be any value or absent. */
  lemma {:induction false} LayerRoundTrip(l: Layer)
    ensures ParseLayer(EncodeLayer(l)) == Some(l)
  {
    EncodedPathsRoundTrip(l.paths);
    EncodedLayerFields(l);
    var f := EncodeLayer(l).fields;
    assert (if "shader" in f then Some(f["shader"]) else None) == l.shader;
  }

  /** What each key of an encoded layer holds. */
  lemma EncodedLayerFields(l: Layer)
    ensures var v := EncodeLayer(l);
      && v.Obj? && "paths" in v.fields
      && v.fields["paths"] == Arr(EncodePaths(l.paths))
      && StrField(v.fields, "id") == Some(l.id) && StrField(v.fields, "name") == Some(l.name)
      && BoolField(v.fields, "visible") == Some(l.visible) && NumField(v.fields, "opacity") == Some(l.opacity)
      && NumField(v.fields, "shaderStrength") == Some(l.shaderStrength)
      && ("shader" in v.fields <==> l.shader.Some?)
      && (l.shader.Some? ==> v.fields["shader"] == l.shader.value)
  {
  }

  /** The encoded paths of a layer validate as those paths. */
  lemma EncodedPathsRoundTrip(paths: seq<Path>)
    ensures ParseArray(EncodePaths(paths), ParsePath) == Some(paths)
  {
    var items := EncodePaths(paths);
    forall i | 0 <= i < |items|
      ensures ParsePath(items[i]) == Some(paths[i])
    {
      PathRoundTrip(paths[i]);
    }
    var parsed := ParseArray(items, ParsePath);
    assert parsed.Some?;
    assert parsed.value == paths;
  }

  /** Every drawing content is accepted and comes back unchanged, an empty
      layer list and an active id that names no layer included. */
  lemma {:induction false} ContentRoundTrip(c: DrawingContent)
    ensures ParseContent(EncodeContent(c)) == Some(c)
  {
    var items := EncodeContent(c).fields["layers"].items;
    forall i | 0 <= i < |items|
      ensures ParseLayer(items[i]) == Some(c.layers[i])
    {
      LayerRoundTrip(c.layers[i]);
    }
    var parsed := ParseArray(items, ParseLayer);
    assert parsed.Some?;
    assert parsed.value == c.layers;
  }

  lemma {:induction false} DrawingRoundTrip(d: Drawing)
    ensures ParseDrawing(EncodeDrawing(d)) == Some(d)
  {
    ContentRoundTrip(d.content);
  }

  lemma {:induction false} InsertDrawingRoundTrip(d: InsertDrawing)
    ensures ParseInsertDrawing(EncodeInsertDrawing(d)) == Some(d)
  {
    ContentRoundTrip(d.content);
  }

  /** Validating a stored drawing against the insert schema drops its id,
      and attaching that id again gives the drawing back. */
  lemma {:induction false} InsertDropsId(d: Drawing)
    ensures ParseInsertDrawing(EncodeDrawing(d)) == Some(DropId(d))
    ensures AttachId(DropId(d), d.id) == d
  {
    ContentRoundTrip(d.content);
  }

  /** An insert drawing is not a stored drawing: without an id it is refused,
      and with a numeric id added it is accepted as the drawing with that id. */
  lemma {:induction false} DrawingNeedsId(d: InsertDrawing, id: real)
    ensures ParseDrawing(EncodeInsertDrawing(d)) == None
    ensures ParseDrawing(Obj(EncodeInsertDrawing(d).fields["id" := Num(id)])) == Some(AttachId(d, id))
  {
    ContentRoundTrip(d.content);
  }

  /** A point is exactly an object holding two numbers: a key other than
      `x` and `y` neither makes it invalid nor survives validation. */
  lemma PointIgnoresOtherKeys(fields: map<string, Value>, key: string, v: Value)
    requires key != "x" && key != "y"
    ensures ParsePoint(Obj(fields[key := v])) == ParsePoint(Obj(fields))
  {
  }

  /** The shader key never decides whether a layer is accepted: any value
      under it, or none, gives the same verdict and the same other fields. */
  lemma ShaderIsUnchecked(fields: map<string, Value>, v: Value)
    ensures ParseLayer(Obj(fields["shader" := v])).Some? <==> ParseLayer(Obj(fields - {"shader"})).Some?
    ensures ParseLayer(Obj(fields["shader" := v])).Some? ==>
      ParseLayer(Obj(fields["shader" := v])).value
        == ParseLayer(Obj(fields - {"shader"})).value.(shader := Some(v))
  {
    var with := fields["shader" := v];
    var without := fields - {"shader"};
    assert forall k :: k != "shader" ==> (k in with <==> k in without);
    assert forall k :: k != "shader" && k in with ==> with[k] == without[k];
  }
}

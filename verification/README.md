# drawing-app in Dafny

A model of the core of the drawing app: a layered freehand canvas whose
layers are composited with optional pixel effects ("shaders"), and the
schema a stored drawing must satisfy.

- **Schema** (`schema.dfy`, over the untyped values of `json.dfy`): points,
  paths, layers, drawing content, stored drawings and insert drawings. Each
  has a validator that mirrors one object schema. Each validator states
  exactly which values it accepts and how the result's fields relate to the
  value's. Unknown keys are dropped, and the layer's `shader` is taken
  unchecked. Each also has an encoder, and every validator accepts every
  encoding and returns the value encoded.
- **Shader names** (`shader_types.dfy`): the seven layer shader keys and
  their display names.
- **Effect registry and dispatcher** (`shaders.dfy`): the eleven effect
  keys, and the switch that runs the effect named by a layer's shader value
  at the requested strength. A missing strength counts as 0.
- **Pixel effects** on an RGBA buffer of `w * h` pixels (`pixels.dfy`):
  - neon glow (`neon_glow.dfy`)
  - sandy (`sandy.dfy`)
  - matrix rain (`matrix.dfy`)
  - liquid and ripple, through their shared in-place coordinate remap
    (`remap.dfy`)

  Each is a functional specification plus the imperative loop of
  `lib/shaders.ts`, and the loop is proved to compute the specification.
  Channel stores are those of a clamped byte array: the value is clamped to
  [0, 255] and rounded half to even.
- **Canvas-command effects**: pixelate (`pixelate.dfy`) as the list of
  block fills it makes, and kaleidoscope (`kaleidoscope.dfy`) as its copy,
  clear and turned draws.
- **Polyline emission** (`drawing.dfy`): the canvas commands that stroke a
  path, and a reader that recovers the path from them.
- **Stroke capture** (`stroke_capture.dfy`): the pointer handlers as a state
  machine over down, move, up and leave events.
- **Compositing** (`compositing.dfy`): the plan of a redraw. It clears the
  canvas, then makes one composite per visible layer, in layer order. Each
  composite draws the layer's strokes, may run an effect call, and uses
  alpha opacity / 100. The redraw stops at the first layer whose effect
  raises an error.

The model leaves these out and makes them parameters instead:

- Randomness: `draws(k)` is the `k`-th number drawn.
- The trigonometric wave fields of liquid and ripple, which also carry the
  clock.
- The canvas position on the page.

Behaviour of the program that the model keeps, and the members that show it:

- Liquid and ripple remap in place, row by row. So a source pixel the scan
  has already passed is read with its new value, not its original one.
  `RemapEffect.InPlaceDiffersFromSnapshot` shows this differs from a remap
  that reads a snapshot, and `RemapEffect.SwapPairExists` shows the case
  occurs.
- Pixelate and kaleidoscope are not the identity at strength 0. The
  compositor only calls an effect when the strength is positive.
- The psychedelic effect's loop body reads a block-scoped `s` before that
  name's declaration in the same block. On a canvas with at least one pixel
  this raises a reference error at the first pixel, before anything is
  written. The error escapes the layer loop and ends the redraw: later
  layers are not composited (`Shaders.ThrowsExactly`,
  `Compositing.RedrawRaises`, `Compositing.FirstLayerAborts`).
- The schema checks no ranges:
  - opacity and strength may be any number
  - a path may have no points
  - `activeLayerId` need not name a layer
- A path with fewer than two points is accepted by the schema, and the
  pointer handlers hand it to the completion callback, but drawing skips it.
- A shader value that is not an effect key leaves the buffer untouched,
  with no warning.

## Model

| member | source | states |
|---|---|---|
| Schema.ParseArray | schema/schema.ts:13 | an array is accepted exactly when every element is, and the result holds the elements' results in order |
| Schema.ParsePoint | schema/schema.ts:4-7 | a point is accepted exactly when the value is an object whose `x` and `y` hold numbers, and the result carries those numbers |
| Schema.ParsePath | schema/schema.ts:12-16 | a path is accepted exactly when `points` is an array of valid points, `color` a string and `strokeWidth` a number; the result holds each point's result in order and the given colour and width |
| Schema.ParseLayer | schema/schema.ts:20-28 | a layer is accepted exactly when `id` and `name` are strings, `visible` a boolean, `opacity` and `shaderStrength` numbers and `paths` an array of valid paths; every field of the result is the one given, and the shader is present exactly when the key is, holding the value as given |
| Schema.ParseContent | schema/schema.ts:33-36 | content is accepted exactly when `layers` is an array of valid layers and `activeLayerId` a string; the result holds each layer's result in order and the given id |
| Schema.ParseDrawing | schema/schema.ts:40-44 | a stored drawing is accepted exactly when `id` is a number, `name` a string and `content` valid content; the result carries the id, the name and the content's result |
| Schema.ParseInsertDrawing | schema/schema.ts:48-51 | an insert drawing is accepted exactly when `name` is a string and `content` valid content, whatever `id` holds; the result carries the name and the content's result |
| Schema.DropId | schema/schema.ts:48-51 | dropping a stored drawing's id loses nothing else: attaching the same id gives the drawing back |
| Schema.PointRoundTrip | schema/schema.ts:4-7 | every point encodes to a value the point schema accepts as that same point |
| Schema.PathRoundTrip | schema/schema.ts:12-16 | every path round-trips, including paths with zero or one point and any width |
| Schema.LayerRoundTrip | schema/schema.ts:20-28 | every layer round-trips, whatever its opacity, strength or shader value, and when the shader is absent |
| Schema.ContentRoundTrip | schema/schema.ts:33-36 | every drawing content round-trips, including an empty layer list and an active id that names no layer |
| Schema.DrawingRoundTrip | schema/schema.ts:40-44 | every stored drawing round-trips |
| Schema.InsertDrawingRoundTrip | schema/schema.ts:48-51 | every insert drawing round-trips |
| Schema.InsertDropsId | schema/schema.ts:48-51 | the insert schema accepts a stored drawing, drops its id, and attaching the id again gives the drawing back |
| Schema.DrawingNeedsId | schema/schema.ts:40-44 | a drawing without an id is refused by the stored-drawing schema; with a numeric id added it is accepted with that id |
| Schema.PointIgnoresOtherKeys | schema/schema.ts:4-7 | an extra key neither invalidates a point nor survives validation |
| Schema.ShaderIsUnchecked | schema/schema.ts:26 | the shader key never decides acceptance: any value, or none, gives the same verdict, and the value is carried through as it is |
| ShaderTypes.Keys | types/shaders.ts:1-24 | the registry lists exactly "normal", "neonGlow", "plasma", "matrix", "kaleidoscope", "psychedelic" and "glitch", in that order, no two alike |
| ShaderTypes.KeysNameTheTypes | types/shaders.ts:1-24 | a string is in the key list exactly when it names a shader type, and the k-th key names the k-th type of the enumeration |
| ShaderTypes.FromKey | types/shaders.ts:24 | a string names a shader type exactly when it is that type's key |
| ShaderTypes.KeyRoundTrip | types/shaders.ts:1-24 | every shader type is named by its key and by no other string |
| ShaderTypes.AllShaderTypesComplete | types/shaders.ts:1-23 | the enumeration lists every shader type exactly once |
| ShaderTypes.KeysAndNamesDistinct | types/shaders.ts:1-23 | distinct shader types have distinct keys and distinct display names |
| ShaderTypes.NormalIsMember | types/shaders.ts:2-4 | "normal" is one of the keys |
| Shaders.FromKey | lib/shaders.ts:13-49 | a string names an effect exactly when it is that effect's key |
| Shaders.Widen | lib/shaders.ts:13-34 | each layer shader name is an effect with the same key and display name |
| Shaders.RegistryExtendsShaderTypes | lib/shaders.ts:13-47 | the effect registry contains the seven layer shader names, and the effects outside them are exactly liquid, sandy, pixelate and ripple |
| Shaders.EffectKeyRoundTrip | lib/shaders.ts:13-47 | there are eleven effects and each key reads back as its effect |
| Shaders.EffectsDistinct | lib/shaders.ts:13-47 | distinct effects have distinct keys and display names |
| Shaders.StrengthOf | lib/shaders.ts:373 | a missing strength counts as 0; a given one is used as it is |
| Shaders.Selected | lib/shaders.ts:375-406 | a shader value takes a branch exactly when it is the key of an effect other than "normal" |
| Shaders.ApplyShaderEffect | lib/shaders.ts:367-407 | the dispatcher runs the effect the shader value names, at the requested strength; a value that names no effect leaves the buffer untouched; psychedelic raises an error on any buffer with pixels |
| Shaders.ThrowsExactly | lib/shaders.ts:173-194 | the dispatcher raises an error exactly when the shader is psychedelic and the canvas has at least one pixel |
| Shaders.ShaderTypesDispatched | lib/shaders.ts:375-406 | every layer shader name other than "normal" selects its own effect; "normal" selects none |
| Shaders.UnknownShaderUntouched | lib/shaders.ts:375-406 | a missing shader, a non-string, an unknown key or "normal" leaves the buffer untouched |
| Shaders.DispatchIgnoresTime | lib/shaders.ts:367-407 | the outcome depends on the strength and not on the time parameter, and is unique |
| Shaders.MissingStrengthKeepsPixels | lib/shaders.ts:373 | with no strength, every pixel-buffer effect leaves a byte buffer unchanged |
| Shaders.GlitchSlices | lib/shaders.ts:217-218 | the glitch slice count is the greatest integer not above strength / 50 * 20 |
| Shaders.GlitchSliceSamples | lib/shaders.ts:217-218 | samples: strengths 0, 2.4, 2.5, 50 and 100 give 0, 0, 1, 20 and 40 slices |
| Pixels.ToClamped | lib/shaders.ts:312-314 | a store yields a byte: values at or below 0 store 0, at or above 255 store 255, others the nearest integer |
| NeonGlowEffect.ApplyNeonGlow | lib/shaders.ts:76-83 | the pixel loop leaves every pixel glowing as the per-pixel rule says |
| NeonGlowEffect.GlowAt | lib/shaders.ts:77-82 | one iteration changes only its own pixel, raising its colour channels when it is bright |
| NeonGlowEffect.BrightIffSumAbove300 | lib/shaders.ts:77-78 | a pixel is bright exactly when its channel sum exceeds 300 |
| NeonGlowEffect.GlowedPixel | lib/shaders.ts:76-83 | dark pixels and every alpha are untouched; bright channels stay bytes and never decrease for a non-negative strength |
| NeonGlowEffect.GlowZeroStrength | lib/shaders.ts:57-83 | at strength 0 the pass leaves a byte buffer unchanged |
| SandyEffect.ApplySandy | lib/shaders.ts:310-315 | the pixel loop leaves every pixel moved by its own noise draw |
| SandyEffect.SandAt | lib/shaders.ts:311-314 | one iteration changes only its own pixel, moving its three colour channels by one noise value |
| SandyEffect.GrainIsClampedSum | lib/shaders.ts:312 | a grainy channel is a byte within half a unit of the moved value, or the bound it was pushed past |
| SandyEffect.GrainBounded | lib/shaders.ts:311-314 | with draws in [0, 1) a channel moves by at most half the strength plus rounding |
| SandyEffect.SandedPixel | lib/shaders.ts:310-315 | alpha is kept and all three colour channels move by the same noise |
| SandyEffect.SandyZeroStrength | lib/shaders.ts:310-315 | at strength 0 the pass leaves a byte buffer unchanged, whatever is drawn |
| MatrixEffect.Columns | lib/shaders.ts:122 | one drop speed is drawn per whole 20 pixels of width |
| MatrixEffect.ColumnsOfWidth | lib/shaders.ts:122 | samples: widths 19, 20, 399 and 400 give 0, 1, 19 and 20 columns |
| MatrixEffect.ApplyMatrix | lib/shaders.ts:125-139 | the column-major scan leaves every pixel rained on exactly when its own draw falls under the threshold |
| MatrixEffect.GreenAt | lib/shaders.ts:133-137 | one iteration changes only its own pixel, to pure green with alpha kept, when it rains |
| MatrixEffect.RainedPixel | lib/shaders.ts:129-137 | each pixel is either unchanged or pure green, and its alpha is never modified |
| MatrixEffect.MatrixZeroStrength | lib/shaders.ts:120-137 | at strength 0 no draw in [0, 1) falls under the threshold, so the buffer is unchanged |
| RemapEffect.FloorOfDisplaced | lib/shaders.ts:286-287 | rounding a displaced integer coordinate down adds the rounded-down displacement |
| RemapEffect.ShiftFieldZero | lib/shaders.ts:283 | at strength 0 every shift is 0 |
| RemapEffect.SourceOf | lib/shaders.ts:286-292 | a source that is kept lies inside the buffer |
| RemapEffect.ApplyRemap | lib/shaders.ts:280-301 | the row-major in-place scan leaves each pixel as its own source says: kept when the source is outside, the source's original value when the scan had not passed it, its new value otherwise |
| RemapEffect.ScanRow | lib/shaders.ts:281-300 | a row extends the remapped prefix by that row and leaves the rest original |
| RemapEffect.RemapAt | lib/shaders.ts:290-299 | one iteration copies all four channels of an inside source and touches no other pixel |
| RemapEffect.RemapDeterministic | lib/shaders.ts:280-301 | the characterisation of the scan fixes every pixel of its result |
| RemapEffect.RemapZeroShift | lib/shaders.ts:280-301 | with zero shift every pixel is its own source and the buffer is unchanged |
| RemapEffect.SourceOnDiagonal | lib/shaders.ts:286-287 | the one displacement moves both axes, so a source lies on the diagonal through its destination |
| RemapEffect.InPlaceDiffersFromSnapshot | lib/shaders.ts:295-298 | on two pixels that read each other, the scan copies one colour onto both and loses the other; a snapshot remap swaps them, so the two differ |
| RemapEffect.SwapPairExists | lib/shaders.ts:290 | such a pair occurs: pixels (0, 0) and (1, 1) of a 2 by 2 buffer under a suitable shift |
| PixelateEffect.BlockSize | lib/shaders.ts:321 | the block side is at least 2 and at least strength / 5 rounded down, and is one of the two |
| PixelateEffect.BlockSizeSamples | lib/shaders.ts:321 | the block side is 2 at strengths -100, 0 and 14.9, 3 at 15, and 20 at 100 |
| PixelateEffect.RowMembers | lib/shaders.ts:326 | a row of blocks holds the origins at every size-th column from its start within the width |
| PixelateEffect.RowSorted | lib/shaders.ts:326 | a row of blocks runs left to right and stays in its row |
| PixelateEffect.GridMembers | lib/shaders.ts:325-326 | the grid holds exactly the origins at every size-th row and every size-th column within the buffer |
| PixelateEffect.GridSorted | lib/shaders.ts:325-326 | the grid is in row-major order |
| PixelateEffect.ApplyPixelate | lib/shaders.ts:320-332 | the two loops make one fill per grid origin, in row-major order, coloured by the origin pixel |
| PixelateEffect.FillRow | lib/shaders.ts:326-330 | the inner loop adds one fill per block origin of its row, left to right, each coloured by its origin pixel |
| PixelateEffect.BlockOfPixel | lib/shaders.ts:325-329 | every pixel lies in exactly one block, the one at (x - x mod size, y - y mod size) |
| PixelateEffect.OriginsUncovered | lib/shaders.ts:327-329 | no block covers another block's origin, so each origin is read before any fill covers it |
| PixelateEffect.PlanOrder | lib/shaders.ts:325-329 | earlier fills have earlier origins in row-major order, and each fill takes its origin pixel's colour |
| KaleidoscopeEffect.ApplyKaleidoscope | lib/shaders.ts:144-171 | the pass copies, clears and draws one turned copy per segment in turn order |
| KaleidoscopeEffect.TurnsShape | lib/shaders.ts:164-170 | the draw loop draws the turns from i to segments - 1, in order |
| KaleidoscopeEffect.PlanShape | lib/shaders.ts:148-170 | a pass is copy, clear, then max(0, segments) draws, the k-th turned by k / segments of a full turn |
| KaleidoscopeEffect.SegmentsAtLeastTwo | lib/shaders.ts:148 | there are at least two segments exactly when the strength is not negative |
| KaleidoscopeEffect.ZeroStrengthDrawsTwo | lib/shaders.ts:148-170 | at strength 0 the copy is drawn unturned and half-turned, so the pass is not the identity |
| KaleidoscopeEffect.NegativeStrengthClears | lib/shaders.ts:148-170 | below strength -10 the pass draws nothing after clearing |
| Drawing.LinesToShape | lib/drawing.ts:14-16 | the loop draws one line per point, in order |
| Drawing.DrawPathShape | lib/drawing.ts:4-18 | a path emits nothing exactly when it has fewer than two points; otherwise the style, one move to the first point, a line to each further point in order, and a stroke |
| Drawing.DrawPathCounts | lib/drawing.ts:7-17 | a drawn path of n points is opened once, moved to once, stroked once, with n - 1 lines |
| Drawing.LinesRoundTrip | lib/drawing.ts:14-16 | the lines drawn for a list of points read back as those points |
| Drawing.LinesInverse | lib/drawing.ts:14-16 | whatever reads back as a list of points is exactly the lines for those points |
| Drawing.StrokeRoundTrip | lib/drawing.ts:4-18 | the commands of a path of two or more points read back as that path |
| Drawing.StrokeInverse | lib/drawing.ts:4-18 | whatever reads back as a path is exactly that path's commands, and it has two or more points |
| StrokeCapture.InitIgnoresAllButDown | components/canvas/DrawingCanvas.tsx:22-23 | before any pointer-down, no other event changes the state or completes a path |
| StrokeCapture.DownStarts | components/canvas/DrawingCanvas.tsx:86-101 | pointer-down starts a one-point path at the position relative to the canvas, in the current colour and width |
| StrokeCapture.MoveAppends | components/canvas/DrawingCanvas.tsx:103-125 | a move while capturing appends exactly the converted point and previews the path; while idle it does nothing |
| StrokeCapture.UpCompletes | components/canvas/DrawingCanvas.tsx:127-133 | up or leave while capturing completes the path once and stops capturing; while idle it does nothing |
| StrokeCapture.ReadOnlyInert | components/canvas/DrawingCanvas.tsx:87-128 | in read-only mode no sequence of events changes the state or completes a path |
| StrokeCapture.RunJoin | components/canvas/DrawingCanvas.tsx:138-141 | handling two event sequences in turn is handling their concatenation |
| StrokeCapture.MovesAppend | components/canvas/DrawingCanvas.tsx:103-118 | moves while capturing append their points in order and complete nothing |
| StrokeCapture.GestureCompletesOnePath | components/canvas/DrawingCanvas.tsx:86-133 | down, any moves, up completes exactly one path with the points in order; without moves that path draws nothing |
| Compositing.PassesInRange | components/canvas/DrawingCanvas.tsx:34-35 | each composite made for a list of layers belongs to one of them |
| Compositing.PassesOfVisibleLayers | components/canvas/DrawingCanvas.tsx:34-35 | every composite made for a list of layers is that of a visible one |
| Compositing.PassesOrdered | components/canvas/DrawingCanvas.tsx:34 | composites follow layer order |
| Compositing.PassesCoverVisible | components/canvas/DrawingCanvas.tsx:34-35 | every visible layer of a list is composited; the redraw applies this to the layers before the first that raises an error |
| Compositing.Reached | components/canvas/DrawingCanvas.tsx:34-50 | the layers a redraw gets through are exactly those before the first visible layer whose effect raises an error |
| Compositing.RedrawOrder | components/canvas/DrawingCanvas.tsx:32-35 | a redraw clears first, then only composites, in increasing layer order, and an error, if any, is its last step |
| Compositing.RedrawRaises | components/canvas/DrawingCanvas.tsx:34-50 | a redraw ends with an error exactly when some layer's effect raises one, and the error is the first such layer's |
| Compositing.FirstLayerAborts | components/canvas/DrawingCanvas.tsx:34-50 | when the first layer's effect raises an error, the redraw is the clear and that error, whatever the other layers hold |
| Compositing.RedrawVisible | components/canvas/DrawingCanvas.tsx:34-61 | a layer is composited exactly when it is visible and comes before the first layer whose effect raises an error |
| Compositing.LayerPassShape | components/canvas/DrawingCanvas.tsx:43-60 | a layer's composite draws its paths in order, runs an effect exactly when its shader is not "normal" and its strength is positive, with its shader and strength, and uses alpha opacity / 100 either way |
| Compositing.HidingRemovesPass | components/canvas/DrawingCanvas.tsx:35 | among a list of layers, hiding one removes its composite and nothing else |
| Compositing.HidingRedraw | components/canvas/DrawingCanvas.tsx:34-35 | hiding a layer the redraw reaches removes its composite from the redraw and nothing else |
| Compositing.HidingLaterLayer | components/canvas/DrawingCanvas.tsx:34-35 | hiding a layer after the one whose error ended the redraw leaves the redraw unchanged |
| Compositing.UnmountedDrawsNothing | components/canvas/DrawingCanvas.tsx:26-30 | an unmounted canvas is not redrawn |
| Compositing.EffectStrength | components/canvas/DrawingCanvas.tsx:45-50 | the effect receives the layer's own positive strength; an unknown or missing shader still takes the effect branch but is left untouched |
| Compositing.StrokeCount | components/canvas/DrawingCanvas.tsx:43 | a layer's strokes stroke exactly its paths of two or more points |

## Left out

- Plasma: floating-point trigonometry throughout. The dispatcher reports it as not modelled.
- Psychedelic: the wave and hue computations are not modelled. The model records only the reference error raised at the first pixel, before anything is written.
- Compositing: what React does with the error once it escapes the redraw is not modelled. The redraw records it as its last step.
- Zero-sized canvases: under the HTML canvas standard, reading the pixels of a canvas with zero width or height throws. The model treats every pixel effect there as running over no pixels, so psychedelic raises nothing on such a canvas.
- Glitch: only the slice count is modelled. The random slice geometry, channel swaps and noise copy canvas regions and are not modelled.
- Neon glow: the shadow-blur redraw before the pixel pass is canvas rendering. The pass is applied to the buffer as it stands.
- MatrixEffect.ApplyMatrix: the drop speeds only consume draws. The per-column offset and `yPos` are computed and never used, so they are left out.
- Pixelate and kaleidoscope: what a fill or a turned draw composites onto the canvas is canvas rendering. Both are modelled as command lists.
- Liquid and ripple: the wave fields `sin(x/20 + t) * cos(y/20 + t)` and `sin(distance/10 - 5t)` are parameters, not computed.
- Compositing: alpha blending and the drawing of the scratch canvas are rendering. The plan records the strokes, the effect call and the alpha of each composite.
- Compositing: the case where the scratch canvas has no 2D context (DrawingCanvas.tsx:40-41) is left out, since the browser always supplies one.
- Compositing: the clock reading `Date.now() / 1000` is the parameter `now`.
- StrokeCapture.MoveAppends: the preview redraw is reported as `Preview(path)`; its canvas contents are not modelled.
- StrokeCapture.Run: the props and canvas position are fixed for a whole event sequence. Handlers see the state the previous handler left, so two events handled before one re-render (stale React state) are not modelled.
- Resize handling and the React effect hooks that trigger redraws (DrawingCanvas.tsx:64-83) are left out: they only call the redraw.
- Numbers are mathematical reals. NaN and the infinities, and the validators' treatment of them, are left out.
- The validators' error messages are left out. A refused value is `None`.

# Just-Tuning-Instruments: node graph and scale state in Dafny

This project models the in-memory core of a browser music sequencer. Nodes
sit on a canvas and are joined by directed edges. The user selects, drags and
links them, and the audio layer keeps a scale of notes and a mask of the notes
a synthesizer plays.

The graph exists twice in the source, and each copy is modelled as its own
classes:

- `GraphController.js` becomes module `Controller`, with classes
  `GraphAudioNode`, `Graph` and `GraphController`.
- `Graph.js` becomes module `Viz`, with classes `VizGraphNode` and
  `VizGraph`.

Nodes are objects whose fields (`children`, `parents`, `position`,
`selected`) are updated in place. A graph holds them in an ordered
`seq`. The loops of `clear_selections`, `select_in_rect`, `move_selected`,
`hovering` and the edge pass of `draw_graph` are methods with loop
invariants.

The edge pass decides which edge segments and arrowheads get drawn. Both
graphs run the same pass, so it is specified once, in module `Edges`, as a
function `Pass` over the (parent, child) pairs in visiting order. Each
`DrawGraphEdges` method is proved equal to `Pass` over the pairs of a
snapshot of its graph's adjacency lists, and both share the inner loop
`Edges.VisitChildren`. `Pass` and both `DrawGraphEdges` methods key
`edge_pairs` by node identity. The source keys it by the `hash()` strings of
the two nodes (GraphController.js:136-141, Graph.js:110-112), and module
`HashKeys` models that keying separately. The
properties of the pass (one arrowhead per pair, one line per segment, never
both directions) are lemmas about `Pass`.

The audio state of `docs/GMC_Audio.js` is modelled in these modules:

- `Scales`: just and equal-tempered scales, and the `Scale` object that
  recomputes its notes when its base changes.
- `Synths`: `Synth.play` filters the note labels by a boolean mask, and
  `GMCSynth` keeps that mask.
- `AudioFiles`: the first-write-wins file registry `AFM`.

Module `Geometry` holds the shared plane geometry: points, the box spanned
by two corners and the circular hit test. Module `HashKeys` models the edge
pass with the source's own string keys, to exhibit the collision described
under Findings.

Numbers are exact reals. `Math.hypot(dx, dy) <= r` is stated as
`0 <= r && dx*dx + dy*dy <= r*r`. Tone.js is not modelled.
`Tone.Frequency(midi, 'midi')` is an uninterpreted function parameter
`toneFrequency`, and play returns the list of labels it would hand to
`triggerAttackRelease`.

## Model

| member | source | states |
|---|---|---|
| Geometry.InRectBetweenCorners | GraphController.js:261-281 | the box test of select_in_rect holds iff the point lies between the two corners on both axes; swapping the corners gives the same answer; both corners are inside |
| Geometry.WithinRadiusBounds | GraphController.js:15-19 | a hit needs a non-negative radius and lies within `radius` of the centre on each axis; with a non-negative radius the centre itself hits |
| Geometry.WithinRadiusMonotone | GraphController.js:15-19 | a larger hit radius (a larger `scale`) hits at least what a smaller one hits; the hit test is symmetric in the node centre and the coordinate |
| Edges.VisitOrderDistinct | GraphController.js:134-135 | when no node occurs twice and no node lists a child twice, the nested loops visit no (parent, child) pair twice |
| Edges.DrawsEachSegmentOnce | GraphController.js:130-145 | in such a graph the pass draws no line twice and never both directions of two opposite edges |
| Edges.VisitChildren | GraphController.js:135-144 | the inner loop over one node's children continues the pass exactly as Pass does over that node's pairs |
| Edges.StepStrokes | GraphController.js:136-143 | one visit of a pair adds exactly one arrowhead, and adds a line exactly when the reverse pair is not recorded in `edge_pairs` |
| Edges.PassArrows | GraphController.js:130-145 | the pass draws one arrowhead per visited pair, in visiting order |
| Edges.PassRecordsLines | GraphController.js:136-142 | a pair is recorded in `edge_pairs` iff its line was drawn |
| Edges.PassRecordsUnopposed | GraphController.js:136-142 | only visited pairs are recorded; a visited pair whose reverse is never visited is always recorded |
| Edges.PassCoversEverySegment | GraphController.js:130-145 | every visited pair is covered by a line in one direction or the other |
| Edges.PassLinesAreFirstDirections | GraphController.js:130-145 | with no pair visited twice, the lines are exactly the pairs whose reverse was not visited before them, in visiting order |
| Edges.PassDrawsLineOnce | GraphController.js:130-145 | with no pair visited twice, no line is drawn twice |
| Edges.PassNeverDrawsBothDirections | GraphController.js:130-145 | a pair and its reverse never both get a line (and are never both recorded) unless the pair is a self-loop |
| Controller.GraphAudioNode.constructor | GraphController.js:2-6 | a new node has the given position, no children, and is neither selected nor playing |
| Controller.GraphAudioNode.HasChild | GraphController.js:14 | membership of the node in `children` by object identity (`includes`) |
| Controller.GraphAudioNode.IsHovering | GraphController.js:15-19 | a hit needs a non-negative radius and lies in the square of side `2 * radius` around the node; the node's own centre always hits |
| Controller.GraphAudioNode.AddEdge | GraphController.js:8-14 | appends the node iff it was not already a child (reported, where the source only logs); afterwards it is a child; a duplicate-free child list stays duplicate-free |
| Controller.GraphAudioNode.Select | GraphController.js:20 | sets `selected` and nothing else |
| Controller.GraphAudioNode.ToggleSelected | GraphController.js:21 | flips `selected`, so two calls restore it |
| Controller.Graph.constructor | GraphController.js:42-43 | a new graph has no nodes and is valid |
| Controller.Graph.CreateNode | GraphController.js:45-47 | appends exactly one new node at the coordinate, with no children and unselected and not playing; the earlier nodes and their order are kept; validity is kept |
| Controller.Graph.ClearSelections | GraphController.js:54-58 | afterwards no node is selected; positions, children and animation flags are unchanged |
| Controller.EachSegmentDrawnOnce | GraphController.js:130-145 | a valid graph's adjacency lists are well formed, so draw_graph draws no line twice and never both directions of two opposite edges |
| Controller.GraphController.constructor | GraphController.js:61-62 | a new controller owns a new empty graph |
| Controller.GraphController.Hovering | GraphController.js:109-123 | returns the first node in `nodes` order, other than the ignored one, within `radius * scale` of the coordinate; null iff there is none |
| Controller.GraphController.MoveSelected | GraphController.js:252-259 | every selected node moves by the delta, every other node keeps its position; flags and children are unchanged |
| Controller.GraphController.SelectInRect | GraphController.js:261-281 | afterwards a node is selected iff its position lies in the box of the two corners, whatever was selected before; positions, children and animation flags are unchanged |
| Controller.GraphController.DrawGraphEdges | GraphController.js:126-146 | the lines and arrowheads of the edge loop, in drawing order, are those of Pass over the graph's pairs in visiting order |
| Viz.VizGraphNode.constructor | Graph.js:2-7 | a new node has the given position, no parents, no children, and is unselected |
| Viz.VizGraphNode.AddParent | Graph.js:9-11 | always appends, even a node already present: `parents` grows by exactly that node |
| Viz.VizGraphNode.HasChild | Graph.js:17-19 | membership of the node in `children` by object identity (`includes`) |
| Viz.VizGraphNode.IsHovering | Graph.js:21-25 | a hit needs a non-negative radius and lies in the square of side `2 * radius` around the node; the node's own centre always hits |
| Viz.VizGraphNode.AddChild | Graph.js:13-19 | appends the node iff it was not already a child; afterwards it is a child; a duplicate-free child list stays duplicate-free |
| Viz.VizGraphNode.ToggleSelected | Graph.js:27-29 | flips `selected`, so two calls restore it |
| Viz.VizGraph.constructor | Graph.js:39-41 | a new graph has no nodes and is valid |
| Viz.VizGraph.CreateNode | Graph.js:79-81 | appends exactly one new node at the coordinate with no parents, no children, unselected; the earlier nodes and their order are kept; validity is kept |
| Viz.VizGraph.Hovering | Graph.js:83-97 | returns the first node in `nodes` order, other than the ignored one, within `radius * scale` of the coordinate; null iff there is none |
| Viz.VizGraph.ClearSelections | Graph.js:170-174 | afterwards no node is selected; positions, parents and children are unchanged |
| Viz.VizGraph.MoveSelected | Graph.js:192-199 | every selected node moves by the delta, every other node keeps its position; flags, parents and children are unchanged |
| Viz.VizGraph.SelectInRect | Graph.js:201-221 | afterwards a node is selected iff its position lies in the box of the two corners; positions, parents and children are unchanged |
| Viz.VizGraph.DrawGraphEdges | Graph.js:100-116 | the lines and arrowheads of the edge loop, in drawing order, are those of Pass over the graph's pairs in visiting order |
| Viz.EachSegmentDrawnOnce | Graph.js:104-116 | a valid graph's adjacency lists are well formed, so draw_graph draws no line twice and never both directions of two opposite edges |
| Scales.JustScale | docs/GMC_Audio.js:4-8 | one note per ratio, note i being ratio i times the base |
| Scales.JustScaleIncreasing | docs/GMC_Audio.js:4-8 | with a positive base, increasing ratios give increasing frequencies |
| Scales.JustScalesSpanOctave | docs/GMC_Audio.js:16-19 | the slendro and minor pentatonic just scales rise strictly from the base to twice the base |
| Scales.ETScale | docs/GMC_Audio.js:10-14 | one note per relative, note i being the tone frequency of relative i plus the base midi note |
| Scales.ETScalesFromBase | docs/GMC_Audio.js:21-24 | the major (8 notes) and major pentatonic (5 notes) scales start on the base midi note, and the major scale ends 12 semitones above it |
| Scales.Labels | docs/GMC_Audio.js:52 | one label per note, label i carrying note i's frequency |
| Scales.ScaleNotes | docs/GMC_Audio.js:42-51 | succeeds iff the type is "just" or "et"; on success one note per relative; for "just" note i is relative i times the base |
| Scales.OptionsIgnoreOtherKeys | docs/GMC_Audio.js:27-35 | option keys other than `base`, `type` and `relatives` do not affect the options a Scale takes |
| Scales.RandomIndex | docs/GMC_Audio.js:56-58 | for two or more notes the index is in [0, len-2], so the last note is never picked; for one note it is 0; for none it is -1 or 0 |
| Scales.RandomIndexReachable | docs/GMC_Audio.js:56-58 | every index up to len-2 is picked for some random draw |
| Scales.PickNote | docs/GMC_Audio.js:56-58 | undefined iff there are no notes; otherwise a note of the scale, the last one only when it is the only one |
| Scales.Scale.FromOptions | docs/GMC_Audio.js:27-35 | base, type and relatives are the defaults (440, "just", slendro) overridden by the options that name them |
| Scales.Scale.Create | docs/GMC_Audio.js:27-38 | construction succeeds iff the resulting type is "just" or "et"; then the scale is valid, holds the option values and the notes update_base computes for them |
| Scales.Scale.UpdateBase | docs/GMC_Audio.js:40-54 | sets the base first; on a known type the notes are recomputed for the new base and the labels follow them; on an unknown type it fails after the base is set and the notes stay; on a valid (constructed) scale it never fails and validity is kept |
| Scales.Scale.RandomNote | docs/GMC_Audio.js:56-58 | a picked note is one of the scale's notes |
| Synths.TrueIndicesExact | docs/GMC_Audio.js:104-108 | the indices play reads are exactly the true positions of the mask, strictly increasing |
| Synths.MaskedAtTrueIndices | docs/GMC_Audio.js:104-108 | the played list is the labels read at the true positions in increasing order, and is no longer than the scale |
| Synths.Synth.constructor | docs/GMC_Audio.js:66 | the synth holds the given scale |
| Synths.Synth.Play | docs/GMC_Audio.js:99-113 | fails unless the argument is an array as long as the scale (undefined fails as not an object); otherwise returns the labels of exactly the notes whose state is true, in index order |
| Synths.Synth.PlayRandom | docs/GMC_Audio.js:79-81 | as written, always fails |
| Synths.Synth.PlayRandomNote | docs/GMC_Audio.js:79-81 | plays one label of the scale iff the scale has notes |
| Synths.InitialNoteStates | docs/GMC_Audio.js:230 | one state per note, with only index 0 true |
| Synths.GMCSynth.constructor | docs/GMC_Audio.js:223-231 | the options are the defaults overridden by `opts`; one note state per note with only the first true |
| Synths.GMCSynth.UpdateNoteInclusion | docs/GMC_Audio.js:233-237 | writes the state at the index iff the index is in range; every other state is unchanged; validity is kept |
| Synths.GMCSynth.NotesStr | docs/GMC_Audio.js:246-248 | the getter's labels are the labels the scale keeps |
| Synths.GMCSynth.Trigger | docs/GMC_Audio.js:268-270 | never fails, and plays the labels of exactly the included notes in index order |
| Synths.GMCSynth.UpdateBase | docs/GMC_Audio.js:272-274 | never fails; sets the scale's base, keeps its type and relatives, and sets its notes to those the type prescribes for the new base and its labels to theirs; one state per note remains |
| Synths.GMCSynth.Random | docs/GMC_Audio.js:261-263 | as written, always fails, because play_random does |
| Synths.GMCSynth.RandomNote | docs/GMC_Audio.js:261-263 | random through the corrected play_random (see Findings): plays one label of the instrument's scale iff it has notes |
| AudioFiles.Added | docs/GMC_Audio.js:198-200 | the name is present afterwards; its URL is the stored one when that is non-empty and the new one otherwise; no other name changes |
| AudioFiles.AddedFirstWriteWins | docs/GMC_Audio.js:198-200 | once a name holds a non-empty URL, adding it again changes nothing |
| AudioFiles.AFM.constructor | docs/GMC_Audio.js:186-187 | the registry starts empty |
| AudioFiles.AFM.Add | docs/GMC_Audio.js:198-200 | the registry becomes Added of the old registry |
| HashKeys.HashCollides | GraphController.js:22 | the positions (1, 23) and (12, 3) both hash to "123" |
| HashKeys.ExampleHashedPass | GraphController.js:130-145 | with string keys, the example graph gets a line for 0->2 and only an arrowhead for 2->1 |
| HashKeys.HashedPassDropsEdge | GraphController.js:130-145 | with string keys the segment between nodes 2 and 1 gets no line in either direction, while the pass keyed by node identity draws both lines |

## Left out

- The `has_selected` methods (GraphController.js:49-52, Graph.js:66-69) are not modelled. Their `return true` sits in a `forEach` callback, so they always return false.
- The trigonometric geometry is not modelled: `calculate_edge_pair`, `calculate_arrows`, `on_line`, `on_edge`, `selected_edge` and `draw_moving_edge`. It depends on floating-point `atan2`, `cos` and `sin`. The edge pass therefore never highlights a selected edge.
- `march_towards` is not modelled. Its loop guard `count < 0` is false on entry.
- Canvas and DOM work is not modelled: canvas creation, `update_canvas`, `draw_node`, `draw_line`, `draw_rect`, `draw_arrow` and node numbering. A drawn line or arrowhead is an abstract `Stroke`.
- `flood_trigger` and `trigger_selected` are not modelled. They are asynchronous `setTimeout` fan-out with random delays.
- `GraphSynthNode` and `GraphSampleNode` are modelled only as the base node fields. Their `instrument`, `frequency`, `sample`, `play`, `random` and `trigger` are audio glue.
- Tone.js is not modelled: `play_frequencies`, the `duration` getters, `GMCSampler`, `AFM.play`, the `files` and `urls` getters, and the file `<input>` element.
- The commented-out `ETSynth` block is not modelled.
- AudioController.js is not part of this model. Neither is Settings.js.
- Position objects are values. In the source, `create_node` stores the caller's coordinate object, so aliasing between a node's position and an outside object is not captured.
- Controller.GraphController.MoveSelected: requires the node list to be duplicate-free. A node listed twice would move twice in the source, but `create_node` never lists a node twice.
- Viz.VizGraph.MoveSelected: requires the node list to be duplicate-free, for the same reason.
- Scales.ETScale: `Tone.Frequency` is an uninterpreted parameter, so nothing is proved about the equal-tempered frequencies themselves.
- Scales.Labels: a label is `Hz(note)`, not the string `note + 'hz'`. JavaScript's number-to-string formatting is not modelled.
- Scales.Scale.FromOptions: option values are typed (`base` a number, `type` a string, `relatives` a list of numbers). An ill-typed option, which the source would copy and later misuse, is excluded by `WellTyped`.
- Scales.Scale.Create: requires well-typed options, for the same reason. A thrown error is an `Err` result.
- Synths.Synth.constructor: only the assignment of the scale is modelled. `polyphony`, `release`, the option copying onto the synth and the PolySynth are Tone.js configuration.
- Synths.GMCSynth.constructor: the instrument is passed in already built, because building it is the Synth constructor above.
- Synths.GMCSynth.UpdateNoteInclusion: the index is an integer. A negative index, which the source turns into a non-element property, is modelled as changing no state. Non-integer indices are not modelled.
- Synths.Synth.Play: the argument is an array of booleans, a number or undefined. Other JavaScript values and truthiness of non-boolean entries are not modelled.
- Synths.GMCSynth.RandomNote: models the intended `random`, through the corrected play_random; the source's `random` always fails, which Synths.GMCSynth.Random states.
- AudioFiles.Added: the registry is a map with no inherited entries. In the source `file2url` is a plain object `{}`, so the lookup also finds `Object.prototype` members. For a name such as "constructor", "toString", "valueOf" or "hasOwnProperty", the first add finds a truthy inherited function, stores it and drops the URL. For "__proto__", the assignment goes through the prototype setter and adds no own key. The model instead stores the URL for these names.
- AudioFiles.AFM.Add: the same gap as AudioFiles.Added for names of `Object.prototype` members.
- Floating point is not modelled: all arithmetic is exact.

## Findings

| source | as written | input that shows it | evidently intended | confidence | as-written member | corrected member |
|---|---|---|---|---|---|---|
| GraphController.js:22 | `hash()` concatenates the decimal x and y with no separator, and draw_graph keys `edge_pairs` with it (the comment at Graph.js:31-32 assumes the key is unique) | nodes 0 at (1, 23), 1 at (12, 3), 2 at (5, 5), edges 0->2 and 2->1: the key "123->55" recorded for 0->2 is also the reverse key of 2->1, so the segment 2-1 gets no line | every edge gets a line in one direction, i.e. keys that identify nodes | not executed | HashKeys.HashedPassDropsEdge | Edges.PassCoversEverySegment |
| docs/GMC_Audio.js:79-81 | `play_random` passes `random_note()`, a single number, to `play`, which demands an array as long as the scale and throws otherwise | any non-empty scale, any random draw: `play(440)` fails the `length` check (an empty scale passes `undefined`, which fails on `hasOwnProperty`) | play the one randomly chosen note | not executed | Synths.Synth.PlayRandom | Synths.Synth.PlayRandomNote |

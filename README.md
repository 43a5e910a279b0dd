# Trump-Boyer magic cube widget, modelled in Dafny

`src/trump-boyer-cube.js` is a three.js widget that draws the order-5 magic
cube of Walter Trump and Christian Boyer. Each of the 125 numbers is a
sphere at its grid position. The widget can also draw a dashed wireframe
outline, a line that visits the numbers in order, and an HTML label per
number. This project models the part of the widget that does not depend on
three.js or the DOM:

- `config.dfy` (module `Config`): configuration values (`Num`, `Bool`,
  `Str`, `Null`, `Undefined`, `Obj`), the recursive `mergeConfigs` and
  `DEFAULT_CONFIG` (the constant `Config.DefaultConfig`, transcribed from
  lines 37-64).
- `cube.dfy` (module `CubeData`): the `magicCube` constant (`CubeData.MagicCube`,
  transcribed from lines 165-206) and proofs that it is a permutation of 1..125 and magic. It also holds the grid placement
  `((x-2)·s, -(y-2)·s, (z-2)·s)` with `s = CUBE_SCALE` and the two lookup maps
  that `createNodes` fills.
- `scene.dfy` (module `Scene`): the group's children as plain values. The
  group is a sequence of node spheres, one wireframe group and one sequence
  line; `getObjectByName`/`remove` work on it. The module also holds the
  wireframe's corner and edge tables and the sort/filter/map pipeline of
  `createSequenceLine`, with JavaScript's truncating `%`.
- `widget.dfy` (module `Widget`): the widget as a class `CubeWidget`. Its
  fields are the closure state of `create`: `config`, `autoRotate`,
  `data.numberToPosition`, `data.positionToNumber`, `elements.group`,
  `elements.nodes`, `elements.nodeLabels`, the label container's children,
  the scene background and the camera's field of view and distance. Each
  method works step by step like the source: triple loop, `while` loop,
  remove-then-add. Each is proved against a function on the `WidgetState`
  snapshot.
- `properties.dfy` (module `WidgetProperties`): what those functions
  guarantee. The invariant `Synced` says the scene and the view match the
  configuration:
  - one sphere per cell, in loop order, when nodes are shown;
  - one label record and one label `div` per cell when numbers are shown;
  - exactly one wireframe when it is shown;
  - exactly one sequence line over the layout when the line mode is not
    `"none"`;
  - both maps equal to the layout;
  - the rotation flag and background equal to the configured values, and
    the recorded camera fov and distance (the arguments last given to the
    camera) equal to the configured ones.

  `create` establishes `Synced` when the user configuration leaves `colors`
  and `camera` out or gives them as objects. Every `updateConfig` preserves
  it when its delta does the same and, in addition, gives no object for
  `camera.fov`, `camera.distance` or `autoRotate`. Which rebuild a single key
  runs is stated too: `lineMode` alone redraws only the line,
  `showCubeWireframe` alone only the wireframe, and a node setting alone runs
  `createNodes`. These are claims about the state right after `create` or
  `updateConfig`, with no orbit interaction since: the controls' handlers
  also write the rotation flag (see Left out). The corollaries spell out
  what a widget in step holds:
  - 125 spheres, with sphere n at `numberToPosition[n]`;
  - the 125 labels;
  - mutually inverse maps of 125 entries;
  - a line through 62, 63 or 125 points in `"even"`, `"odd"` and `"full"`
    modes.

Positions are triples of reals (`s = 2.5` kept exactly). The source keys
`positionToNumber` by the string `"x,y,z"`. That string names each
position uniquely, so the model keys the map by the position itself.

`getConfig` is meant to return a copy that protects the widget's state
from the caller (the comment at src/trump-boyer-cube.js:573). The code
copies only the top level (`{ ...config }`), so the nested `colors` and
`camera` objects stay shared with the widget. The model follows the code:
`Widget.CubeWidget.GetConfig` returns a record equal to `config`. Values
carry no identity here, so the sharing itself is not modelled (see Left out).

## Model

| member | source | states |
|---|---|---|
| Config.Truthy | src/trump-boyer-cube.js:274 | JavaScript truthiness of a value, as used by `if (config.showNodes)` and the other flag tests (lines 125, 279, 289, 529) |
| Config.MergeConfigs | src/trump-boyer-cube.js:211-228 | the merge itself: every base key, plus every override key with a defined value, each stored through `MergeEntry`; its properties are the `Merge` lemmas below |
| Config.MergeEntry | src/trump-boyer-cube.js:215-225 | one key: recurse when both values are non-null objects, else take a defined override value, else keep the base value |
| Config.MergeKeys | src/trump-boyer-cube.js:211-228 | the merged record's keys are the base's keys plus the override keys whose value is defined |
| Config.MergeKeepsAbsent | src/trump-boyer-cube.js:212-227 | a base key that the override leaves out or sets to `undefined` keeps its base value |
| Config.MergeGetAbsent | src/trump-boyer-cube.js:212-227 | reading a key the override does not define gives what the base gave, present or not |
| Config.MergeEmptyOverride | src/trump-boyer-cube.js:211-228 | merging `{}` gives back the base |
| Config.MergeRecurses | src/trump-boyer-cube.js:215-222 | when both values are non-null objects the merge recurses, and nested keys the override leaves out keep their base values |
| Config.MergeReplaces | src/trump-boyer-cube.js:223-225 | a defined value that is not an object over an object replaces the base value wholesale; this covers `null`, and an object over a non-object |
| Config.MergeMemberAbsent | src/trump-boyer-cube.js:215-227 | a nested read `r.k.k2` survives a merge that leaves `k` out or gives `k` an object without a defined `k2` |
| Config.MergeKeepsObject | src/trump-boyer-cube.js:215-222 | an object-valued key stays an object when the override leaves it out or gives an object |
| Config.MergeMemberReplaced | src/trump-boyer-cube.js:215-225 | a nested override `{k: {k2: v}}`, where v is defined and not an object, sets `r.k.k2` to v |
| Config.MergeSetsKey | src/trump-boyer-cube.js:211-228 | a one-key override sets that key and leaves every other key as it was |
| Config.MergeSelf | src/trump-boyer-cube.js:211-228 | merging a record into itself changes nothing, at every depth |
| Config.MergeIdempotent | src/trump-boyer-cube.js:211-228 | applying the same override twice gives what applying it once gives |
| Config.MergeDisjointCommute | src/trump-boyer-cube.js:211-228 | overrides with disjoint keys can be applied in either order |
| Config.MergeNestedKey | src/trump-boyer-cube.js:215-225 | overriding one key of a nested object changes that nested key and nothing else |
| Config.NestedColorOverrideKeepsDefaults | src/trump-boyer-cube.js:37-64 | `{colors: {nodes: c}}` over `DEFAULT_CONFIG` changes only `colors.nodes`; the other colours and all other defaults stay |
| CubeData.CubeIsPermutation | src/trump-boyer-cube.js:165-206 | no two cells of `magicCube` hold the same number, and the numbers held are exactly 1..125 |
| CubeData.CubeIsMagic | src/trump-boyer-cube.js:7-8 | every row, column and pillar of `magicCube` and all four space diagonals sum to 315 |
| CubeData.CentreIsOrigin | src/trump-boyer-cube.js:263-266 | the centre cell (2, 2, 2) is drawn at the origin, for any scale |
| CubeData.GridAxes | src/trump-boyer-cube.js:263-266 | a later row moves a node down by `CUBE_SCALE`; a later column or layer moves it along +x or +z |
| CubeData.GridPosition | src/trump-boyer-cube.js:263-266 | grid index (x, y, z) maps to ((x-2)s, -(y-2)s, (z-2)s); `CentreIsOrigin` and `GridAxes` state what that means |
| CubeData.FlatIndex | src/trump-boyer-cube.js:258-260 | the z, y, x loops visit cell 25z + 5y + x, each cell of 0..124 once |
| CubeData.PositionDeterminesCell | src/trump-boyer-cube.js:263-271 | a cell's position determines the cell, so the position key names one cell |
| CubeData.TabulateDistinct | src/trump-boyer-cube.js:270-271 | inserting entries whose keys are recovered by an index function overwrites nothing: one entry per insertion |
| CubeData.LayoutUpTo | src/trump-boyer-cube.js:257-283 | after k cells both maps hold one entry per visited cell at its number and position, and nothing else |
| CubeData.LayoutSizes | src/trump-boyer-cube.js:257-283 | after the loops both maps have 125 entries |
| CubeData.LayoutKeys | src/trump-boyer-cube.js:270 | `numberToPosition` has exactly the keys 1..125 |
| CubeData.LayoutPositions | src/trump-boyer-cube.js:261-270 | each cell's number maps to the grid position of that cell |
| CubeData.LayoutInverse | src/trump-boyer-cube.js:270-271 | `positionToNumber` is the exact inverse of `numberToPosition` in both directions |
| CubeData.NumbersPlaced | src/trump-boyer-cube.js:257-283 | number n sits in the layout at the position of the cell that holds it |
| Scene.IndexOfName | src/trump-boyer-cube.js:345 | `getObjectByName` finds the first child of that name, or nothing when no child has it |
| Scene.RemoveNamed | src/trump-boyer-cube.js:345-348 | drops the child `IndexOfName` finds, or nothing when there is none; `RemoveNamedEffect` and `RemoveNamedSubset` state its effect |
| Scene.RemoveNamedEffect | src/trump-boyer-cube.js:345-348 | removing by name takes out exactly one child of that name when there is one; other names and the spheres are kept |
| Scene.RemoveNamedSubset | src/trump-boyer-cube.js:345-348 | removing by name keeps only children that were there |
| Scene.ReplaceNamedChild | src/trump-boyer-cube.js:345-452 | the remove-then-add both rebuilds use (the wireframe at lines 345-348 and 393, the line at lines 418-420 and 452): remove-then-add on a group with at most one child of a name leaves exactly the added children under that name; the spheres and other names are unchanged |
| Scene.ReplaceWireframePart | src/trump-boyer-cube.js:343-395 | replacing the wireframe keeps the spheres and the sequence line; the new wireframe is the group's only one |
| Scene.ReplaceLinePart | src/trump-boyer-cube.js:416-455 | replacing the sequence line keeps the spheres and the wireframe; the new line is the group's only one |
| Scene.AllMeshesGroup | src/trump-boyer-cube.js:251-283 | a group of spheres only has spheres and no named child |
| Scene.WireframeIsCubeOutline | src/trump-boyer-cube.js:356-391 | the wireframe has 12 lines in one colour between corners at ±2·s; each line runs along one axis, and no two lines cover the same edge |
| Scene.JsRem | src/trump-boyer-cube.js:434-436 | JavaScript's `%` with a positive divisor: the remainder lies strictly between -b and b, has the sign of the dividend, differs from the dividend by a multiple of b (which with the bounds fixes its value), and agrees with Dafny's `%` for non-negative dividends |
| Scene.Ascending | src/trump-boyer-cube.js:428-430 | sorting the keys numerically gives an increasing sequence with the same elements and length |
| Scene.IncreasingUnique | src/trump-boyer-cube.js:428-430 | an increasing sequence is determined by its elements, so the sorted order is unique |
| Scene.FilterMembers | src/trump-boyer-cube.js:433-437 | `filter` keeps exactly the elements that satisfy the test |
| Scene.FilterIncreasing | src/trump-boyer-cube.js:433-437 | `filter` keeps the sorted order |
| Scene.LineNumbers | src/trump-boyer-cube.js:428-437 | the line's numbers increase and are exactly the keys selected by the mode: even in `"even"`, odd in `"odd"`, all otherwise |
| Scene.AscendingInterval | src/trump-boyer-cube.js:428-430 | sorting the set lo..hi-1 gives lo, lo+1, ..., hi-1 |
| Scene.LineNumbersOfKeys | src/trump-boyer-cube.js:428-437 | over the keys 1..2k+1: `"even"` gives 2, 4, ..., 2k; `"odd"` gives 1, 3, ..., 2k+1; any other mode gives 1..2k+1 |
| Scene.EvensOfRange | src/trump-boyer-cube.js:434 | the even numbers of 1..2k+1 are 2, 4, ..., 2k |
| Scene.OddsOfRange | src/trump-boyer-cube.js:436 | the odd numbers of 1..2k are 1, 3, ..., 2k-1 |
| Scene.Positions | src/trump-boyer-cube.js:440-441 | the definition of the `.map`: its contract only repeats the comprehension, and what the points mean for each line mode is stated by `PointsOfNumbers` and the `LineThroughKeys` lemmas |
| Scene.LinePoints | src/trump-boyer-cube.js:425-442 | the positions of the numbers `LineNumbers` selects for the mode, in that order; the `.filter(Boolean)` keeps every point since each number is a key of the map |
| Scene.PointsOfNumbers | src/trump-boyer-cube.js:440-442 | the line's i-th point is the position of its i-th number |
| Scene.EvenLineThroughKeys | src/trump-boyer-cube.js:428-442 | in `"even"` mode the line has k points, the i-th at the position of 2i+2 |
| Scene.OddLineThroughKeys | src/trump-boyer-cube.js:428-442 | in `"odd"` mode the line has k+1 points, the i-th at the position of 2i+1 |
| Scene.FullLineThroughKeys | src/trump-boyer-cube.js:428-442 | in any other mode the line has 2k+1 points, the i-th at the position of i+1 |
| Scene.OtherModesAreFull | src/trump-boyer-cube.js:433-437 | every mode other than `"even"` and `"odd"` draws the same line as `"full"` |
| Widget.SetsColor | src/trump-boyer-cube.js:529 | `newConfig.colors` is truthy and its member `key` is not `undefined` |
| Widget.NodesTrigger | src/trump-boyer-cube.js:525-530 | the delta defines `showNodes`, `showNodeNumbers` or `nodeSize`, or sets the nodes colour; `UpdateNodesOnly` states what then runs |
| Widget.WireframeTrigger | src/trump-boyer-cube.js:534-537 | the delta defines `showCubeWireframe` or sets the wireframe colour; `UpdateWireframeOnly` states what then runs |
| Widget.LineTrigger | src/trump-boyer-cube.js:541-544 | the delta defines `lineMode` or sets the sequence-line colour; `UpdateLineOnly` states what then runs |
| Widget.AfterCreateNodes | src/trump-boyer-cube.js:251-296 | the state after `createNodes`: the loops' filling of 125 cells, then the wireframe when shown, then the line unless the mode is `"none"`; `CreateNodesBuilds` and `CreateNodesIdempotent` state what it guarantees |
| Widget.MergeStep | src/trump-boyer-cube.js:518-523 | the merge of the delta into the configuration, and `autoRotate` taken from the delta when it defines it |
| Widget.RebuildStep | src/trump-boyer-cube.js:525-546 | the node, wireframe and line rebuilds, each under its trigger, in that order |
| Widget.BackgroundStep | src/trump-boyer-cube.js:548-550 | the background is set from the merged configuration when the delta sets its colour |
| Widget.CameraStep | src/trump-boyer-cube.js:552-562 | when the delta defines `camera`, its defined `fov` and `distance` are recorded |
| Widget.AfterUpdate | src/trump-boyer-cube.js:517-565 | the state after `updateConfig`: merge and `autoRotate`, the three triggered rebuilds in source order, background, camera; `UpdatePreservesSynced` and the `Update` lemmas state what it guarantees |
| Widget.CubeWidget.constructor | src/trump-boyer-cube.js:79-134 | `create` ends in the state that merging the user configuration over the defaults, initialising the view and running `createNodes` gives |
| Widget.CubeWidget.CreateNode | src/trump-boyer-cube.js:301-313 | appends one sphere with the number, position, `nodeSize` and node colour to both the group and the node list |
| Widget.CubeWidget.CreateNodeLabel | src/trump-boyer-cube.js:316-328 | appends one label `div` for the number and one label record with the number and position |
| Widget.CubeWidget.ClearLabels | src/trump-boyer-cube.js:333-338 | the loop empties the label container, then the label list is emptied |
| Widget.CubeWidget.RemoveByName | src/trump-boyer-cube.js:345-348 | the group loses its first child of that name, if any |
| Widget.CubeWidget.CreateCubeWireframe | src/trump-boyer-cube.js:343-395 | the old wireframe is removed; when the wireframe is shown, one group of the 12 edge lines is added at the end |
| Widget.CubeWidget.CreateSequenceLine | src/trump-boyer-cube.js:416-455 | the old line is removed; unless the mode is `"none"`, one line through the mode's numbers in ascending order is added |
| Widget.CubeWidget.VisitCell | src/trump-boyer-cube.js:261-281 | one loop body records both map entries of the cell, then adds its sphere and label when they are shown |
| Widget.CubeWidget.VisitRow | src/trump-boyer-cube.js:260-282 | the innermost loop visits the five cells of a row |
| Widget.CubeWidget.VisitLayer | src/trump-boyer-cube.js:259-283 | the middle loop visits the five rows of a layer |
| Widget.CubeWidget.VisitCells | src/trump-boyer-cube.js:258-284 | the three loops visit all 125 cells in order |
| Widget.CubeWidget.CreateNodes | src/trump-boyer-cube.js:251-296 | empties the group and the lists, runs the loops, then adds the wireframe and the line when the configuration asks for them |
| Widget.CubeWidget.UpdateConfig | src/trump-boyer-cube.js:517-565 | merges the delta, takes a defined `autoRotate`, runs the rebuilds and in-place updates whose keys the delta defines, and returns the widget itself |
| Widget.CubeWidget.Rebuild | src/trump-boyer-cube.js:525-546 | the node, wireframe and line rebuilds, each run exactly when one of its keys is present in the delta |
| Widget.CubeWidget.UpdateView | src/trump-boyer-cube.js:548-563 | sets the background when the delta sets its colour, then the camera's fov and distance when the delta gives them |
| Widget.CubeWidget.GetConfig | src/trump-boyer-cube.js:573 | returns a record equal to the current configuration |
| Widget.CellEntry | src/trump-boyer-cube.js:261-266 | the number and position of grid cell (z, y, x) are those of flat cell 25z + 5y + x |
| WidgetProperties.NumbersRecordedUnion | src/trump-boyer-cube.js:270 | the loops' writes over an earlier `numberToPosition` lay their own entries over it |
| WidgetProperties.PositionsRecordedUnion | src/trump-boyer-cube.js:271 | the same for `positionToNumber` |
| WidgetProperties.NumbersRecordedLayout | src/trump-boyer-cube.js:257-283 | over `magicCube` the loops' writes from an empty map are the layout built so far |
| WidgetProperties.PositionsRecordedLayout | src/trump-boyer-cube.js:257-283 | the same for the position map |
| WidgetProperties.CubeLayoutIsLayout | src/trump-boyer-cube.js:257-283 | over `magicCube` the maps written by the loops are the layout maps |
| WidgetProperties.FilledMaps | src/trump-boyer-cube.js:257-283 | after the loops, starting from entries that agree with the layout, both maps are exactly the layout |
| WidgetProperties.NodesUpToCount | src/trump-boyer-cube.js:274-276 | the loops make only spheres: one per cell when nodes are shown, none otherwise |
| WidgetProperties.NodesUpToElements | src/trump-boyer-cube.js:274-276 | sphere j carries cell j's number and position |
| WidgetProperties.LabelsUpToShape | src/trump-boyer-cube.js:279-281 | one label record per cell when numbers are shown, none otherwise; record j is for cell j |
| WidgetProperties.DivsUpToShape | src/trump-boyer-cube.js:279-281 | one label `div` per cell when numbers are shown, none otherwise |
| WidgetProperties.NodesAgree | src/trump-boyer-cube.js:301-313 | configurations that agree on `showNodes`, `showNodeNumbers`, `nodeSize` and the node colour make the same spheres |
| WidgetProperties.LabelsAgree | src/trump-boyer-cube.js:316-328 | configurations that agree on `showNodeNumbers` make the same labels |
| WidgetProperties.WireframeAsPart | src/trump-boyer-cube.js:343-395 | `createCubeWireframe` swaps the wireframe part of the group for the one the configuration asks for |
| WidgetProperties.LineAsPart | src/trump-boyer-cube.js:416-455 | `createSequenceLine` swaps the line part likewise |
| WidgetProperties.CreateNodesBuilds | src/trump-boyer-cube.js:251-296 | `createNodes` builds the whole scene for the current configuration: maps, spheres, labels, at most one wireframe and one line. Configuration and view are unchanged |
| WidgetProperties.CreateNodesMaps | src/trump-boyer-cube.js:251-296 | the steps after the loops leave the maps and the settings as they were |
| WidgetProperties.CreateNodesIdempotent | src/trump-boyer-cube.js:251-296 | running `createNodes` twice gives what running it once gives |
| WidgetProperties.NodesStepBuilds | src/trump-boyer-cube.js:525-532 | the node rebuild of `updateConfig` rebuilds the whole scene when one of its keys is present; otherwise the spheres and labels, already right, stay |
| WidgetProperties.WireframeStepBuilds | src/trump-boyer-cube.js:534-539 | after the wireframe step the group's wireframe is the one the configuration asks for |
| WidgetProperties.LineStepBuilds | src/trump-boyer-cube.js:541-546 | after the line step the group's line is the one the configuration asks for |
| WidgetProperties.MergeShape | src/trump-boyer-cube.js:518 | a delta that gives `colors` and `camera` as objects, or leaves them out, keeps them objects |
| WidgetProperties.MergeColorUnset | src/trump-boyer-cube.js:518 | a colour the delta does not set reads the same after the merge |
| WidgetProperties.MergeNodeSettings | src/trump-boyer-cube.js:525-532 | a delta without the node keys leaves the node settings as they were |
| WidgetProperties.MergeWireframeSettings | src/trump-boyer-cube.js:534-539 | a delta without the wireframe keys leaves the wanted wireframe as it was |
| WidgetProperties.MergeLineSettings | src/trump-boyer-cube.js:541-546 | a delta without the line keys leaves the wanted line as it was |
| WidgetProperties.AutoRotateAfterMerge | src/trump-boyer-cube.js:518-523 | the rotation flag equals the merged configuration's `autoRotate` |
| WidgetProperties.CameraAfterMerge | src/trump-boyer-cube.js:552-563 | the camera's fov and distance equal the merged configuration's |
| WidgetProperties.ViewAfterUpdate | src/trump-boyer-cube.js:548-563 | after the in-place updates the rotation flag, background and camera hold the merged configuration's values |
| WidgetProperties.CreatedSynced | src/trump-boyer-cube.js:79-134 | for any user configuration whose `colors` and `camera` are absent or objects, the widget `create` returns is in step with its configuration and holds the magic cube |
| WidgetProperties.RebuildBuilds | src/trump-boyer-cube.js:525-546 | the three rebuilds over a scene built for the old configuration leave a scene built for the merged one |
| WidgetProperties.UpdatePreservesSynced | src/trump-boyer-cube.js:517-565 | `updateConfig` keeps the widget in step with its configuration, for deltas whose `colors` and `camera` are absent or objects and that give no object for `camera.fov`, `camera.distance` or `autoRotate` (see Left out) |
| WidgetProperties.UpdateEmptyIsIdentity | src/trump-boyer-cube.js:517-565 | `updateConfig({})` changes nothing |
| WidgetProperties.UpdateAutoRotate | src/trump-boyer-cube.js:517-523 | `updateConfig({autoRotate: b})` sets the flag and the configuration key and rebuilds nothing |
| WidgetProperties.UpdateLineOnly | src/trump-boyer-cube.js:517-546 | `updateConfig({lineMode: v})` with v defined equals the merge followed by `createSequenceLine` alone; spheres, labels and both maps are unchanged |
| WidgetProperties.UpdateWireframeOnly | src/trump-boyer-cube.js:517-539 | `updateConfig({showCubeWireframe: v})` with v defined equals the merge followed by `createCubeWireframe` alone; spheres, labels and both maps are unchanged |
| WidgetProperties.UpdateNodesOnly | src/trump-boyer-cube.js:517-532 | a defined `showNodes`, `showNodeNumbers` or `nodeSize` alone gives the merge followed by `createNodes` and no other rebuild |
| WidgetProperties.SyncedGroup | src/trump-boyer-cube.js:251-296 | a widget in step has exactly one wireframe when it is shown and none otherwise, the same for the line, and its spheres are the node list |
| WidgetProperties.SyncedNodes | src/trump-boyer-cube.js:251-313 | with nodes shown there are 125 spheres, and sphere n is at `numberToPosition[n]` |
| WidgetProperties.SyncedNodesDistinct | src/trump-boyer-cube.js:251-313 | no two spheres carry the same number |
| WidgetProperties.SyncedLabels | src/trump-boyer-cube.js:251-328 | with numbers shown there are 125 label records and `div`s, those for n at the index of sphere n |
| WidgetProperties.SyncedHidden | src/trump-boyer-cube.js:251-296 | hidden nodes or numbers leave the corresponding lists empty |
| WidgetProperties.CellsNumbered | src/trump-boyer-cube.js:257-283 | the cell holding n is where the loops record n |
| WidgetProperties.CellsDistinct | src/trump-boyer-cube.js:165-206 | distinct cells hold distinct numbers |
| WidgetProperties.SyncedMaps | src/trump-boyer-cube.js:257-283 | both maps of a widget in step have 125 entries and are mutual inverses |
| WidgetProperties.SyncedLine | src/trump-boyer-cube.js:428 | the line of a widget in step runs over the layout, whose keys are 1..125 |
| WidgetProperties.SyncedLineChild | src/trump-boyer-cube.js:416-455 | the line in the group is the one the configuration draws over the widget's map |
| WidgetProperties.SyncedEvenLine | src/trump-boyer-cube.js:433-434 | in `"even"` mode the line visits the positions of 2, 4, ..., 2k in order (62 points over 1..125) |
| WidgetProperties.SyncedOddLine | src/trump-boyer-cube.js:435-436 | in `"odd"` mode it visits the positions of 1, 3, ..., 2k+1 (63 points) |
| WidgetProperties.SyncedFullLine | src/trump-boyer-cube.js:428-442 | in `"full"` mode, and any other mode but `"none"`, it visits 1, 2, ..., 2k+1 (125 points) |

## Left out

- three.js objects (scene, camera, renderer, orbit controls, geometries, materials, `Color`) are foreign library code. Spheres, lines and the wireframe are plain values recording what they are made from. `scene.add(elements.group)` is not modelled.
- The label screen projection `updateNodeLabels` (lines 460-494) is left out: it is floating-point camera maths over `window` dimensions.
- The camera updates `setLength` and `updateProjectionMatrix` are foreign float vector code. The model records the fov and the argument given to `camera.position.setLength` (line 559), not the camera itself. `setLength` normalises the position first, so after `{camera: {distance: 0}}` the camera stays at the origin whatever distance follows, and a negative distance points it the other way; neither is modelled.
- The animation loop, the resize handler and `destroy` are left out: they are scheduling and DOM plumbing.
- The orbit controls' `start` and `end` handlers (lines 124-134) are left out, although they write the rotation flag the model tracks. `start` sets it to false whatever the configuration says. `end`, when `config.autoRotate` is truthy, starts a 500 ms timer that sets it to true without reading the configuration again, so an `updateConfig({autoRotate: false})` made before the timer fires is undone. The rotation conjunct of `Synced` therefore holds only between user interactions.
- The DOM is not modelled: `createLabelContainer`, the label `div`s' styling and the container's `HTMLElement` check. A label `div` is modelled by its text, the number.
- The `window` binding and the ESM export at the end of the file are packaging; build.js is not part of this model.
- Numbers are mathematical reals: NaN, infinities and float rounding are not modelled. The grid positions are exact at scale 2.5.
- A property read through `null` or `undefined` throws a TypeError in JavaScript: `config.colors.nodes` after a delta set `colors` to `null`, or `newConfig.camera.fov` at line 553 for `{camera: null}`. The model reads `undefined` instead. A read through a number, boolean or string gives `undefined` in JavaScript too, which is what the model's `Member` returns.
- Objects carry no identity, so there is no aliasing. `getConfig`'s shallow copy still shares the nested `colors` and `camera` objects with the widget. A caller's mutation through it is not modelled.
- The per-instance `magicCube` is a constant field. Lemmas that need its contents require it to equal `MagicCube`; the constructor sets it so.
- WidgetProperties.CreatedSynced requires `CreateShape` of the user configuration: `colors` and `camera` left out or given as objects. A `null` one makes `create` throw at its first read through it (`config.colors.background` at line 99, `config.camera.fov` at line 103). A number, boolean or string does not throw, but then the merged configuration has no colours or camera settings, and `Synced` asks for them as objects.
- WidgetProperties.UpdatePreservesSynced requires `KeepsShape` of the delta: the condition of `CreateShape`, and in addition `camera.fov`, `camera.distance` and `autoRotate` not objects. `{camera: null}` throws at line 553. `{colors: null}` returns normally, since every guard reads `newConfig.colors && …` (lines 529, 536, 543, 548), but it leaves a configuration whose next colour read (line 304, 403 or 445) throws; `Synced` asks for `colors` as an object. An object `fov`, `distance` or `autoRotate` over an earlier object is merged into it in the configuration, while the camera and the rotation flag take the delta's object itself, so the view and the configuration disagree. The invariant is not claimed for those deltas.
- WidgetProperties.SyncedEvenLine, WidgetProperties.SyncedOddLine and WidgetProperties.SyncedFullLine are stated for any layout keyed by 1..2k+1. WidgetProperties.SyncedLine supplies the keys of the magic cube's layout, with k = 62.

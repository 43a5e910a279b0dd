/**
 * The state of one widget made by `TrumpBoyerCube.create` and the steps that
 * change it: `createNodes` with `createNode`, `createNodeLabel` and
 * `clearLabels`, `createCubeWireframe`, `createSequenceLine`, `updateConfig`
 * and `getConfig` (src/trump-boyer-cube.js). Each method is proved against a
 * function on `WidgetState`; the lemmas after the class state what those
 * functions guarantee.
 */
module Widget {
  import opened Config
  import opened CubeData
  import opened Scene

  /** Everything the widget keeps between calls. The scene background and
      the camera's field of view and distance are kept as the configuration
      values they were set from. */
  datatype WidgetState = WidgetState(
    magicCube: CubeTable,
    config: Record,
    autoRotate: Value,
    background: Value,
    cameraFov: Value,
    cameraDistance: Value,
    numberToPosition: map<int, Pos>,
    positionToNumber: map<Pos, int>,
    group: seq<Child>,
    nodes: seq<Child>,
    nodeLabels: seq<Label>,
    labelContainer: seq<LabelDiv>)

  // ---------------------------------------------------------------------
  // Reading the configuration
  // ---------------------------------------------------------------------

  /** `config.colors.key` */
  function ColorOf(c: Record, key: string): Value {
    Member(Get(c, "colors"), key)
  }

  predicate ShowsNodes(c: Record) {
    Truthy(Get(c, "showNodes"))
  }

  predicate ShowsNumbers(c: Record) {
    Truthy(Get(c, "showNodeNumbers"))
  }

  predicate ShowsWireframe(c: Record) {
    Truthy(Get(c, "showCubeWireframe"))
  }

  /** `config.lineMode !== "none"` */
  predicate DrawsLine(c: Record) {
    Get(c, "lineMode") != Str("none")
  }

  // ---------------------------------------------------------------------
  // What the steps build
  // ---------------------------------------------------------------------

  /** The sphere `createNode(number, position)` adds. */
  function NodeFor(c: Record, number: int, position: Pos): Child {
    NodeMesh(number, position, Get(c, "nodeSize"), ColorOf(c, "nodes"))
  }

  /** A table of the magic cube's shape: five layers of five rows of five. */
  type CubeTable = t: seq<seq<seq<int>>> | Cubic(t) witness seq(5, _ => seq(5, _ => seq(5, _ => 0)))

  /** The number a cube table holds for cell k in loop order (0 off the grid). */
  function NumberIn(cube: CubeTable, k: int): int {
    if 0 <= k < 125 then EntryAt(cube, k) else 0
  }

  /** `data.numberToPosition` after the loops have visited cells 0..k-1,
      starting from m: each cell's entry is written over the old one. */
  function NumbersRecorded(m: map<int, Pos>, cube: CubeTable, k: nat): map<int, Pos> {
    if k == 0 then m else NumbersRecorded(m, cube, k - 1)[NumberIn(cube, k - 1) := PositionOfCell(k - 1)]
  }

  /** `data.positionToNumber` after the loops have visited cells 0..k-1. */
  function PositionsRecorded(m: map<Pos, int>, cube: CubeTable, k: nat): map<Pos, int> {
    if k == 0 then m else PositionsRecorded(m, cube, k - 1)[PositionOfCell(k - 1) := NumberIn(cube, k - 1)]
  }

  /** The sphere of cell k, when nodes are shown. */
  function NodeAt(c: Record, cube: CubeTable, k: int): seq<Child> {
    if ShowsNodes(c) then [NodeFor(c, NumberIn(cube, k), PositionOfCell(k))] else []
  }

  /** The label record of cell k, when numbers are shown. */
  function LabelAt(c: Record, cube: CubeTable, k: int): seq<Label> {
    if ShowsNumbers(c) then [Label(NumberIn(cube, k), PositionOfCell(k))] else []
  }

  /** The label `div` of cell k, when numbers are shown. */
  function DivAt(c: Record, cube: CubeTable, k: int): seq<LabelDiv> {
    if ShowsNumbers(c) then [LabelDiv(NumberIn(cube, k))] else []
  }

  /** The spheres of cells 0..k-1, in loop order. */
  function NodesUpTo(c: Record, cube: CubeTable, k: nat): seq<Child> {
    if k == 0 then [] else NodesUpTo(c, cube, k - 1) + NodeAt(c, cube, k - 1)
  }

  /** The label records of cells 0..k-1. */
  function LabelsUpTo(c: Record, cube: CubeTable, k: nat): seq<Label> {
    if k == 0 then [] else LabelsUpTo(c, cube, k - 1) + LabelAt(c, cube, k - 1)
  }

  /** The label `div`s of cells 0..k-1. */
  function DivsUpTo(c: Record, cube: CubeTable, k: nat): seq<LabelDiv> {
    if k == 0 then [] else DivsUpTo(c, cube, k - 1) + DivAt(c, cube, k - 1)
  }

  /** The wireframe group `createCubeWireframe` adds. */
  function Wireframe(c: Record): Child {
    WireframeGroup(WireframeLines(ColorOf(c, "wireframe")))
  }

  /** The line `createSequenceLine` adds over the given number map. */
  function LineFor(c: Record, numberToPosition: map<int, Pos>): Child {
    SequenceLine(LinePoints(Get(c, "lineMode"), numberToPosition), ColorOf(c, "sequenceLine"))
  }

  // ---------------------------------------------------------------------
  // The steps as functions on the state
  // ---------------------------------------------------------------------

  /** `createNodes` after the loops have visited cells 0..k-1: the group and
      the element lists were emptied first, and each visited cell has
      written its two map entries. */
  function Filling(s: WidgetState, k: nat): WidgetState
  {
    s.(numberToPosition := NumbersRecorded(s.numberToPosition, s.magicCube, k),
       positionToNumber := PositionsRecorded(s.positionToNumber, s.magicCube, k),
       group := NodesUpTo(s.config, s.magicCube, k),
       nodes := NodesUpTo(s.config, s.magicCube, k),
       nodeLabels := LabelsUpTo(s.config, s.magicCube, k),
       labelContainer := DivsUpTo(s.config, s.magicCube, k))
  }

  /** The group after `createCubeWireframe`: the old wireframe removed, a
      new one added at the end when the configuration shows it. */
  function WithWireframe(group: seq<Child>, c: Record): seq<Child> {
    var g := RemoveNamed(group, "wireframe");
    if ShowsWireframe(c) then g + [Wireframe(c)] else g
  }

  /** The group after `createSequenceLine`. */
  function WithSequenceLine(group: seq<Child>, c: Record, numberToPosition: map<int, Pos>): seq<Child> {
    var g := RemoveNamed(group, "sequenceLine");
    if DrawsLine(c) then g + [LineFor(c, numberToPosition)] else g
  }

  /** `createCubeWireframe` */
  function AfterWireframe(s: WidgetState): WidgetState {
    s.(group := WithWireframe(s.group, s.config))
  }

  /** `createSequenceLine` */
  function AfterSequenceLine(s: WidgetState): WidgetState {
    s.(group := WithSequenceLine(s.group, s.config, s.numberToPosition))
  }

  /** `createNodes` */
  function AfterCreateNodes(s: WidgetState): WidgetState {
    var s1 := Filling(s, 125);
    var s2 := if ShowsWireframe(s.config) then AfterWireframe(s1) else s1;
    if DrawsLine(s.config) then AfterSequenceLine(s2) else s2
  }

  /** `newConfig.colors && newConfig.colors[key] !== undefined` */
  predicate SetsColor(delta: Record, key: string) {
    Truthy(Get(delta, "colors")) && Member(Get(delta, "colors"), key) != Undefined
  }

  /** The keys of a delta that make `updateConfig` rebuild the nodes. */
  predicate NodesTrigger(delta: Record) {
    Present(delta, "showNodes") || Present(delta, "showNodeNumbers") || Present(delta, "nodeSize") ||
    SetsColor(delta, "nodes")
  }

  /** The keys of a delta that make `updateConfig` rebuild the wireframe. */
  predicate WireframeTrigger(delta: Record) {
    Present(delta, "showCubeWireframe") || SetsColor(delta, "wireframe")
  }

  /** The keys of a delta that make `updateConfig` rebuild the sequence line. */
  predicate LineTrigger(delta: Record) {
    Present(delta, "lineMode") || SetsColor(delta, "sequenceLine")
  }

  /** The first step of `updateConfig`: merge the delta into the
      configuration and take a defined `autoRotate` from it. */
  function MergeStep(s: WidgetState, delta: Record): WidgetState {
    s.(config := MergeConfigs(s.config, delta),
       autoRotate := if Present(delta, "autoRotate") then delta["autoRotate"] else s.autoRotate)
  }

  function NodesStep(s: WidgetState, delta: Record): WidgetState {
    if NodesTrigger(delta) then AfterCreateNodes(s) else s
  }

  function WireframeStep(s: WidgetState, delta: Record): WidgetState {
    if WireframeTrigger(delta) then AfterWireframe(s) else s
  }

  function LineStep(s: WidgetState, delta: Record): WidgetState {
    if LineTrigger(delta) then AfterSequenceLine(s) else s
  }

  /** The three rebuilds, in the order `updateConfig` runs them. */
  function RebuildStep(s: WidgetState, delta: Record): WidgetState {
    LineStep(WireframeStep(NodesStep(s, delta), delta), delta)
  }

  /** `scene.background = new Color(config.colors.background)` */
  function BackgroundStep(s: WidgetState, delta: Record): WidgetState {
    if SetsColor(delta, "background") then s.(background := ColorOf(s.config, "background")) else s
  }

  /** The camera's field of view and distance take the delta's values. */
  function CameraStep(s: WidgetState, delta: Record): WidgetState {
    var camera := Get(delta, "camera");
    var fov, distance := Member(camera, "fov"), Member(camera, "distance");
    s.(cameraFov := if camera != Undefined && fov != Undefined then fov else s.cameraFov,
       cameraDistance := if camera != Undefined && distance != Undefined then distance else s.cameraDistance)
  }

  /** `updateConfig(delta)`: merge, then run the rebuilds and in-place
      updates whose keys the delta defines, in the order of the source. */
  function AfterUpdate(s: WidgetState, delta: Record): WidgetState {
    CameraStep(BackgroundStep(RebuildStep(MergeStep(s, delta), delta), delta), delta)
  }

  /** The state `init` sets up before it calls `createNodes`. */
  function Initial(userConfig: Record): WidgetState {
    var c := MergeConfigs(DefaultConfig, userConfig);
    CubicTables();
    WidgetState(MagicCube, c, Get(c, "autoRotate"), ColorOf(c, "background"),
      Member(Get(c, "camera"), "fov"), Member(Get(c, "camera"), "distance"),
      map[], map[], [], [], [], [])
  }

  /** The state `create(container, userConfig)` returns with. */
  function Created(userConfig: Record): WidgetState {
    AfterCreateNodes(Initial(userConfig))
  }

  // ---------------------------------------------------------------------
  // The widget
  // ---------------------------------------------------------------------

  class CubeWidget {
    const magicCube: CubeTable
    var config: Record
    var autoRotate: Value
    var background: Value
    var cameraFov: Value
    var cameraDistance: Value
    var numberToPosition: map<int, Pos>
    var positionToNumber: map<Pos, int>
    var group: seq<Child>
    var nodes: seq<Child>
    var nodeLabels: seq<Label>
    var labelContainer: seq<LabelDiv>

    function State(): WidgetState
      reads this
    {
      WidgetState(magicCube, config, autoRotate, background, cameraFov, cameraDistance,
        numberToPosition, positionToNumber, group, nodes, nodeLabels, labelContainer)
    }

    /** `create(container, userConfig)` */
    constructor (userConfig: Record)
      ensures State() == Created(userConfig)
    {
      var c := MergeConfigs(DefaultConfig, userConfig);
      CubicTables();
      magicCube := MagicCube;
      config := c;
      autoRotate := Get(c, "autoRotate");
      background := ColorOf(c, "background");
      cameraFov := Member(Get(c, "camera"), "fov");
      cameraDistance := Member(Get(c, "camera"), "distance");
      numberToPosition := map[];
      positionToNumber := map[];
      group := [];
      nodes := [];
      nodeLabels := [];
      labelContainer := [];
      new;
      assert State() == Initial(userConfig);
      CreateNodes();
    }

    /** `createNode(number, position)` */
    method CreateNode(number: int, position: Pos)
      modifies this`group, this`nodes
      ensures group == old(group) + [NodeFor(config, number, position)]
      ensures nodes == old(nodes) + [NodeFor(config, number, position)]
    {
      var sphere := NodeMesh(number, position, Get(config, "nodeSize"), ColorOf(config, "nodes"));
      group := group + [sphere];
      nodes := nodes + [sphere];
    }

    /** `createNodeLabel(number, position)` */
    method CreateNodeLabel(number: int, position: Pos)
      modifies this`labelContainer, this`nodeLabels
      ensures labelContainer == old(labelContainer) + [LabelDiv(number)]
      ensures nodeLabels == old(nodeLabels) + [Label(number, position)]
    {
      labelContainer := labelContainer + [LabelDiv(number)];
      nodeLabels := nodeLabels + [Label(number, position)];
    }

    /** `clearLabels`: remove the container's first child until none is left. */
    method ClearLabels()
      modifies this`labelContainer, this`nodeLabels
      ensures labelContainer == [] && nodeLabels == []
    {
      while labelContainer != []
        decreases |labelContainer|
      {
        labelContainer := labelContainer[1..];
      }
      nodeLabels := [];
    }

    /** `group.getObjectByName(name)`, then `group.remove` of what it found:
        the first child with that name, when there is one. */
    method RemoveByName(name: string)
      modifies this`group
      ensures group == RemoveNamed(old(group), name)
    {
      var i := IndexOfName(group, name);
      if i < |group| {
        group := group[..i] + group[i + 1..];
      }
    }

    /** `createCubeWireframe` */
    method CreateCubeWireframe()
      modifies this`group
      ensures group == WithWireframe(old(group), config)
    {
      RemoveByName("wireframe");
      if !Truthy(Get(config, "showCubeWireframe")) {
        return;
      }
      var color := ColorOf(config, "wireframe");
      var lines: seq<DashedLine> := [];
      for j := 0 to |Edges|
        invariant lines == EdgeLinesUpTo(j, color)
        modifies {}
      {
        var (startIdx, endIdx) := Edges[j];
        EdgeBounds(j);
        lines := lines + [DashedLine(Corners[startIdx], Corners[endIdx], color)];
      }
      assert lines == WireframeLines(color);
      group := group + [WireframeGroup(lines)];
    }

    /** `createSequenceLine` */
    method CreateSequenceLine()
      modifies this`group
      ensures group == WithSequenceLine(old(group), config, numberToPosition)
    {
      RemoveByName("sequenceLine");
      var mode := Get(config, "lineMode");
      if mode == Str("none") {
        return;
      }
      var numbers := Ascending(numberToPosition.Keys);
      if mode == Str("even") {
        numbers := Filter(numbers, IsEvenJs);
      } else if mode == Str("odd") {
        numbers := Filter(numbers, IsOddJs);
      }
      assert numbers == LineNumbers(mode, numberToPosition.Keys);
      assert forall i :: 0 <= i < |numbers| ==> numbers[i] in numbers;
      var points := Positions(numbers, numberToPosition);
      group := group + [SequenceLine(points, ColorOf(config, "sequenceLine"))];
    }

    /** The body of the innermost loop of `createNodes` for grid cell
        (z, y, x): record both map entries, then add the sphere and the label
        when the configuration shows them. */
    method VisitCell(z: int, y: int, x: int, ghost k: int)
      requires InGrid(z) && InGrid(y) && InGrid(x) && k == 25 * z + 5 * y + x
      modifies this`numberToPosition, this`positionToNumber, this`group, this`nodes, this`labelContainer, this`nodeLabels
      ensures numberToPosition == old(numberToPosition)[NumberIn(magicCube, k) := PositionOfCell(k)]
      ensures positionToNumber == old(positionToNumber)[PositionOfCell(k) := NumberIn(magicCube, k)]
      ensures group == old(group) + NodeAt(config, magicCube, k)
      ensures nodes == old(nodes) + NodeAt(config, magicCube, k)
      ensures nodeLabels == old(nodeLabels) + LabelAt(config, magicCube, k)
      ensures labelContainer == old(labelContainer) + DivAt(config, magicCube, k)
    {
      CellEntry(z, y, x);
      var number := magicCube[z][y][x];
      var position := Pos((x - 2) as real * CubeScale, -((y - 2) as real) * CubeScale, (z - 2) as real * CubeScale);
      numberToPosition := numberToPosition[number := position];
      positionToNumber := positionToNumber[position := number];
      if Truthy(Get(config, "showNodes")) {
        CreateNode(number, position);
      }
      if Truthy(Get(config, "showNodeNumbers")) {
        CreateNodeLabel(number, position);
      }
    }

    /** Cells 0..k-1 have been visited by the loops of `createNodes`. */
    predicate FilledTo(s0: WidgetState, k: nat)
      reads this
    {
      magicCube == s0.magicCube && config == s0.config &&
      numberToPosition == NumbersRecorded(s0.numberToPosition, magicCube, k) &&
      positionToNumber == PositionsRecorded(s0.positionToNumber, magicCube, k) &&
      group == NodesUpTo(config, magicCube, k) && nodes == NodesUpTo(config, magicCube, k) &&
      nodeLabels == LabelsUpTo(config, magicCube, k) && labelContainer == DivsUpTo(config, magicCube, k)
    }

    /** `createNodes`: empty the group and the element lists, visit every
        cell, then add the wireframe and the sequence line when the
        configuration asks for them. */
    method CreateNodes()
      modifies this
      ensures State() == AfterCreateNodes(old(State()))
    {
      ghost var s0 := State();
      group := [];
      nodes := [];
      ClearLabels();
      VisitCells();
      FillingIgnoresElements(s0, 125);
      ghost var s1 := State();
      assert s1 == Filling(s0, 125);
      if Truthy(Get(config, "showCubeWireframe")) {
        CreateCubeWireframe();
      }
      ghost var s2 := State();
      assert s2 == if ShowsWireframe(s0.config) then AfterWireframe(s1) else s1;
      if Get(config, "lineMode") != Str("none") {
        CreateSequenceLine();
      }
    }

    /** The loops of `createNodes`: layer by layer, row by row, column by
        column, in the order of `magicCube[z][y][x]`. */
    method VisitCells()
      requires group == [] && nodes == [] && nodeLabels == [] && labelContainer == []
      modifies this`numberToPosition, this`positionToNumber, this`group, this`nodes, this`labelContainer, this`nodeLabels
      ensures State() == Filling(old(State()), 125)
    {
      ghost var s0 := old(State());
      ghost var k := 0;
      var z := 0;
      while z < 5
        invariant 0 <= z <= 5 && k == 25 * z
        invariant FilledTo(s0, k)
      {
        VisitLayer(s0, z, k);
        z := z + 1;
        k := k + 25;
      }
    }

    /** The middle loop of `createNodes`, over the rows of layer z; cells
        0..k-1 are the earlier layers. */
    method VisitLayer(ghost s0: WidgetState, z: int, ghost k: nat)
      requires InGrid(z) && k == 25 * z && FilledTo(s0, k)
      modifies this`numberToPosition, this`positionToNumber, this`group, this`nodes, this`labelContainer, this`nodeLabels
      ensures FilledTo(s0, k + 25)
    {
      ghost var j := k;
      var y := 0;
      while y < 5
        invariant 0 <= y <= 5 && j == k + 5 * y
        invariant FilledTo(s0, j)
      {
        VisitRow(s0, z, y, j);
        y := y + 1;
        j := j + 5;
      }
    }

    /** The innermost loop of `createNodes`, over the cells of row y of
        layer z; cells 0..k-1 are the earlier rows. */
    method VisitRow(ghost s0: WidgetState, z: int, y: int, ghost k: nat)
      requires InGrid(z) && InGrid(y) && k == 25 * z + 5 * y && FilledTo(s0, k)
      modifies this`numberToPosition, this`positionToNumber, this`group, this`nodes, this`labelContainer, this`nodeLabels
      ensures FilledTo(s0, k + 5)
    {
      var x := 0;
      while x < 5
        invariant 0 <= x <= 5
        invariant FilledTo(s0, k + x)
      {
        VisitCell(z, y, x, k + x);
        x := x + 1;
      }
    }

    /** `updateConfig(newConfig)`; returns the widget for chaining. */
    method UpdateConfig(delta: Record) returns (api: CubeWidget)
      modifies this
      ensures api == this
      ensures State() == AfterUpdate(old(State()), delta)
    {
      ghost var s0 := State();
      config := MergeConfigs(config, delta);
      if Get(delta, "autoRotate") != Undefined {
        autoRotate := delta["autoRotate"];
      }
      ghost var s1 := State();
      assert s1 == MergeStep(s0, delta);
      Rebuild(delta);
      ghost var s2 := State();
      assert s2 == RebuildStep(s1, delta);
      UpdateView(delta);
      api := this;
    }

    /** The in-place updates at the end of `updateConfig`: the scene
        background when the delta sets its colour, then the camera's field of
        view and distance when the delta gives them. */
    method UpdateView(delta: Record)
      modifies this`background, this`cameraFov, this`cameraDistance
      ensures State() == CameraStep(BackgroundStep(old(State()), delta), delta)
    {
      var colors := Get(delta, "colors");
      if Truthy(colors) && Member(colors, "background") != Undefined {
        background := ColorOf(config, "background");
      }
      var camera := Get(delta, "camera");
      if camera != Undefined {
        if Member(camera, "fov") != Undefined {
          cameraFov := Member(camera, "fov");
        }
        if Member(camera, "distance") != Undefined {
          cameraDistance := Member(camera, "distance");
        }
      }
    }

    /** The rebuilds of `updateConfig`, each run when the delta defines one of
        its keys. */
    method Rebuild(delta: Record)
      modifies this
      ensures State() == RebuildStep(old(State()), delta)
    {
      if NodesTrigger(delta) {
        CreateNodes();
      }
      ghost var s2 := State();
      assert s2 == NodesStep(old(State()), delta);
      if WireframeTrigger(delta) {
        CreateCubeWireframe();
      }
      ghost var s3 := State();
      assert s3 == WireframeStep(s2, delta);
      if LineTrigger(delta) {
        CreateSequenceLine();
      }
    }

    /** `getConfig`: a top-level copy of the configuration. */
    method GetConfig() returns (r: Record)
      ensures r == config
    {
      r := map k | k in config :: config[k];
    }
  }

  // ---------------------------------------------------------------------
  // Proof steps of the loops
  // ---------------------------------------------------------------------

  /** The number and the position the loop body computes for grid cell
      (z, y, x) are those of cell 25 z + 5 y + x. */
  lemma CellEntry(z: int, y: int, x: int)
    requires InGrid(z) && InGrid(y) && InGrid(x)
    ensures forall cube: CubeTable :: cube[z][y][x] == NumberIn(cube, 25 * z + 5 * y + x)
    ensures Pos((x - 2) as real * CubeScale, -((y - 2) as real) * CubeScale, (z - 2) as real * CubeScale) ==
      PositionOfCell(25 * z + 5 * y + x)
  {
    FlatIndex(z, y, x);
  }

  /** The loops of `createNodes` overwrite the group and the element lists,
      so what those held before does not matter. */
  lemma FillingIgnoresElements(s: WidgetState, k: nat)
    ensures Filling(s.(group := [], nodes := [], nodeLabels := [], labelContainer := []), k) == Filling(s, k)
  {
  }
}

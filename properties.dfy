/**
 * What the widget's steps guarantee (src/trump-boyer-cube.js): after
 * `create`, and after every `updateConfig` that keeps the nested settings
 * objects, the scene matches the configuration. The group holds one sphere
 * per number 1..125 at its layout position when nodes are shown, exactly one
 * wireframe when the wireframe is shown, and exactly one sequence line
 * through the layout when a line is drawn; the label lists hold one entry
 * per number when numbers are shown; the background and camera hold the
 * configured values.
 */
module WidgetProperties {
  import opened Config
  import opened CubeData
  import opened Scene
  import opened Widget

  // ---------------------------------------------------------------------
  // The recorded maps
  // ---------------------------------------------------------------------

  /** Writing the cells' entries over a map is laying the map they write on
      their own over it. */
  lemma {:induction false} NumbersRecordedUnion(m: map<int, Pos>, cube: CubeTable, k: nat)
    ensures NumbersRecorded(m, cube, k) == m + NumbersRecorded(map[], cube, k)
  {
    if k > 0 {
      NumbersRecordedUnion(m, cube, k - 1);
    }
  }

  lemma {:induction false} PositionsRecordedUnion(m: map<Pos, int>, cube: CubeTable, k: nat)
    ensures PositionsRecorded(m, cube, k) == m + PositionsRecorded(map[], cube, k)
  {
    if k > 0 {
      PositionsRecordedUnion(m, cube, k - 1);
    }
  }

  /** Over the magic cube, the entries the loops write from an empty map are
      the layout built so far. */
  lemma {:induction false} NumbersRecordedLayout(k: nat)
    ensures Cubic(MagicCube) && NumbersRecorded(map[], MagicCube, k) == NumberToPositionUpTo(k)
  {
    CubicTables();
    if k > 0 {
      NumbersRecordedLayout(k - 1);
    }
  }

  lemma {:induction false} PositionsRecordedLayout(k: nat)
    ensures Cubic(MagicCube) && PositionsRecorded(map[], MagicCube, k) == PositionToNumberUpTo(k)
  {
    CubicTables();
    if k > 0 {
      PositionsRecordedLayout(k - 1);
    }
  }

  /** Laying a map over one that already agrees with it changes nothing. */
  lemma SubmapUnion<K, V>(m: map<K, V>, t: map<K, V>)
    requires forall x :: x in m ==> x in t && m[x] == t[x]
    ensures m + t == t
  {
  }

  /** Laying the same map over twice is laying it over once. */
  lemma UnionAbsorbs<K, V>(m: map<K, V>, t: map<K, V>)
    ensures (m + t) + t == m + t
  {
  }

  /** The number-to-position map the loops write over a cube table. */
  function CubeLayout(cube: CubeTable): map<int, Pos> {
    NumbersRecorded(map[], cube, 125)
  }

  /** The position-to-number map the loops write over a cube table. */
  function CubeIndex(cube: CubeTable): map<Pos, int> {
    PositionsRecorded(map[], cube, 125)
  }

  /** Over the magic cube these are the layout maps. */
  lemma CubeLayoutIsLayout()
    ensures Cubic(MagicCube) && CubeLayout(MagicCube) == Layout() && CubeIndex(MagicCube) == LayoutIndex()
  {
    NumbersRecordedLayout(125);
    PositionsRecordedLayout(125);
  }

  /** Map entries that agree with the ones the loops write. */
  predicate WithinLayout(s: WidgetState) {
    (forall n :: n in s.numberToPosition ==>
      n in CubeLayout(s.magicCube) && s.numberToPosition[n] == CubeLayout(s.magicCube)[n]) &&
    (forall p :: p in s.positionToNumber ==>
      p in CubeIndex(s.magicCube) && s.positionToNumber[p] == CubeIndex(s.magicCube)[p])
  }

  /** After the three loops, whatever agreeing entries were there before,
      the two maps are exactly those the loops write. */
  lemma FilledMaps(s: WidgetState)
    requires WithinLayout(s)
    ensures Filling(s, 125).numberToPosition == CubeLayout(s.magicCube)
    ensures Filling(s, 125).positionToNumber == CubeIndex(s.magicCube)
  {
    var numbers, positions := CubeLayout(s.magicCube), CubeIndex(s.magicCube);
    NumbersRecordedUnion(s.numberToPosition, s.magicCube, 125);
    assert forall n :: n in s.numberToPosition ==> n in numbers && s.numberToPosition[n] == numbers[n];
    SubmapUnion(s.numberToPosition, numbers);
    PositionsRecordedUnion(s.positionToNumber, s.magicCube, 125);
    assert forall p :: p in s.positionToNumber ==> p in positions && s.positionToNumber[p] == positions[p];
    SubmapUnion(s.positionToNumber, positions);
  }

  // ---------------------------------------------------------------------
  // The element lists
  // ---------------------------------------------------------------------

  /** The spheres of cells 0..k-1: none when nodes are hidden, otherwise
      one per cell. */
  lemma {:induction false} NodesUpToCount(c: Record, cube: CubeTable, k: nat)
    ensures AllMeshes(NodesUpTo(c, cube, k))
    ensures |NodesUpTo(c, cube, k)| == if ShowsNodes(c) then k else 0
  {
    if k > 0 {
      NodesUpToCount(c, cube, k - 1);
      var prev := NodesUpTo(c, cube, k - 1);
      assert forall i :: 0 <= i < |prev| ==> NodesUpTo(c, cube, k)[i] == prev[i];
    }
  }

  /** ... in loop order, each with the cell's number and position. */
  lemma {:induction false} NodesUpToElements(c: Record, cube: CubeTable, k: nat)
    requires ShowsNodes(c)
    ensures forall j :: 0 <= j < k ==>
      (j < |NodesUpTo(c, cube, k)| && NodesUpTo(c, cube, k)[j] == NodeFor(c, NumberIn(cube, j), PositionOfCell(j)))
  {
    if k > 0 {
      NodesUpToElements(c, cube, k - 1);
      NodesUpToCount(c, cube, k - 1);
      var prev := NodesUpTo(c, cube, k - 1);
      assert NodesUpTo(c, cube, k) == prev + [NodeFor(c, NumberIn(cube, k - 1), PositionOfCell(k - 1))];
      forall j | 0 <= j < k
        ensures j < |NodesUpTo(c, cube, k)| &&
          NodesUpTo(c, cube, k)[j] == NodeFor(c, NumberIn(cube, j), PositionOfCell(j))
      {
        if j < k - 1 {
          assert NodesUpTo(c, cube, k)[j] == prev[j];
        }
      }
    }
  }

  /** The label records of cells 0..k-1: none when numbers are hidden,
      otherwise one per cell in loop order. */
  lemma {:induction false} LabelsUpToShape(c: Record, cube: CubeTable, k: nat)
    ensures |LabelsUpTo(c, cube, k)| == if ShowsNumbers(c) then k else 0
    ensures ShowsNumbers(c) ==> forall j :: 0 <= j < k ==>
      LabelsUpTo(c, cube, k)[j] == Label(NumberIn(cube, j), PositionOfCell(j))
  {
    if k > 0 {
      LabelsUpToShape(c, cube, k - 1);
      var prev := LabelsUpTo(c, cube, k - 1);
      if ShowsNumbers(c) {
        assert LabelsUpTo(c, cube, k) == prev + [Label(NumberIn(cube, k - 1), PositionOfCell(k - 1))];
      } else {
        assert LabelsUpTo(c, cube, k) == prev + [];
      }
    }
  }

  /** The label `div`s of cells 0..k-1, one per label record. */
  lemma {:induction false} DivsUpToShape(c: Record, cube: CubeTable, k: nat)
    ensures |DivsUpTo(c, cube, k)| == if ShowsNumbers(c) then k else 0
    ensures ShowsNumbers(c) ==> forall j :: 0 <= j < k ==> DivsUpTo(c, cube, k)[j] == LabelDiv(NumberIn(cube, j))
  {
    if k > 0 {
      DivsUpToShape(c, cube, k - 1);
    }
  }

  /** The settings the spheres and labels are made from. */
  predicate NodeSettingsAgree(c: Record, c2: Record) {
    ShowsNodes(c) == ShowsNodes(c2) && ShowsNumbers(c) == ShowsNumbers(c2) &&
    Get(c, "nodeSize") == Get(c2, "nodeSize") && ColorOf(c, "nodes") == ColorOf(c2, "nodes")
  }

  /** Two configurations that agree on those settings make the same spheres. */
  lemma {:induction false} NodesAgree(c: Record, c2: Record, cube: CubeTable, k: nat)
    requires NodeSettingsAgree(c, c2)
    ensures NodesUpTo(c, cube, k) == NodesUpTo(c2, cube, k)
  {
    if k > 0 {
      NodesAgree(c, c2, cube, k - 1);
    }
  }

  /** ... and the same label records and `div`s. */
  lemma {:induction false} LabelsAgree(c: Record, c2: Record, cube: CubeTable, k: nat)
    requires ShowsNumbers(c) == ShowsNumbers(c2)
    ensures LabelsUpTo(c, cube, k) == LabelsUpTo(c2, cube, k)
    ensures DivsUpTo(c, cube, k) == DivsUpTo(c2, cube, k)
  {
    if k > 0 {
      LabelsAgree(c, c2, cube, k - 1);
    }
  }

  // ---------------------------------------------------------------------
  // What a built scene holds
  // ---------------------------------------------------------------------

  /** The wireframe the group should hold. */
  function WireframePart(c: Record): (r: seq<Child>)
    ensures NamedPart(r, "wireframe")
  {
    if ShowsWireframe(c) then [Wireframe(c)] else []
  }

  /** The sequence line the group should hold, over a number map. */
  function LinePart(c: Record, numberToPosition: map<int, Pos>): (r: seq<Child>)
    ensures NamedPart(r, "sequenceLine")
  {
    if DrawsLine(c) then [LineFor(c, numberToPosition)] else []
  }

  /** `createCubeWireframe` swaps the group's wireframe part for the one
      the configuration asks for. */
  lemma WireframeAsPart(group: seq<Child>, c: Record)
    ensures WithWireframe(group, c) == RemoveNamed(group, "wireframe") + WireframePart(c)
  {
    var g := RemoveNamed(group, "wireframe");
    assert g + [] == g;
  }

  /** `createSequenceLine` swaps the group's line part likewise. */
  lemma LineAsPart(group: seq<Child>, c: Record, numberToPosition: map<int, Pos>)
    ensures WithSequenceLine(group, c, numberToPosition) ==
      RemoveNamed(group, "sequenceLine") + LinePart(c, numberToPosition)
  {
    var g := RemoveNamed(group, "sequenceLine");
    assert g + [] == g;
  }

  /** The maps are the layout, the spheres and labels are those the
      configuration `cn` makes, and the group holds the spheres with the
      given wireframe and line parts. */
  predicate Built(s: WidgetState, cn: Record, wireframe: seq<Child>, line: seq<Child>) {
    s.numberToPosition == CubeLayout(s.magicCube) && s.positionToNumber == CubeIndex(s.magicCube) &&
    s.nodes == NodesUpTo(cn, s.magicCube, 125) &&
    s.nodeLabels == LabelsUpTo(cn, s.magicCube, 125) &&
    s.labelContainer == DivsUpTo(cn, s.magicCube, 125) &&
    NamedPart(wireframe, "wireframe") && NamedPart(line, "sequenceLine") &&
    GroupMatches(s.group, s.nodes, wireframe, line)
  }

  /** The parts of the state no rebuild touches. */
  predicate SameSettings(a: WidgetState, b: WidgetState) {
    a.magicCube == b.magicCube && a.config == b.config && a.autoRotate == b.autoRotate &&
    a.background == b.background && a.cameraFov == b.cameraFov && a.cameraDistance == b.cameraDistance
  }

  /** `createNodes` from maps that agree with the layout builds the whole
      scene for the current configuration and touches nothing else. */
  lemma CreateNodesBuilds(s: WidgetState)
    requires WithinLayout(s)
    ensures Built(AfterCreateNodes(s), s.config, WireframePart(s.config), LinePart(s.config, CubeLayout(s.magicCube)))
    ensures SameSettings(AfterCreateNodes(s), s)
  {
    var c := s.config;
    var s1 := Filling(s, 125);
    FilledMaps(s);
    NodesUpToCount(c, s.magicCube, 125);
    AllMeshesGroup(s1.group, "wireframe");
    AllMeshesGroup(s1.group, "sequenceLine");
    assert GroupMatches(s1.group, s1.nodes, [], []);
    var s2 := if ShowsWireframe(c) then AfterWireframe(s1) else s1;
    WireframeAsPart(s1.group, c);
    WireframeAsPart(s2.group, c);
    LineAsPart(s2.group, c, CubeLayout(s.magicCube));
    if ShowsWireframe(c) {
      ReplaceWireframePart(s1.group, s1.nodes, [], [], WireframePart(c));
    }
    assert GroupMatches(s2.group, s1.nodes, WireframePart(c), []);
    if DrawsLine(c) {
      ReplaceLinePart(s2.group, s1.nodes, WireframePart(c), [], LinePart(c, CubeLayout(s.magicCube)));
    }
  }

  /** `createNodes` leaves the maps as its loops wrote them. */
  lemma CreateNodesMaps(s: WidgetState)
    ensures AfterCreateNodes(s).numberToPosition == Filling(s, 125).numberToPosition
    ensures AfterCreateNodes(s).positionToNumber == Filling(s, 125).positionToNumber
    ensures SameSettings(AfterCreateNodes(s), s)
  {
    var s1 := Filling(s, 125);
    var s2 := if ShowsWireframe(s.config) then AfterWireframe(s1) else s1;
    assert s2.numberToPosition == s1.numberToPosition && s2.positionToNumber == s1.positionToNumber;
    assert SameSettings(s2, s);
  }

  /** Two states that fill alike end `createNodes` alike. */
  lemma CreateNodesFromFilling(a: WidgetState, b: WidgetState)
    requires Filling(a, 125) == Filling(b, 125)
    ensures AfterCreateNodes(a) == AfterCreateNodes(b)
  {
  }

  /** Running `createNodes` twice builds what running it once does. */
  lemma CreateNodesIdempotent(s: WidgetState)
    ensures AfterCreateNodes(AfterCreateNodes(s)) == AfterCreateNodes(s)
  {
    var a := AfterCreateNodes(s);
    var cube := s.magicCube;
    CreateNodesMaps(s);
    NumbersRecordedUnion(s.numberToPosition, cube, 125);
    NumbersRecordedUnion(a.numberToPosition, cube, 125);
    UnionAbsorbs(s.numberToPosition, NumbersRecorded(map[], cube, 125));
    PositionsRecordedUnion(s.positionToNumber, cube, 125);
    PositionsRecordedUnion(a.positionToNumber, cube, 125);
    UnionAbsorbs(s.positionToNumber, PositionsRecorded(map[], cube, 125));
    assert Filling(a, 125) == Filling(s, 125);
    CreateNodesFromFilling(a, s);
  }

  /** The node rebuild of `updateConfig`: when its keys are set, the whole
      scene is rebuilt for the merged configuration; otherwise the spheres
      and labels, already made from settings that agree, stay. */
  lemma NodesStepBuilds(s: WidgetState, delta: Record, cOld: Record, wireframe: seq<Child>, line: seq<Child>)
    requires Built(s, cOld, wireframe, line)
    requires !NodesTrigger(delta) ==> NodeSettingsAgree(cOld, s.config)
    ensures Built(NodesStep(s, delta), s.config,
      if NodesTrigger(delta) then WireframePart(s.config) else wireframe,
      if NodesTrigger(delta) then LinePart(s.config, CubeLayout(s.magicCube)) else line)
    ensures SameSettings(NodesStep(s, delta), s)
  {
    if NodesTrigger(delta) {
      CreateNodesBuilds(s);
    } else {
      NodesAgree(cOld, s.config, s.magicCube, 125);
      LabelsAgree(cOld, s.config, s.magicCube, 125);
    }
  }

  /** The wireframe rebuild: afterwards the group's wireframe is the one the
      configuration asks for. */
  lemma WireframeStepBuilds(s: WidgetState, delta: Record, wireframe: seq<Child>, line: seq<Child>)
    requires Built(s, s.config, wireframe, line)
    requires !WireframeTrigger(delta) ==> wireframe == WireframePart(s.config)
    ensures Built(WireframeStep(s, delta), s.config, WireframePart(s.config), line)
    ensures SameSettings(WireframeStep(s, delta), s)
  {
    if WireframeTrigger(delta) {
      WireframeAsPart(s.group, s.config);
      ReplaceWireframePart(s.group, s.nodes, wireframe, line, WireframePart(s.config));
    }
  }

  /** The sequence-line rebuild: afterwards the group's line is the one the
      configuration asks for, over the layout. */
  lemma LineStepBuilds(s: WidgetState, delta: Record, wireframe: seq<Child>, line: seq<Child>)
    requires Built(s, s.config, wireframe, line)
    requires !LineTrigger(delta) ==> line == LinePart(s.config, CubeLayout(s.magicCube))
    ensures Built(LineStep(s, delta), s.config, wireframe, LinePart(s.config, CubeLayout(s.magicCube)))
    ensures SameSettings(LineStep(s, delta), s)
  {
    if LineTrigger(delta) {
      LineAsPart(s.group, s.config, CubeLayout(s.magicCube));
      ReplaceLinePart(s.group, s.nodes, wireframe, line, LinePart(s.config, CubeLayout(s.magicCube)));
    }
  }

  // ---------------------------------------------------------------------
  // The configuration across a merge
  // ---------------------------------------------------------------------

  /** The nested settings objects are objects. */
  predicate ConfigShape(c: Record) {
    IsObject(Get(c, "colors")) && IsObject(Get(c, "camera"))
  }

  /** A delta that keeps them so: `colors` and `camera` are left out or
      given as objects, the camera's `fov` and `distance` and `autoRotate`
      are not objects. */
  predicate KeepsShape(delta: Record) {
    (!Present(delta, "colors") || IsObject(delta["colors"])) &&
    (!Present(delta, "camera") ||
      (IsObject(delta["camera"]) &&
       !IsObject(Member(delta["camera"], "fov")) && !IsObject(Member(delta["camera"], "distance")))) &&
    !IsObject(Get(delta, "autoRotate"))
  }

  lemma MergeShape(c: Record, delta: Record)
    requires ConfigShape(c) && KeepsShape(delta)
    ensures ConfigShape(MergeConfigs(c, delta))
  {
    MergeKeepsObject(c, delta, "colors");
    MergeKeepsObject(c, delta, "camera");
  }

  /** A colour the delta leaves unset reads the same after the merge. */
  lemma MergeColorUnset(c: Record, delta: Record, key: string)
    requires ConfigShape(c) && KeepsShape(delta) && !SetsColor(delta, key)
    ensures ColorOf(MergeConfigs(c, delta), key) == ColorOf(c, key)
  {
    MergeMemberAbsent(c, delta, "colors", key);
  }

  /** A delta without the node keys leaves the node settings as they were. */
  lemma MergeNodeSettings(c: Record, delta: Record)
    requires ConfigShape(c) && KeepsShape(delta) && !NodesTrigger(delta)
    ensures NodeSettingsAgree(c, MergeConfigs(c, delta))
  {
    MergeGetAbsent(c, delta, "showNodes");
    MergeGetAbsent(c, delta, "showNodeNumbers");
    MergeGetAbsent(c, delta, "nodeSize");
    MergeColorUnset(c, delta, "nodes");
  }

  /** A delta without the wireframe keys leaves the wireframe wanted as it was. */
  lemma MergeWireframeSettings(c: Record, delta: Record)
    requires ConfigShape(c) && KeepsShape(delta) && !WireframeTrigger(delta)
    ensures WireframePart(MergeConfigs(c, delta)) == WireframePart(c)
  {
    MergeGetAbsent(c, delta, "showCubeWireframe");
    MergeColorUnset(c, delta, "wireframe");
  }

  /** A delta without the line keys leaves the line wanted as it was. */
  lemma MergeLineSettings(c: Record, delta: Record, numberToPosition: map<int, Pos>)
    requires ConfigShape(c) && KeepsShape(delta) && !LineTrigger(delta)
    ensures LinePart(MergeConfigs(c, delta), numberToPosition) == LinePart(c, numberToPosition)
  {
    MergeGetAbsent(c, delta, "lineMode");
    MergeColorUnset(c, delta, "sequenceLine");
  }

  /** The rotation flag, background and camera hold the configured values. */
  predicate ViewMatches(s: WidgetState) {
    s.autoRotate == Get(s.config, "autoRotate") &&
    s.background == ColorOf(s.config, "background") &&
    s.cameraFov == Member(Get(s.config, "camera"), "fov") &&
    s.cameraDistance == Member(Get(s.config, "camera"), "distance")
  }

  /** `this.autoRotate` follows the merged configuration. */
  lemma AutoRotateAfterMerge(s: WidgetState, delta: Record)
    requires ViewMatches(s) && KeepsShape(delta)
    ensures MergeStep(s, delta).autoRotate == Get(MergeConfigs(s.config, delta), "autoRotate")
  {
    if Present(delta, "autoRotate") {
      MergeReplaces(s.config, delta, "autoRotate");
    } else {
      MergeGetAbsent(s.config, delta, "autoRotate");
    }
  }

  /** The camera reads follow the merged configuration. */
  lemma CameraAfterMerge(c: Record, delta: Record, key: string, previous: Value)
    requires ConfigShape(c) && KeepsShape(delta) && previous == Member(Get(c, "camera"), key)
    requires key == "fov" || key == "distance"
    ensures var camera := Get(delta, "camera");
      (if camera != Undefined && Member(camera, key) != Undefined then Member(camera, key) else previous) ==
      Member(Get(MergeConfigs(c, delta), "camera"), key)
  {
    var camera := Get(delta, "camera");
    if camera != Undefined && Member(camera, key) != Undefined {
      MergeMemberReplaced(c, delta, "camera", key);
    } else {
      MergeMemberAbsent(c, delta, "camera", key);
    }
  }

  /** After the in-place updates of `updateConfig`, the view holds the
      merged configuration's values again. */
  lemma ViewAfterUpdate(s: WidgetState, t: WidgetState, delta: Record)
    requires ViewMatches(s) && ConfigShape(s.config) && KeepsShape(delta)
    requires SameSettings(t, MergeStep(s, delta))
    ensures ViewMatches(CameraStep(BackgroundStep(t, delta), delta))
  {
    AutoRotateAfterMerge(s, delta);
    if !SetsColor(delta, "background") {
      MergeColorUnset(s.config, delta, "background");
    }
    CameraAfterMerge(s.config, delta, "fov", s.cameraFov);
    CameraAfterMerge(s.config, delta, "distance", s.cameraDistance);
  }

  // ---------------------------------------------------------------------
  // The widget stays in step with its configuration
  // ---------------------------------------------------------------------

  /** The whole scene and view match the configuration. */
  predicate Synced(s: WidgetState) {
    ConfigShape(s.config) && ViewMatches(s) &&
    Built(s, s.config, WireframePart(s.config), LinePart(s.config, CubeLayout(s.magicCube)))
  }

  /** A user configuration that leaves `colors` and `camera` out or gives
      them as objects. */
  predicate CreateShape(userConfig: Record) {
    (!Present(userConfig, "colors") || IsObject(userConfig["colors"])) &&
    (!Present(userConfig, "camera") || IsObject(userConfig["camera"]))
  }

  /** The widget `create` returns is in step with its configuration. */
  lemma CreatedSynced(userConfig: Record)
    requires CreateShape(userConfig)
    ensures Synced(Created(userConfig)) && Created(userConfig).magicCube == MagicCube
  {
    var s := Initial(userConfig);
    assert ConfigShape(DefaultConfig);
    MergeKeepsObject(DefaultConfig, userConfig, "colors");
    MergeKeepsObject(DefaultConfig, userConfig, "camera");
    CreateNodesBuilds(s);
  }

  /** The three rebuilds of `updateConfig`, run on the merged
      configuration over a scene built for the one before: afterwards the
      scene is built for the merged configuration. */
  lemma RebuildBuilds(t: WidgetState, delta: Record, cOld: Record)
    requires ConfigShape(cOld) && KeepsShape(delta) && t.config == MergeConfigs(cOld, delta)
    requires Built(t, cOld, WireframePart(cOld), LinePart(cOld, CubeLayout(t.magicCube)))
    ensures Built(RebuildStep(t, delta), t.config, WireframePart(t.config), LinePart(t.config, CubeLayout(t.magicCube)))
    ensures SameSettings(RebuildStep(t, delta), t)
  {
    var c, layout := t.config, CubeLayout(t.magicCube);
    var w, l := WireframePart(cOld), LinePart(cOld, layout);
    if !NodesTrigger(delta) {
      MergeNodeSettings(cOld, delta);
    }
    NodesStepBuilds(t, delta, cOld, w, l);
    var t2 := NodesStep(t, delta);
    if !WireframeTrigger(delta) {
      MergeWireframeSettings(cOld, delta);
    }
    var l2 := if NodesTrigger(delta) then LinePart(c, layout) else l;
    WireframeStepBuilds(t2, delta, if NodesTrigger(delta) then WireframePart(c) else w, l2);
    var t3 := WireframeStep(t2, delta);
    if !LineTrigger(delta) {
      MergeLineSettings(cOld, delta, layout);
    }
    LineStepBuilds(t3, delta, WireframePart(c), l2);
  }

  /** `updateConfig` keeps the widget in step with its configuration. */
  lemma UpdatePreservesSynced(s: WidgetState, delta: Record)
    requires Synced(s) && KeepsShape(delta)
    ensures Synced(AfterUpdate(s, delta)) && AfterUpdate(s, delta).magicCube == s.magicCube
  {
    var t1 := MergeStep(s, delta);
    MergeShape(s.config, delta);
    RebuildBuilds(t1, delta, s.config);
    ViewAfterUpdate(s, RebuildStep(t1, delta), delta);
  }

  /** `updateConfig({})` changes nothing. */
  lemma UpdateEmptyIsIdentity(s: WidgetState)
    ensures AfterUpdate(s, map[]) == s
  {
    MergeEmptyOverride(s.config);
  }

  /** `updateConfig({lineMode: v})` with v defined rebuilds the sequence
      line and nothing else: the spheres, labels and maps stay as they were. */
  lemma UpdateLineOnly(s: WidgetState, v: Value)
    requires v != Undefined
    ensures AfterUpdate(s, map["lineMode" := v]) == AfterSequenceLine(MergeStep(s, map["lineMode" := v]))
    ensures var t := AfterUpdate(s, map["lineMode" := v]);
      t.nodes == s.nodes && t.nodeLabels == s.nodeLabels && t.labelContainer == s.labelContainer &&
      t.numberToPosition == s.numberToPosition && t.positionToNumber == s.positionToNumber
  {
    var delta := map["lineMode" := v];
    assert !NodesTrigger(delta) && !WireframeTrigger(delta) && LineTrigger(delta);
    assert !SetsColor(delta, "background") && Get(delta, "camera") == Undefined;
  }

  /** `updateConfig({showCubeWireframe: v})` with v defined rebuilds the
      wireframe and nothing else. */
  lemma UpdateWireframeOnly(s: WidgetState, v: Value)
    requires v != Undefined
    ensures AfterUpdate(s, map["showCubeWireframe" := v]) == AfterWireframe(MergeStep(s, map["showCubeWireframe" := v]))
    ensures var t := AfterUpdate(s, map["showCubeWireframe" := v]);
      t.nodes == s.nodes && t.nodeLabels == s.nodeLabels && t.labelContainer == s.labelContainer &&
      t.numberToPosition == s.numberToPosition && t.positionToNumber == s.positionToNumber
  {
    var delta := map["showCubeWireframe" := v];
    assert !NodesTrigger(delta) && WireframeTrigger(delta) && !LineTrigger(delta);
    assert !SetsColor(delta, "background") && Get(delta, "camera") == Undefined;
  }

  /** A defined `showNodes`, `showNodeNumbers` or `nodeSize` alone runs
      `createNodes` on the merged configuration and no other rebuild. */
  lemma UpdateNodesOnly(s: WidgetState, key: string, v: Value)
    requires key == "showNodes" || key == "showNodeNumbers" || key == "nodeSize"
    requires v != Undefined
    ensures AfterUpdate(s, map[key := v]) == AfterCreateNodes(MergeStep(s, map[key := v]))
  {
    var delta := map[key := v];
    assert NodesTrigger(delta) && !WireframeTrigger(delta) && !LineTrigger(delta);
    assert !SetsColor(delta, "background") && Get(delta, "camera") == Undefined;
  }

  /** `updateConfig({autoRotate: b})` only switches the rotation. */
  lemma UpdateAutoRotate(s: WidgetState, b: bool)
    ensures AfterUpdate(s, map["autoRotate" := Bool(b)]) ==
      s.(config := s.config["autoRotate" := Bool(b)], autoRotate := Bool(b))
  {
    var delta := map["autoRotate" := Bool(b)];
    MergeSetsKey(s.config, "autoRotate", Bool(b));
    var t := MergeStep(s, delta);
    assert t == s.(config := s.config["autoRotate" := Bool(b)], autoRotate := Bool(b));
    assert !NodesTrigger(delta) && !WireframeTrigger(delta) && !LineTrigger(delta);
    assert RebuildStep(t, delta) == t;
    assert !SetsColor(delta, "background") && Get(delta, "camera") == Undefined;
  }

  // ---------------------------------------------------------------------
  // What a widget in step holds
  // ---------------------------------------------------------------------

  /** The group holds exactly one wireframe when the configuration shows
      it, none otherwise, and the same for the sequence line; the line is
      drawn over the layout. */
  lemma SyncedGroup(s: WidgetState)
    requires Synced(s)
    ensures CountNamed(s.group, "wireframe") == if ShowsWireframe(s.config) then 1 else 0
    ensures CountNamed(s.group, "sequenceLine") == if DrawsLine(s.config) then 1 else 0
    ensures forall x :: x in s.group && Name(x) == "wireframe" ==> x == Wireframe(s.config)
    ensures forall x :: x in s.group && Name(x) == "sequenceLine" ==> x == LineFor(s.config, CubeLayout(s.magicCube))
    ensures Meshes(s.group) == s.nodes
  {
  }

  /** When nodes are shown there are 125 spheres and the one for number n
      sits at `numberToPosition[n]`. */
  lemma SyncedNodes(s: WidgetState)
    requires Synced(s) && s.magicCube == MagicCube && ShowsNodes(s.config)
    ensures AllMeshes(s.nodes) && |s.nodes| == 125
    ensures forall n :: 1 <= n <= 125 ==>
      0 <= CellOfNumber(n) < 125 && n in s.numberToPosition &&
      s.nodes[CellOfNumber(n)] == NodeFor(s.config, n, s.numberToPosition[n])
  {
    NodesUpToCount(s.config, s.magicCube, 125);
    NodesUpToElements(s.config, s.magicCube, 125);
    CellsNumbered(s.magicCube);
  }

  /** ... and no two of those spheres carry the same number. */
  lemma SyncedNodesDistinct(s: WidgetState)
    requires Synced(s) && s.magicCube == MagicCube && ShowsNodes(s.config)
    ensures AllMeshes(s.nodes) && |s.nodes| == 125
    ensures forall i, j :: 0 <= i < 125 && 0 <= j < 125 && i != j ==> s.nodes[i].number != s.nodes[j].number
  {
    NodesUpToCount(s.config, s.magicCube, 125);
    NodesUpToElements(s.config, s.magicCube, 125);
    CellsDistinct(s.magicCube);
  }

  /** When numbers are shown there are 125 label records and `div`s, those
      for number n at the index of its sphere. */
  lemma SyncedLabels(s: WidgetState)
    requires Synced(s) && s.magicCube == MagicCube && ShowsNumbers(s.config)
    ensures |s.nodeLabels| == 125 && |s.labelContainer| == 125
    ensures forall n :: 1 <= n <= 125 ==>
      0 <= CellOfNumber(n) < 125 && n in s.numberToPosition &&
      s.nodeLabels[CellOfNumber(n)] == Label(n, s.numberToPosition[n]) &&
      s.labelContainer[CellOfNumber(n)] == LabelDiv(n)
  {
    LabelsUpToShape(s.config, s.magicCube, 125);
    DivsUpToShape(s.config, s.magicCube, 125);
    CellsNumbered(s.magicCube);
  }

  /** Hidden nodes and numbers leave the lists empty. */
  lemma SyncedHidden(s: WidgetState)
    requires Synced(s)
    ensures !ShowsNodes(s.config) ==> s.nodes == [] && Meshes(s.group) == []
    ensures !ShowsNumbers(s.config) ==> s.nodeLabels == [] && s.labelContainer == []
  {
    NodesUpToCount(s.config, s.magicCube, 125);
    LabelsUpToShape(s.config, s.magicCube, 125);
    DivsUpToShape(s.config, s.magicCube, 125);
  }

  /** The magic cube as the loops read it. */
  lemma MagicNumbers()
    ensures Cubic(MagicCube) && forall k :: NumberIn(MagicCube, k) == NumberOfCell(k)
  {
    CubicTables();
  }

  /** The cells of the magic cube as the loops read them: the cell holding
      n is where the loops record n. */
  lemma CellsNumbered(cube: CubeTable)
    requires cube == MagicCube
    ensures forall n :: 1 <= n <= 125 ==>
      0 <= CellOfNumber(n) < 125 && NumberIn(cube, CellOfNumber(n)) == n &&
      n in CubeLayout(cube) && CubeLayout(cube)[n] == PositionOfCell(CellOfNumber(n))
  {
    MagicNumbers();
    CubeLayoutIsLayout();
    NumbersPlaced();
  }

  /** Distinct cells of the magic cube hold distinct numbers. */
  lemma CellsDistinct(cube: CubeTable)
    requires cube == MagicCube
    ensures forall i, j :: 0 <= i < 125 && 0 <= j < 125 && i != j ==> NumberIn(cube, i) != NumberIn(cube, j)
  {
    MagicNumbers();
    CubeIsPermutation();
  }

  /** The sequence line of a widget in step runs through the layout, whose
      keys are 1..125 (2k + 1 with k = 62). */
  lemma SyncedLine(s: WidgetState)
    requires Synced(s) && s.magicCube == MagicCube
    ensures s.numberToPosition == Layout()
    ensures forall n :: n in s.numberToPosition <==> 1 <= n <= 2 * 62 + 1
  {
    CubeLayoutIsLayout();
    LayoutKeys();
  }

  /** The two maps of a widget in step over the magic cube: 125 entries
      each, and each the exact inverse of the other. */
  lemma SyncedMaps(s: WidgetState)
    requires Synced(s) && s.magicCube == MagicCube
    ensures |s.numberToPosition| == 125 && |s.positionToNumber| == 125
    ensures forall n :: n in s.numberToPosition ==>
      s.numberToPosition[n] in s.positionToNumber && s.positionToNumber[s.numberToPosition[n]] == n
    ensures forall p :: p in s.positionToNumber ==>
      s.positionToNumber[p] in s.numberToPosition && s.numberToPosition[s.positionToNumber[p]] == p
  {
    CubeLayoutIsLayout();
    LayoutSizes();
    LayoutInverse();
  }

  /** The sequence line in the group of a widget in step is the one the
      configuration draws over the widget's own number map. */
  lemma SyncedLineChild(s: WidgetState)
    requires Synced(s)
    ensures forall x :: x in s.group && x.SequenceLine? ==> x == LineFor(s.config, s.numberToPosition)
  {
    forall x | x in s.group && x.SequenceLine? ensures x == LineFor(s.config, s.numberToPosition) {
      assert Name(x) == "sequenceLine";
    }
  }

  /** In "even" mode the sequence line of a widget in step visits the
      positions of 2, 4, ..., 2k in that order, when the layout's keys are
      1..2k + 1 (k = 62 for the magic cube, by SyncedLine). */
  lemma SyncedEvenLine(s: WidgetState, k: nat)
    requires Synced(s) && Get(s.config, "lineMode") == Str("even")
    requires forall n :: n in s.numberToPosition <==> 1 <= n <= 2 * k + 1
    ensures forall x :: x in s.group && x.SequenceLine? ==>
      |x.points| == k &&
      forall i :: 0 <= i < k ==> 2 * i + 2 in s.numberToPosition && x.points[i] == s.numberToPosition[2 * i + 2]
  {
    var m := s.numberToPosition;
    SyncedLineChild(s);
    EvenLineThroughKeys(m, k);
    assert LineFor(s.config, m).points == LinePoints(Str("even"), m);
  }

  /** In "odd" mode it visits the positions of 1, 3, ..., 2k + 1. */
  lemma SyncedOddLine(s: WidgetState, k: nat)
    requires Synced(s) && Get(s.config, "lineMode") == Str("odd")
    requires forall n :: n in s.numberToPosition <==> 1 <= n <= 2 * k + 1
    ensures forall x :: x in s.group && x.SequenceLine? ==>
      |x.points| == k + 1 &&
      forall i :: 0 <= i < k + 1 ==> 2 * i + 1 in s.numberToPosition && x.points[i] == s.numberToPosition[2 * i + 1]
  {
    var m := s.numberToPosition;
    SyncedLineChild(s);
    OddLineThroughKeys(m, k);
    assert LineFor(s.config, m).points == LinePoints(Str("odd"), m);
  }

  /** In "full" mode, and any other mode but "none", it visits the
      positions of 1, 2, ..., 2k + 1. */
  lemma SyncedFullLine(s: WidgetState, k: nat)
    requires Synced(s)
    requires Get(s.config, "lineMode") != Str("even") && Get(s.config, "lineMode") != Str("odd")
    requires forall n :: n in s.numberToPosition <==> 1 <= n <= 2 * k + 1
    ensures forall x :: x in s.group && x.SequenceLine? ==>
      |x.points| == 2 * k + 1 &&
      forall i :: 0 <= i < 2 * k + 1 ==> i + 1 in s.numberToPosition && x.points[i] == s.numberToPosition[i + 1]
  {
    var m, mode := s.numberToPosition, Get(s.config, "lineMode");
    SyncedLineChild(s);
    FullLineThroughKeys(mode, m, k);
    assert LineFor(s.config, m).points == LinePoints(mode, m);
  }
}

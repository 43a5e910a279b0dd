/**
 * The objects the widget puts into its three.js group, modelled as plain
 * values: node spheres, the dashed wireframe outline and the sequence line,
 * the node labels, and the pure number pipeline of `createSequenceLine`
 * (src/trump-boyer-cube.js).
 */
module Scene {
  import opened Config
  import opened CubeData

  // ---------------------------------------------------------------------
  // Children of the group
  // ---------------------------------------------------------------------

  /** One dashed edge of the wireframe outline (`createDashedLine`). */
  datatype DashedLine = DashedLine(start: Pos, end: Pos, color: Value)

  /** A direct child of `elements.group`. A node sphere records its number
      (`userData.number`), its position, its radius (`config.nodeSize`) and
      its colour; the wireframe group holds its dashed edges; the sequence
      line holds its points. */
  datatype Child =
    | NodeMesh(number: int, position: Pos, radius: Value, color: Value)
    | WireframeGroup(edges: seq<DashedLine>)
    | SequenceLine(points: seq<Pos>, color: Value)

  /** The `name` of a child: only the wireframe group and the sequence line
      are named; every other object keeps three.js's default empty name. */
  function Name(c: Child): string {
    match c
    case NodeMesh(_, _, _, _) => ""
    case WireframeGroup(_) => "wireframe"
    case SequenceLine(_, _) => "sequenceLine"
  }

  /** The index `group.getObjectByName(name)` finds: the first direct child
      with that name (the group itself and every grandchild are unnamed), or
      |cs| when there is none. */
  function IndexOfName(cs: seq<Child>, name: string): (r: nat)
    ensures r <= |cs|
    ensures r < |cs| ==> Name(cs[r]) == name
    ensures forall j :: 0 <= j < r ==> Name(cs[j]) != name
  {
    if cs == [] then 0
    else if Name(cs[0]) == name then 0
    else 1 + IndexOfName(cs[1..], name)
  }

  /** `group.remove(group.getObjectByName(name))` when that finds a child. */
  function RemoveNamed(cs: seq<Child>, name: string): seq<Child> {
    var i := IndexOfName(cs, name);
    if i < |cs| then cs[..i] + cs[i + 1..] else cs
  }

  /** How many children carry the given name. */
  function CountNamed(cs: seq<Child>, name: string): nat {
    if cs == [] then 0 else (if Name(cs[0]) == name then 1 else 0) + CountNamed(cs[1..], name)
  }

  /** The node spheres among the children, in order. */
  function Meshes(cs: seq<Child>): seq<Child> {
    if cs == [] then [] else (if cs[0].NodeMesh? then [cs[0]] else []) + Meshes(cs[1..])
  }

  lemma {:induction false} CountNamedAppend(a: seq<Child>, b: seq<Child>, name: string)
    ensures CountNamed(a + b, name) == CountNamed(a, name) + CountNamed(b, name)
  {
    if a == [] {
      assert a + b == b;
    } else {
      assert (a + b)[0] == a[0];
      assert (a + b)[1..] == a[1..] + b;
      CountNamedAppend(a[1..], b, name);
    }
  }

  lemma {:induction false} MeshesAppend(a: seq<Child>, b: seq<Child>)
    ensures Meshes(a + b) == Meshes(a) + Meshes(b)
  {
    if a == [] {
      assert a + b == b;
    } else {
      assert (a + b)[0] == a[0];
      assert (a + b)[1..] == a[1..] + b;
      MeshesAppend(a[1..], b);
    }
  }

  /** A name no child carries counts zero. */
  lemma {:induction false} CountNamedZero(cs: seq<Child>, name: string)
    ensures CountNamed(cs, name) == 0 <==> forall j :: 0 <= j < |cs| ==> Name(cs[j]) != name
  {
    if cs != [] {
      CountNamedZero(cs[1..], name);
      assert forall j :: 1 <= j < |cs| ==> cs[j] == cs[1..][j - 1];
    }
  }

  /** Taking child i out of the sequence lowers the count of its name by
      one and, when it is not a sphere, keeps the spheres. */
  lemma RemoveAtEffect(cs: seq<Child>, i: nat, name: string)
    requires i < |cs|
    ensures CountNamed(cs, name) == CountNamed(cs[..i] + cs[i + 1..], name) + (if Name(cs[i]) == name then 1 else 0)
    ensures !cs[i].NodeMesh? ==> Meshes(cs[..i] + cs[i + 1..]) == Meshes(cs)
  {
    var single, rest := [cs[i]], cs[i + 1..];
    assert cs == cs[..i] + (single + rest);
    assert single[1..] == [];
    CountNamedAppend(cs[..i], single + rest, name);
    CountNamedAppend(single, rest, name);
    CountNamedAppend(cs[..i], rest, name);
    if !cs[i].NodeMesh? {
      MeshesAppend(cs[..i], single + rest);
      MeshesAppend(single, rest);
      MeshesAppend(cs[..i], rest);
      assert Meshes(single) == [] + Meshes(single[1..]);
      calc {
        Meshes(cs);
        Meshes(cs[..i]) + Meshes(single + rest);
        Meshes(cs[..i]) + (Meshes(single) + Meshes(rest));
        { assert Meshes(single) + Meshes(rest) == Meshes(rest); }
        Meshes(cs[..i]) + Meshes(rest);
        Meshes(cs[..i] + rest);
      }
    }
  }

  /** Removing by name takes out exactly one child of that name when there
      is one, keeps the count of every other name, and keeps all node
      spheres when the name is not the spheres' empty name. */
  lemma RemoveNamedEffect(cs: seq<Child>, name: string)
    ensures CountNamed(RemoveNamed(cs, name), name) == if CountNamed(cs, name) == 0 then 0 else CountNamed(cs, name) - 1
    ensures CountNamed(cs, name) == 0 ==> RemoveNamed(cs, name) == cs
    ensures forall other :: other != name ==> CountNamed(RemoveNamed(cs, name), other) == CountNamed(cs, other)
    ensures name != "" ==> Meshes(RemoveNamed(cs, name)) == Meshes(cs)
  {
    var i := IndexOfName(cs, name);
    if i < |cs| {
      RemoveAtEffect(cs, i, name);
      forall other | other != name ensures CountNamed(RemoveNamed(cs, name), other) == CountNamed(cs, other) {
        RemoveAtEffect(cs, i, other);
      }
    } else {
      CountNamedZero(cs, name);
    }
  }

  /** Removing by name keeps only children that were there before. */
  lemma RemoveNamedSubset(cs: seq<Child>, name: string)
    ensures forall x :: x in RemoveNamed(cs, name) ==> x in cs
  {
    var i := IndexOfName(cs, name);
    if i < |cs| {
      forall x | x in RemoveNamed(cs, name) ensures x in cs {
        if x in cs[..i] {
          var j :| 0 <= j < i && cs[..i][j] == x;
          assert cs[j] == x;
        } else {
          var j :| 0 <= j < |cs| - i - 1 && cs[i + 1..][j] == x;
          assert cs[i + 1 + j] == x;
        }
      }
    }
  }

  /** At most one child, carrying the given name. */
  predicate NamedPart(part: seq<Child>, name: string) {
    |part| <= 1 && forall x :: x in part ==> Name(x) == name
  }

  /** Such a part counts once for its name, never for another, and holds no
      sphere when the name is not the spheres' empty name. */
  lemma NamedPartCounts(part: seq<Child>, name: string)
    requires name != "" && NamedPart(part, name)
    ensures CountNamed(part, name) == |part| && Meshes(part) == []
    ensures forall other :: other != name ==> CountNamed(part, other) == 0
  {
    if part != [] {
      assert part[0] in part && part[1..] == [];
    }
  }

  /** The group holds the spheres `nodes` in order among its children, and
      its children named "wireframe" and "sequenceLine" are exactly those of
      `wireframe` and `line`. */
  predicate GroupMatches(group: seq<Child>, nodes: seq<Child>, wireframe: seq<Child>, line: seq<Child>) {
    Meshes(group) == nodes &&
    CountNamed(group, "wireframe") == |wireframe| &&
    (forall x :: x in group && Name(x) == "wireframe" ==> x in wireframe) &&
    CountNamed(group, "sequenceLine") == |line| &&
    (forall x :: x in group && Name(x) == "sequenceLine" ==> x in line)
  }

  /** What `remove`-then-`add` does to a group holding at most one child of
      a name other than the spheres' empty name: the spheres and every other
      name are untouched, and that name's children are those added. */
  lemma ReplaceNamedChild(group: seq<Child>, name: string, added: seq<Child>)
    requires name != "" && CountNamed(group, name) <= 1 && NamedPart(added, name)
    ensures Meshes(RemoveNamed(group, name) + added) == Meshes(group)
    ensures CountNamed(RemoveNamed(group, name) + added, name) == |added|
    ensures forall other :: other != name ==>
      CountNamed(RemoveNamed(group, name) + added, other) == CountNamed(group, other)
    ensures forall x :: x in RemoveNamed(group, name) + added ==>
      x in added || (x in group && Name(x) != name)
  {
    var r := RemoveNamed(group, name);
    RemoveNamedEffect(group, name);
    NamedPartCounts(added, name);
    MeshesAppend(r, added);
    CountNamedAppend(r, added, name);
    forall other | other != name ensures CountNamed(r + added, other) == CountNamed(group, other) {
      CountNamedAppend(r, added, other);
    }
    RemovedChildren(group, name, added);
  }

  /** After removing the only child of a name, the children that carry it
      are those added. */
  lemma RemovedChildren(group: seq<Child>, name: string, added: seq<Child>)
    requires CountNamed(group, name) <= 1
    ensures forall x :: x in RemoveNamed(group, name) + added ==>
      x in added || (x in group && Name(x) != name)
  {
    var r := RemoveNamed(group, name);
    RemoveNamedEffect(group, name);
    RemoveNamedSubset(group, name);
    CountNamedZero(r, name);
    forall x | x in r + added ensures x in added || (x in group && Name(x) != name) {
      if x !in added {
        var j :| 0 <= j < |r| && r[j] == x;
      }
    }
  }

  /** Every child is a node sphere. */
  predicate AllMeshes(cs: seq<Child>) {
    forall i :: 0 <= i < |cs| ==> cs[i].NodeMesh?
  }

  /** A group of spheres only has the spheres as its meshes and no child of
      any other name. */
  lemma {:induction false} AllMeshesGroup(cs: seq<Child>, name: string)
    requires AllMeshes(cs)
    ensures Meshes(cs) == cs
    ensures name != "" ==> CountNamed(cs, name) == 0 && forall x :: x in cs ==> Name(x) != name
  {
    if cs != [] {
      assert AllMeshes(cs[1..]) by {
        forall i | 0 <= i < |cs| - 1 ensures cs[1..][i].NodeMesh? {
          assert cs[1..][i] == cs[i + 1];
        }
      }
      AllMeshesGroup(cs[1..], name);
      assert cs == [cs[0]] + cs[1..];
    }
  }

  /** Replacing the wireframe part of a matching group: the spheres and the
      sequence line stay, and the group's wireframe is the new part. */
  lemma ReplaceWireframePart(group: seq<Child>, nodes: seq<Child>, wireframe: seq<Child>, line: seq<Child>,
                             added: seq<Child>)
    requires GroupMatches(group, nodes, wireframe, line)
    requires NamedPart(wireframe, "wireframe") && NamedPart(added, "wireframe")
    ensures GroupMatches(RemoveNamed(group, "wireframe") + added, nodes, added, line)
  {
    ReplaceNamedChild(group, "wireframe", added);
  }

  /** Replacing the sequence-line part of a matching group: the spheres and
      the wireframe stay, and the group's line is the new part. */
  lemma ReplaceLinePart(group: seq<Child>, nodes: seq<Child>, wireframe: seq<Child>, line: seq<Child>,
                        added: seq<Child>)
    requires GroupMatches(group, nodes, wireframe, line)
    requires NamedPart(line, "sequenceLine") && NamedPart(added, "sequenceLine")
    ensures GroupMatches(RemoveNamed(group, "sequenceLine") + added, nodes, wireframe, added)
  {
    ReplaceNamedChild(group, "sequenceLine", added);
  }

  // ---------------------------------------------------------------------
  // Node labels
  // ---------------------------------------------------------------------

  /** An entry of `elements.nodeLabels`: the number and the position it labels. */
  datatype Label = Label(number: int, position: Pos)

  /** A label `div` of the label container; its text is the node's number. */
  datatype LabelDiv = LabelDiv(text: int)

  // ---------------------------------------------------------------------
  // The wireframe outline
  // ---------------------------------------------------------------------

  /** `cubeSize`: two node spacings from the centre to a face. */
  const CubeSize: real := CubeScale * 2.0

  /** The eight corners; 0-3 on the top face, 4-7 below them. */
  const Corners: seq<Pos> := [
    Pos(-CubeSize, CubeSize, -CubeSize),
    Pos(CubeSize, CubeSize, -CubeSize),
    Pos(CubeSize, CubeSize, CubeSize),
    Pos(-CubeSize, CubeSize, CubeSize),
    Pos(-CubeSize, -CubeSize, -CubeSize),
    Pos(CubeSize, -CubeSize, -CubeSize),
    Pos(CubeSize, -CubeSize, CubeSize),
    Pos(-CubeSize, -CubeSize, CubeSize)
  ]

  /** The twelve edges as pairs of corner indices: top face, bottom face,
      then the four vertical edges. */
  const Edges: seq<(int, int)> := [
    (0, 1), (1, 2), (2, 3), (3, 0),
    (4, 5), (5, 6), (6, 7), (7, 4),
    (0, 4), (1, 5), (2, 6), (3, 7)
  ]

  /** The dashed line the wireframe loop draws for edge j. */
  function EdgeLine(j: int, color: Value): DashedLine
    requires 0 <= j < |Edges|
  {
    var (a, b) := Edges[j];
    EdgeBounds(j);
    DashedLine(Corners[a], Corners[b], color)
  }

  lemma EdgeBounds(j: int)
    requires 0 <= j < |Edges|
    ensures 0 <= Edges[j].0 < |Corners| && 0 <= Edges[j].1 < |Corners|
  {
  }

  /** The wireframe's lines after the loop has drawn edges 0..k-1. */
  function EdgeLinesUpTo(k: nat, color: Value): seq<DashedLine>
    requires k <= |Edges|
  {
    if k == 0 then [] else EdgeLinesUpTo(k - 1, color) + [EdgeLine(k - 1, color)]
  }

  /** The whole outline. */
  function WireframeLines(color: Value): seq<DashedLine> {
    EdgeLinesUpTo(|Edges|, color)
  }

  /** Every coordinate of a corner is -cubeSize or +cubeSize. */
  predicate OnCubeCorner(p: Pos) {
    (p.x == CubeSize || p.x == -CubeSize) &&
    (p.y == CubeSize || p.y == -CubeSize) &&
    (p.z == CubeSize || p.z == -CubeSize)
  }

  /** Two corners joined by an edge of the cube: they differ in exactly one
      coordinate. */
  predicate CubeEdge(p: Pos, q: Pos) {
    (if p.x != q.x then 1 else 0) + (if p.y != q.y then 1 else 0) + (if p.z != q.z then 1 else 0) == 1
  }

  lemma {:induction false} EdgeLinesUpToShape(k: nat, color: Value)
    requires k <= |Edges|
    ensures |EdgeLinesUpTo(k, color)| == k
    ensures forall j :: 0 <= j < k ==> EdgeLinesUpTo(k, color)[j] == EdgeLine(j, color)
  {
    if k > 0 {
      EdgeLinesUpToShape(k - 1, color);
    }
  }

  /** The wireframe is the outline of the cube of side 2 * cubeSize around
      the origin: twelve lines, each between two corners that differ in one
      coordinate, no two lines along the same edge, drawn in one colour. */
  lemma WireframeIsCubeOutline(color: Value)
    ensures |WireframeLines(color)| == 12
    ensures forall j :: 0 <= j < 12 ==>
      var l := WireframeLines(color)[j];
      OnCubeCorner(l.start) && OnCubeCorner(l.end) && CubeEdge(l.start, l.end) && l.color == color
    ensures forall i, j :: 0 <= i < j < 12 ==>
      {WireframeLines(color)[i].start, WireframeLines(color)[i].end} !=
      {WireframeLines(color)[j].start, WireframeLines(color)[j].end}
  {
    EdgeLinesUpToShape(12, color);
    forall j | 0 <= j < 12
      ensures OnCubeCorner(EdgeLine(j, color).start) && OnCubeCorner(EdgeLine(j, color).end)
      ensures CubeEdge(EdgeLine(j, color).start, EdgeLine(j, color).end)
    {
      EdgeOnOutline(j);
    }
    forall i, j | 0 <= i < j < 12
      ensures {EdgeLine(i, color).start, EdgeLine(i, color).end} != {EdgeLine(j, color).start, EdgeLine(j, color).end}
    {
      EdgeDistinct(i, j);
    }
  }

  /** Each entry of the edge table joins two corners along one axis. */
  lemma EdgeOnOutline(j: int)
    requires 0 <= j < 12
    ensures OnCubeCorner(Corners[Edges[j].0]) && OnCubeCorner(Corners[Edges[j].1])
    ensures CubeEdge(Corners[Edges[j].0], Corners[Edges[j].1])
  {
    assert CubeSize == 5.0;
  }

  /** No two entries of the edge table join the same pair of corners. */
  lemma EdgeDistinct(i: int, j: int)
    requires 0 <= i < j < 12
    ensures {Corners[Edges[i].0], Corners[Edges[i].1]} != {Corners[Edges[j].0], Corners[Edges[j].1]}
  {
    assert CubeSize == 5.0;
  }

  // ---------------------------------------------------------------------
  // The number pipeline of createSequenceLine
  // ---------------------------------------------------------------------

  predicate Increasing(s: seq<int>) {
    forall i, j :: 0 <= i < j < |s| ==> s[i] < s[j]
  }

  /** A set is empty or has an element. */
  lemma EmptyOrInhabited(s: set<int>)
    ensures s == {} || exists y :: y in s
  {
    if forall y :: y !in s {
      assert s == {};
    }
  }

  /** Some element of a non-empty set. */
  ghost function Pick(s: set<int>): (y: int)
    requires s != {}
    ensures y in s
  {
    EmptyOrInhabited(s);
    var y :| y in s; y
  }

  /** A least element of a non-empty finite set, found by removing an
      arbitrary element and comparing it with the least of the rest. */
  ghost function Minimum(s: set<int>): (m: int)
    requires s != {}
    ensures m in s && forall x :: x in s ==> m <= x
    decreases |s|
  {
    var y := Pick(s);
    if s == {y} then y
    else
      var m := Minimum(s - {y});
      assert forall x :: x in s ==> x == y || x in s - {y};
      if y < m then y else m
  }

  /** The least element of a non-empty finite set. */
  function Least(s: set<int>): (m: int)
    requires s != {}
    ensures m in s && forall x :: x in s ==> m <= x
  {
    assert Minimum(s) in s && forall x :: x in s ==> Minimum(s) <= x;
    var m :| m in s && forall x :: x in s ==> m <= x;
    m
  }

  /** `[...s].sort((a, b) => a - b)`: the elements of s in increasing order. */
  function Ascending(s: set<int>): (r: seq<int>)
    ensures |r| == |s|
    ensures forall x :: x in r <==> x in s
    ensures Increasing(r)
    decreases |s|
  {
    if s == {} then []
    else
      var m := Least(s);
      var rest := Ascending(s - {m});
      LeastFirst(s, m, rest);
      [m] + rest
  }

  /** Putting the least element of s in front of the rest of s, sorted,
      sorts s. */
  lemma LeastFirst(s: set<int>, m: int, rest: seq<int>)
    requires m in s && forall x :: x in s ==> m <= x
    requires |rest| == |s - {m}| && Increasing(rest)
    requires forall x :: x in rest <==> x in s - {m}
    ensures |[m] + rest| == |s|
    ensures forall x :: x in [m] + rest <==> x in s
    ensures Increasing([m] + rest)
  {
    var r := [m] + rest;
    forall i, j | 0 <= i < j < |r| ensures r[i] < r[j] {
      assert r[j] == rest[j - 1] && rest[j - 1] in rest;
      if i > 0 {
        assert r[i] == rest[i - 1];
      }
    }
  }

  /** An increasing sequence is determined by its elements. */
  lemma {:induction false} IncreasingUnique(a: seq<int>, b: seq<int>)
    requires Increasing(a) && Increasing(b)
    requires forall x :: x in a <==> x in b
    ensures a == b
    decreases |a|
  {
    if a != [] {
      assert a[0] in a;
    }
    if b != [] {
      assert b[0] in b;
    }
    if a != [] && b != [] {
      assert a[0] == b[0] by {
        assert a[0] in b && b[0] in a;
      }
      forall x ensures x in a[1..] <==> x in b[1..] {
        if x in a[1..] {
          assert x in b && x > a[0];
        }
        if x in b[1..] {
          assert x in a && x > b[0];
        }
      }
      IncreasingUnique(a[1..], b[1..]);
      assert a == [a[0]] + a[1..] && b == [b[0]] + b[1..];
    }
  }

  /** The integers lo, lo+1, ..., hi-1 in order. */
  function Range(lo: int, hi: int): (r: seq<int>)
    ensures |r| == if lo <= hi then hi - lo else 0
    decreases hi - lo
  {
    if hi <= lo then [] else Range(lo, hi - 1) + [hi - 1]
  }

  lemma {:induction false} RangeElements(lo: int, hi: int)
    ensures forall i :: 0 <= i < |Range(lo, hi)| ==> Range(lo, hi)[i] == lo + i
    decreases hi - lo
  {
    if lo < hi {
      RangeElements(lo, hi - 1);
    }
  }

  /** Sorting the set lo..hi-1 gives Range(lo, hi). */
  lemma AscendingInterval(lo: int, hi: int)
    requires lo <= hi
    ensures Ascending(Interval(lo, hi)) == Range(lo, hi)
  {
    IntervalSize(lo, hi);
    RangeElements(lo, hi);
    var r := Range(lo, hi);
    forall x ensures x in Ascending(Interval(lo, hi)) <==> x in r {
      if lo <= x < hi {
        assert r[x - lo] == x;
      }
    }
    IncreasingUnique(Ascending(Interval(lo, hi)), r);
  }

  /** JavaScript's `a % b` for a positive divisor: the remainder takes the
      sign of the dividend instead of being non-negative. */
  function JsRem(a: int, b: int): (r: int)
    requires b > 0
    ensures -b < r < b
    ensures a >= 0 ==> r == a % b
    ensures a < 0 ==> r <= 0
    ensures (a - r) % b == 0
  {
    if a >= 0 then MultipleRem(a / b, b); a % b else NegativeRem(a, b); -((-a) % b)
  }

  /** For a negative dividend, JavaScript's remainder differs from a by a
      multiple of b. */
  lemma NegativeRem(a: int, b: int)
    requires a < 0 && b > 0
    ensures (a + (-a) % b) % b == 0
  {
    var q := (-a) / b;
    assert a + (-a) % b == -q * b;
    MultipleRem(-q, b);
  }

  /** A multiple of b leaves no remainder. */
  lemma MultipleRem(q: int, b: int)
    requires b > 0
    ensures (q * b) % b == 0
  {
    var d, r := (q * b) / b, (q * b) % b;
    assert (q - d) * b == r;
    NonzeroMultiple(q - d, b);
  }

  /** A non-zero multiple of b is at least b away from zero. */
  lemma NonzeroMultiple(n: int, b: int)
    requires b > 0
    ensures n == 0 || n * b >= b || n * b <= -b
    decreases if n > 0 then n else -n
  {
    if n > 1 {
      NonzeroMultiple(n - 1, b);
      assert n * b == (n - 1) * b + b;
    } else if n < -1 {
      NonzeroMultiple(n + 1, b);
      assert n * b == (n + 1) * b - b;
    }
  }

  /** `num % 2 === 0` */
  predicate IsEvenJs(n: int) {
    JsRem(n, 2) == 0
  }

  /** `num % 2 === 1`: false for negative odd numbers, whose JavaScript
      remainder is -1. */
  predicate IsOddJs(n: int) {
    JsRem(n, 2) == 1
  }

  /** `s.filter(p)` */
  function Filter(s: seq<int>, p: int -> bool): (r: seq<int>)
    ensures |r| <= |s|
  {
    if s == [] then []
    else Filter(s[..|s| - 1], p) + (if p(s[|s| - 1]) then [s[|s| - 1]] else [])
  }

  /** Filtering keeps exactly the elements that satisfy the predicate. */
  lemma {:induction false} FilterMembers(s: seq<int>, p: int -> bool)
    ensures forall x :: x in Filter(s, p) <==> x in s && p(x)
  {
    if s != [] {
      FilterMembers(s[..|s| - 1], p);
      assert s == s[..|s| - 1] + [s[|s| - 1]];
    }
  }

  /** Filtering keeps an increasing sequence increasing. */
  lemma {:induction false} FilterIncreasing(s: seq<int>, p: int -> bool)
    requires Increasing(s)
    ensures Increasing(Filter(s, p))
  {
    if s != [] {
      var init, last := s[..|s| - 1], s[|s| - 1];
      FilterIncreasing(init, p);
      FilterMembers(init, p);
      var f := Filter(init, p);
      forall x | x in f ensures x < last {
        var k :| 0 <= k < |init| && init[k] == x;
        assert s[k] == x;
      }
      var r := Filter(s, p);
      assert r == f + (if p(last) then [last] else []);
      forall i, j | 0 <= i < j < |r| ensures r[i] < r[j] {
        if j >= |f| {
          assert r[i] == f[i];
          assert f[i] in f;
        }
      }
    }
  }

  /** The numbers the line passes through: the keys in increasing order,
      kept to the even or odd ones in those modes; any other mode keeps all. */
  function LineNumbers(mode: Value, keys: set<int>): (r: seq<int>)
    ensures Increasing(r)
    ensures forall n :: n in r <==>
      (n in keys && (mode == Str("even") ==> IsEvenJs(n)) && (mode == Str("odd") ==> IsOddJs(n)))
  {
    var all := Ascending(keys);
    FilterIncreasing(all, IsEvenJs);
    FilterIncreasing(all, IsOddJs);
    FilterMembers(all, IsEvenJs);
    FilterMembers(all, IsOddJs);
    if mode == Str("even") then Filter(all, IsEvenJs)
    else if mode == Str("odd") then Filter(all, IsOddJs)
    else all
  }

  /** `numbers.map((num) => numberToPosition[num])` */
  function Positions(ns: seq<int>, numberToPosition: map<int, Pos>): (r: seq<Pos>)
    requires forall i :: 0 <= i < |ns| ==> ns[i] in numberToPosition
    ensures |r| == |ns|
    ensures forall i :: 0 <= i < |ns| ==> r[i] == numberToPosition[ns[i]]
  {
    seq(|ns|, i requires 0 <= i < |ns| => numberToPosition[ns[i]])
  }

  /** `linePoints`: the positions of those numbers, in the same order (every
      position is an object, so `.filter(Boolean)` keeps them all). */
  function LinePoints(mode: Value, numberToPosition: map<int, Pos>): seq<Pos> {
    var ns := LineNumbers(mode, numberToPosition.Keys);
    assert forall i :: 0 <= i < |ns| ==> ns[i] in ns;
    Positions(ns, numberToPosition)
  }

  /** 2, 4, ..., 2k */
  function EvenNumbers(k: nat): (r: seq<int>)
    ensures |r| == k
  {
    if k == 0 then [] else EvenNumbers(k - 1) + [2 * k]
  }

  /** 1, 3, ..., 2k - 1 */
  function OddNumbers(k: nat): (r: seq<int>)
    ensures |r| == k
  {
    if k == 0 then [] else OddNumbers(k - 1) + [2 * k - 1]
  }

  /** The i-th even number is 2i + 2. */
  lemma {:induction false} EvenNumbersElements(k: nat)
    ensures forall i :: 0 <= i < k ==> EvenNumbers(k)[i] == 2 * i + 2
  {
    if k > 0 {
      EvenNumbersElements(k - 1);
    }
  }

  /** The i-th odd number is 2i + 1. */
  lemma {:induction false} OddNumbersElements(k: nat)
    ensures forall i :: 0 <= i < k ==> OddNumbers(k)[i] == 2 * i + 1
  {
    if k > 0 {
      OddNumbersElements(k - 1);
    }
  }

  /** Filtering a sequence extended by one element. */
  lemma FilterSnoc(s: seq<int>, x: int, p: int -> bool)
    ensures Filter(s + [x], p) == Filter(s, p) + (if p(x) then [x] else [])
  {
    assert (s + [x])[..|s + [x]| - 1] == s;
  }

  /** The JavaScript parity of 2k - 1 and 2k. */
  lemma Parity(k: int)
    requires k >= 1
    ensures IsOddJs(2 * k - 1) && !IsEvenJs(2 * k - 1)
    ensures IsEvenJs(2 * k) && !IsOddJs(2 * k)
    ensures !IsEvenJs(2 * k + 1)
  {
  }

  /** Of 1, ..., 2k + 1, the even numbers are 2, 4, ..., 2k. */
  lemma {:induction false} EvensOfRange(k: nat)
    ensures Filter(Range(1, 2 * k + 2), IsEvenJs) == EvenNumbers(k)
  {
    if k == 0 {
      assert Range(1, 2) == Range(1, 1) + [1];
      FilterSnoc(Range(1, 1), 1, IsEvenJs);
      assert !IsEvenJs(1);
    } else {
      EvensOfRange(k - 1);
      var head := Range(1, 2 * k);
      assert Range(1, 2 * k + 1) == head + [2 * k];
      assert Range(1, 2 * k + 2) == (head + [2 * k]) + [2 * k + 1];
      Parity(k);
      assert Filter(head, IsEvenJs) == EvenNumbers(k - 1);
      FilterSnoc(head, 2 * k, IsEvenJs);
      assert Filter(head + [2 * k], IsEvenJs) == EvenNumbers(k);
      FilterSnoc(head + [2 * k], 2 * k + 1, IsEvenJs);
    }
  }

  /** Of 1, ..., 2k, the odd numbers are 1, 3, ..., 2k - 1. */
  lemma {:induction false} OddsOfRange(k: nat)
    ensures Filter(Range(1, 2 * k + 1), IsOddJs) == OddNumbers(k)
  {
    if k == 0 {
      assert Range(1, 1) == [];
    } else {
      OddsOfRange(k - 1);
      var head := Range(1, 2 * k - 1);
      assert Range(1, 2 * k) == head + [2 * k - 1];
      assert Range(1, 2 * k + 1) == (head + [2 * k - 1]) + [2 * k];
      Parity(k);
      assert Filter(head, IsOddJs) == OddNumbers(k - 1);
      FilterSnoc(head, 2 * k - 1, IsOddJs);
      assert Filter(head + [2 * k - 1], IsOddJs) == OddNumbers(k);
      FilterSnoc(head + [2 * k - 1], 2 * k, IsOddJs);
    }
  }

  /** Of 1, ..., 2k + 1, the odd numbers are 1, 3, ..., 2k + 1. */
  lemma OddsOfOddRange(k: nat)
    ensures Filter(Range(1, 2 * k + 2), IsOddJs) == OddNumbers(k + 1)
  {
    OddsOfRange(k);
    var head := Range(1, 2 * k + 1);
    assert Range(1, 2 * k + 2) == head + [2 * k + 1];
    Parity(k + 1);
    FilterSnoc(head, 2 * k + 1, IsOddJs);
  }

  /** Sorting a key set that is exactly 1..hi-1 gives 1, 2, ..., hi-1. */
  lemma AscendingKeys(keys: set<int>, hi: int)
    requires 1 <= hi && forall n :: n in keys <==> 1 <= n < hi
    ensures Ascending(keys) == Range(1, hi)
  {
    assert keys == Interval(1, hi) by {
      IntervalSize(1, hi);
      forall n ensures n in keys <==> n in Interval(1, hi) {
      }
    }
    AscendingInterval(1, hi);
  }

  /** Over the keys 1..2k+1 (1..125 for the cube, k = 62): "even" visits
      the k numbers 2, 4, ..., 2k; "odd" the k + 1 numbers 1, 3, ..., 2k + 1;
      any other mode, "full" among them, all of 1, 2, ..., 2k + 1. */
  lemma LineNumbersOfKeys(mode: Value, keys: set<int>, k: nat)
    requires forall n :: n in keys <==> 1 <= n <= 2 * k + 1
    ensures mode == Str("even") ==> LineNumbers(mode, keys) == EvenNumbers(k)
    ensures mode == Str("odd") ==> LineNumbers(mode, keys) == OddNumbers(k + 1)
    ensures mode != Str("even") && mode != Str("odd") ==> LineNumbers(mode, keys) == Range(1, 2 * k + 2)
  {
    AscendingKeys(keys, 2 * k + 2);
    EvensOfRange(k);
    OddsOfOddRange(k);
  }

  /** The numbers of a line in any mode but "even" and "odd", position by
      position: the i-th number is i + 1. */
  lemma FullLineNumbers(mode: Value, keys: set<int>, k: nat)
    requires forall n :: n in keys <==> 1 <= n <= 2 * k + 1
    requires mode != Str("even") && mode != Str("odd")
    ensures |LineNumbers(mode, keys)| == 2 * k + 1
    ensures forall i :: 0 <= i < 2 * k + 1 ==> LineNumbers(mode, keys)[i] == i + 1
  {
    LineNumbersOfKeys(mode, keys, k);
    RangeElements(1, 2 * k + 2);
  }

  /** The line's points are the map's positions of its numbers, in order. */
  lemma PointsOfNumbers(mode: Value, m: map<int, Pos>, ns: seq<int>)
    requires LineNumbers(mode, m.Keys) == ns
    ensures |LinePoints(mode, m)| == |ns|
    ensures forall i :: 0 <= i < |ns| ==> ns[i] in m && LinePoints(mode, m)[i] == m[ns[i]]
  {
    assert forall i :: 0 <= i < |ns| ==> ns[i] in ns;
  }

  /** The line through a map keyed by 1..2k+1 in "even" mode: the
      positions of 2, 4, ..., 2k, in that order. */
  lemma EvenLineThroughKeys(m: map<int, Pos>, k: nat)
    requires forall n :: n in m <==> 1 <= n <= 2 * k + 1
    ensures |LinePoints(Str("even"), m)| == k
    ensures forall i :: 0 <= i < k ==> 2 * i + 2 in m && LinePoints(Str("even"), m)[i] == m[2 * i + 2]
  {
    var ns := EvenNumbers(k);
    assert LineNumbers(Str("even"), m.Keys) == ns by {
      LineNumbersOfKeys(Str("even"), m.Keys, k);
    }
    PointsOfNumbers(Str("even"), m, ns);
    forall i | 0 <= i < k ensures 2 * i + 2 in m && LinePoints(Str("even"), m)[i] == m[2 * i + 2] {
      EvenNumbersElements(k);
      assert ns[i] == 2 * i + 2;
    }
  }

  /** ... in "odd" mode the positions of 1, 3, ..., 2k + 1. */
  lemma OddLineThroughKeys(m: map<int, Pos>, k: nat)
    requires forall n :: n in m <==> 1 <= n <= 2 * k + 1
    ensures |LinePoints(Str("odd"), m)| == k + 1
    ensures forall i :: 0 <= i < k + 1 ==> 2 * i + 1 in m && LinePoints(Str("odd"), m)[i] == m[2 * i + 1]
  {
    var ns := OddNumbers(k + 1);
    assert LineNumbers(Str("odd"), m.Keys) == ns by {
      LineNumbersOfKeys(Str("odd"), m.Keys, k);
    }
    PointsOfNumbers(Str("odd"), m, ns);
    forall i | 0 <= i < k + 1 ensures 2 * i + 1 in m && LinePoints(Str("odd"), m)[i] == m[2 * i + 1] {
      OddNumbersElements(k + 1);
      assert ns[i] == 2 * i + 1;
    }
  }

  /** ... and in any other mode the positions of 1, 2, ..., 2k + 1. */
  lemma FullLineThroughKeys(mode: Value, m: map<int, Pos>, k: nat)
    requires forall n :: n in m <==> 1 <= n <= 2 * k + 1
    requires mode != Str("even") && mode != Str("odd")
    ensures |LinePoints(mode, m)| == 2 * k + 1
    ensures forall i :: 0 <= i < 2 * k + 1 ==> i + 1 in m && LinePoints(mode, m)[i] == m[i + 1]
  {
    OtherModesAreFull(mode, m);
    FullModeThroughKeys(m, k);
  }

  /** Every mode other than "even" and "odd" draws the same line as "full". */
  lemma OtherModesAreFull(mode: Value, m: map<int, Pos>)
    requires mode != Str("even") && mode != Str("odd")
    ensures LinePoints(mode, m) == LinePoints(Str("full"), m)
  {
    assert LineNumbers(mode, m.Keys) == LineNumbers(Str("full"), m.Keys);
  }

  lemma FullModeThroughKeys(m: map<int, Pos>, k: nat)
    requires forall n :: n in m <==> 1 <= n <= 2 * k + 1
    ensures |LinePoints(Str("full"), m)| == 2 * k + 1
    ensures forall i :: 0 <= i < 2 * k + 1 ==> i + 1 in m && LinePoints(Str("full"), m)[i] == m[i + 1]
  {
    var ns := LineNumbers(Str("full"), m.Keys);
    FullLineNumbers(Str("full"), m.Keys, k);
    PointsOfNumbers(Str("full"), m, ns);
  }
}

/**
 * The order-5 magic cube of Trump and Boyer, the grid position of each of
 * its cells, and the two lookup maps that `createNodes` fills
 * (src/trump-boyer-cube.js).
 */
module CubeData {

  /** `CUBE_SCALE`: the distance between neighbouring nodes. */
  const CubeScale: real := 2.5

  /** `magicCube[z][y][x]`: five layers (z) of five rows (y) of five cells (x). */
  const MagicCube: seq<seq<seq<int>>> := [
    [[25, 16, 80, 104, 90], [115, 98, 4, 1, 97], [42, 111, 85, 2, 75], [66, 72, 27, 102, 48], [67, 18, 119, 106, 5]],
    [[91, 77, 71, 6, 70], [52, 64, 117, 69, 13], [30, 118, 21, 123, 23], [26, 39, 92, 44, 114], [116, 17, 14, 73, 95]],
    [[47, 61, 45, 76, 86], [107, 43, 38, 33, 94], [89, 68, 63, 58, 37], [32, 93, 88, 83, 19], [40, 50, 81, 65, 79]],
    [[31, 53, 112, 109, 10], [12, 82, 34, 87, 100], [103, 3, 105, 8, 96], [113, 57, 9, 62, 74], [56, 120, 55, 49, 35]],
    [[121, 108, 7, 20, 59], [29, 28, 122, 125, 11], [51, 15, 41, 124, 84], [78, 54, 99, 24, 60], [36, 110, 46, 22, 101]]
  ]

  /** The sum every row, column, pillar and space diagonal has: 5 * (125 + 1) / 2. */
  const MagicSum: int := 315

  /** A point of world space (a `Vector3`). */
  datatype Pos = Pos(x: real, y: real, z: real)

  predicate InGrid(i: int) {
    0 <= i < 5
  }

  /** The world position of grid index (x, y, z): centred on the origin, the
      y axis flipped so that a later row is drawn lower. */
  function GridPosition(x: int, y: int, z: int, scale: real): Pos {
    Pos((x - 2) as real * scale, -((y - 2) as real) * scale, (z - 2) as real * scale)
  }

  /** The centre cell sits at the origin, for every scale. */
  lemma CentreIsOrigin(scale: real)
    ensures GridPosition(2, 2, 2, scale) == Pos(0.0, 0.0, 0.0)
  {
  }

  /** Moving to a later row (larger y) moves the node down, and to a later
      column or layer moves it along +x or +z. */
  lemma GridAxes(x: int, y: int, z: int)
    ensures GridPosition(x, y + 1, z, CubeScale).y == GridPosition(x, y, z, CubeScale).y - CubeScale
    ensures GridPosition(x + 1, y, z, CubeScale).x == GridPosition(x, y, z, CubeScale).x + CubeScale
    ensures GridPosition(x, y, z + 1, CubeScale).z == GridPosition(x, y, z, CubeScale).z + CubeScale
  {
  }

  // ---------------------------------------------------------------------
  // Cells in loop order: cell k is z = k / 25, y = k / 5 % 5, x = k % 5,
  // the order of the z, y, x loops of createNodes.
  // ---------------------------------------------------------------------

  function CellX(k: nat): nat { k % 5 }
  function CellY(k: nat): nat { k / 5 % 5 }
  function CellZ(k: nat): nat { k / 25 }

  /** The flat index of grid cell (z, y, x) in loop order. */
  lemma FlatIndex(z: int, y: int, x: int)
    requires InGrid(z) && InGrid(y) && InGrid(x)
    ensures 0 <= 25 * z + 5 * y + x < 125
    ensures CellZ(25 * z + 5 * y + x) == z
    ensures CellY(25 * z + 5 * y + x) == y
    ensures CellX(25 * z + 5 * y + x) == x
  {
  }

  /** A 5 x 5 x 5 table indexed [z][y][x]. */
  predicate Cubic<T>(t: seq<seq<seq<T>>>) {
    |t| == 5 && forall z :: 0 <= z < 5 ==> |t[z]| == 5 && forall y :: 0 <= y < 5 ==> |t[z][y]| == 5
  }

  /** The entry of a table for cell k in loop order. */
  function EntryAt<T>(t: seq<seq<seq<T>>>, k: nat): T
    requires Cubic(t) && k < 125
  {
    t[CellZ(k)][CellY(k)][CellX(k)]
  }

  /** `magicCube[z][y][x]` for cell k. */
  function NumberAt(k: nat): int
    requires k < 125
  {
    CubicTables();
    EntryAt(MagicCube, k)
  }

  function PositionAt(k: nat): Pos
    requires k < 125
  {
    GridPosition(CellX(k), CellY(k), CellZ(k), CubeScale)
  }

  // ---------------------------------------------------------------------
  // The cube is a permutation of 1..125
  // ---------------------------------------------------------------------

  /** Proof witness: the cell (z, y, x) holding number n, stored at
      [(n-1) / 25][(n-1) / 5 % 5][(n-1) % 5]. */
  const Locations: seq<seq<seq<(int, int, int)>>> := [
    [[(0, 1, 3), (0, 2, 3), (3, 2, 1), (0, 1, 2), (0, 4, 4)], [(1, 0, 3), (4, 0, 2), (3, 2, 3), (3, 3, 2), (3, 0, 4)], [(4, 1, 4), (3, 1, 0), (1, 1, 4), (1, 4, 2), (4, 2, 1)], [(0, 0, 1), (1, 4, 1), (0, 4, 1), (2, 3, 4), (4, 0, 3)], [(1, 2, 2), (4, 4, 3), (1, 2, 4), (4, 3, 3), (0, 0, 0)]],
    [[(1, 3, 0), (0, 3, 2), (4, 1, 1), (4, 1, 0), (1, 2, 0)], [(3, 0, 0), (2, 3, 0), (2, 1, 3), (3, 1, 2), (3, 4, 4)], [(4, 4, 0), (2, 2, 4), (2, 1, 2), (1, 3, 1), (2, 4, 0)], [(4, 2, 2), (0, 2, 0), (2, 1, 1), (1, 3, 3), (2, 0, 2)], [(4, 4, 2), (2, 0, 0), (0, 3, 4), (3, 4, 3), (2, 4, 1)]],
    [[(4, 2, 0), (1, 1, 0), (3, 0, 1), (4, 3, 1), (3, 4, 2)], [(3, 4, 0), (3, 3, 1), (2, 2, 3), (4, 0, 4), (4, 3, 4)], [(2, 0, 1), (3, 3, 3), (2, 2, 2), (1, 1, 1), (2, 4, 3)], [(0, 3, 0), (0, 4, 0), (2, 2, 1), (1, 1, 3), (1, 0, 4)], [(1, 0, 2), (0, 3, 1), (1, 4, 3), (3, 3, 4), (0, 2, 4)]],
    [[(2, 0, 3), (1, 0, 1), (4, 3, 0), (2, 4, 4), (0, 0, 2)], [(2, 4, 2), (3, 1, 1), (2, 3, 3), (4, 2, 4), (0, 2, 2)], [(2, 0, 4), (3, 1, 3), (2, 3, 2), (2, 2, 0), (0, 0, 4)], [(1, 0, 0), (1, 3, 2), (2, 3, 1), (2, 1, 4), (1, 4, 4)], [(3, 2, 4), (0, 1, 4), (0, 1, 1), (4, 3, 2), (3, 1, 4)]],
    [[(4, 4, 4), (0, 3, 3), (3, 2, 0), (0, 0, 3), (3, 2, 2)], [(0, 4, 3), (2, 1, 0), (4, 0, 1), (3, 0, 3), (4, 4, 1)], [(0, 2, 1), (3, 0, 2), (3, 3, 0), (1, 3, 4), (0, 1, 0)], [(1, 4, 0), (1, 1, 2), (1, 2, 1), (0, 4, 2), (3, 4, 1)], [(4, 0, 0), (4, 1, 2), (1, 2, 3), (4, 2, 3), (4, 1, 3)]]
  ]

  /** Both constant tables have the 5 x 5 x 5 shape. */
  lemma CubicTables()
    ensures Cubic(MagicCube) && Cubic(Locations)
  {
  }

  /** The flat index of the cell that a witness table names for n. */
  function LocationIn(loc: seq<seq<seq<(int, int, int)>>>, n: int): int
    requires Cubic(loc) && 1 <= n <= 125
  {
    var (z, y, x) := EntryAt(loc, n - 1);
    25 * z + 5 * y + x
  }

  /** The flat index of the cell the witness names for n. */
  function LocationOf(n: int): int
    requires 1 <= n <= 125
  {
    CubicTables();
    LocationIn(Locations, n)
  }

  /** The number 25 * a + 5 * b + c + 1 the witness entry [a][b][c] is for. */
  function CellNumber(a: int, b: int, c: int): int {
    25 * a + 5 * b + c + 1
  }

  lemma FivesCases(i: int)
    requires InGrid(i)
    ensures i == 0 || i == 1 || i == 2 || i == 3 || i == 4
  {
  }

  /** The witness entry [a][b][c] names a cell that holds CellNumber(a, b, c). */
  predicate WitnessHolds(a: int, b: int, c: int)
    requires InGrid(a) && InGrid(b) && InGrid(c)
  {
    var (z, y, x) := Locations[a][b][c];
    InGrid(z) && InGrid(y) && InGrid(x) && MagicCube[z][y][x] == CellNumber(a, b, c)
  }

  lemma WitnessLayer0()
    ensures forall b, c :: InGrid(b) && InGrid(c) ==> WitnessHolds(0, b, c)
  {
    forall b, c | InGrid(b) && InGrid(c) ensures WitnessHolds(0, b, c) {
      FivesCases(b);
      FivesCases(c);
    }
  }

  lemma WitnessLayer1()
    ensures forall b, c :: InGrid(b) && InGrid(c) ==> WitnessHolds(1, b, c)
  {
    forall b, c | InGrid(b) && InGrid(c) ensures WitnessHolds(1, b, c) {
      FivesCases(b);
      FivesCases(c);
    }
  }

  lemma WitnessLayer2()
    ensures forall b, c :: InGrid(b) && InGrid(c) ==> WitnessHolds(2, b, c)
  {
    forall b, c | InGrid(b) && InGrid(c) ensures WitnessHolds(2, b, c) {
      FivesCases(b);
      FivesCases(c);
    }
  }

  lemma WitnessLayer3()
    ensures forall b, c :: InGrid(b) && InGrid(c) ==> WitnessHolds(3, b, c)
  {
    forall b, c | InGrid(b) && InGrid(c) ensures WitnessHolds(3, b, c) {
      FivesCases(b);
      FivesCases(c);
    }
  }

  lemma WitnessLayer4()
    ensures forall b, c :: InGrid(b) && InGrid(c) ==> WitnessHolds(4, b, c)
  {
    forall b, c | InGrid(b) && InGrid(c) ensures WitnessHolds(4, b, c) {
      FivesCases(b);
      FivesCases(c);
    }
  }

  /** Flat index k decomposes into its cell. */
  lemma CellOf(k: nat)
    requires k < 125
    ensures InGrid(CellZ(k)) && InGrid(CellY(k)) && InGrid(CellX(k))
    ensures k == 25 * CellZ(k) + 5 * CellY(k) + CellX(k)
  {
    assert k == 25 * (k / 25) + k % 25;
    assert k % 25 == 5 * (k / 5 % 5) + k % 5;
  }

  /** For any tables: when the witness entry for n names a cell holding n,
      the flat index of that cell is a cell holding n. */
  lemma LocatedVia(cube: seq<seq<seq<int>>>, loc: seq<seq<seq<(int, int, int)>>>, n: int)
    requires Cubic(cube) && Cubic(loc) && 1 <= n <= 125
    requires var (z, y, x) := EntryAt(loc, n - 1);
      InGrid(z) && InGrid(y) && InGrid(x) && cube[z][y][x] == n
    ensures 0 <= LocationIn(loc, n) < 125 && EntryAt(cube, LocationIn(loc, n)) == n
  {
    var (z, y, x) := EntryAt(loc, n - 1);
    FlatIndex(z, y, x);
  }

  /** Number n is held by the cell the witness names for it. */
  lemma NumberLocated(n: int)
    requires 1 <= n <= 125
    ensures 0 <= LocationOf(n) < 125 && NumberAt(LocationOf(n)) == n
  {
    CellOf(n - 1);
    var a := CellZ(n - 1);
    FivesCases(a);
    if a == 0 {
      WitnessLayer0();
    } else if a == 1 {
      WitnessLayer1();
    } else if a == 2 {
      WitnessLayer2();
    } else if a == 3 {
      WitnessLayer3();
    } else {
      WitnessLayer4();
    }
    assert WitnessHolds(a, CellY(n - 1), CellX(n - 1));
    CubicTables();
    LocatedVia(MagicCube, Locations, n);
  }

  /** Every number of 1..125 is held by the cell the witness names. */
  lemma NumbersAreLocated()
    ensures forall n :: 1 <= n <= 125 ==> 0 <= LocationOf(n) < 125 && NumberAt(LocationOf(n)) == n
  {
    forall n | 1 <= n <= 125 ensures 0 <= LocationOf(n) < 125 && NumberAt(LocationOf(n)) == n {
      NumberLocated(n);
    }
  }

  /** The integers lo..hi-1. */
  function Interval(lo: int, hi: int): set<int>
    decreases hi - lo
  {
    if hi <= lo then {} else Interval(lo, hi - 1) + {hi - 1}
  }

  lemma {:induction false} IntervalSize(lo: int, hi: int)
    requires lo <= hi
    ensures |Interval(lo, hi)| == hi - lo
    ensures forall i :: i in Interval(lo, hi) <==> lo <= i < hi
    decreases hi - lo
  {
    if lo < hi {
      IntervalSize(lo, hi - 1);
    }
  }

  /** The set {g(1), ..., g(hi-1)}. */
  function Image(g: int -> int, hi: int): set<int>
    decreases hi
  {
    if hi <= 1 then {} else Image(g, hi - 1) + {g(hi - 1)}
  }

  /** A function with a left inverse on 1..hi-1 takes hi-1 distinct values there. */
  lemma {:induction false} ImageSize(f: int -> int, g: int -> int, hi: int)
    requires 1 <= hi
    requires forall n :: 1 <= n < hi ==> f(g(n)) == n
    ensures |Image(g, hi)| == hi - 1
    ensures forall k :: k in Image(g, hi) ==> exists n :: 1 <= n < hi && g(n) == k
    decreases hi
  {
    if hi > 1 {
      ImageSize(f, g, hi - 1);
      forall n | 1 <= n < hi - 1 ensures g(n) != g(hi - 1) {
        assert f(g(n)) == n;
      }
    }
  }

  /** A subset as large as the set is the whole set. */
  lemma SubsetOfEqualSize(a: set<int>, b: set<int>)
    requires a <= b && |a| == |b|
    ensures a == b
  {
    assert a * b == a;
    assert a + b == b;
    assert |b - a| == 0;
  }

  /** Pigeonhole: if g maps 1..N into 0..N-1 and f undoes g, then g reaches
      every point of 0..N-1, so f maps 0..N-1 onto 1..N and g undoes f. */
  lemma LeftInverseIsTwoSided(f: int -> int, g: int -> int, N: nat)
    requires forall n :: 1 <= n <= N ==> 0 <= g(n) < N && f(g(n)) == n
    ensures forall k :: 0 <= k < N ==> 1 <= f(k) <= N && g(f(k)) == k
  {
    ImageSize(f, g, N + 1);
    IntervalSize(0, N);
    forall k | k in Image(g, N + 1) ensures k in Interval(0, N) {
      var n :| 1 <= n < N + 1 && g(n) == k;
    }
    SubsetOfEqualSize(Image(g, N + 1), Interval(0, N));
    forall k | 0 <= k < N ensures 1 <= f(k) <= N && g(f(k)) == k {
      assert k in Image(g, N + 1);
      var n :| 1 <= n < N + 1 && g(n) == k;
    }
  }

  /** Every cell holds a number of 1..125, and the witness finds it there. */
  lemma CellsAreLocated()
    ensures forall k :: 0 <= k < 125 ==> 1 <= NumberAt(k) <= 125 && LocationOf(NumberAt(k)) == k
  {
    var f := (k: int) => if 0 <= k < 125 then NumberAt(k) else 0;
    var g := (n: int) => if 1 <= n <= 125 then LocationOf(n) else 0;
    NumbersAreLocated();
    LeftInverseIsTwoSided(f, g, 125);
    forall k | 0 <= k < 125 ensures 1 <= NumberAt(k) <= 125 && LocationOf(NumberAt(k)) == k {
      assert f(k) == NumberAt(k);
    }
  }

  /** The set of numbers the cube holds. */
  function CubeNumbers(): set<int> {
    set k | 0 <= k < 125 :: NumberAt(k)
  }

  /** `magicCube` holds each integer 1..125 exactly once: no two cells hold
      the same number, and the numbers held are exactly 1..125. */
  lemma CubeIsPermutation()
    ensures forall j, k :: 0 <= j < 125 && 0 <= k < 125 && NumberAt(j) == NumberAt(k) ==> j == k
    ensures forall n :: n in CubeNumbers() <==> 1 <= n <= 125
  {
    CellsAreLocated();
    NumbersAreLocated();
    forall n | 1 <= n <= 125 ensures n in CubeNumbers() {
      assert NumberAt(LocationOf(n)) == n;
    }
  }

  // ---------------------------------------------------------------------
  // The cube is magic
  // ---------------------------------------------------------------------

  function Sum5(a: int, b: int, c: int, d: int, e: int): int {
    a + b + c + d + e
  }

  /** x varies. */
  function RowSum(z: int, y: int): int
    requires InGrid(z) && InGrid(y)
  {
    Sum5(MagicCube[z][y][0], MagicCube[z][y][1], MagicCube[z][y][2], MagicCube[z][y][3], MagicCube[z][y][4])
  }

  /** y varies. */
  function ColumnSum(z: int, x: int): int
    requires InGrid(z) && InGrid(x)
  {
    Sum5(MagicCube[z][0][x], MagicCube[z][1][x], MagicCube[z][2][x], MagicCube[z][3][x], MagicCube[z][4][x])
  }

  /** z varies. */
  function PillarSum(y: int, x: int): int
    requires InGrid(y) && InGrid(x)
  {
    Sum5(MagicCube[0][y][x], MagicCube[1][y][x], MagicCube[2][y][x], MagicCube[3][y][x], MagicCube[4][y][x])
  }

  /** The four space diagonals, from corner (0, 0, 0), (0, 0, 4), (0, 4, 0)
      and (4, 0, 0) (as [z][y][x]) through the centre. */
  function SpaceDiagonalSum(d: int): int
    requires 0 <= d < 4
  {
    var dz := if d == 3 then -1 else 1;
    var z0 := if d == 3 then 4 else 0;
    var dy := if d == 2 then -1 else 1;
    var y0 := if d == 2 then 4 else 0;
    var dx := if d == 1 then -1 else 1;
    var x0 := if d == 1 then 4 else 0;
    Sum5(MagicCube[z0][y0][x0],
         MagicCube[z0 + dz][y0 + dy][x0 + dx],
         MagicCube[z0 + 2 * dz][y0 + 2 * dy][x0 + 2 * dx],
         MagicCube[z0 + 3 * dz][y0 + 3 * dy][x0 + 3 * dx],
         MagicCube[z0 + 4 * dz][y0 + 4 * dy][x0 + 4 * dx])
  }

  /** The magic property the source's header claims: all rows, columns,
      pillars and space diagonals sum to the same number, 315. */
  lemma CubeIsMagic()
    ensures forall z, y :: InGrid(z) && InGrid(y) ==> RowSum(z, y) == MagicSum
    ensures forall z, x :: InGrid(z) && InGrid(x) ==> ColumnSum(z, x) == MagicSum
    ensures forall y, x :: InGrid(y) && InGrid(x) ==> PillarSum(y, x) == MagicSum
    ensures forall d :: 0 <= d < 4 ==> SpaceDiagonalSum(d) == MagicSum
  {
    forall i, j | InGrid(i) && InGrid(j)
      ensures RowSum(i, j) == MagicSum && ColumnSum(i, j) == MagicSum && PillarSum(i, j) == MagicSum
    {
      FivesCases(i);
      FivesCases(j);
    }
    assert SpaceDiagonalSum(0) == MagicSum;
    assert SpaceDiagonalSum(1) == MagicSum;
    assert SpaceDiagonalSum(2) == MagicSum;
    assert SpaceDiagonalSum(3) == MagicSum;
  }

  // ---------------------------------------------------------------------
  // The lookup maps of createNodes
  // ---------------------------------------------------------------------

  /** The map that inserting key(j) := value(j) for j = 0, 1, ..., k-1 builds. */
  function Tabulate<K, V>(key: int -> K, value: int -> V, k: nat): map<K, V> {
    if k == 0 then map[] else Tabulate(key, value, k - 1)[key(k - 1) := value(k - 1)]
  }

  /** When `index` recovers j from key(j), no insertion overwrites an earlier
      one: the map has one entry per j, and every key is some key(j). */
  lemma {:induction false} TabulateDistinct<K, V>(key: int -> K, value: int -> V, index: K -> int, k: nat)
    requires forall j :: 0 <= j < k ==> index(key(j)) == j
    ensures |Tabulate(key, value, k)| == k
    ensures forall j :: 0 <= j < k ==> key(j) in Tabulate(key, value, k) && Tabulate(key, value, k)[key(j)] == value(j)
    ensures forall x :: x in Tabulate(key, value, k) ==> 0 <= index(x) < k && key(index(x)) == x
  {
    if k > 0 {
      TabulateDistinct(key, value, index, k - 1);
      assert key(k - 1) !in Tabulate(key, value, k - 1);
    }
  }

  /** The number of cell k, for any integer k (0 off the grid). */
  function NumberOfCell(k: int): int {
    if 0 <= k < 125 then NumberAt(k) else 0
  }

  /** The position of cell k, for any integer k (the grid cell 0 off the grid). */
  function PositionOfCell(k: int): Pos {
    if 0 <= k < 125 then PositionAt(k) else PositionAt(0)
  }

  /** The cell holding number n, for any integer n (0 for other numbers). */
  function CellOfNumber(n: int): int {
    if 1 <= n <= 125 then LocationOf(n) else 0
  }

  /** The cell drawn at position p: the inverse of the grid placement. */
  function CellOfPosition(p: Pos): int {
    var x := (p.x / CubeScale).Floor + 2;
    var y := 2 - (p.y / CubeScale).Floor;
    var z := (p.z / CubeScale).Floor + 2;
    25 * z + 5 * y + x
  }

  /** The position of a cell determines the cell. */
  lemma PositionDeterminesCell(k: int)
    requires 0 <= k < 125
    ensures CellOfPosition(PositionOfCell(k)) == k
  {
    CellOf(k);
    var x: int, y: int, z: int := CellX(k), CellY(k), CellZ(k);
    assert ((x - 2) as real * CubeScale / CubeScale).Floor == x - 2;
    assert ((-((y - 2) as real) * CubeScale) / CubeScale).Floor == 2 - y;
    assert ((z - 2) as real * CubeScale / CubeScale).Floor == z - 2;
  }

  /** `data.numberToPosition` after the loops have visited cells 0..k-1. */
  function NumberToPositionUpTo(k: nat): map<int, Pos> {
    Tabulate(NumberOfCell, PositionOfCell, k)
  }

  /** `data.positionToNumber` after the loops have visited cells 0..k-1 (the
      source keys it by the string "x,y,z" of the position, which names each
      position uniquely; here the position itself is the key). */
  function PositionToNumberUpTo(k: nat): map<Pos, int> {
    Tabulate(PositionOfCell, NumberOfCell, k)
  }

  /** Since cells hold distinct numbers at distinct positions, no later cell
      overwrites an earlier entry: after k cells both maps hold exactly one
      entry per visited cell, and every entry belongs to a visited cell. */
  lemma LayoutUpTo(k: nat)
    requires k <= 125
    ensures |NumberToPositionUpTo(k)| == k && |PositionToNumberUpTo(k)| == k
    ensures forall j :: 0 <= j < k ==>
      NumberOfCell(j) in NumberToPositionUpTo(k) && NumberToPositionUpTo(k)[NumberOfCell(j)] == PositionOfCell(j)
    ensures forall j :: 0 <= j < k ==>
      PositionOfCell(j) in PositionToNumberUpTo(k) && PositionToNumberUpTo(k)[PositionOfCell(j)] == NumberOfCell(j)
    ensures forall n :: n in NumberToPositionUpTo(k) ==>
      0 <= CellOfNumber(n) < k && NumberOfCell(CellOfNumber(n)) == n
    ensures forall p :: p in PositionToNumberUpTo(k) ==>
      0 <= CellOfPosition(p) < k && PositionOfCell(CellOfPosition(p)) == p
  {
    CellsAreLocated();
    forall j | 0 <= j < k ensures CellOfNumber(NumberOfCell(j)) == j && CellOfPosition(PositionOfCell(j)) == j {
      PositionDeterminesCell(j);
    }
    TabulateDistinct(NumberOfCell, PositionOfCell, CellOfNumber, k);
    TabulateDistinct(PositionOfCell, NumberOfCell, CellOfPosition, k);
  }

  /** The full number-to-position map. */
  function Layout(): map<int, Pos> {
    NumberToPositionUpTo(125)
  }

  /** The full position-to-number map. */
  function LayoutIndex(): map<Pos, int> {
    PositionToNumberUpTo(125)
  }

  /** After the loops both maps have 125 entries. */
  lemma LayoutSizes()
    ensures |Layout()| == 125 && |LayoutIndex()| == 125
  {
    LayoutUpTo(125);
  }

  /** `numberToPosition` has exactly the keys 1..125. */
  lemma LayoutKeys()
    ensures forall n :: n in Layout() <==> 1 <= n <= 125
  {
    LayoutUpTo(125);
    CellsAreLocated();
    NumbersAreLocated();
    forall n | 1 <= n <= 125 ensures n in Layout() {
      assert NumberOfCell(LocationOf(n)) == n;
    }
  }

  /** Each cell's number maps to the cell's grid position. */
  lemma LayoutPositions()
    ensures forall k :: 0 <= k < 125 ==>
      NumberAt(k) in Layout() && Layout()[NumberAt(k)] == GridPosition(CellX(k), CellY(k), CellZ(k), CubeScale)
  {
    LayoutUpTo(125);
    forall k | 0 <= k < 125
      ensures NumberAt(k) in Layout() && Layout()[NumberAt(k)] == GridPosition(CellX(k), CellY(k), CellZ(k), CubeScale)
    {
      assert NumberOfCell(k) == NumberAt(k) && PositionOfCell(k) == PositionAt(k);
    }
  }

  /** `positionToNumber` is the exact inverse of `numberToPosition`. */
  lemma LayoutInverse()
    ensures forall n :: n in Layout() ==> Layout()[n] in LayoutIndex() && LayoutIndex()[Layout()[n]] == n
    ensures forall p :: p in LayoutIndex() ==> LayoutIndex()[p] in Layout() && Layout()[LayoutIndex()[p]] == p
  {
    LayoutUpTo(125);
    forall n | n in Layout() ensures Layout()[n] in LayoutIndex() && LayoutIndex()[Layout()[n]] == n {
      var j := CellOfNumber(n);
      assert Layout()[NumberOfCell(j)] == PositionOfCell(j);
    }
    forall p | p in LayoutIndex() ensures LayoutIndex()[p] in Layout() && Layout()[LayoutIndex()[p]] == p {
      var j := CellOfPosition(p);
      assert LayoutIndex()[PositionOfCell(j)] == NumberOfCell(j);
    }
  }
  /** Number n of 1..125 sits in the layout at the position of the cell
      that holds it. */
  lemma NumbersPlaced()
    ensures forall n :: 1 <= n <= 125 ==>
      0 <= CellOfNumber(n) < 125 && NumberOfCell(CellOfNumber(n)) == n &&
      n in Layout() && Layout()[n] == PositionOfCell(CellOfNumber(n))
  {
    NumbersAreLocated();
    LayoutUpTo(125);
    forall n | 1 <= n <= 125
      ensures n in Layout() && Layout()[n] == PositionOfCell(CellOfNumber(n))
    {
      assert NumberOfCell(CellOfNumber(n)) == n;
    }
  }
}

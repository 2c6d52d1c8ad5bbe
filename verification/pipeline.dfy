/**
 * The driver in `main`: sample the grid one z-slice at a time, turn each
 * slice's trajectories into a scalar plane, hand every adjacent pair of planes
 * to the marching-cubes tessellator, and write the collected triangles out.
 *
 * Two planes live at a time. After each slab the two plane buffers are
 * swapped, so the buffer that receives slice k still holds the plane of slice
 * k - 2: entries the new slice's trajectories do not reach keep that older
 * value.
 */
module Pipeline {
  import opened Float32
  import opened Geometry
  import opened Trajectories
  import opened Sequences
  import Stl

  /**
   * The sampling domain: bounds and resolution per axis, the step sizes (float
   * divisions, given), the fixed w component, and the float addition used to
   * advance coordinates.
   */
  datatype Grid = Grid(
    xMin: Float, xMax: Float, xRes: nat,
    yMin: Float, yMax: Float, yRes: nat,
    zMin: Float, zMax: Float, zRes: nat,
    xStep: Float, yStep: Float, zStep: Float,
    zW: Float,
    add: (Float, Float) -> Float)

  /**
   * `tesselate_adjacent_xy_plane_pair`: the triangles it appends for the slab
   * between two planes, given the grid, the lower slice index and the isovalue.
   */
  type Tessellator = (Grid, seq<Float>, seq<Float>, nat, Float) -> seq<Triangle>

  /** A coordinate after `k` steps: `start` advanced by `k` float additions of `step`. */
  function Coordinate(add: (Float, Float) -> Float, start: Float, step: Float, k: nat): Float {
    if k == 0 then start else add(Coordinate(add, start, step, k - 1), step)
  }

  function SliceZ(g: Grid, k: nat): Float {
    Coordinate(g.add, g.zMin, g.zStep, k)
  }

  function SamplePoint(g: Grid, x: nat, y: nat, zc: Float): Quat {
    Quat(Coordinate(g.add, g.xMin, g.xStep, x), Coordinate(g.add, g.yMin, g.yStep, y), zc, g.zW)
  }

  function Row(g: Grid, zc: Float, x: nat): (r: seq<Quat>)
    ensures |r| == g.yRes
  {
    seq(g.yRes, y requires 0 <= y < g.yRes => SamplePoint(g, x, y, zc))
  }

  /**
   * The number of cells in `rows` rows of `width` cells. Kept recursive so
   * that lengths and offsets stay linear for the solver; `CellsProduct` ties
   * it to `rows * width`.
   */
  function Cells(rows: nat, width: nat): nat {
    if rows == 0 then 0 else Cells(rows - 1, width) + width
  }

  lemma {:induction false} CellsProduct(rows: nat, width: nat)
    ensures Cells(rows, width) == rows * width
  {
    if rows > 0 {
      CellsProduct(rows - 1, width);
    }
  }

  /** Cell y of row i comes before the end of row x when i < x. */
  lemma {:induction false} CellsBelow(i: nat, x: nat, width: nat)
    requires i < x
    ensures Cells(i, width) + width <= Cells(x, width)
  {
    if i < x - 1 {
      CellsBelow(i, x - 1, width);
    }
  }

  /** The points of the first `x` rows, x-major and y-minor. */
  function Rows(g: Grid, zc: Float, x: nat): (r: seq<Quat>)
    ensures |r| == Cells(x, g.yRes)
  {
    if x == 0 then [] else Rows(g, zc, x - 1) + Row(g, zc, x - 1)
  }

  function SlicePoints(g: Grid, zc: Float): seq<Quat> {
    Rows(g, zc, g.xRes)
  }

  /** Point (i, y) is number i * y_res + y of the enumeration. */
  lemma {:induction false} RowsAt(g: Grid, zc: Float, x: nat, i: nat, y: nat)
    requires i < x && y < g.yRes
    ensures Cells(i, g.yRes) + y < Cells(x, g.yRes)
    ensures Rows(g, zc, x)[Cells(i, g.yRes) + y] == SamplePoint(g, i, y, zc)
    decreases x
  {
    CellsBelow(i, x, g.yRes);
    if i < x - 1 {
      RowsAt(g, zc, x - 1, i, y);
    }
  }

  /** Appending point (x, y) to the first y points of row x extends the layout by its four components. */
  lemma RowStep(g: Grid, zc: Float, x: nat, y: nat)
    requires y < g.yRes
    ensures Flatten(Rows(g, zc, x) + Row(g, zc, x)[..y + 1])
         == Flatten(Rows(g, zc, x) + Row(g, zc, x)[..y])
            + [Coordinate(g.add, g.xMin, g.xStep, x), Coordinate(g.add, g.yMin, g.yStep, y), zc, g.zW]
  {
    var rows, row := Rows(g, zc, x), Row(g, zc, x);
    assert row[..y + 1] == row[..y] + [row[y]];
    AppendAssoc(rows, row[..y], [row[y]]);
    FlattenSnoc(rows + row[..y], row[y]);
  }

  /** The nested loops that fill `point_vertex_data` for the slice at height `zc`. */
  method SampleSlice(g: Grid, zc: Float) returns (data: seq<Float>)
    ensures data == Flatten(SlicePoints(g, zc))
  {
    data := [];
    var zx := g.xMin;
    for x := 0 to g.xRes
      invariant zx == Coordinate(g.add, g.xMin, g.xStep, x)
      invariant data == Flatten(Rows(g, zc, x))
    {
      data := SampleRow(g, zc, x, zx, data);
      zx := g.add(zx, g.xStep);
    }
  }

  /** The inner loop: the points of row x, appended to the rows before it. */
  method SampleRow(g: Grid, zc: Float, x: nat, zx: Float, before: seq<Float>) returns (data: seq<Float>)
    requires zx == Coordinate(g.add, g.xMin, g.xStep, x)
    requires before == Flatten(Rows(g, zc, x))
    ensures data == Flatten(Rows(g, zc, x + 1))
  {
    data := before;
    var zy := g.yMin;
    assert Rows(g, zc, x) + Row(g, zc, x)[..0] == Rows(g, zc, x);
    for y := 0 to g.yRes
      invariant zy == Coordinate(g.add, g.yMin, g.yStep, y)
      invariant data == Flatten(Rows(g, zc, x) + Row(g, zc, x)[..y])
    {
      RowStep(g, zc, x, y);
      data := data + [zx, zy, zc, g.zW];
      zy := g.add(zy, g.yStep);
    }
    assert Row(g, zc, x)[..g.yRes] == Row(g, zc, x);
    assert Rows(g, zc, x + 1) == Rows(g, zc, x) + Row(g, zc, x);
  }

  /**
   * A batch holds 4 * x_res * y_res floats; point (x, y) sits at offsets
   * 4 * (x * y_res + y) .. + 3 (`Cells(x, y_res)` is `x * y_res`, see
   * `CellsProduct`), and every point has the slice's z and the configured w.
   */
  lemma BatchLayout(g: Grid, zc: Float, x: nat, y: nat)
    requires x < g.xRes && y < g.yRes
    ensures |Flatten(SlicePoints(g, zc))| == 4 * Cells(g.xRes, g.yRes)
    ensures 4 * (Cells(x, g.yRes) + y) + 4 <= |Flatten(SlicePoints(g, zc))|
    ensures Flatten(SlicePoints(g, zc))[4 * (Cells(x, g.yRes) + y)..][..4]
         == [Coordinate(g.add, g.xMin, g.xStep, x), Coordinate(g.add, g.yMin, g.yStep, y), zc, g.zW]
  {
    var points := SlicePoints(g, zc);
    var i := Cells(x, g.yRes) + y;
    RowsAt(g, zc, g.xRes, x, y);
    assert points[i] == SamplePoint(g, x, y, zc);
    PointLayout(points, i);
  }

  /** Point i of a batch occupies floats 4i .. 4i + 3. */
  lemma PointLayout(points: seq<Quat>, i: nat)
    requires i < |points|
    ensures 4 * i + 4 <= |Flatten(points)|
    ensures Flatten(points)[4 * i..][..4] == Components(points[i])
  {
    FlattenAt(points, i);
  }

  // ----- Scalar planes -----

  function ZeroPlane(n: nat): seq<Float> {
    seq(n, _ => PositiveZero)
  }

  /** The magnitude of a trajectory's last element, or 0 for an empty one. */
  function PlaneValue(magnitude: Quat -> Float, t: seq<Quat>): Float {
    if |t| > 0 then magnitude(t[|t| - 1]) else PositiveZero
  }

  /** `prev` with entry i replaced by the value of trajectory i, for every trajectory. */
  function Filled(prev: seq<Float>, ts: seq<seq<Quat>>, magnitude: Quat -> Float): (r: seq<Float>)
    ensures |r| == |prev|
  {
    seq(|prev|, i requires 0 <= i < |prev| => if i < |ts| then PlaneValue(magnitude, ts[i]) else prev[i])
  }

  /** The loop that writes the trajectories' values into a plane buffer. */
  method FillPlane(plane: array<Float>, ts: seq<seq<Quat>>, magnitude: Quat -> Float)
    requires |ts| <= plane.Length
    modifies plane
    ensures plane[..] == Filled(old(plane[..]), ts, magnitude)
  {
    for i := 0 to |ts|
      invariant forall j :: 0 <= j < i ==> plane[j] == PlaneValue(magnitude, ts[j])
      invariant forall j :: i <= j < plane.Length ==> plane[j] == old(plane[j])
    {
      if |ts[i]| > 0 {
        plane[i] := magnitude(ts[i][|ts[i]| - 1]);
      } else {
        plane[i] := PositiveZero;
      }
    }
  }

  /** What `get_trajectories` returns for slice k. */
  function SliceTrajectories(g: Grid, p: Fractal, k: nat): seq<seq<Quat>> {
    Terminated(Unflatten(GpuFeedback(p, Flatten(SlicePoints(g, SliceZ(g, k))))))
  }

  /**
   * The plane buffer contents after slice k has been filled in: over a zero
   * buffer for slices 0 and 1, and, because of the swap, over the plane of
   * slice k - 2 after that.
   */
  function Plane(g: Grid, p: Fractal, magnitude: Quat -> Float, k: nat): (r: seq<Float>)
    ensures |r| == Cells(g.xRes, g.yRes)
  {
    var prev := if k < 2 then ZeroPlane(Cells(g.xRes, g.yRes)) else Plane(g, p, magnitude, k - 2);
    Filled(prev, SliceTrajectories(g, p, k), magnitude)
  }

  /** The triangles of the first k slabs, slab j tessellated from the planes of slices j and j + 1. */
  function Mesh(g: Grid, p: Fractal, magnitude: Quat -> Float, tessellate: Tessellator, k: nat): seq<Triangle> {
    if k == 0 then []
    else
      Mesh(g, p, magnitude, tessellate, k - 1)
        + tessellate(g, Plane(g, p, magnitude, k - 1), Plane(g, p, magnitude, k), k - 1, p.threshold)
  }

  /**
   * Entry i of slice k's plane: the value of trajectory i when the slice
   * yields more than i trajectories; otherwise what the buffer held before,
   * which is 0 for slices 0 and 1 and, because the buffers are swapped after
   * every slab, entry i of the plane of slice k - 2 after that.
   */
  lemma PlaneEntry(g: Grid, p: Fractal, magnitude: Quat -> Float, k: nat, i: nat)
    requires i < Cells(g.xRes, g.yRes)
    ensures i < |Plane(g, p, magnitude, k)|
    ensures var ts := SliceTrajectories(g, p, k);
      Plane(g, p, magnitude, k)[i]
        == if i < |ts| then PlaneValue(magnitude, ts[i])
           else if k < 2 then PositiveZero
           else Plane(g, p, magnitude, k - 2)[i]
  {
  }

  /** Later slabs only append: the triangles of the first j slabs are never changed. */
  lemma {:induction false} MeshPrefix(g: Grid, p: Fractal, magnitude: Quat -> Float, tessellate: Tessellator, j: nat, k: nat)
    requires j <= k
    ensures Mesh(g, p, magnitude, tessellate, j) <= Mesh(g, p, magnitude, tessellate, k)
    decreases k
  {
    if j < k {
      MeshPrefix(g, p, magnitude, tessellate, j, k - 1);
      PrefixAppend(Mesh(g, p, magnitude, tessellate, j), Mesh(g, p, magnitude, tessellate, k - 1),
                   tessellate(g, Plane(g, p, magnitude, k - 1), Plane(g, p, magnitude, k), k - 1, p.threshold));
    }
  }

  /**
   * Slab j's triangles come right after those of the slabs below it, and
   * they are the tessellation of the planes of slices j and j + 1, with slab
   * index j and the escape threshold as isovalue.
   */
  lemma MeshSlab(g: Grid, p: Fractal, magnitude: Quat -> Float, tessellate: Tessellator, j: nat, k: nat)
    requires j < k
    ensures Mesh(g, p, magnitude, tessellate, j)
              + tessellate(g, Plane(g, p, magnitude, j), Plane(g, p, magnitude, j + 1), j, p.threshold)
            <= Mesh(g, p, magnitude, tessellate, k)
  {
    MeshPrefix(g, p, magnitude, tessellate, j + 1, k);
  }

  function SlabCount(g: Grid): nat {
    if g.zRes == 0 then 0 else g.zRes - 1
  }

  /**
   * Every slice yields at most as many trajectories as a plane has entries:
   * what keeps the fill loop inside its buffer. With more, the source writes
   * past the end of the plane.
   */
  ghost predicate FitsPlanes(g: Grid, p: Fractal) {
    forall k: nat | k <= SlabCount(g) :: |SliceTrajectories(g, p, k)| <= Cells(g.xRes, g.yRes)
  }

  /**
   * No trajectory of any sampled point meets the sentinel value, so that each
   * point yields at most one trajectory.
   */
  ghost predicate AvoidsSentinel(g: Grid, p: Fractal) {
    forall k: nat | k <= SlabCount(g) :: OrbitsAvoidSentinel(p, SlicePoints(g, SliceZ(g, k)))
  }

  ghost predicate OrbitsAvoidSentinel(p: Fractal, points: seq<Quat>) {
    forall i :: 0 <= i < |points| ==> Sentinel !in Orbit(p, points[i])
  }

  /** A slice never yields more trajectories than it has points. */
  lemma TrajectoryCount(g: Grid, p: Fractal, k: nat)
    requires AvoidsSentinel(g, p) && k <= SlabCount(g)
    ensures |SliceTrajectories(g, p, k)| <= Cells(g.xRes, g.yRes)
  {
    FeedbackTrajectories(p, SlicePoints(g, SliceZ(g, k)));
  }

  /** Sentinel-free trajectories always fit the planes. */
  lemma SentinelFreeFits(g: Grid, p: Fractal)
    requires AvoidsSentinel(g, p)
    ensures FitsPlanes(g, p)
  {
    forall k: nat | k <= SlabCount(g)
      ensures |SliceTrajectories(g, p, k)| <= Cells(g.xRes, g.yRes)
    {
      TrajectoryCount(g, p, k);
    }
  }

  /** Every slice's records fit the feedback buffer. */
  ghost predicate StreamsFit(g: Grid, p: Fractal) {
    forall k: nat | k <= SlabCount(g) :: StreamFits(p, SlicePoints(g, SliceZ(g, k)))
  }

  /** A loop budget of at most 500 iterations makes every slice fit. */
  lemma BudgetFits(g: Grid, p: Fractal)
    requires Budget(p) + 2 <= MaxOutputRecordsPerInput
    ensures StreamsFit(g, p)
  {
    forall k: nat | k <= SlabCount(g)
      ensures StreamFits(p, SlicePoints(g, SliceZ(g, k)))
    {
      BudgetStreamFits(p, SlicePoints(g, SliceZ(g, k)));
    }
  }

  /** When the records fit the feedback buffer, slice k yields exactly one trajectory per point. */
  lemma SliceOrbits(g: Grid, p: Fractal, k: nat)
    requires AvoidsSentinel(g, p) && StreamsFit(g, p) && k <= SlabCount(g)
    ensures SliceTrajectories(g, p, k) == Orbits(p, SlicePoints(g, SliceZ(g, k)))
  {
    FeedbackTrajectories(p, SlicePoints(g, SliceZ(g, k)));
  }

  /**
   * When the records fit the feedback buffer, entry x * y_res + y (that
   * is, `Cells(x, y_res) + y`, see `CellsProduct`) of slice k's plane is the magnitude of the last element of the trajectory
   * of sample point (x, y) of that slice: the order in which the batch is
   * built is the order in which the plane is read.
   */
  lemma PlaneHoldsField(g: Grid, p: Fractal, magnitude: Quat -> Float, k: nat, x: nat, y: nat)
    requires AvoidsSentinel(g, p) && StreamsFit(g, p)
    requires k <= SlabCount(g) && x < g.xRes && y < g.yRes
    ensures Cells(x, g.yRes) + y < |Plane(g, p, magnitude, k)|
    ensures var t := Orbit(p, SamplePoint(g, x, y, SliceZ(g, k)));
      Plane(g, p, magnitude, k)[Cells(x, g.yRes) + y] == magnitude(t[|t| - 1])
  {
    var zc := SliceZ(g, k);
    var i := Cells(x, g.yRes) + y;
    RowsAt(g, zc, g.xRes, x, y);
    var seed := SlicePoints(g, zc)[i];
    assert seed == SamplePoint(g, x, y, zc);
    PlaneAt(g, p, magnitude, k, i);
    var t := Orbit(p, seed);
    assert |t| > 0;
    assert Plane(g, p, magnitude, k)[i] == magnitude(t[|t| - 1]);
  }

  /** Entry i of slice k's plane, for a point index i, when every point yields one trajectory. */
  lemma PlaneAt(g: Grid, p: Fractal, magnitude: Quat -> Float, k: nat, i: nat)
    requires AvoidsSentinel(g, p) && StreamsFit(g, p) && k <= SlabCount(g)
    requires i < |SlicePoints(g, SliceZ(g, k))|
    ensures i < |Plane(g, p, magnitude, k)|
    ensures Plane(g, p, magnitude, k)[i] == PlaneValue(magnitude, Orbit(p, SlicePoints(g, SliceZ(g, k))[i]))
  {
    SliceOrbits(g, p, k);
  }

  /**
   * One slice of the slab loop up to the tessellation: sample the slice, run
   * the shader over it, parse the feedback and fill `plane`.
   */
  method FillSlice(g: Grid, p: Fractal, magnitude: Quat -> Float, k: nat, zc: Float, plane: array<Float>)
    requires k <= SlabCount(g) && zc == SliceZ(g, k)
    requires |SliceTrajectories(g, p, k)| <= Cells(g.xRes, g.yRes) == plane.Length
    modifies plane
    ensures plane[..] == Filled(old(plane[..]), SliceTrajectories(g, p, k), magnitude)
  {
    var pointVertexData := SampleSlice(g, zc);
    var localTrajectories := GetTrajectories(GpuFeedback(p, pointVertexData));
    FillPlane(plane, localTrajectories, magnitude);
  }

  /**
   * The slab loop of `main`. The first plane is filled before the loop; each
   * iteration samples and fills the next plane, tessellates the pair with the
   * escape threshold as isovalue and swaps the two buffers. `FitsPlanes`
   * holds in particular when no trajectory meets the sentinel value
   * (`SentinelFreeFits`).
   */
  method RunPipeline(g: Grid, p: Fractal, magnitude: Quat -> Float, tessellate: Tessellator)
    returns (triangles: seq<Triangle>)
    requires FitsPlanes(g, p)
    ensures triangles == Mesh(g, p, magnitude, tessellate, SlabCount(g))
  {
    var n := g.xRes * g.yRes;
    CellsProduct(g.xRes, g.yRes);
    var xyplane0 := new Float[n](_ => PositiveZero);
    var xyplane1 := new Float[n](_ => PositiveZero);
    triangles := [];
    var zc := g.zMin;
    assert xyplane0[..] == ZeroPlane(n);
    FillSlice(g, p, magnitude, 0, zc, xyplane0);
    assert xyplane1[..] == ZeroPlane(n);
    var z := 1;
    zc := g.add(zc, g.zStep);
    while z < g.zRes
      invariant 1 <= z <= if g.zRes == 0 then 1 else g.zRes
      invariant zc == SliceZ(g, z)
      invariant fresh(xyplane0) && fresh(xyplane1) && xyplane0 != xyplane1
      invariant xyplane0.Length == n && xyplane1.Length == n
      invariant xyplane0[..] == Plane(g, p, magnitude, z - 1)
      invariant xyplane1[..] == if z == 1 then ZeroPlane(n) else Plane(g, p, magnitude, z - 2)
      invariant triangles == Mesh(g, p, magnitude, tessellate, z - 1)
      decreases g.zRes - z
    {
      triangles := Slab(g, p, magnitude, tessellate, z, zc, xyplane0, xyplane1, triangles);
      xyplane0, xyplane1 := xyplane1, xyplane0;
      z := z + 1;
      zc := g.add(zc, g.zStep);
    }
  }

  /**
   * One iteration of the slab loop before the swap: fill `upper` with slice z
   * over what it held, then tessellate the pair (`lower` holds slice z - 1).
   */
  method Slab(g: Grid, p: Fractal, magnitude: Quat -> Float, tessellate: Tessellator, z: nat, zc: Float,
              lower: array<Float>, upper: array<Float>, before: seq<Triangle>)
    returns (triangles: seq<Triangle>)
    requires 1 <= z <= SlabCount(g) && zc == SliceZ(g, z)
    requires |SliceTrajectories(g, p, z)| <= Cells(g.xRes, g.yRes) == upper.Length && lower != upper
    requires lower[..] == Plane(g, p, magnitude, z - 1)
    requires upper[..] == if z == 1 then ZeroPlane(Cells(g.xRes, g.yRes)) else Plane(g, p, magnitude, z - 2)
    requires before == Mesh(g, p, magnitude, tessellate, z - 1)
    modifies upper
    ensures upper[..] == Plane(g, p, magnitude, z)
    ensures triangles == Mesh(g, p, magnitude, tessellate, z)
  {
    FillSlice(g, p, magnitude, z, zc, upper);
    triangles := before + tessellate(g, lower[..], upper[..], z - 1, p.threshold);
  }

  /** The last step of `main`: the file is written only when there are triangles. */
  method SaveMesh(triangles: seq<Triangle>, normal: Triangle -> Vec3, canOpen: bool)
    returns (file: Stl.Option<seq<Byte>>)
    requires |triangles| < Stl.MaxTriangles
    ensures file == if 0 < |triangles| && canOpen then Stl.Some(Stl.StlFile(normal, triangles)) else Stl.None
  {
    file := Stl.None;
    if 0 < |triangles| {
      var ok;
      ok, file := Stl.WriteStl(triangles, normal, canOpen);
    }
  }
}

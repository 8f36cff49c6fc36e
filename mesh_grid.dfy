/**
  The vertex and face loops of the five fractal generators of the mesh
  backend (api/index.py). Every generator samples a grid of points and then
  emits two triangles per grid cell with integer arithmetic over the grid
  resolution `segments`. The coordinates are numpy trigonometry and are not
  modelled: a sampler supplies the point computed for each grid position, or
  None when one of its coordinates is not finite and the point is skipped.
  The face lists are specified position by position (GridFace, BoxFace), the
  loops are proved to build exactly those lists, and the counts and index
  bounds are proved about the specifications.
*/
module MeshGrid {
  import opened Wrappers

  /** A vertex position `[x, y, z]`. */
  datatype Vertex = Vertex(x: real, y: real, z: real)

  /** A face `[a, b, c]`: three indices into the vertex list. */
  datatype Triangle = Triangle(a: nat, b: nat, c: nat)

  /** The point a surface generator computes at grid position (i, j); None when it is not finite. */
  type SurfaceSampler = (nat, nat) -> Option<Vertex>

  /** The point the mandelbox generator computes at grid position (i, j, k); None when it is not finite. */
  type VolumeSampler = (nat, nat, nat) -> Option<Vertex>

  /** The number of iterations of `range(segments - 1)`. */
  function Steps(segments: nat): (n: nat)
    ensures segments >= 1 ==> n + 1 == segments
  {
    if segments == 0 then 0 else segments - 1
  }

  /** All three indices of `t` are below `bound`. */
  predicate Below(t: Triangle, bound: nat) {
    t.a < bound && t.b < bound && t.c < bound
  }

  // ---------------------------------------------------------------------------
  // Arithmetic on grid positions

  lemma MulMonotone(a: nat, b: nat, c: nat)
    requires a <= b
    ensures a * c <= b * c
  {
  }

  /** Position (r, c) of a grid with `rows` rows of `cols` cells, numbered row by row, is below rows * cols. */
  lemma CellBound(r: nat, c: nat, rows: nat, cols: nat)
    requires r < rows && c < cols
    ensures r * cols + c < rows * cols
  {
    MulMonotone(r, rows - 1, cols);
    assert (rows - 1) * cols + cols == rows * cols;
  }

  /** Row and column are recovered from the row-major number of a grid position. */
  lemma CellDivMod(r: nat, c: nat, cols: nat)
    requires c < cols
    ensures (r * cols + c) / cols == r && (r * cols + c) % cols == c
  {
    var x := r * cols + c;
    var q, m := x / cols, x % cols;
    assert q * cols + m == r * cols + c;
    if q > r {
      MulMonotone(r + 1, q, cols);
      assert false;
    } else if q < r {
      MulMonotone(q + 1, r, cols);
      assert false;
    }
  }

  /** A number below rows * cols lies in a row below `rows`. */
  lemma RowBound(x: nat, rows: nat, cols: nat)
    requires x < rows * cols
    ensures cols > 0 && x / cols < rows && x % cols < cols
  {
    if x / cols >= rows {
      MulMonotone(rows, x / cols, cols);
      assert false;
    }
  }

  /** The index arithmetic of the face loops stays in the naturals. */
  lemma ProductsNatural(i: nat, j: nat, segments: nat)
    ensures segments * segments >= 0 && i * (segments * segments) >= 0 && j * segments >= 0
  {
    MulMonotone(0, segments, segments);
    MulMonotone(0, i, segments * segments);
    MulMonotone(0, j, segments);
  }

  /** Positions 2c and 2c + 1 both belong to cell c, the first even and the second odd. */
  lemma HalvesOfPair(c: nat)
    ensures (2 * c) / 2 == c && (2 * c) % 2 == 0
    ensures (2 * c + 1) / 2 == c && (2 * c + 1) % 2 == 1
  {
  }

  // ---------------------------------------------------------------------------
  // The surface grid: mandelbulb, torus knot, apollonian gasket, klein bottle

  /** The first vertex index of surface cell number `cell` (row-major over (i, j)): i*segments + j. */
  function GridFirst(segments: nat, cell: nat): nat
    requires cell < Steps(segments) * Steps(segments)
  {
    var n := Steps(segments);
    RowBound(cell, n, n);
    var i: nat := cell / n;
    var j: nat := cell % n;
    ProductsNatural(0, i, segments);
    i * segments + j
  }

  /**
    The k-th face the surface generators emit: faces come in pairs, one pair
    per cell (i, j) of the (segments-1)-by-(segments-1) grid in row-major
    order; with first = i*segments + j and second = first + segments the pair
    is [first, second, first+1], [second, second+1, first+1].
  */
  function GridFace(segments: nat, k: nat): Triangle
    requires k < 2 * (Steps(segments) * Steps(segments))
  {
    var first := GridFirst(segments, k / 2);
    var second := first + segments;
    if k % 2 == 0 then Triangle(first, second, first + 1)
    else Triangle(second, second + 1, first + 1)
  }

  /** The whole face list of a surface generator. */
  function GridFaces(segments: nat): (faces: seq<Triangle>)
    ensures |faces| == 2 * (Steps(segments) * Steps(segments))
  {
    var n := Steps(segments);
    seq(2 * (n * n), k requires 0 <= k < 2 * (n * n) => GridFace(segments, k))
  }

  /** Cell (i, j) has number i*n + j and first index i*segments + j. */
  lemma GridFirstAtCell(segments: nat, i: nat, j: nat, cell: nat)
    requires i < Steps(segments) && j < Steps(segments)
    requires cell == i * Steps(segments) + j
    ensures cell < Steps(segments) * Steps(segments)
    ensures GridFirst(segments, cell) == i * segments + j
  {
    var n := Steps(segments);
    CellBound(i, j, n, n);
    CellDivMod(i, j, n);
  }

  /** The pair of faces of cell number `cell` sits at positions 2*cell and 2*cell + 1. */
  lemma GridFacePair(segments: nat, cell: nat)
    requires cell < Steps(segments) * Steps(segments)
    ensures 2 * cell + 1 < 2 * (Steps(segments) * Steps(segments))
    ensures
      var first := GridFirst(segments, cell);
      && GridFace(segments, 2 * cell) == Triangle(first, first + segments, first + 1)
      && GridFace(segments, 2 * cell + 1) == Triangle(first + segments, first + segments + 1, first + 1)
  {
    HalvesOfPair(cell);
  }

  /** Every index of every surface face is at most segments² - 1. */
  lemma GridFaceBelow(segments: nat, k: nat)
    requires k < 2 * (Steps(segments) * Steps(segments))
    ensures Below(GridFace(segments, k), segments * segments)
  {
    var n := Steps(segments);
    var cell: nat := k / 2;
    RowBound(cell, n, n);
    var i: nat, j: nat := cell / n, cell % n;
    MulMonotone(i, n - 1, segments);
    // the largest index is second + 1 = i*segments + j + segments + 1
    LastSurfaceIndex(n, segments);
  }

  lemma LastSurfaceIndex(n: nat, segments: nat)
    requires n >= 1 && n + 1 == segments
    ensures (n - 1) * segments + (n - 1) + segments + 1 < segments * segments
  {
  }

  /** No index of the surface face list reaches segments². */
  lemma GridFacesBelow(segments: nat)
    ensures forall t :: t in GridFaces(segments) ==> Below(t, segments * segments)
  {
    var faces := GridFaces(segments);
    forall t | t in faces ensures Below(t, segments * segments) {
      var k :| 0 <= k < |faces| && faces[k] == t;
      GridFaceBelow(segments, k);
    }
  }

  /** `faces` is a prefix of the surface face list. */
  ghost predicate GridPrefix(segments: nat, faces: seq<Triangle>) {
    && |faces| <= 2 * (Steps(segments) * Steps(segments))
    && forall k :: 0 <= k < |faces| ==> faces[k] == GridFace(segments, k)
  }

  /** Appending the two faces of cell (i, j), when they are next, extends a prefix of the face list. */
  lemma GridPrefixExtend(segments: nat, faces: seq<Triangle>, i: nat, j: nat, first: nat)
    requires i < Steps(segments) && j < Steps(segments)
    requires first == i * segments + j
    requires GridPrefix(segments, faces) && |faces| == 2 * (i * Steps(segments) + j)
    ensures GridPrefix(segments, faces + [Triangle(first, first + segments, first + 1),
                                          Triangle(first + segments, first + segments + 1, first + 1)])
  {
    var cell := i * Steps(segments) + j;
    GridFirstAtCell(segments, i, j, cell);
    GridFacePair(segments, cell);
  }

  /** A prefix as long as the face list is the face list. */
  lemma GridPrefixComplete(segments: nat, faces: seq<Triangle>)
    requires GridPrefix(segments, faces) && |faces| == 2 * (Steps(segments) * Steps(segments))
    ensures faces == GridFaces(segments)
  {
  }

  /**
    The face loop of generate_mandelbulb and generate_apollonian_gasket:
    `second = first + segments`.
  */
  method StrideFaces(segments: nat) returns (faces: seq<Triangle>)
    ensures faces == GridFaces(segments)
  {
    var n := Steps(segments);
    faces := [];
    for i := 0 to n
      invariant |faces| == 2 * (i * n) && GridPrefix(segments, faces)
    {
      for j := 0 to n
        invariant |faces| == 2 * (i * n + j) && GridPrefix(segments, faces)
      {
        ProductsNatural(0, i, segments);
        var first := i * segments + j;
        var second := first + segments;
        GridPrefixExtend(segments, faces, i, j, first);
        faces := faces + [Triangle(first, second, first + 1), Triangle(second, second + 1, first + 1)];
      }
      assert i * n + n == (i + 1) * n;
    }
    GridPrefixComplete(segments, faces);
  }

  /**
    Below the last row, the row after i starts `segments` indices after row
    i: the modulo never wraps.
  */
  lemma NextRowNoWrap(i: nat, segments: nat)
    requires i < Steps(segments)
    ensures (i + 1) % segments * segments == i * segments + segments
  {
    assert (i + 1) % segments == i + 1;
  }

  /**
    The face loop of generate_torus_knot and generate_klein_bottle:
    `second = (i + 1) % segments * segments + j`. It builds the same list as
    StrideFaces, since the modulo never wraps inside `range(segments - 1)`.
  */
  method WrapFaces(segments: nat) returns (faces: seq<Triangle>)
    ensures faces == GridFaces(segments)
  {
    var n := Steps(segments);
    faces := [];
    for i := 0 to n
      invariant |faces| == 2 * (i * n) && GridPrefix(segments, faces)
    {
      for j := 0 to n
        invariant |faces| == 2 * (i * n + j) && GridPrefix(segments, faces)
      {
        ProductsNatural(0, i, segments);
        var first := i * segments + j;
        NextRowNoWrap(i, segments);
        var second := (i + 1) % segments * segments + j;
        GridPrefixExtend(segments, faces, i, j, first);
        faces := faces + [Triangle(first, second, first + 1), Triangle(second, second + 1, first + 1)];
      }
      assert i * n + n == (i + 1) * n;
    }
    GridPrefixComplete(segments, faces);
  }

  // ---------------------------------------------------------------------------
  // The volume grid: mandelbox

  /**
    The first vertex index of mandelbox cell number `cell` (row-major over
    (i, j, k)): i*segments² + j*segments + k.
  */
  function BoxFirst(segments: nat, cell: nat): nat
    requires cell < Steps(segments) * Steps(segments) * Steps(segments)
  {
    var n := Steps(segments);
    RowBound(cell, n * n, n);
    var row: nat := cell / n;
    var i: nat := row / n;
    var j: nat := row % n;
    var k: nat := cell % n;
    ProductsNatural(i, j, segments);
    i * (segments * segments) + j * segments + k
  }

  /**
    The m-th face of generate_mandelbox: one pair per cell (i, j, k) of the
    (segments-1)³ grid in row-major order, first = i*segments² + j*segments + k,
    second = first + segments.
  */
  function BoxFace(segments: nat, m: nat): Triangle
    requires m < 2 * (Steps(segments) * Steps(segments) * Steps(segments))
  {
    var first := BoxFirst(segments, m / 2);
    var second := first + segments;
    if m % 2 == 0 then Triangle(first, second, first + 1)
    else Triangle(second, second + 1, first + 1)
  }

  /** The whole face list of generate_mandelbox. */
  function BoxFaces(segments: nat): (faces: seq<Triangle>)
    ensures |faces| == 2 * (Steps(segments) * Steps(segments) * Steps(segments))
  {
    var n := Steps(segments);
    seq(2 * (n * n * n), m requires 0 <= m < 2 * (n * n * n) => BoxFace(segments, m))
  }

  /** Cell (i, j, k) has number i*n² + j*n + k and first index i*segments² + j*segments + k. */
  lemma BoxFirstAtCell(segments: nat, i: nat, j: nat, k: nat, cell: nat)
    requires i < Steps(segments) && j < Steps(segments) && k < Steps(segments)
    requires cell == i * (Steps(segments) * Steps(segments)) + j * Steps(segments) + k
    ensures cell < Steps(segments) * Steps(segments) * Steps(segments)
    ensures BoxFirst(segments, cell) == i * (segments * segments) + j * segments + k
  {
    var n := Steps(segments);
    var row: nat := i * n + j;
    assert row * n + k == cell;
    CellBound(i, j, n, n);
    CellBound(row, k, n * n, n);
    CellDivMod(row, k, n);
    CellDivMod(i, j, n);
  }

  /** The pair of faces of cell number `cell` sits at positions 2*cell and 2*cell + 1. */
  lemma BoxFacePair(segments: nat, cell: nat)
    requires cell < Steps(segments) * Steps(segments) * Steps(segments)
    ensures 2 * cell + 1 < 2 * (Steps(segments) * Steps(segments) * Steps(segments))
    ensures
      var first := BoxFirst(segments, cell);
      && BoxFace(segments, 2 * cell) == Triangle(first, first + segments, first + 1)
      && BoxFace(segments, 2 * cell + 1) == Triangle(first + segments, first + segments + 1, first + 1)
  {
    HalvesOfPair(cell);
  }

  /** Every index of every mandelbox face is below segments³. */
  lemma BoxFaceBelow(segments: nat, m: nat)
    requires m < 2 * (Steps(segments) * Steps(segments) * Steps(segments))
    ensures Below(BoxFace(segments, m), segments * segments * segments)
  {
    var n := Steps(segments);
    var s := segments;
    var cell: nat := m / 2;
    assert cell < n * n * n;
    RowBound(cell, n * n, n);
    var row: nat := cell / n;
    RowBound(row, n, n);
    var i: nat, j: nat, k: nat := row / n, row % n, cell % n;
    MulMonotone(i, n - 1, s * s);
    MulMonotone(j, n - 1, s);
    // the largest index is second + 1 = i*s² + j*s + k + s + 1
    LastVolumeIndex(n, s);
  }

  lemma LastVolumeIndex(n: nat, segments: nat)
    requires n >= 1 && n + 1 == segments
    ensures (n - 1) * (segments * segments) + (n - 1) * segments + (n - 1) + segments + 1 < segments * segments * segments
  {
  }

  /** No index of the mandelbox face list reaches segments³. */
  lemma BoxFacesBelow(segments: nat)
    ensures forall t :: t in BoxFaces(segments) ==> Below(t, segments * segments * segments)
  {
    var faces := BoxFaces(segments);
    forall t | t in faces ensures Below(t, segments * segments * segments) {
      var m :| 0 <= m < |faces| && faces[m] == t;
      BoxFaceBelow(segments, m);
    }
  }

  /** `faces` is a prefix of the mandelbox face list. */
  ghost predicate BoxPrefix(segments: nat, faces: seq<Triangle>) {
    && |faces| <= 2 * (Steps(segments) * Steps(segments) * Steps(segments))
    && forall m :: 0 <= m < |faces| ==> faces[m] == BoxFace(segments, m)
  }

  /** Appending the two faces of cell (i, j, k), when they are next, extends a prefix of the face list. */
  lemma BoxPrefixExtend(segments: nat, faces: seq<Triangle>, i: nat, j: nat, k: nat, first: nat)
    requires i < Steps(segments) && j < Steps(segments) && k < Steps(segments)
    requires first == i * (segments * segments) + j * segments + k
    requires BoxPrefix(segments, faces)
    requires |faces| == 2 * (i * (Steps(segments) * Steps(segments)) + j * Steps(segments) + k)
    ensures BoxPrefix(segments, faces + [Triangle(first, first + segments, first + 1),
                                         Triangle(first + segments, first + segments + 1, first + 1)])
  {
    var n := Steps(segments);
    var cell := i * (n * n) + j * n + k;
    BoxFirstAtCell(segments, i, j, k, cell);
    BoxFacePair(segments, cell);
  }

  /** A prefix as long as the face list is the face list. */
  lemma BoxPrefixComplete(segments: nat, faces: seq<Triangle>)
    requires BoxPrefix(segments, faces)
    requires |faces| == 2 * (Steps(segments) * Steps(segments) * Steps(segments))
    ensures faces == BoxFaces(segments)
  {
  }

  /** The face loop of generate_mandelbox. */
  method VolumeFaces(segments: nat) returns (faces: seq<Triangle>)
    ensures faces == BoxFaces(segments)
  {
    var n := Steps(segments);
    faces := [];
    for i := 0 to n
      invariant |faces| == 2 * (i * (n * n)) && BoxPrefix(segments, faces)
    {
      for j := 0 to n
        invariant |faces| == 2 * (i * (n * n) + j * n) && BoxPrefix(segments, faces)
      {
        for k := 0 to n
          invariant |faces| == 2 * (i * (n * n) + j * n + k) && BoxPrefix(segments, faces)
        {
          ProductsNatural(i, j, segments);
          var first := i * (segments * segments) + j * segments + k;
          var second := first + segments;
          BoxPrefixExtend(segments, faces, i, j, k, first);
          faces := faces + [Triangle(first, second, first + 1), Triangle(second, second + 1, first + 1)];
        }
        assert j * n + n == (j + 1) * n;
      }
      assert i * (n * n) + n * n == (i + 1) * (n * n);
    }
    BoxPrefixComplete(segments, faces);
  }

  // ---------------------------------------------------------------------------
  // Vertex loops

  /** The present samples in order: a non-finite point is skipped with `continue`. */
  function Kept(samples: seq<Option<Vertex>>): (kept: seq<Vertex>)
    ensures |kept| <= |samples|
  {
    if samples == [] then []
    else
      var last := samples[|samples| - 1];
      Kept(samples[..|samples| - 1]) + (if last.Some? then [last.value] else [])
  }

  /** Every kept vertex is one of the samples. */
  lemma {:induction false} KeptFromSamples(samples: seq<Option<Vertex>>)
    ensures forall v :: v in Kept(samples) ==> Some(v) in samples
  {
    if samples != [] {
      KeptFromSamples(samples[..|samples| - 1]);
    }
  }

  /** When no sample is missing, nothing is skipped: the vertices are the samples, in order. */
  lemma {:induction false} KeptComplete(samples: seq<Option<Vertex>>)
    requires forall x :: x in samples ==> x.Some?
    ensures |Kept(samples)| == |samples|
    ensures forall p :: 0 <= p < |samples| ==> Kept(samples)[p] == samples[p].value
  {
    if samples != [] {
      var init := samples[..|samples| - 1];
      assert forall x :: x in init ==> x in samples;
      KeptComplete(init);
    }
  }

  /** Visiting one more sample keeps it at the end when it is present. */
  lemma KeptSnoc(samples: seq<Option<Vertex>>, point: Option<Vertex>)
    ensures Kept(samples + [point]) == Kept(samples) + (if point.Some? then [point.value] else [])
  {
    assert (samples + [point])[..|samples|] == samples;
  }

  /**
    The points a surface generator visits before grid position (i, j), in
    loop order: rows 0..i-1 in full, then (i, 0), ..., (i, j - 1).
  */
  function SurfaceVisited(sample: SurfaceSampler, width: nat, i: nat, j: nat): seq<Option<Vertex>>
    decreases i, j
  {
    if j > 0 then SurfaceVisited(sample, width, i, j - 1) + [sample(i, j - 1)]
    else if i > 0 then SurfaceVisited(sample, width, i - 1, width)
    else []
  }

  /** All segments² points of a surface grid, in loop order. */
  function SurfaceSamples(segments: nat, sample: SurfaceSampler): seq<Option<Vertex>> {
    SurfaceVisited(sample, segments, segments, 0)
  }

  /**
    The points generate_mandelbox visits before grid position (i, j, k), in
    loop order: planes 0..i-1, then rows (i, 0)..(i, j-1), then
    (i, j, 0), ..., (i, j, k - 1).
  */
  function VolumeVisited(sample: VolumeSampler, width: nat, i: nat, j: nat, k: nat): seq<Option<Vertex>>
    decreases i, j, k
  {
    if k > 0 then VolumeVisited(sample, width, i, j, k - 1) + [sample(i, j, k - 1)]
    else if j > 0 then VolumeVisited(sample, width, i, j - 1, width)
    else if i > 0 then VolumeVisited(sample, width, i - 1, width, 0)
    else []
  }

  /** All segments³ points of the mandelbox grid, in loop order. */
  function VolumeSamples(segments: nat, sample: VolumeSampler): seq<Option<Vertex>> {
    VolumeVisited(sample, segments, segments, 0, 0)
  }

  /** The vertex loop of the four surface generators: segments² points, a non-finite one skipped. */
  method SurfaceVertices(segments: nat, sample: SurfaceSampler) returns (vertices: seq<Vertex>)
    ensures vertices == Kept(SurfaceSamples(segments, sample))
  {
    vertices := [];
    for i := 0 to segments
      invariant vertices == Kept(SurfaceVisited(sample, segments, i, 0))
    {
      for j := 0 to segments
        invariant vertices == Kept(SurfaceVisited(sample, segments, i, j))
      {
        var point := sample(i, j);
        KeptSnoc(SurfaceVisited(sample, segments, i, j), point);
        if point.Some? {  // a non-finite point is skipped
          vertices := vertices + [point.value];
        }
      }
    }
  }

  /** The vertex loop of generate_mandelbox: segments³ points, a non-finite one skipped. */
  method VolumeVertices(segments: nat, sample: VolumeSampler) returns (vertices: seq<Vertex>)
    ensures vertices == Kept(VolumeSamples(segments, sample))
  {
    vertices := [];
    for i := 0 to segments
      invariant vertices == Kept(VolumeVisited(sample, segments, i, 0, 0))
    {
      for j := 0 to segments
        invariant vertices == Kept(VolumeVisited(sample, segments, i, j, 0))
      {
        for k := 0 to segments
          invariant vertices == Kept(VolumeVisited(sample, segments, i, j, k))
        {
          var point := sample(i, j, k);
          KeptSnoc(VolumeVisited(sample, segments, i, j, k), point);
          if point.Some? {  // a non-finite point is skipped
            vertices := vertices + [point.value];
          }
        }
      }
    }
  }

  /** No point of the surface grid is skipped. */
  ghost predicate SurfaceComplete(segments: nat, sample: SurfaceSampler) {
    forall i: nat, j: nat :: i < segments && j < segments ==> sample(i, j).Some?
  }

  /** No point of the mandelbox grid is skipped. */
  ghost predicate VolumeComplete(segments: nat, sample: VolumeSampler) {
    forall i: nat, j: nat, k: nat :: i < segments && j < segments && k < segments ==> sample(i, j, k).Some?
  }

  /** Before position (i, j) a surface generator has visited i*width + j points, all present when none is skipped. */
  lemma {:induction false} SurfaceVisitedFacts(segments: nat, sample: SurfaceSampler, i: nat, j: nat)
    requires i <= segments && j <= segments && (i == segments ==> j == 0)
    ensures |SurfaceVisited(sample, segments, i, j)| == i * segments + j
    ensures SurfaceComplete(segments, sample) ==> forall x :: x in SurfaceVisited(sample, segments, i, j) ==> x.Some?
    decreases i, j
  {
    if j > 0 {
      SurfaceVisitedFacts(segments, sample, i, j - 1);
    } else if i > 0 {
      SurfaceVisitedFacts(segments, sample, i - 1, segments);
      assert (i - 1) * segments + segments == i * segments;
    }
  }

  /** With no point skipped, a surface generator yields segments² vertices. */
  lemma CompleteSurfaceCount(segments: nat, sample: SurfaceSampler)
    requires SurfaceComplete(segments, sample)
    ensures |Kept(SurfaceSamples(segments, sample))| == segments * segments
  {
    SurfaceVisitedFacts(segments, sample, segments, 0);
    KeptComplete(SurfaceSamples(segments, sample));
  }

  /** Before position (i, j, k) generate_mandelbox has visited (i*width + j)*width + k points, all present when none is skipped. */
  lemma {:induction false} VolumeVisitedFacts(segments: nat, sample: VolumeSampler, i: nat, j: nat, k: nat)
    requires i <= segments && j <= segments && k <= segments
    requires (i == segments ==> j == 0 && k == 0) && (j == segments ==> k == 0)
    ensures |VolumeVisited(sample, segments, i, j, k)| == (i * segments + j) * segments + k
    ensures VolumeComplete(segments, sample) ==> forall x :: x in VolumeVisited(sample, segments, i, j, k) ==> x.Some?
    decreases i, j, k
  {
    if k > 0 {
      VolumeVisitedFacts(segments, sample, i, j, k - 1);
    } else if j > 0 {
      VolumeVisitedFacts(segments, sample, i, j - 1, segments);
      assert (i * segments + j - 1) * segments + segments == (i * segments + j) * segments;
    } else if i > 0 {
      VolumeVisitedFacts(segments, sample, i - 1, segments, 0);
      assert ((i - 1) * segments + segments) * segments == (i * segments) * segments;
    }
  }

  /** With no point skipped, generate_mandelbox yields segments³ vertices. */
  lemma CompleteVolumeCount(segments: nat, sample: VolumeSampler)
    requires VolumeComplete(segments, sample)
    ensures |Kept(VolumeSamples(segments, sample))| == segments * segments * segments
  {
    VolumeVisitedFacts(segments, sample, segments, 0, 0);
    KeptComplete(VolumeSamples(segments, sample));
  }
}

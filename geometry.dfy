/**
 * The two primitive meshes of the renderer (src/animations/platonic-solids.ts):
 * a latitude/longitude unit sphere drawn at every vertex of a solid and an
 * open unit cylinder drawn along every edge. Coordinates come from `Math.cos`
 * and `Math.sin`, which are passed in as functions of a symbolic angle and
 * otherwise left uninterpreted; the structure of both buffers (their lengths,
 * which coordinate goes where, which vertex each index refers to) is exact.
 */
module Geometry {
  import Matrix

  /** An element of a `Uint16Array`. */
  newtype U16 = x: int | 0 <= x < 0x1_0000

  /** Storing a number in a `Uint16Array` keeps it modulo 2¹⁶ (ECMAScript ToUint16). */
  function ToUint16(x: int): (r: U16)
    ensures 0 <= x < 0x1_0000 ==> r as int == x
    ensures (r as int - x) % 0x1_0000 == 0
  {
    (x % 0x1_0000) as U16
  }

  /** `new Uint16Array(indices)`: every element converted, order and length kept. */
  function ToUint16Array(xs: seq<int>): (r: seq<U16>)
    ensures |r| == |xs|
    ensures forall i :: 0 <= i < |xs| ==> r[i] == ToUint16(xs[i])
  {
    seq(|xs|, i requires 0 <= i < |xs| => ToUint16(xs[i]))
  }

  /** Converting numbers that already fit changes nothing. */
  lemma ToUint16ArrayExact(xs: seq<int>)
    requires forall i :: 0 <= i < |xs| ==> 0 <= xs[i] < 0x1_0000
    ensures forall i :: 0 <= i < |xs| ==> ToUint16Array(xs)[i] as int == xs[i]
  {
  }

  /** The angle num · π / den radians, kept symbolic: `Math.cos` and `Math.sin` are parameters over it. */
  datatype Angle = PiTimes(num: nat, den: nat)

  /** A mesh: a flat buffer of (x, y, z) coordinates and a triangle-list index buffer. */
  datatype Mesh = Mesh(verts: seq<real>, indices: seq<U16>)

  // ---------------------------------------------------------------------------
  // Sphere
  // ---------------------------------------------------------------------------

  /** `lat * Math.PI / segments`, the polar angle of latitude step `lat`. */
  function Theta(n: nat, lat: nat): Angle
    requires n >= 1
  {
    PiTimes(lat, n)
  }

  /** `lon * 2 * Math.PI / segments`, the azimuth of longitude step `lon` (also the cylinder's angle step). */
  function Phi(n: nat, lon: nat): Angle
    requires n >= 1
  {
    PiTimes(lon * 2, n)
  }

  /** The vertex at latitude step `lat` and longitude step `lon` of an n-segment sphere. */
  function SphereVertex(n: nat, lat: nat, lon: nat, cos: Angle -> real, sin: Angle -> real): seq<real>
    requires n >= 1
  {
    var theta, phi := Theta(n, lat), Phi(n, lon);
    [cos(phi) * sin(theta), cos(theta), sin(phi) * sin(theta)]
  }

  /** The first `k` vertices of latitude row `lat`, flattened. */
  function SphereRow(n: nat, lat: nat, k: nat, cos: Angle -> real, sin: Angle -> real): (r: seq<real>)
    requires n >= 1
    ensures |r| == 3 * k
  {
    if k == 0 then [] else SphereRow(n, lat, k - 1, cos, sin) + SphereVertex(n, lat, k - 1, cos, sin)
  }

  /** The first `rows` latitude rows, each of n + 1 vertices, flattened. */
  function SphereGrid(n: nat, rows: nat, cos: Angle -> real, sin: Angle -> real): seq<real>
    requires n >= 1
  {
    if rows == 0 then []
    else SphereGrid(n, rows - 1, cos, sin) + SphereRow(n, rows - 1, n + 1, cos, sin)
  }

  /** Three coordinates per vertex, n + 1 vertices per row. */
  lemma {:induction false} SphereGridLength(n: nat, rows: nat, cos: Angle -> real, sin: Angle -> real)
    requires n >= 1
    ensures |SphereGrid(n, rows, cos, sin)| == 3 * rows * (n + 1)
  {
    if rows > 0 {
      SphereGridLength(n, rows - 1, cos, sin);
      MulDist(3 * (rows - 1), 3, n + 1);
    }
  }

  /** The two triangles of the quad whose top-left corner is (lat, lon). */
  function SphereQuad(n: nat, lat: nat, lon: nat): seq<int> {
    var a := lat * (n + 1) + lon;
    var b := a + n + 1;
    [a, b, a + 1, b, b + 1, a + 1]
  }

  /** The quads of row `lat` for longitudes below `k`. */
  function QuadRow(n: nat, lat: nat, k: nat): (r: seq<int>)
    ensures |r| == 6 * k
  {
    if k == 0 then [] else QuadRow(n, lat, k - 1) + SphereQuad(n, lat, k - 1)
  }

  /** The quads of the first `rows` rows, n per row. */
  function QuadGrid(n: nat, rows: nat): seq<int> {
    if rows == 0 then [] else QuadGrid(n, rows - 1) + QuadRow(n, rows - 1, n)
  }

  /** Six indices per quad, n quads per row. */
  lemma {:induction false} QuadGridLength(n: nat, rows: nat)
    ensures |QuadGrid(n, rows)| == 6 * rows * n
  {
    if rows > 0 {
      QuadGridLength(n, rows - 1);
      MulDist(6 * (rows - 1), 6, n);
    }
  }

  /** The source's coordinates, computed from the cached sin θ and cos θ, are those of the vertex. */
  lemma SphereVertexValue(n: nat, lat: nat, lon: nat, cos: Angle -> real, sin: Angle -> real,
                          sinT: real, cosT: real, phi: Angle)
    requires n >= 1
    requires sinT == sin(Theta(n, lat)) && cosT == cos(Theta(n, lat)) && phi == Phi(n, lon)
    ensures SphereVertex(n, lat, lon, cos, sin) == [cos(phi) * sinT, cosT, sin(phi) * sinT]
  {
    var v := SphereVertex(n, lat, lon, cos, sin);
    var w := [cos(phi) * sinT, cosT, sin(phi) * sinT];
    assert v[0] == cos(Phi(n, lon)) * sin(Theta(n, lat)) && v[2] == sin(Phi(n, lon)) * sin(Theta(n, lat));
    Matrix.MulCongruence(cos(phi), sinT, cos(Phi(n, lon)), sin(Theta(n, lat)));
    Matrix.MulCongruence(sin(phi), sinT, sin(Phi(n, lon)), sin(Theta(n, lat)));
    assert |v| == 3 && |w| == 3;
    assert v[0] == w[0] && v[1] == w[1] && v[2] == w[2];
  }

  /** Pushing the coordinates of vertex (lat, lon) extends row `lat` by that vertex. */
  lemma SphereRowStep(n: nat, lat: nat, lon: nat, cos: Angle -> real, sin: Angle -> real,
                      grid: seq<real>, sinT: real, cosT: real, phi: Angle)
    requires n >= 1
    requires sinT == sin(Theta(n, lat)) && cosT == cos(Theta(n, lat)) && phi == Phi(n, lon)
    ensures grid + SphereRow(n, lat, lon, cos, sin) + [cos(phi) * sinT, cosT, sin(phi) * sinT]
            == grid + SphereRow(n, lat, lon + 1, cos, sin)
  {
    var row := SphereRow(n, lat, lon, cos, sin);
    var v := SphereVertex(n, lat, lon, cos, sin);
    assert SphereRow(n, lat, lon + 1, cos, sin) == row + v;
    SphereVertexValue(n, lat, lon, cos, sin, sinT, cosT, phi);
    assert grid + row + v == grid + (row + v);
  }

  /**
   * `createSphere(n)`: pushes (n + 1)² vertices latitude by latitude, then
   * 2n² triangles quad by quad, and stores the indices as 16-bit numbers.
   */
  method CreateSphere(n: nat, cos: Angle -> real, sin: Angle -> real) returns (m: Mesh)
    requires n >= 1
    ensures m.verts == SphereGrid(n, n + 1, cos, sin)
    ensures m.indices == ToUint16Array(QuadGrid(n, n))
  {
    var verts := SphereVertices(n, cos, sin);
    var indices := SphereIndices(n);
    m := Mesh(verts, ToUint16Array(indices));
  }

  /** The vertex loops of `createSphere`: latitude rows of n + 1 vertices, pushed in order. */
  method SphereVertices(n: nat, cos: Angle -> real, sin: Angle -> real) returns (verts: seq<real>)
    requires n >= 1
    ensures verts == SphereGrid(n, n + 1, cos, sin)
  {
    verts := [];
    for lat := 0 to n + 1
      invariant verts == SphereGrid(n, lat, cos, sin)
    {
      var theta := Theta(n, lat);
      var sinT, cosT := sin(theta), cos(theta);
      ghost var grid := verts;
      for lon := 0 to n + 1
        invariant verts == grid + SphereRow(n, lat, lon, cos, sin)
      {
        var phi := Phi(n, lon);
        SphereRowStep(n, lat, lon, cos, sin, grid, sinT, cosT, phi);
        verts := verts + [cos(phi) * sinT, cosT, sin(phi) * sinT];
      }
    }
  }

  /** The index loops of `createSphere`: two triangles per quad, n quads per row, n rows. */
  method SphereIndices(n: nat) returns (indices: seq<int>)
    ensures indices == QuadGrid(n, n)
  {
    indices := [];
    for lat := 0 to n
      invariant indices == QuadGrid(n, lat)
    {
      ghost var grid := indices;
      for lon := 0 to n
        invariant indices == grid + QuadRow(n, lat, lon)
      {
        var a := lat * (n + 1) + lon;
        var b := a + n + 1;
        indices := indices + [a, b, a + 1, b, b + 1, a + 1];
      }
    }
  }

  /** Every index of row `lat` (with lat < n) lies between lat · (n + 1) and (lat + 2) · (n + 1) − 1. */
  lemma {:induction false} QuadRowBounds(n: nat, lat: nat, k: nat)
    requires k <= n
    ensures forall x :: x in QuadRow(n, lat, k) ==> lat * (n + 1) <= x < (lat + 2) * (n + 1)
  {
    if k > 0 {
      QuadRowBounds(n, lat, k - 1);
      var a := lat * (n + 1) + (k - 1);
      assert a + n + 2 < (lat + 2) * (n + 1);
    }
  }

  /** Every index of the first `rows` rows lies below (rows + 1) · (n + 1) and is not negative. */
  lemma {:induction false} QuadGridBounds(n: nat, rows: nat)
    ensures forall x :: x in QuadGrid(n, rows) ==> 0 <= x < (rows + 1) * (n + 1)
  {
    if rows > 0 {
      QuadGridBounds(n, rows - 1);
      QuadRowBounds(n, rows - 1, n);
      assert (rows - 1 + 2) * (n + 1) == (rows + 1) * (n + 1);
      assert rows * (n + 1) <= (rows + 1) * (n + 1);
    }
  }

  /**
   * `createSphere(n)` yields 3(n + 1)² coordinates ((n + 1)² vertices) and 6n²
   * indices, and every index names one of those vertices.
   */
  lemma SphereCounts(n: nat, cos: Angle -> real, sin: Angle -> real)
    requires n >= 1
    ensures |SphereGrid(n, n + 1, cos, sin)| == 3 * (n + 1) * (n + 1)
    ensures |QuadGrid(n, n)| == 6 * n * n
    ensures forall x :: x in QuadGrid(n, n) ==> 0 <= x < (n + 1) * (n + 1)
  {
    SphereGridLength(n, n + 1, cos, sin);
    QuadGridLength(n, n);
    QuadGridBounds(n, n);
  }

  /**
   * For n ≤ 255 every sphere index is below 256² = 65536, so the `Uint16Array`
   * holds exactly the computed indices; this covers the renderer's n = 10.
   */
  lemma SphereIndicesFitUint16(n: nat)
    requires 1 <= n <= 255
    ensures forall i :: 0 <= i < |QuadGrid(n, n)| ==> ToUint16Array(QuadGrid(n, n))[i] as int == QuadGrid(n, n)[i]
  {
    QuadGridBounds(n, n);
    assert (n + 1) * (n + 1) <= 256 * 256;
    forall i | 0 <= i < |QuadGrid(n, n)|
      ensures 0 <= QuadGrid(n, n)[i] < 0x1_0000
    {
      assert QuadGrid(n, n)[i] in QuadGrid(n, n);
    }
    ToUint16ArrayExact(QuadGrid(n, n));
  }

  /** The renderer draws `createSphere(10)` at the vertices and `createCylinder(8)` along the edges. */
  const SphereSegments: nat := 10
  const CylinderSegments: nat := 8

  /** The renderer's sphere has 121 vertices and 600 indices, each naming one of them. */
  lemma RendererSphere(cos: Angle -> real, sin: Angle -> real)
    ensures |SphereGrid(SphereSegments, SphereSegments + 1, cos, sin)| == 3 * 121
    ensures |QuadGrid(SphereSegments, SphereSegments)| == 600
    ensures forall x :: x in QuadGrid(SphereSegments, SphereSegments) ==> 0 <= x < 121
  {
    SphereCounts(SphereSegments, cos, sin);
  }

  /** Vertex `lon` of row `lat` sits at coordinates 3·lon … 3·lon + 2 of the row. */
  lemma {:induction false} SphereRowAt(n: nat, lat: nat, k: nat, lon: nat, cos: Angle -> real, sin: Angle -> real)
    requires n >= 1 && lon < k
    ensures SphereRow(n, lat, k, cos, sin)[3 * lon..3 * lon + 3] == SphereVertex(n, lat, lon, cos, sin)
  {
    if lon < k - 1 {
      SphereRowAt(n, lat, k - 1, lon, cos, sin);
      var left := SphereRow(n, lat, k - 1, cos, sin);
      assert SphereRow(n, lat, k, cos, sin)[3 * lon..3 * lon + 3] == left[3 * lon..3 * lon + 3];
    }
  }

  /** A window of `k` entries inside the left operand of a concatenation is unchanged by it. */
  lemma WindowLeft<T>(a: seq<T>, b: seq<T>, i: nat, k: nat, part: seq<T>)
    requires i + k <= |a| && a[i..i + k] == part
    ensures i + k <= |a + b| && (a + b)[i..i + k] == part
  {
    assert (a + b)[i..i + k] == a[i..i + k];
  }

  /** A window of `k` entries inside the right operand of a concatenation is shifted by the left one's length. */
  lemma WindowRight<T>(a: seq<T>, b: seq<T>, i: nat, k: nat, part: seq<T>)
    requires |a| <= i && i - |a| + k <= |b| && b[i - |a|..i - |a| + k] == part
    ensures i + k <= |a + b| && (a + b)[i..i + k] == part
  {
    assert (a + b)[i..i + k] == b[i - |a|..i - |a| + k];
  }

  /** A window inside a prefix of a sequence is a window of the sequence. */
  lemma PrefixWindow<T>(p: seq<T>, s: seq<T>, i: nat, k: nat, part: seq<T>)
    requires p <= s && i + k <= |p| && p[i..i + k] == part
    ensures i + k <= |s| && s[i..i + k] == part
  {
    assert s[i..i + k] == s[..|p|][i..i + k];
  }

  /** A prefix of `s` is a prefix of `s` extended. */
  lemma PrefixTrans<T>(p: seq<T>, s: seq<T>, t: seq<T>)
    requires p <= s
    ensures p <= s + t
  {
    assert (s + t)[..|p|] == s[..|p|];
  }

  /** Multiplication distributes over addition. */
  lemma MulDist(a: int, b: int, m: int)
    ensures (a + b) * m == a * m + b * m && m * (a + b) == m * a + m * b
  {
  }

  /**
   * Vertex number lat · (n + 1) + lon of the sphere, the one the index
   * buffer's `a = lat * (segments + 1) + lon` refers to, is the point at
   * latitude step `lat` and longitude step `lon`.
   */
  lemma {:induction false} SphereGridAt(n: nat, rows: nat, lat: nat, lon: nat, cos: Angle -> real, sin: Angle -> real)
    requires n >= 1 && lat < rows && lon <= n
    ensures var v := 3 * (lat * (n + 1) + lon);
            v + 3 <= |SphereGrid(n, rows, cos, sin)| &&
            SphereGrid(n, rows, cos, sin)[v..v + 3] == SphereVertex(n, lat, lon, cos, sin)
  {
    SphereGridWindow(n, rows, lat, lon, cos, sin);
    SphereGridLength(n, lat, cos, sin);
    assert 3 * lat * (n + 1) == 3 * (lat * (n + 1));
    MulDist(lat * (n + 1), lon, 3);
  }

  /** Vertex (lat, lon) follows the vertices of rows 0 … lat − 1 and the lon earlier vertices of its own row. */
  lemma {:induction false} SphereGridWindow(n: nat, rows: nat, lat: nat, lon: nat, cos: Angle -> real, sin: Angle -> real)
    requires n >= 1 && lat < rows && lon <= n
    ensures var v := |SphereGrid(n, lat, cos, sin)| + 3 * lon;
            v + 3 <= |SphereGrid(n, rows, cos, sin)| &&
            SphereGrid(n, rows, cos, sin)[v..v + 3] == SphereVertex(n, lat, lon, cos, sin)
  {
    SphereRowWindow(n, lat, lon, cos, sin);
    SphereGridPrefix(n, lat + 1, rows, cos, sin);
    PrefixWindow(SphereGrid(n, lat + 1, cos, sin), SphereGrid(n, rows, cos, sin),
                 |SphereGrid(n, lat, cos, sin)| + 3 * lon, 3, SphereVertex(n, lat, lon, cos, sin));
  }

  /** Within the grid that ends with row `lat`, vertex (lat, lon) sits lon vertices into that row. */
  lemma SphereRowWindow(n: nat, lat: nat, lon: nat, cos: Angle -> real, sin: Angle -> real)
    requires n >= 1 && lon <= n
    ensures var v := |SphereGrid(n, lat, cos, sin)| + 3 * lon;
            v + 3 <= |SphereGrid(n, lat + 1, cos, sin)| &&
            SphereGrid(n, lat + 1, cos, sin)[v..v + 3] == SphereVertex(n, lat, lon, cos, sin)
  {
    SphereRowAt(n, lat, n + 1, lon, cos, sin);
    WindowRight(SphereGrid(n, lat, cos, sin), SphereRow(n, lat, n + 1, cos, sin),
                |SphereGrid(n, lat, cos, sin)| + 3 * lon, 3, SphereVertex(n, lat, lon, cos, sin));
  }

  /** The rows pushed first stay in place: the grid of fewer rows is a prefix. */
  lemma {:induction false} SphereGridPrefix(n: nat, a: nat, b: nat, cos: Angle -> real, sin: Angle -> real)
    requires n >= 1 && a <= b
    ensures SphereGrid(n, a, cos, sin) <= SphereGrid(n, b, cos, sin)
  {
    if a < b {
      SphereGridPrefix(n, a, b - 1, cos, sin);
      PrefixTrans(SphereGrid(n, a, cos, sin), SphereGrid(n, b - 1, cos, sin), SphereRow(n, b - 1, n + 1, cos, sin));
    }
  }

  /** Quad `lon` of row `lat` sits at positions 6·lon … 6·lon + 5 of the row. */
  lemma {:induction false} QuadRowAt(n: nat, lat: nat, k: nat, lon: nat)
    requires lon < k
    ensures QuadRow(n, lat, k)[6 * lon..6 * lon + 6] == SphereQuad(n, lat, lon)
  {
    var left := QuadRow(n, lat, k - 1);
    if lon < k - 1 {
      QuadRowAt(n, lat, k - 1, lon);
      WindowLeft(left, SphereQuad(n, lat, k - 1), 6 * lon, 6, SphereQuad(n, lat, lon));
    } else {
      WindowRight(left, SphereQuad(n, lat, k - 1), 6 * lon, 6, SphereQuad(n, lat, lon));
    }
  }

  /**
   * Quad (lat, lon) of the sphere, pushed as the (lat · n + lon)-th group of
   * six indices, is the pair of triangles [a, b, a + 1] and [b, b + 1, a + 1]
   * with a = lat · (n + 1) + lon and b = a + n + 1.
   */
  lemma {:induction false} QuadGridAt(n: nat, rows: nat, lat: nat, lon: nat)
    requires lat < rows && lon < n
    ensures var q := 6 * (lat * n + lon);
            q + 6 <= |QuadGrid(n, rows)| && QuadGrid(n, rows)[q..q + 6] == SphereQuad(n, lat, lon)
  {
    QuadGridWindow(n, rows, lat, lon);
    QuadGridLength(n, lat);
    assert 6 * lat * n == 6 * (lat * n);
    MulDist(lat * n, lon, 6);
  }

  /** Quad (lat, lon) follows the quads of rows 0 … lat − 1 and the lon earlier quads of its own row. */
  lemma {:induction false} QuadGridWindow(n: nat, rows: nat, lat: nat, lon: nat)
    requires lat < rows && lon < n
    ensures var q := |QuadGrid(n, lat)| + 6 * lon;
            q + 6 <= |QuadGrid(n, rows)| && QuadGrid(n, rows)[q..q + 6] == SphereQuad(n, lat, lon)
  {
    QuadRowWindow(n, lat, lon);
    QuadGridPrefix(n, lat + 1, rows);
    PrefixWindow(QuadGrid(n, lat + 1), QuadGrid(n, rows), |QuadGrid(n, lat)| + 6 * lon, 6, SphereQuad(n, lat, lon));
  }

  /** Within the grid that ends with row `lat`, quad (lat, lon) sits lon quads into that row. */
  lemma QuadRowWindow(n: nat, lat: nat, lon: nat)
    requires lon < n
    ensures var q := |QuadGrid(n, lat)| + 6 * lon;
            q + 6 <= |QuadGrid(n, lat + 1)| && QuadGrid(n, lat + 1)[q..q + 6] == SphereQuad(n, lat, lon)
  {
    QuadRowAt(n, lat, n, lon);
    WindowRight(QuadGrid(n, lat), QuadRow(n, lat, n), |QuadGrid(n, lat)| + 6 * lon, 6, SphereQuad(n, lat, lon));
  }

  /** The rows pushed first stay in place: the quads of fewer rows are a prefix. */
  lemma {:induction false} QuadGridPrefix(n: nat, a: nat, b: nat)
    requires a <= b
    ensures QuadGrid(n, a) <= QuadGrid(n, b)
  {
    if a < b {
      QuadGridPrefix(n, a, b - 1);
      PrefixTrans(QuadGrid(n, a), QuadGrid(n, b - 1), QuadRow(n, b - 1, n));
    }
  }

  // ---------------------------------------------------------------------------
  // Cylinder
  // ---------------------------------------------------------------------------

  /** The pair of vertices at angle step i: the rim point at y = 0, then the one above it at y = 1. */
  function CylinderPair(n: nat, i: nat, cos: Angle -> real, sin: Angle -> real): (r: seq<real>)
    requires n >= 1
    ensures |r| == 6 && r[1] == 0.0 && r[4] == 1.0
    ensures r[0] == r[3] && r[2] == r[5]
  {
    var a := Phi(n, i);
    [cos(a), 0.0, sin(a), cos(a), 1.0, sin(a)]
  }

  /** The first k vertex pairs, flattened. */
  function CylinderVerts(n: nat, k: nat, cos: Angle -> real, sin: Angle -> real): (r: seq<real>)
    requires n >= 1
    ensures |r| == 6 * k
  {
    if k == 0 then [] else CylinderVerts(n, k - 1, cos, sin) + CylinderPair(n, k - 1, cos, sin)
  }

  /** The two triangles of side strip i, between pairs i and i + 1. */
  function CylinderQuad(i: nat): seq<int> {
    var a := i * 2;
    var b := a + 2;
    [a, a + 1, b, b, a + 1, b + 1]
  }

  /** The first k side strips. */
  function CylinderIndices(k: nat): (r: seq<int>)
    ensures |r| == 6 * k
  {
    if k == 0 then [] else CylinderIndices(k - 1) + CylinderQuad(k - 1)
  }

  /** `createCylinder(n)`: n + 1 vertex pairs around the rim, then n side strips of two triangles. */
  method CreateCylinder(n: nat, cos: Angle -> real, sin: Angle -> real) returns (m: Mesh)
    requires n >= 1
    ensures m.verts == CylinderVerts(n, n + 1, cos, sin)
    ensures m.indices == ToUint16Array(CylinderIndices(n))
  {
    var verts: seq<real> := [];
    var indices: seq<int> := [];
    for i := 0 to n + 1
      invariant verts == CylinderVerts(n, i, cos, sin)
    {
      var a := Phi(n, i);
      verts := verts + [cos(a), 0.0, sin(a), cos(a), 1.0, sin(a)];
    }
    for i := 0 to n
      invariant indices == CylinderIndices(i)
    {
      var a := i * 2;
      var b := a + 2;
      indices := indices + [a, a + 1, b, b, a + 1, b + 1];
    }
    m := Mesh(verts, ToUint16Array(indices));
  }

  /** Every index of the first k strips names one of the first 2(k + 1) vertices. */
  lemma {:induction false} CylinderIndexBounds(k: nat)
    ensures forall x :: x in CylinderIndices(k) ==> 0 <= x < 2 * (k + 1)
  {
    if k > 0 {
      CylinderIndexBounds(k - 1);
    }
  }

  /** Pair i occupies coordinates 6i … 6i + 5. */
  lemma {:induction false} CylinderVertsAt(n: nat, k: nat, i: nat, cos: Angle -> real, sin: Angle -> real)
    requires n >= 1 && i < k
    ensures CylinderVerts(n, k, cos, sin)[6 * i..6 * i + 6] == CylinderPair(n, i, cos, sin)
  {
    if i < k - 1 {
      CylinderVertsAt(n, k - 1, i, cos, sin);
      var left := CylinderVerts(n, k - 1, cos, sin);
      assert CylinderVerts(n, k, cos, sin)[6 * i..6 * i + 6] == left[6 * i..6 * i + 6];
    }
  }

  /**
   * `createCylinder(n)` yields 2(n + 1) vertices and 6n indices, each below
   * 2(n + 1); vertex 2i is on the y = 0 rim and vertex 2i + 1 right above it
   * on the y = 1 rim, at the same angle.
   */
  lemma CylinderShape(n: nat, cos: Angle -> real, sin: Angle -> real)
    requires n >= 1
    ensures |CylinderVerts(n, n + 1, cos, sin)| == 3 * (2 * (n + 1))
    ensures |CylinderIndices(n)| == 6 * n
    ensures forall x :: x in CylinderIndices(n) ==> 0 <= x < 2 * (n + 1)
    ensures forall i :: 0 <= i <= n ==>
              var v := CylinderVerts(n, n + 1, cos, sin);
              v[6 * i + 1] == 0.0 && v[6 * i + 4] == 1.0 && v[6 * i] == v[6 * i + 3] && v[6 * i + 2] == v[6 * i + 5]
  {
    CylinderIndexBounds(n);
    forall i | 0 <= i <= n
      ensures var v := CylinderVerts(n, n + 1, cos, sin);
              v[6 * i + 1] == 0.0 && v[6 * i + 4] == 1.0 && v[6 * i] == v[6 * i + 3] && v[6 * i + 2] == v[6 * i + 5]
    {
      CylinderVertsAt(n, n + 1, i, cos, sin);
    }
  }

  /** The cylinder indices are small enough for 16 bits whatever n is below 32767. */
  lemma CylinderIndicesFitUint16(n: nat)
    requires n < 32767
    ensures forall i :: 0 <= i < |CylinderIndices(n)| ==> ToUint16Array(CylinderIndices(n))[i] as int == CylinderIndices(n)[i]
  {
    CylinderIndexBounds(n);
    forall i | 0 <= i < |CylinderIndices(n)|
      ensures 0 <= CylinderIndices(n)[i] < 0x1_0000
    {
      assert CylinderIndices(n)[i] in CylinderIndices(n);
    }
    ToUint16ArrayExact(CylinderIndices(n));
  }

  /** The renderer's cylinder has 18 vertices and 48 indices. */
  lemma RendererCylinder(cos: Angle -> real, sin: Angle -> real)
    ensures |CylinderVerts(CylinderSegments, CylinderSegments + 1, cos, sin)| / 3 == 18
    ensures |CylinderIndices(CylinderSegments)| == 48
  {
  }
}

/**
 * The five Platonic solids of the renderer (src/animations/platonic-solids.ts):
 * their literal vertex tables before normalisation and their literal edge
 * tables. Vertex coordinates are kept exact in ℤ[φ], the numbers a + b·φ with
 * φ = (1 + √5) / 2, which is where all the source's literals live (1/φ = φ − 1);
 * the normalising scale factors (√3, the vector lengths, 0.6, 0.85, 0.9) are
 * not computed here.
 */
module Catalog {

  /** The number a + b·φ, with φ² = φ + 1. */
  datatype Gold = Gold(a: int, b: int) {
    /** (a + bφ)(c + dφ) = ac + bd + (ad + bc + bd)φ, using φ² = φ + 1. */
    function Times(o: Gold): Gold {
      var x, y, u, v := a, b, o.a, o.b;
      Gold(x * u + y * v, x * v + y * u + y * v)
    }
  }

  const One := Gold(1, 0)
  const Zero := Gold(0, 0)
  const MinusOne := Gold(-1, 0)
  /** φ, the golden ratio `(1 + Math.sqrt(5)) / 2`. */
  const Phi := Gold(0, 1)
  /** `1 / phi`, which equals φ − 1. */
  const InvPhi := Gold(-1, 1)

  /** 1/φ really is the inverse of φ. */
  lemma InvPhiIsInverse()
    ensures Phi.Times(InvPhi) == One
  {
  }

  function Neg(x: Gold): Gold { Gold(-x.a, -x.b) }

  datatype Point = Point(x: Gold, y: Gold, z: Gold)

  function P(x: int, y: int, z: int): Point { Point(Gold(x, 0), Gold(y, 0), Gold(z, 0)) }

  type Edge = (nat, nat)

  /** A solid: its vertex table and its edge table, as the renderer lists them. */
  datatype Solid = Solid(verts: seq<Point>, edges: seq<Edge>)

  const TetraV: seq<Point> := [P(1, 1, 1), P(1, -1, -1), P(-1, 1, -1), P(-1, -1, 1)]
  const TetraE: seq<Edge> := [(0, 1), (0, 2), (0, 3), (1, 2), (1, 3), (2, 3)]

  const CubeV: seq<Point> := [P(-1, -1, -1), P(1, -1, -1), P(-1, 1, -1), P(1, 1, -1),
                              P(-1, -1, 1), P(1, -1, 1), P(-1, 1, 1), P(1, 1, 1)]
  const CubeE: seq<Edge> := [(0, 1), (2, 3), (4, 5), (6, 7), (0, 2), (1, 3), (4, 6), (5, 7),
                             (0, 4), (1, 5), (2, 6), (3, 7)]

  const OctaV: seq<Point> := [P(1, 0, 0), P(-1, 0, 0), P(0, 1, 0), P(0, -1, 0), P(0, 0, 1), P(0, 0, -1)]
  const OctaE: seq<Edge> := [(0, 2), (0, 3), (0, 4), (0, 5), (1, 2), (1, 3), (1, 4), (1, 5),
                             (2, 4), (2, 5), (3, 4), (3, 5)]

  const DodecaV: seq<Point> :=
    [P(1, 1, 1), P(1, 1, -1), P(1, -1, 1), P(1, -1, -1), P(-1, 1, 1), P(-1, 1, -1), P(-1, -1, 1), P(-1, -1, -1),
     Point(Zero, Phi, InvPhi), Point(Zero, Phi, Neg(InvPhi)), Point(Zero, Neg(Phi), InvPhi), Point(Zero, Neg(Phi), Neg(InvPhi)),
     Point(InvPhi, Zero, Phi), Point(Neg(InvPhi), Zero, Phi), Point(InvPhi, Zero, Neg(Phi)), Point(Neg(InvPhi), Zero, Neg(Phi)),
     Point(Phi, InvPhi, Zero), Point(Phi, Neg(InvPhi), Zero), Point(Neg(Phi), InvPhi, Zero), Point(Neg(Phi), Neg(InvPhi), Zero)]
  const DodecaE: seq<Edge> :=
    [(0, 12), (0, 16), (0, 8), (1, 14), (1, 16), (1, 9), (2, 12), (2, 17), (2, 10), (3, 14), (3, 17), (3, 11),
     (4, 13), (4, 18), (4, 8), (5, 15), (5, 18), (5, 9), (6, 13), (6, 19), (6, 10), (7, 15), (7, 19), (7, 11),
     (8, 9), (10, 11), (12, 13), (14, 15), (16, 17), (18, 19)]

  const IcosaV: seq<Point> :=
    [Point(Zero, One, Phi), Point(Zero, MinusOne, Phi), Point(Zero, One, Neg(Phi)), Point(Zero, MinusOne, Neg(Phi)),
     Point(One, Phi, Zero), Point(MinusOne, Phi, Zero), Point(One, Neg(Phi), Zero), Point(MinusOne, Neg(Phi), Zero),
     Point(Phi, Zero, One), Point(Neg(Phi), Zero, One), Point(Phi, Zero, MinusOne), Point(Neg(Phi), Zero, MinusOne)]
  const IcosaE: seq<Edge> :=
    [(0, 1), (0, 4), (0, 5), (0, 8), (0, 9), (1, 6), (1, 7), (1, 8), (1, 9), (2, 3), (2, 4), (2, 5), (2, 10), (2, 11),
     (3, 6), (3, 7), (3, 10), (3, 11), (4, 5), (4, 8), (4, 10), (5, 9), (5, 11), (6, 7), (6, 8), (6, 10), (7, 9),
     (7, 11), (8, 10), (9, 11)]

  /** `solids`, in drawing order: tetrahedron, cube, octahedron, dodecahedron, icosahedron. */
  const Solids: seq<Solid> := [Solid(TetraV, TetraE), Solid(CubeV, CubeE), Solid(OctaV, OctaE),
                               Solid(DodecaV, DodecaE), Solid(IcosaV, IcosaE)]

  /** Both endpoints of every edge exist. */
  predicate EdgesInRange(edges: seq<Edge>, vertexCount: nat) {
    forall k :: 0 <= k < |edges| ==> edges[k].0 < vertexCount && edges[k].1 < vertexCount
  }

  /** Every edge joins two different vertices, both of which exist. */
  predicate ValidEdges(edges: seq<Edge>, vertexCount: nat) {
    EdgesInRange(edges, vertexCount) && forall k :: 0 <= k < |edges| ==> edges[k].0 != edges[k].1
  }

  /** Every edge of the solid is valid against its own vertex table. */
  predicate ValidSolid(s: Solid) {
    ValidEdges(s.edges, |s.verts|)
  }

  /** No edge is listed twice, in either direction. */
  predicate NoRepeatedEdge(edges: seq<Edge>) {
    forall k, m :: 0 <= k < m < |edges| ==> edges[k] != edges[m] && edges[k] != (edges[m].1, edges[m].0)
  }

  /** Every edge is written smaller index first, as all five tables do. */
  predicate Ascending(edges: seq<Edge>) {
    forall k :: 0 <= k < |edges| ==> edges[k].0 < edges[k].1
  }

  /** No two entries have both endpoints equal. */
  predicate DistinctEntries(edges: seq<Edge>) {
    forall k, m :: 0 <= k < m < |edges| ==> edges[k].0 != edges[m].0 || edges[k].1 != edges[m].1
  }

  /** A table written smaller index first with distinct entries lists no edge twice, in either direction. */
  lemma {:induction false} AscendingNoRepeat(edges: seq<Edge>)
    requires Ascending(edges) && DistinctEntries(edges)
    ensures NoRepeatedEdge(edges)
  {
    forall k, m | 0 <= k < m < |edges|
      ensures edges[k] != edges[m] && edges[k] != (edges[m].1, edges[m].0)
    {
      assert edges[k].0 < edges[k].1 && edges[m].0 < edges[m].1;
    }
  }

  /** Tetrahedron: 4 vertices, 6 edges, every edge valid. */
  lemma TetrahedronShape()
    ensures |TetraV| == 4 && |TetraE| == 6 && ValidEdges(TetraE, |TetraV|)
  {
  }

  /** The tetrahedron's table lists no edge twice. */
  lemma TetrahedronNoRepeat()
    ensures NoRepeatedEdge(TetraE)
  {
    assert Ascending(TetraE);
    assert DistinctEntries(TetraE);
    AscendingNoRepeat(TetraE);
  }

  /** Cube: 8 vertices, 12 edges, every edge valid. */
  lemma CubeShape()
    ensures |CubeV| == 8 && |CubeE| == 12 && ValidEdges(CubeE, |CubeV|)
  {
  }

  /** The cube's table lists no edge twice. */
  lemma CubeNoRepeat()
    ensures NoRepeatedEdge(CubeE)
  {
    assert Ascending(CubeE);
    assert DistinctEntries(CubeE);
    AscendingNoRepeat(CubeE);
  }

  /** Octahedron: 6 vertices, 12 edges, every edge valid. */
  lemma OctahedronShape()
    ensures |OctaV| == 6 && |OctaE| == 12 && ValidEdges(OctaE, |OctaV|)
  {
  }

  /** The octahedron's table lists no edge twice. */
  lemma OctahedronNoRepeat()
    ensures NoRepeatedEdge(OctaE)
  {
    assert Ascending(OctaE);
    assert DistinctEntries(OctaE);
    AscendingNoRepeat(OctaE);
  }

  /** Dodecahedron: 20 vertices, 30 edges, every edge valid. */
  lemma DodecahedronShape()
    ensures |DodecaV| == 20 && |DodecaE| == 30 && ValidEdges(DodecaE, |DodecaV|)
  {
  }

  /** The dodecahedron's table lists no edge twice. */
  lemma DodecahedronNoRepeat()
    ensures NoRepeatedEdge(DodecaE)
  {
    DodecahedronAscending();
    DodecahedronDistinct();
    AscendingNoRepeat(DodecaE);
  }

  lemma DodecahedronAscending()
    ensures Ascending(DodecaE)
  {
  }

  lemma DodecahedronDistinct()
    ensures DistinctEntries(DodecaE)
  {
    assert forall k, m :: 0 <= k < m < |DodecaE| ==> DodecaE[k].0 != DodecaE[m].0 || DodecaE[k].1 != DodecaE[m].1;
  }

  /** Icosahedron: 12 vertices, 30 edges, every edge valid. */
  lemma IcosahedronShape()
    ensures |IcosaV| == 12 && |IcosaE| == 30 && ValidEdges(IcosaE, |IcosaV|)
  {
  }

  /** The icosahedron's table lists no edge twice. */
  lemma IcosahedronNoRepeat()
    ensures NoRepeatedEdge(IcosaE)
  {
    IcosahedronAscending();
    IcosahedronDistinct();
    AscendingNoRepeat(IcosaE);
  }

  lemma IcosahedronAscending()
    ensures Ascending(IcosaE)
  {
  }

  lemma IcosahedronDistinct()
    ensures DistinctEntries(IcosaE)
  {
    assert forall k, m :: 0 <= k < m < |IcosaE| ==> IcosaE[k].0 != IcosaE[m].0 || IcosaE[k].1 != IcosaE[m].1;
  }

  /** All five solids in `solids` are valid, in the order listed. */
  lemma SolidsValid()
    ensures |Solids| == 5
    ensures forall i :: 0 <= i < |Solids| ==> ValidSolid(Solids[i])
  {
    TetrahedronShape();
    CubeShape();
    OctahedronShape();
    DodecahedronShape();
    IcosahedronShape();
    assert Solids[0] == Solid(TetraV, TetraE) && Solids[1] == Solid(CubeV, CubeE);
    assert Solids[2] == Solid(OctaV, OctaE) && Solids[3] == Solid(DodecaV, DodecaE);
    assert Solids[4] == Solid(IcosaV, IcosaE);
  }
}

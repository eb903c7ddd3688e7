/**
 * The per-solid data of the renderer (src/animations/platonic-solids.ts):
 * the instance buffers flattened from each solid's vertices and edges, and
 * the 40-float uniform block packed for each solid in every frame. Vertex
 * positions come from the catalog through an opaque placement (the source's
 * square-root normalisation and scale); perspective and the trigonometry of
 * the frame's angles are inputs.
 */
module Render {
  import opened Matrix
  import Catalog
  import Random

  type Vec3 = v: seq<real> | |v| == 3 witness [0.0, 0.0, 0.0]

  /** Bytes in one float32. */
  const FloatBytes: nat := 4
  /** `arrayStride` of the sphere instances: one float32x3 position. */
  const VertexStride: nat := 12
  /** `arrayStride` of the cylinder instances: two float32x3 endpoints. */
  const EdgeStride: nat := 24

  /** `s.v.flat()`: the vertices' coordinates, one vertex after another. */
  function VertData(v: seq<Vec3>): (r: seq<real>)
    ensures |r| == 3 * |v|
    ensures forall i :: 0 <= i < |v| ==> r[3 * i..3 * i + 3] == v[i]
  {
    if |v| == 0 then []
    else
      var rest := VertData(v[1..]);
      var r := v[0] + rest;
      assert forall i :: 1 <= i < |v| ==> r[3 * i..3 * i + 3] == rest[3 * (i - 1)..3 * (i - 1) + 3];
      r
  }

  /** `s.e.flatMap(([a, b]) => [...s.v[a], ...s.v[b]])`: both endpoints of each edge. */
  function EdgeData(v: seq<Vec3>, e: seq<Catalog.Edge>): (r: seq<real>)
    requires Catalog.EdgesInRange(e, |v|)
    ensures |r| == 6 * |e|
    ensures forall k :: 0 <= k < |e| ==> r[6 * k..6 * k + 3] == v[e[k].0] && r[6 * k + 3..6 * k + 6] == v[e[k].1]
  {
    if |e| == 0 then []
    else
      var rest := EdgeData(v, e[1..]);
      EdgeDataCons(v, e, rest);
      v[e[0].0] + v[e[0].1] + rest
  }

  /** The endpoints of the first edge, put in front of the data of the others, give the data of all. */
  lemma EdgeDataCons(v: seq<Vec3>, e: seq<Catalog.Edge>, rest: seq<real>)
    requires |e| > 0 && Catalog.EdgesInRange(e, |v|)
    requires |rest| == 6 * |e[1..]|
    requires forall k :: 0 <= k < |e[1..]| ==>
               rest[6 * k..6 * k + 3] == v[e[1..][k].0] && rest[6 * k + 3..6 * k + 6] == v[e[1..][k].1]
    ensures var r: seq<real> := v[e[0].0] + v[e[0].1] + rest;
            forall k :: 0 <= k < |e| ==> r[6 * k..6 * k + 3] == v[e[k].0] && r[6 * k + 3..6 * k + 6] == v[e[k].1]
  {
    var a: seq<real>, b: seq<real> := v[e[0].0], v[e[0].1];
    var head := a + b;
    var r: seq<real> := head + rest;
    forall k | 0 <= k < |e|
      ensures r[6 * k..6 * k + 3] == v[e[k].0] && r[6 * k + 3..6 * k + 6] == v[e[k].1]
    {
      if k == 0 {
        assert r[0..3] == head[0..3];
        assert r[3..6] == head[3..6];
      } else {
        assert e[k] == e[1..][k - 1];
        assert r[6 * k..6 * k + 3] == rest[6 * (k - 1)..6 * (k - 1) + 3];
        assert r[6 * k + 3..6 * k + 6] == rest[6 * (k - 1) + 3..6 * (k - 1) + 6];
      }
    }
  }

  /** The instance buffers of one solid and the instance counts drawn from them. */
  datatype SolidData = SolidData(vertData: seq<real>, vertCount: nat, edgeData: seq<real>, edgeCount: nat)

  /** Position of each catalog vertex, after the solid's normalisation. */
  function Positions(verts: seq<Catalog.Point>, place: Catalog.Point -> Vec3): (r: seq<Vec3>)
    ensures |r| == |verts| && forall i :: 0 <= i < |verts| ==> r[i] == place(verts[i])
  {
    seq(|verts|, i requires 0 <= i < |verts| => place(verts[i]))
  }

  /** One element of `solidData`. */
  function MakeSolidData(s: Catalog.Solid, place: Catalog.Point -> Vec3): SolidData
    requires Catalog.EdgesInRange(s.edges, |s.verts|)
  {
    var pos := Positions(s.verts, place);
    SolidData(VertData(pos), |s.verts|, EdgeData(pos, s.edges), |s.edges|)
  }

  /**
   * Each buffer holds exactly one stride per instance: the sphere pass reads
   * `vertCount` instances of 12 bytes and the cylinder pass `edgeCount`
   * instances of 24 bytes, and the k-th cylinder instance is the k-th edge.
   */
  lemma InstanceLayout(s: Catalog.Solid, place: Catalog.Point -> Vec3)
    requires Catalog.EdgesInRange(s.edges, |s.verts|)
    ensures var d := MakeSolidData(s, place);
            && |d.vertData| * FloatBytes == d.vertCount * VertexStride
            && |d.edgeData| * FloatBytes == d.edgeCount * EdgeStride
            && d.vertCount == |s.verts| && d.edgeCount == |s.edges|
            && (forall i :: 0 <= i < |s.verts| ==> d.vertData[3 * i..3 * i + 3] == place(s.verts[i]))
            && (forall k :: 0 <= k < |s.edges| ==>
                  && d.edgeData[6 * k..6 * k + 3] == place(s.verts[s.edges[k].0])
                  && d.edgeData[6 * k + 3..6 * k + 6] == place(s.verts[s.edges[k].1]))
  {
  }

  /** Every solid of the catalog can be flattened: no edge reads past its vertex table. */
  lemma AllSolidsFlatten(i: nat)
    requires i < |Catalog.Solids|
    ensures Catalog.ValidSolid(Catalog.Solids[i])
  {
    Catalog.SolidsValid();
  }

  /** `nearCol` and `farCol`. */
  const NearColor: seq<real> := [0.208, 0.655, 0.486, 1.0]
  const FarColor: seq<real> := [0.875, 0.412, 0.729, 1.0]

  /** The floats in one uniform block, and the bytes of each uniform buffer. */
  const UniformFloats: nat := 40
  const UniformBytes: nat := 160

  /** The block as the shader reads it: mvp, modelView, near colour, far colour. */
  function UniformBlock(mvp: Mat4, modelView: Mat4): (r: seq<real>)
    ensures |r| == UniformFloats
    ensures r[0..16] == mvp && r[16..32] == modelView
    ensures r[32..36] == NearColor && r[36..40] == FarColor
    ensures |r| * FloatBytes == UniformBytes
  {
    var r := mvp + modelView + NearColor + FarColor;
    assert r[0..16] == mvp;
    assert r[16..32] == modelView;
    assert r[32..36] == NearColor;
    assert r[36..40] == FarColor;
    r
  }

  /** `data.set(src, offset)`: src replaces the elements from `offset` on, and nothing else changes. */
  method SetAt(data: array<real>, src: seq<real>, offset: nat)
    requires offset + |src| <= data.Length
    modifies data
    ensures data[..] == old(data[..])[..offset] + src + old(data[..])[offset + |src|..]
  {
    forall i | offset <= i < offset + |src| {
      data[i] := src[i - offset];
    }
  }

  /** `new Float32Array(40)` filled by the four `data.set` calls. */
  method PackUniforms(mvp: Mat4, modelView: Mat4) returns (block: seq<real>)
    ensures block == UniformBlock(mvp, modelView)
  {
    var data := new real[40];
    SetAt(data, mvp, 0);
    SetAt(data, modelView, 16);
    SetAt(data, NearColor, 32);
    SetAt(data, FarColor, 36);
    block := data[..];
    assert block == mvp + modelView + NearColor + FarColor;
  }

  /** `spacing`. */
  const Spacing: real := 2.5

  /** `x = (i - 2) * spacing`, the position of solid i along the row. */
  function SolidX(i: nat): real {
    (i as real - 2.0) * Spacing
  }

  /** `angle = t * (0.5 + i * 0.1)`. */
  function SolidAngle(t: real, i: nat): real {
    t * (0.5 + i as real * 0.1)
  }

  /** `view = translate(0, 0, -8)`. */
  const View: Mat4 := Translate(0.0, 0.0, -8.0)

  /** `modelView = view · translate(x, 0, 0) · rotateAxis(axis, angle)`. */
  function ModelView(i: nat, axis: Vec3, c: real, s: real): Mat4 {
    Mul(View, Mul(Translate(SolidX(i), 0.0, 0.0), RotateAxis(axis[0], axis[1], axis[2], c, s)))
  }

  /** The solids are 2.5 apart, in index order, and solid 2 sits at the origin. */
  lemma SolidRow(i: nat)
    ensures SolidX(i + 1) - SolidX(i) == Spacing
    ensures SolidX(2) == 0.0
    ensures SolidX(0) == -5.0 && SolidX(4) == 5.0
  {
  }

  /** A matrix whose last column is (0, 0, 0, 1) keeps the last column of whatever it follows. */
  lemma KeepsLastColumn(a: Mat4, b: Mat4, row: nat)
    requires row < 4
    requires At(b, 0, 3) == 0.0 && At(b, 1, 3) == 0.0 && At(b, 2, 3) == 0.0 && At(b, 3, 3) == 1.0
    ensures At(Mul(a, b), row, 3) == At(a, row, 3)
  {
    MulAt(a, b, row, 3);
  }

  /** The last column of the view after a model whose last column is (x, 0, 0, 1). */
  lemma ViewLastColumn(m: Mat4, x: real, row: nat)
    requires row < 4
    requires At(m, 0, 3) == x && At(m, 1, 3) == 0.0 && At(m, 2, 3) == 0.0 && At(m, 3, 3) == 1.0
    ensures At(Mul(View, m), row, 3) == [x, 0.0, -8.0, 1.0][row]
  {
    MulAt(View, m, row, 3);
    TranslateAt(0.0, 0.0, -8.0, row, 0);
    TranslateAt(0.0, 0.0, -8.0, row, 1);
    TranslateAt(0.0, 0.0, -8.0, row, 2);
    TranslateAt(0.0, 0.0, -8.0, row, 3);
  }

  /** `m · (0, 0, 0, 1)` is the last column of m. */
  lemma ApplyToOrigin(m: Mat4)
    ensures Apply(m, [0.0, 0.0, 0.0, 1.0]) == [At(m, 0, 3), At(m, 1, 3), At(m, 2, 3), At(m, 3, 3)]
  {
  }

  /**
   * Whatever the axis and the angle, the centre of solid i is seen at
   * (x_i, 0, −8): the rotation turns the solid about its own centre, which
   * the model translation then places on the row in front of the camera.
   */
  lemma SolidCentre(i: nat, axis: Vec3, c: real, s: real)
    ensures Apply(ModelView(i, axis, c, s), [0.0, 0.0, 0.0, 1.0]) == [SolidX(i), 0.0, -8.0, 1.0]
  {
    var rot := RotateAxis(axis[0], axis[1], axis[2], c, s);
    var tr := Translate(SolidX(i), 0.0, 0.0);
    var model := Mul(tr, rot);
    forall row: nat | row < 4
      ensures At(model, row, 3) == [SolidX(i), 0.0, 0.0, 1.0][row]
    {
      KeepsLastColumn(tr, rot, row);
      TranslateAt(SolidX(i), 0.0, 0.0, row, 3);
    }
    var mv := ModelView(i, axis, c, s);
    forall row: nat | row < 4
      ensures At(mv, row, 3) == [SolidX(i), 0.0, -8.0, 1.0][row]
    {
      ViewLastColumn(model, SolidX(i), row);
    }
    ApplyToOrigin(mv);
  }

  /**
   * The axes `rand` draws are what `rotateAxis` needs: with a true sine and
   * cosine, the rotation about axis i keeps every vector's length and leaves
   * the axis itself in place.
   */
  lemma DrawnAxisRotates(seed: nat, i: nat, trig: Random.Trig, c: real, s: real, v: Vec4)
    requires Random.Pythagorean(trig)
    requires c * c + s * s == 1.0
    ensures var a := Random.AxisAt(seed, i, trig);
            var r := Apply(RotateAxis(a[0], a[1], a[2], c, s), v);
            && Dot(r[0], r[1], r[2], r[0], r[1], r[2]) == Dot(v[0], v[1], v[2], v[0], v[1], v[2])
            && Apply(RotateAxis(a[0], a[1], a[2], c, s), [a[0], a[1], a[2], 0.0]) == [a[0], a[1], a[2], 0.0]
  {
    var a := Random.AxisAt(seed, i, trig);
    Random.AxisAtIsUnit(seed, i, trig);
    assert Dot(a[0], a[1], a[2], a[0], a[1], a[2]) == 1.0;
    RotationPreservesLength(a[0], a[1], a[2], c, s, v);
    RotationFixesAxis(a[0], a[1], a[2], c, s);
  }

  /** The block for solid i at time t: its mvp = proj · modelView, and its modelView. */
  function SolidBlock(i: nat, t: real, proj: Mat4, axis: Vec3, cos: real -> real, sin: real -> real): seq<real> {
    var mv := ModelView(i, axis, cos(SolidAngle(t, i)), sin(SolidAngle(t, i)));
    UniformBlock(Mul(proj, mv), mv)
  }

  /** One pass of the per-solid loop: the block that `render` writes for solid i. */
  method SolidUniforms(i: nat, t: real, proj: Mat4, axis: Vec3, cos: real -> real, sin: real -> real)
    returns (data: seq<real>)
    ensures data == SolidBlock(i, t, proj, axis, cos, sin)
  {
    var x := (i as real - 2.0) * Spacing;
    var angle := t * (0.5 + i as real * 0.1);
    assert x == SolidX(i) && angle == SolidAngle(t, i);
    var model := MulMat4(Translate(x, 0.0, 0.0), RotateAxis(axis[0], axis[1], axis[2], cos(angle), sin(angle)));
    var modelView := MulMat4(View, model);
    assert modelView == ModelView(i, axis, cos(SolidAngle(t, i)), sin(SolidAngle(t, i)));
    var mvp := MulMat4(proj, modelView);
    data := PackUniforms(mvp, modelView);
  }

  /** `n` blocks, one per solid in index order, block i being `block(i)`. */
  function Frame<T>(n: nat, block: nat -> T): (r: seq<T>)
    ensures |r| == n
  {
    if n == 0 then [] else Frame(n - 1, block) + [block(n - 1)]
  }

  /** Block i of a frame is the block of solid i, whatever the number of solids after it. */
  lemma {:induction false} FrameAt<T>(n: nat, block: nat -> T, i: nat)
    requires i < n
    ensures Frame(n, block)[i] == block(i)
  {
    if i < n - 1 {
      FrameAt(n - 1, block, i);
    }
  }

  /** The block of each solid at time t, for the solids that have an axis. */
  function SolidBlocks(t: real, proj: Mat4, axes: seq<Vec3>, cos: real -> real, sin: real -> real): nat -> seq<real> {
    (i: nat) => if i < |axes| then SolidBlock(i, t, proj, axes[i], cos, sin) else []
  }

  /**
   * The per-solid loop of `render`: for each solid, in index order, the
   * block written to `uniforms[i]`. The cosine and sine of each angle and
   * the projection are inputs.
   */
  method FrameUniforms(t: real, proj: Mat4, axes: seq<Vec3>, cos: real -> real, sin: real -> real)
    returns (uniforms: seq<seq<real>>)
    requires |axes| == 5
    ensures uniforms == Frame(5, SolidBlocks(t, proj, axes, cos, sin))
  {
    uniforms := [];
    for i := 0 to 5
      invariant uniforms == Frame(i, SolidBlocks(t, proj, axes, cos, sin))
    {
      var data := SolidUniforms(i, t, proj, axes[i], cos, sin);
      uniforms := uniforms + [data];
    }
  }

  /** The frame has a block per solid, and block i is solid i's. */
  lemma FrameBlocks(t: real, proj: Mat4, axes: seq<Vec3>, cos: real -> real, sin: real -> real, i: nat)
    requires |axes| == 5 && i < 5
    ensures |Frame(5, SolidBlocks(t, proj, axes, cos, sin))| == 5
    ensures Frame(5, SolidBlocks(t, proj, axes, cos, sin))[i] == SolidBlock(i, t, proj, axes[i], cos, sin)
  {
    FrameAt(5, SolidBlocks(t, proj, axes, cos, sin), i);
  }
}

/**
 The three growth loops of the builders. Each seeds the buffers and then,
 once per remaining segment, appends the triangle indices computed from the
 current vertex count and the vertices rotated from earlier ones, exactly as
 the builders of CircleShapeMesh do.
 */
module Sweeps {
  import opened Geometry
  import opened Layouts

  /**
   Seed quad plus one quad per remaining segment: the loop shared by the
   doughnut, narrow and (inner arc non-zero) fan builders.
   */
  method BuildQuadStrip(inner0: Vertex, outer0: Vertex, innerStep: real, outerStep: real, segments: int)
    returns (m: Mesh)
    requires inner0.dz == 0.0 && outer0.dz == 0.0
    ensures IsQuadStrip(m, inner0, outer0, innerStep, outerStep, Spans(segments))
    ensures WellFormed(m)
  {
    var vertices := [inner0, outer0];
    vertices := vertices + [Rotate(vertices[1], outerStep)];
    vertices := vertices + [Rotate(vertices[0], innerStep)];
    var triangles := [0, 1, 2, 0, 2, 3];
    assert vertices[InnerSlot(1)] == Sweep(inner0, innerStep, 1);
    assert vertices[OuterSlot(1)] == Sweep(outer0, outerStep, 1);

    var i := 0;
    while i < segments - 1
      invariant 0 <= i && i + 1 <= Spans(segments)
      invariant IsQuadStrip(Mesh(vertices, triangles), inner0, outer0, innerStep, outerStep, i + 1)
    {
      QuadStripGrows(vertices, triangles, inner0, outer0, innerStep, outerStep, i + 1);
      triangles := triangles + [|vertices| - 1, |vertices| - 2, |vertices|, |vertices| - 1, |vertices|, |vertices| + 1];
      vertices := vertices + [Rotate(vertices[|vertices| - 2], outerStep)];
      vertices := vertices + [Rotate(vertices[|vertices| - 2], innerStep)];
      i := i + 1;
    }
    m := Mesh(vertices, triangles);
    QuadStripWellFormed(m, inner0, outer0, innerStep, outerStep, i + 1);
  }

  /**
   One loop iteration turns a strip of q quads into a strip of q + 1 quads:
   the last two slots hold the newest outer and inner vertices, and rotating
   them, outer first, appends the next pair.
   */
  lemma QuadStripGrows(vertices: seq<Vertex>, triangles: seq<int>, inner0: Vertex, outer0: Vertex,
                       innerStep: real, outerStep: real, q: nat)
    requires q >= 1 && IsQuadStrip(Mesh(vertices, triangles), inner0, outer0, innerStep, outerStep, q)
    ensures vertices[|vertices| - 2] == Sweep(outer0, outerStep, q)
    ensures vertices[|vertices| - 1] == Sweep(inner0, innerStep, q)
    ensures
      var c := |vertices|;
      var withOuter := vertices + [Rotate(vertices[c - 2], outerStep)];
      var grown := withOuter + [Rotate(withOuter[|withOuter| - 2], innerStep)];
      IsQuadStrip(Mesh(grown, triangles + [c - 1, c - 2, c, c - 1, c, c + 1]), inner0, outer0, innerStep, outerStep, q + 1)
  {
    var m := Mesh(vertices, triangles);
    var c := |vertices|;
    assert m.vertices[OuterSlot(q)] == Sweep(outer0, outerStep, q);
    assert m.vertices[InnerSlot(q)] == Sweep(inner0, innerStep, q);
    var withOuter := vertices + [Rotate(vertices[c - 2], outerStep)];
    var grown := withOuter + [Rotate(withOuter[|withOuter| - 2], innerStep)];
    assert grown == m.vertices + [Sweep(outer0, outerStep, q + 1), Sweep(inner0, innerStep, q + 1)];
    QuadVerticesGrow(m, inner0, outer0, innerStep, outerStep, q);
    QuadIndicesGrow(m, inner0, outer0, innerStep, outerStep, q);
  }

  /** The vertex half of one iteration: both boundaries gain their next swept vertex. */
  lemma QuadVerticesGrow(m: Mesh, inner0: Vertex, outer0: Vertex, innerStep: real, outerStep: real, q: nat)
    requires q >= 1 && IsQuadStrip(m, inner0, outer0, innerStep, outerStep, q)
    ensures
      var vertices := m.vertices + [Sweep(outer0, outerStep, q + 1), Sweep(inner0, innerStep, q + 1)];
      && (forall k: nat :: k <= q + 1 ==> vertices[InnerSlot(k)] == Sweep(inner0, innerStep, k))
      && (forall k: nat :: k <= q + 1 ==> vertices[OuterSlot(k)] == Sweep(outer0, outerStep, k))
  {
    var vertices := m.vertices + [Sweep(outer0, outerStep, q + 1), Sweep(inner0, innerStep, q + 1)];
    forall k: nat | k <= q + 1
      ensures vertices[InnerSlot(k)] == Sweep(inner0, innerStep, k)
      ensures vertices[OuterSlot(k)] == Sweep(outer0, outerStep, k)
    {
      if k <= q {
        assert vertices[InnerSlot(k)] == m.vertices[InnerSlot(k)];
        assert vertices[OuterSlot(k)] == m.vertices[OuterSlot(k)];
      }
    }
  }

  /** The index half of one iteration: the six indices appended form quad q. */
  lemma QuadIndicesGrow(m: Mesh, inner0: Vertex, outer0: Vertex, innerStep: real, outerStep: real, q: nat)
    requires q >= 1 && IsQuadStrip(m, inner0, outer0, innerStep, outerStep, q)
    ensures
      var c := |m.vertices|;
      var triangles := m.triangles + [c - 1, c - 2, c, c - 1, c, c + 1];
      forall k: nat :: k < q + 1 ==> triangles[6 * k .. 6 * k + 6] == QuadTriangles(k)
  {
    var c := |m.vertices|;
    var triangles := m.triangles + [c - 1, c - 2, c, c - 1, c, c + 1];
    forall k: nat | k < q + 1
      ensures triangles[6 * k .. 6 * k + 6] == QuadTriangles(k)
    {
      if k < q {
        assert triangles[6 * k .. 6 * k + 6] == m.triangles[6 * k .. 6 * k + 6];
      } else {
        assert triangles[6 * k .. 6 * k + 6] == [c - 1, c - 2, c, c - 1, c, c + 1];
      }
    }
  }

  /**
   The pointy builder's loop: the rim starts at slot 0, the apex sits at slot 1,
   and every triangle joins two consecutive rim vertices to the apex.
   */
  method BuildApexFan(rim0: Vertex, apex: Vertex, step: real, segments: int) returns (m: Mesh)
    requires rim0.dz == 0.0
    ensures IsApexFan(m, rim0, apex, step, Spans(segments))
    ensures WellFormed(m)
  {
    var vertices := [rim0, apex];
    vertices := vertices + [Rotate(vertices[0], step)];
    var triangles := [0, 1, 2];
    assert vertices[ApexRimSlot(1)] == Sweep(rim0, step, 1);

    var i := 0;
    while i < segments - 1
      invariant 0 <= i && i + 1 <= Spans(segments)
      invariant IsApexFan(Mesh(vertices, triangles), rim0, apex, step, i + 1)
    {
      ApexFanGrows(vertices, triangles, rim0, apex, step, i + 1);
      triangles := triangles + [|vertices| - 1, 1, |vertices|];
      vertices := vertices + [Rotate(vertices[|vertices| - 1], step)];
      i := i + 1;
    }
    m := Mesh(vertices, triangles);
    ApexFanWellFormed(m, rim0, apex, step, i + 1);
  }

  /**
   One loop iteration adds the next rim vertex and its triangle to an apex fan:
   the last slot holds the newest rim vertex, and rotating it appends the next.
   */
  lemma ApexFanGrows(vertices0: seq<Vertex>, triangles0: seq<int>, rim0: Vertex, apex: Vertex, step: real, t: nat)
    requires t >= 1 && IsApexFan(Mesh(vertices0, triangles0), rim0, apex, step, t)
    ensures vertices0[|vertices0| - 1] == Sweep(rim0, step, t)
    ensures
      var c := |vertices0|;
      IsApexFan(Mesh(vertices0 + [Rotate(vertices0[c - 1], step)], triangles0 + [c - 1, 1, c]), rim0, apex, step, t + 1)
  {
    var m := Mesh(vertices0, triangles0);
    var c := |m.vertices|;
    assert m.vertices[ApexRimSlot(t)] == Sweep(rim0, step, t);
    var vertices := m.vertices + [Sweep(rim0, step, t + 1)];
    var triangles := m.triangles + [c - 1, 1, c];
    assert vertices[1] == m.vertices[1];
    assert ApexRimSlot(t + 1) == c;
    forall k: nat | k <= t + 1
      ensures vertices[ApexRimSlot(k)] == Sweep(rim0, step, k)
    {
      if k <= t {
        assert ApexRimSlot(k) < c;
        assert vertices[ApexRimSlot(k)] == m.vertices[ApexRimSlot(k)];
      }
    }
    forall k: nat | k < t + 1
      ensures triangles[3 * k .. 3 * k + 3] == ApexTriangle(k)
    {
      if k < t {
        assert triangles[3 * k .. 3 * k + 3] == m.triangles[3 * k .. 3 * k + 3];
      } else {
        assert triangles[3 * k .. 3 * k + 3] == [c - 1, 1, c];
      }
    }
  }

  /**
   The loop shared by the circle builder and the fan builder without an inner
   arc: vertex 0 is the pivot, the rim follows from slot 1, and every triangle
   joins the pivot to two consecutive rim vertices.
   */
  method BuildPivotFan(pivot: Vertex, rim0: Vertex, step: real, segments: int) returns (m: Mesh)
    requires rim0.dz == 0.0
    ensures IsPivotFan(m, pivot, rim0, step, Spans(segments))
    ensures WellFormed(m)
  {
    var vertices := [pivot, rim0];
    vertices := vertices + [Rotate(vertices[1], step)];
    var triangles := [0, 1, 2];
    assert vertices[PivotRimSlot(1)] == Sweep(rim0, step, 1);

    var i := 0;
    while i < segments - 1
      invariant 0 <= i && i + 1 <= Spans(segments)
      invariant IsPivotFan(Mesh(vertices, triangles), pivot, rim0, step, i + 1)
    {
      PivotFanGrows(vertices, triangles, pivot, rim0, step, i + 1);
      triangles := triangles + [0, |vertices| - 1, |vertices|];
      vertices := vertices + [Rotate(vertices[|vertices| - 1], step)];
      i := i + 1;
    }
    m := Mesh(vertices, triangles);
    PivotFanWellFormed(m, pivot, rim0, step, i + 1);
  }

  /**
   One loop iteration adds the next rim vertex and its triangle to a pivot fan:
   the last slot holds the newest rim vertex, and rotating it appends the next.
   */
  lemma PivotFanGrows(vertices0: seq<Vertex>, triangles0: seq<int>, pivot: Vertex, rim0: Vertex, step: real, t: nat)
    requires t >= 1 && IsPivotFan(Mesh(vertices0, triangles0), pivot, rim0, step, t)
    ensures vertices0[|vertices0| - 1] == Sweep(rim0, step, t)
    ensures
      var c := |vertices0|;
      IsPivotFan(Mesh(vertices0 + [Rotate(vertices0[c - 1], step)], triangles0 + [0, c - 1, c]), pivot, rim0, step, t + 1)
  {
    var m := Mesh(vertices0, triangles0);
    var c := |m.vertices|;
    assert m.vertices[PivotRimSlot(t)] == Sweep(rim0, step, t);
    var vertices := m.vertices + [Sweep(rim0, step, t + 1)];
    var triangles := m.triangles + [0, c - 1, c];
    forall k: nat | k <= t + 1
      ensures vertices[PivotRimSlot(k)] == Sweep(rim0, step, k)
    {
      if k <= t {
        assert vertices[PivotRimSlot(k)] == m.vertices[PivotRimSlot(k)];
      }
    }
    forall k: nat | k < t + 1
      ensures triangles[3 * k .. 3 * k + 3] == PivotTriangle(k)
    {
      if k < t {
        assert triangles[3 * k .. 3 * k + 3] == m.triangles[3 * k .. 3 * k + 3];
      } else {
        assert triangles[3 * k .. 3 * k + 3] == [0, c - 1, c];
      }
    }
  }
}

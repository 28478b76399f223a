/**
 The two buffers a build produces and the three layouts the builders emit.

 A layout predicate pins down, slot by slot, where each boundary vertex of a
 build lives in the vertex buffer and which index triples the triangle
 buffer holds. The builder methods promise one of these layouts; the lemmas
 here derive what every layout guarantees (in-bound indices, stride 3, the
 shared pivot, repeated rotation) and show that a layout determines the
 buffers completely.
 */
module Layouts {
  import opened Geometry

  /** The vertex buffer and the flat triangle-index buffer (three indices per triangle). */
  datatype Mesh = Mesh(vertices: seq<Vertex>, triangles: seq<int>)

  /** Every index names an existing vertex, and the index buffer has stride 3. */
  predicate WellFormed(m: Mesh)
  {
    && |m.triangles| % 3 == 0
    && forall j :: 0 <= j < |m.triangles| ==> 0 <= m.triangles[j] < |m.vertices|
  }

  /** The `t`-th triangle of the flat index buffer. */
  function Triangle(m: Mesh, t: nat): seq<int>
    requires 3 * t + 3 <= |m.triangles|
  {
    m.triangles[3 * t .. 3 * t + 3]
  }

  /** Every triangle of `m` uses vertex `v` as one of its corners. */
  predicate EveryTriangleHas(m: Mesh, v: int)
  {
    forall t: nat :: t < |m.triangles| / 3 ==> v in Triangle(m, t)
  }

  /**
   Number of sweep steps a build emits: the seed step plus one per iteration
   beyond the seed, so never fewer than one.
   */
  function Spans(segments: int): (n: nat)
    ensures segments >= 1 ==> n == segments
    ensures segments <= 1 ==> n == 1
  {
    if segments > 1 then segments else 1
  }

  // ---------------------------------------------------------------- quad strip

  /** Slot of the k-th inner boundary vertex: 0, then 3, 5, 7, ... */
  function InnerSlot(k: nat): nat
  {
    if k == 0 then 0 else 2 * k + 1
  }

  /** Slot of the k-th outer boundary vertex: 1, then 2, 4, 6, ... */
  function OuterSlot(k: nat): nat
  {
    if k == 0 then 1 else 2 * k
  }

  /**
   The six indices of quad k: triangles (inner_k, outer_k, outer_k+1) and
   (inner_k, outer_k+1, inner_k+1).
   */
  function QuadTriangles(k: nat): seq<int>
  {
    [InnerSlot(k), OuterSlot(k), OuterSlot(k + 1), InnerSlot(k), OuterSlot(k + 1), InnerSlot(k + 1)]
  }

  /**
   A strip of `q` quads between an inner boundary swept from `inner0` and an
   outer boundary swept from `outer0`.
   */
  predicate IsQuadStrip(m: Mesh, inner0: Vertex, outer0: Vertex, innerStep: real, outerStep: real, q: nat)
  {
    && inner0.dz == 0.0 && outer0.dz == 0.0
    && |m.vertices| == 2 * q + 2
    && |m.triangles| == 6 * q
    && (forall k: nat :: k <= q ==> m.vertices[InnerSlot(k)] == Sweep(inner0, innerStep, k))
    && (forall k: nat :: k <= q ==> m.vertices[OuterSlot(k)] == Sweep(outer0, outerStep, k))
    && (forall k: nat :: k < q ==> m.triangles[6 * k .. 6 * k + 6] == QuadTriangles(k))
  }

  // ---------------------------------------------------------------- apex fan

  /** Slot of the k-th rim vertex of an apex fan: 0, then 2, 3, 4, ... (slot 1 is the apex). */
  function ApexRimSlot(k: nat): nat
  {
    if k == 0 then 0 else k + 1
  }

  /** Triangle k of an apex fan: (rim_k, apex, rim_k+1). */
  function ApexTriangle(k: nat): seq<int>
  {
    [ApexRimSlot(k), 1, ApexRimSlot(k + 1)]
  }

  /** `t` triangles joining a rim swept from `rim0` to one fixed apex vertex at slot 1. */
  predicate IsApexFan(m: Mesh, rim0: Vertex, apex: Vertex, step: real, t: nat)
  {
    && rim0.dz == 0.0
    && |m.vertices| == t + 2
    && |m.triangles| == 3 * t
    && m.vertices[1] == apex
    && (forall k: nat :: k <= t ==> m.vertices[ApexRimSlot(k)] == Sweep(rim0, step, k))
    && (forall k: nat :: k < t ==> m.triangles[3 * k .. 3 * k + 3] == ApexTriangle(k))
  }

  // ---------------------------------------------------------------- pivot fan

  /** Slot of the k-th rim vertex of a pivot fan: 1, 2, 3, ... (slot 0 is the pivot). */
  function PivotRimSlot(k: nat): nat
  {
    k + 1
  }

  /** Triangle k of a pivot fan: (pivot, rim_k, rim_k+1). */
  function PivotTriangle(k: nat): seq<int>
  {
    [0, PivotRimSlot(k), PivotRimSlot(k + 1)]
  }

  /** `t` triangles joining a rim swept from `rim0` to the pivot vertex at slot 0. */
  predicate IsPivotFan(m: Mesh, pivot: Vertex, rim0: Vertex, step: real, t: nat)
  {
    && rim0.dz == 0.0
    && |m.vertices| == t + 2
    && |m.triangles| == 3 * t
    && m.vertices[0] == pivot
    && (forall k: nat :: k <= t ==> m.vertices[PivotRimSlot(k)] == Sweep(rim0, step, k))
    && (forall k: nat :: k < t ==> m.triangles[3 * k .. 3 * k + 3] == PivotTriangle(k))
  }

  // ---------------------------------------------------------------- lemmas

  /** Index j of a buffer cut into blocks of width w lies in block j / w. */
  lemma InBlock(s: seq<int>, w: nat, k: nat, j: int)
    requires 0 < w && w * k + w <= |s| && w * k <= j < w * k + w
    ensures s[j] == s[w * k .. w * k + w][j - w * k]
  {
  }

  /** A quad strip only refers to its own vertices, three indices at a time. */
  lemma QuadStripWellFormed(m: Mesh, inner0: Vertex, outer0: Vertex, innerStep: real, outerStep: real, q: nat)
    requires IsQuadStrip(m, inner0, outer0, innerStep, outerStep, q)
    ensures WellFormed(m)
  {
    forall j | 0 <= j < |m.triangles|
      ensures 0 <= m.triangles[j] < |m.vertices|
    {
      var k := j / 6;
      assert m.triangles[6 * k .. 6 * k + 6] == QuadTriangles(k);
      InBlock(m.triangles, 6, k, j);
    }
  }

  /** An apex fan only refers to its own vertices, three indices at a time. */
  lemma ApexFanWellFormed(m: Mesh, rim0: Vertex, apex: Vertex, step: real, t: nat)
    requires IsApexFan(m, rim0, apex, step, t)
    ensures WellFormed(m)
  {
    forall j | 0 <= j < |m.triangles|
      ensures 0 <= m.triangles[j] < |m.vertices|
    {
      var k := j / 3;
      assert m.triangles[3 * k .. 3 * k + 3] == ApexTriangle(k);
      InBlock(m.triangles, 3, k, j);
    }
  }

  /** A pivot fan only refers to its own vertices, three indices at a time. */
  lemma PivotFanWellFormed(m: Mesh, pivot: Vertex, rim0: Vertex, step: real, t: nat)
    requires IsPivotFan(m, pivot, rim0, step, t)
    ensures WellFormed(m)
  {
    forall j | 0 <= j < |m.triangles|
      ensures 0 <= m.triangles[j] < |m.vertices|
    {
      var k := j / 3;
      assert m.triangles[3 * k .. 3 * k + 3] == PivotTriangle(k);
      InBlock(m.triangles, 3, k, j);
    }
  }

  /** Every triangle of an apex fan contains the apex, vertex 1. */
  lemma ApexShared(m: Mesh, rim0: Vertex, apex: Vertex, step: real, t: nat)
    requires IsApexFan(m, rim0, apex, step, t)
    ensures EveryTriangleHas(m, 1)
  {
    forall k: nat | k < |m.triangles| / 3
      ensures 1 in Triangle(m, k)
    {
      assert Triangle(m, k) == ApexTriangle(k);
    }
  }

  /** Every triangle of a pivot fan contains the pivot, vertex 0. */
  lemma PivotShared(m: Mesh, pivot: Vertex, rim0: Vertex, step: real, t: nat)
    requires IsPivotFan(m, pivot, rim0, step, t)
    ensures EveryTriangleHas(m, 0)
  {
    forall k: nat | k < |m.triangles| / 3
      ensures 0 in Triangle(m, k)
    {
      assert Triangle(m, k) == PivotTriangle(k);
    }
  }

  /**
   Along a quad strip each boundary vertex is its predecessor rotated by its
   boundary's step; the k-th outer vertex sits k outer steps past the first.
   */
  lemma QuadStripSweeps(m: Mesh, inner0: Vertex, outer0: Vertex, innerStep: real, outerStep: real, q: nat)
    requires IsQuadStrip(m, inner0, outer0, innerStep, outerStep, q)
    ensures forall k: nat :: k < q ==> m.vertices[OuterSlot(k + 1)] == Rotate(m.vertices[OuterSlot(k)], outerStep)
    ensures forall k: nat :: k < q ==> m.vertices[InnerSlot(k + 1)] == Rotate(m.vertices[InnerSlot(k)], innerStep)
    ensures forall k: nat :: k <= q ==>
      m.vertices[OuterSlot(k)] == Polar(outer0.r, outer0.deg + (k as real) * outerStep, 0.0)
    ensures forall k: nat :: k <= q ==>
      m.vertices[InnerSlot(k)] == Polar(inner0.r, inner0.deg + (k as real) * innerStep, 0.0)
  {
    forall k: nat | k <= q
      ensures m.vertices[OuterSlot(k)] == Polar(outer0.r, outer0.deg + (k as real) * outerStep, 0.0)
      ensures m.vertices[InnerSlot(k)] == Polar(inner0.r, inner0.deg + (k as real) * innerStep, 0.0)
    {
      SweepAngle(outer0, outerStep, k);
      SweepAngle(inner0, innerStep, k);
    }
  }

  /**
   Around a pivot fan each rim vertex is its predecessor rotated by the step;
   the k-th one sits k steps past the first.
   */
  lemma PivotFanSweeps(m: Mesh, pivot: Vertex, rim0: Vertex, step: real, t: nat)
    requires IsPivotFan(m, pivot, rim0, step, t)
    ensures forall k: nat :: k < t ==> m.vertices[PivotRimSlot(k + 1)] == Rotate(m.vertices[PivotRimSlot(k)], step)
    ensures forall k: nat :: k <= t ==>
      m.vertices[PivotRimSlot(k)] == Polar(rim0.r, rim0.deg + (k as real) * step, 0.0)
  {
    forall k: nat | k <= t
      ensures m.vertices[PivotRimSlot(k)] == Polar(rim0.r, rim0.deg + (k as real) * step, 0.0)
    {
      SweepAngle(rim0, step, k);
    }
  }

  /**
   Along an apex fan each rim vertex is its predecessor rotated by the step;
   the k-th one sits k steps past the first.
   */
  lemma ApexFanSweeps(m: Mesh, rim0: Vertex, apex: Vertex, step: real, t: nat)
    requires IsApexFan(m, rim0, apex, step, t)
    ensures forall k: nat :: k < t ==> m.vertices[ApexRimSlot(k + 1)] == Rotate(m.vertices[ApexRimSlot(k)], step)
    ensures forall k: nat :: k <= t ==>
      m.vertices[ApexRimSlot(k)] == Polar(rim0.r, rim0.deg + (k as real) * step, 0.0)
  {
    forall k: nat | k <= t
      ensures m.vertices[ApexRimSlot(k)] == Polar(rim0.r, rim0.deg + (k as real) * step, 0.0)
    {
      SweepAngle(rim0, step, k);
    }
  }

  /** Every vertex slot of a quad strip is the slot of some inner or outer boundary vertex. */
  lemma QuadSlotOf(q: nat, i: nat)
    requires i < 2 * q + 2
    ensures i % 2 == 0 && i > 0 ==> i / 2 <= q && i == OuterSlot(i / 2)
    ensures i % 2 == 1 && i > 1 ==> i / 2 <= q && i == InnerSlot(i / 2)
  {
  }

  /** A quad-strip layout determines both buffers: it is a complete description. */
  lemma QuadStripUnique(m1: Mesh, m2: Mesh, inner0: Vertex, outer0: Vertex, innerStep: real, outerStep: real, q: nat)
    requires IsQuadStrip(m1, inner0, outer0, innerStep, outerStep, q)
    requires IsQuadStrip(m2, inner0, outer0, innerStep, outerStep, q)
    ensures m1 == m2
  {
    forall i | 0 <= i < |m1.vertices|
      ensures m1.vertices[i] == m2.vertices[i]
    {
      if i == 0 {
        assert m1.vertices[InnerSlot(0)] == m2.vertices[InnerSlot(0)];
      } else if i == 1 {
        assert m1.vertices[OuterSlot(0)] == m2.vertices[OuterSlot(0)];
      } else if i % 2 == 0 {
        QuadSlotOf(q, i);
        assert m1.vertices[OuterSlot(i / 2)] == m2.vertices[OuterSlot(i / 2)];
      } else {
        QuadSlotOf(q, i);
        assert m1.vertices[InnerSlot(i / 2)] == m2.vertices[InnerSlot(i / 2)];
      }
    }
    forall j | 0 <= j < |m1.triangles|
      ensures m1.triangles[j] == m2.triangles[j]
    {
      var k := j / 6;
      assert m1.triangles[6 * k .. 6 * k + 6] == QuadTriangles(k) == m2.triangles[6 * k .. 6 * k + 6];
      InBlock(m1.triangles, 6, k, j);
      InBlock(m2.triangles, 6, k, j);
    }
  }

  /** An apex-fan layout determines both buffers. */
  lemma ApexFanUnique(m1: Mesh, m2: Mesh, rim0: Vertex, apex: Vertex, step: real, t: nat)
    requires IsApexFan(m1, rim0, apex, step, t)
    requires IsApexFan(m2, rim0, apex, step, t)
    ensures m1 == m2
  {
    forall i | 0 <= i < |m1.vertices|
      ensures m1.vertices[i] == m2.vertices[i]
    {
      if i == 0 {
        assert m1.vertices[ApexRimSlot(0)] == m2.vertices[ApexRimSlot(0)];
      } else if i > 1 {
        assert m1.vertices[ApexRimSlot(i - 1)] == m2.vertices[ApexRimSlot(i - 1)];
      }
    }
    forall j | 0 <= j < |m1.triangles|
      ensures m1.triangles[j] == m2.triangles[j]
    {
      var k := j / 3;
      assert m1.triangles[3 * k .. 3 * k + 3] == ApexTriangle(k) == m2.triangles[3 * k .. 3 * k + 3];
      InBlock(m1.triangles, 3, k, j);
      InBlock(m2.triangles, 3, k, j);
    }
  }

  /** A pivot-fan layout determines both buffers. */
  lemma PivotFanUnique(m1: Mesh, m2: Mesh, pivot: Vertex, rim0: Vertex, step: real, t: nat)
    requires IsPivotFan(m1, pivot, rim0, step, t)
    requires IsPivotFan(m2, pivot, rim0, step, t)
    ensures m1 == m2
  {
    forall i | 0 <= i < |m1.vertices|
      ensures m1.vertices[i] == m2.vertices[i]
    {
      if i > 0 {
        assert m1.vertices[PivotRimSlot(i - 1)] == m2.vertices[PivotRimSlot(i - 1)];
      }
    }
    forall j | 0 <= j < |m1.triangles|
      ensures m1.triangles[j] == m2.triangles[j]
    {
      var k := j / 3;
      assert m1.triangles[3 * k .. 3 * k + 3] == PivotTriangle(k) == m2.triangles[3 * k .. 3 * k + 3];
      InBlock(m1.triangles, 3, k, j);
      InBlock(m2.triangles, 3, k, j);
    }
  }

  /** Every vertex of `m` lies in the plane of the pivot: none has been translated along z. */
  predicate Flat(m: Mesh)
  {
    forall i :: 0 <= i < |m.vertices| ==> m.vertices[i].dz == 0.0
  }

  /** A quad strip consists of swept, hence untranslated, vertices only. */
  lemma QuadStripFlat(m: Mesh, inner0: Vertex, outer0: Vertex, innerStep: real, outerStep: real, q: nat)
    requires IsQuadStrip(m, inner0, outer0, innerStep, outerStep, q)
    ensures Flat(m)
  {
    forall i | 0 <= i < |m.vertices|
      ensures m.vertices[i].dz == 0.0
    {
      if i == 0 {
        assert m.vertices[InnerSlot(0)] == Sweep(inner0, innerStep, 0);
      } else if i == 1 {
        assert m.vertices[OuterSlot(0)] == Sweep(outer0, outerStep, 0);
      } else if i % 2 == 0 {
        QuadSlotOf(q, i);
        assert m.vertices[OuterSlot(i / 2)] == Sweep(outer0, outerStep, i / 2);
      } else {
        QuadSlotOf(q, i);
        assert m.vertices[InnerSlot(i / 2)] == Sweep(inner0, innerStep, i / 2);
      }
    }
  }

  /** An apex fan with an untranslated apex has only untranslated vertices. */
  lemma ApexFanFlat(m: Mesh, rim0: Vertex, apex: Vertex, step: real, t: nat)
    requires IsApexFan(m, rim0, apex, step, t) && apex.dz == 0.0
    ensures Flat(m)
  {
    forall i | 0 <= i < |m.vertices|
      ensures m.vertices[i].dz == 0.0
    {
      if i == 0 {
        assert m.vertices[ApexRimSlot(0)] == Sweep(rim0, step, 0);
      } else if i > 1 {
        assert m.vertices[ApexRimSlot(i - 1)] == Sweep(rim0, step, i - 1);
      }
    }
  }

  /** A pivot fan with an untranslated pivot has only untranslated vertices. */
  lemma PivotFanFlat(m: Mesh, pivot: Vertex, rim0: Vertex, step: real, t: nat)
    requires IsPivotFan(m, pivot, rim0, step, t) && pivot.dz == 0.0
    ensures Flat(m)
  {
    forall i | 0 <= i < |m.vertices|
      ensures m.vertices[i].dz == 0.0
    {
      if i > 0 {
        assert m.vertices[PivotRimSlot(i - 1)] == Sweep(rim0, step, i - 1);
      }
    }
  }
}

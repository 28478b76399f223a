/**
 The radial shape builder: one dispatcher choosing among five topology
 builders (doughnut, pointy, narrow, fan, circle), followed by a pass that
 moves the pivot to the centre of the inner arc whenever there is an inner
 radius.
 */
module CircleShapeMesh {
  import opened Geometry
  import opened Layouts
  import opened Sweeps

  /** The five inputs of a build; arcs are whole degrees. */
  datatype Params = Params(innerArc: int, innerRadius: real, outerArc: int, outerRadius: real, segments: int)

  /** The topology builders the dispatcher can choose. */
  datatype Shape = Doughnut | Pointy | Narrow | Fan | Circle

  /**
   The builder a build runs. The tests are made in a fixed order, so the five
   regions below are disjoint and cover every input; in particular two zero
   arcs with an inner radius give a doughnut, not a pointy shape.
   */
  function Select(p: Params): (s: Shape)
    ensures s == Circle <==> p.innerRadius <= 0.0
    ensures s == Doughnut <==> p.innerRadius > 0.0 && p.innerArc == p.outerArc
    ensures s == Pointy <==> p.innerRadius > 0.0 && p.outerArc == 0 && p.innerArc != 0
    ensures s == Narrow <==> p.innerRadius > 0.0 && p.outerArc != 0 && p.outerArc < p.innerArc
    ensures s == Fan <==> p.innerRadius > 0.0 && p.outerArc != 0 && p.innerArc < p.outerArc
  {
    if p.innerRadius > 0.0 then
      if p.innerArc == p.outerArc then Doughnut
      else if p.outerArc == 0 then Pointy
      else if p.outerArc < p.innerArc then Narrow
      else Fan
    else Circle
  }

  /** Whether the chosen builder emits a strip of quads rather than a fan of triangles. */
  predicate QuadTopology(p: Params)
  {
    match Select(p)
    case Doughnut => true
    case Narrow => true
    case Fan => p.innerArc != 0
    case _ => false
  }

  /**
   Degrees per segment along a boundary of `arc` degrees: `segments` steps
   make up the whole arc.
   */
  function AngleStep(arc: int, segments: int): (step: real)
    requires segments != 0
    ensures (segments as real) * step == arc as real
  {
    (arc as real) / (segments as real)
  }

  /**
   The rotation the circle builder applies to its first rim vertex: half the
   outer arc backwards when there is no inner arc, otherwise the whole inner
   arc forwards (not half of it, unlike every other builder).
   */
  function CircleOffset(innerArc: int, outerArc: int): (offset: real)
    ensures innerArc == 0 ==> 2.0 * offset + outerArc as real == 0.0
    ensures innerArc != 0 ==> offset == innerArc as real
  {
    if innerArc == 0 then CenterOffset(outerArc) else innerArc as real
  }

  // ---------------------------------------------------------------- builders

  /** Ring sector: both boundaries start half the inner arc before the forward axis. */
  method MakeDoughnutShape(p: Params, innerStep: real, outerStep: real) returns (m: Mesh)
    ensures IsQuadStrip(m, Centered(p.innerRadius, p.innerArc), Centered(p.outerRadius, p.innerArc),
                        innerStep, outerStep, Spans(p.segments))
    ensures WellFormed(m)
  {
    var offset := CenterOffset(p.innerArc);
    m := BuildQuadStrip(Rotate(Forward(p.innerRadius), offset), Rotate(Forward(p.outerRadius), offset),
                        innerStep, outerStep, p.segments);
  }

  /**
   Wedge: the inner boundary is centred and swept, the outer boundary collapses
   to one unrotated apex at slot 1 shared by every triangle.
   */
  method MakePointyShape(p: Params, innerStep: real) returns (m: Mesh)
    ensures IsApexFan(m, Centered(p.innerRadius, p.innerArc), Forward(p.outerRadius), innerStep, Spans(p.segments))
    ensures WellFormed(m)
    ensures EveryTriangleHas(m, 1)
  {
    var offset := CenterOffset(p.innerArc);
    m := BuildApexFan(Rotate(Forward(p.innerRadius), offset), Forward(p.outerRadius), innerStep, p.segments);
    ApexShared(m, Centered(p.innerRadius, p.innerArc), Forward(p.outerRadius), innerStep, Spans(p.segments));
  }

  /** Taper: inner and outer boundaries are each centred on their own arc. */
  method MakeNarrowShape(p: Params, innerStep: real, outerStep: real) returns (m: Mesh)
    ensures IsQuadStrip(m, Centered(p.innerRadius, p.innerArc), Centered(p.outerRadius, p.outerArc),
                        innerStep, outerStep, Spans(p.segments))
    ensures WellFormed(m)
  {
    m := BuildQuadStrip(Rotate(Forward(p.innerRadius), CenterOffset(p.innerArc)),
                        Rotate(Forward(p.outerRadius), CenterOffset(p.outerArc)),
                        innerStep, outerStep, p.segments);
  }

  /**
   Widening shape. Without an inner arc it is a fan around vertex 0, whose
   centring rotation is applied to the origin vertex itself, so the rim starts
   on the forward axis; with an inner arc it is the same strip as the narrow
   shape.
   */
  method MakeFanShape(p: Params, innerStep: real, outerStep: real) returns (m: Mesh)
    ensures p.innerArc == 0 ==>
      IsPivotFan(m, Centered(0.0, p.outerArc), Forward(p.outerRadius), outerStep, Spans(p.segments))
    ensures p.innerArc == 0 ==> EveryTriangleHas(m, 0)
    ensures p.innerArc != 0 ==>
      IsQuadStrip(m, Centered(p.innerRadius, p.innerArc), Centered(p.outerRadius, p.outerArc),
                  innerStep, outerStep, Spans(p.segments))
    ensures WellFormed(m)
  {
    if p.innerArc == 0 {
      var pivot := Rotate(Forward(0.0), CenterOffset(p.outerArc));
      m := BuildPivotFan(pivot, Forward(p.outerRadius), outerStep, p.segments);
      PivotShared(m, pivot, Forward(p.outerRadius), outerStep, Spans(p.segments));
    } else {
      m := BuildQuadStrip(Rotate(Forward(p.innerRadius), CenterOffset(p.innerArc)),
                          Rotate(Forward(p.outerRadius), CenterOffset(p.outerArc)),
                          innerStep, outerStep, p.segments);
    }
  }

  /** Pie slice or full disc around the origin vertex 0. */
  method MakeCircleShape(p: Params, outerStep: real) returns (m: Mesh)
    ensures IsPivotFan(m, Forward(0.0), Polar(p.outerRadius, CircleOffset(p.innerArc, p.outerArc), 0.0),
                       outerStep, Spans(p.segments))
    ensures WellFormed(m)
    ensures EveryTriangleHas(m, 0)
  {
    var rim0 := Rotate(Forward(p.outerRadius), CircleOffset(p.innerArc, p.outerArc));
    m := BuildPivotFan(Forward(0.0), rim0, outerStep, p.segments);
    PivotShared(m, Forward(0.0), rim0, outerStep, Spans(p.segments));
  }

  // ---------------------------------------------------------------- the build

  /**
   The buffers the builder chosen by `Select` emits for `p`, before any
   recentering, with the angle steps computed from the arcs.
   */
  predicate Built(p: Params, m: Mesh)
    requires p.segments != 0
  {
    var innerStep := AngleStep(p.innerArc, p.segments);
    var outerStep := AngleStep(p.outerArc, p.segments);
    var n := Spans(p.segments);
    match Select(p)
    case Doughnut =>
      IsQuadStrip(m, Centered(p.innerRadius, p.innerArc), Centered(p.outerRadius, p.innerArc), innerStep, outerStep, n)
    case Pointy =>
      IsApexFan(m, Centered(p.innerRadius, p.innerArc), Forward(p.outerRadius), innerStep, n)
    case Narrow =>
      IsQuadStrip(m, Centered(p.innerRadius, p.innerArc), Centered(p.outerRadius, p.outerArc), innerStep, outerStep, n)
    case Fan =>
      if p.innerArc == 0 then
        IsPivotFan(m, Centered(0.0, p.outerArc), Forward(p.outerRadius), outerStep, n)
      else
        IsQuadStrip(m, Centered(p.innerRadius, p.innerArc), Centered(p.outerRadius, p.outerArc), innerStep, outerStep, n)
    case Circle =>
      IsPivotFan(m, Forward(0.0), Polar(p.outerRadius, CircleOffset(p.innerArc, p.outerArc), 0.0), outerStep, n)
  }

  /**
   `m` with every vertex moved `d` along z; nothing else changes: the same
   vertex count and order, radii and angles, and the same index buffer, so
   well-formedness is kept both ways.
   */
  function Recentered(m: Mesh, d: real): (shifted: Mesh)
    ensures |shifted.vertices| == |m.vertices| && shifted.triangles == m.triangles
    ensures forall i :: 0 <= i < |m.vertices| ==>
      && shifted.vertices[i].r == m.vertices[i].r
      && shifted.vertices[i].deg == m.vertices[i].deg
      && shifted.vertices[i].dz + d == m.vertices[i].dz
    ensures WellFormed(shifted) <==> WellFormed(m)
  {
    Mesh(seq(|m.vertices|, i requires 0 <= i < |m.vertices| => m.vertices[i].(dz := m.vertices[i].dz - d)),
         m.triangles)
  }

  /** Shifting by `d` and then by `-d` restores the mesh. */
  lemma RecenteredUndo(m: Mesh, d: real)
    ensures Recentered(Recentered(m, d), -d) == m
  {
    var back := Recentered(Recentered(m, d), -d);
    assert forall i :: 0 <= i < |m.vertices| ==> back.vertices[i] == m.vertices[i];
  }

  /**
   The pass that moves the pivot to the inner arc's centre: every vertex's z
   drops by exactly `innerRadius`, while its radius, angle and position in the
   buffer stay as they were.
   */
  method RecenterVertices(vertices: seq<Vertex>, innerRadius: real) returns (shifted: seq<Vertex>)
    ensures |shifted| == |vertices|
    ensures forall i :: 0 <= i < |vertices| ==>
      shifted[i].r == vertices[i].r && shifted[i].deg == vertices[i].deg
      && shifted[i].dz == vertices[i].dz - innerRadius
  {
    shifted := vertices;
    var i := 0;
    while i < |shifted|
      invariant 0 <= i <= |shifted| == |vertices|
      invariant forall j :: 0 <= j < i ==> shifted[j] == vertices[j].(dz := vertices[j].dz - innerRadius)
      invariant forall j :: i <= j < |shifted| ==> shifted[j] == vertices[j]
    {
      var v := shifted[i];
      v := v.(dz := v.dz - innerRadius);
      shifted := shifted[i := v];
      i := i + 1;
    }
  }

  /**
   `m` is the finished shape for `p`. With an inner radius, undoing the
   recentering (moving every vertex back up by `innerRadius`) gives exactly
   the selected builder's buffers, and every vertex lies `innerRadius` below
   the pivot's plane; without one, `m` is the circle builder's buffers.
   */
  predicate Finished(p: Params, m: Mesh)
    requires p.segments != 0
  {
    if p.innerRadius > 0.0 then
      && Built(p, Recentered(m, -p.innerRadius))
      && forall i :: 0 <= i < |m.vertices| ==> m.vertices[i].dz == -p.innerRadius
    else
      Built(p, m)
  }

  /**
   Builds the shape for `p`: the selected builder's buffers, recentred when
   there is an inner radius, with in-range indices in stride 3, the sizes of
   its topology and the shared pivot or apex of the fans.
   */
  method MakeRadialShape(p: Params) returns (m: Mesh)
    requires p.segments != 0
    ensures Finished(p, m)
    ensures WellFormed(m)
    ensures |m.vertices| == (if QuadTopology(p) then 2 * Spans(p.segments) + 2 else Spans(p.segments) + 2)
    ensures |m.triangles| == (if QuadTopology(p) then 6 else 3) * Spans(p.segments)
    ensures Select(p) == Pointy ==> EveryTriangleHas(m, 1)
    ensures Select(p) == Circle || (Select(p) == Fan && p.innerArc == 0) ==> EveryTriangleHas(m, 0)
  {
    var innerStep := AngleStep(p.innerArc, p.segments);
    var outerStep := AngleStep(p.outerArc, p.segments);
    if p.innerRadius > 0.0 {
      var built: Mesh;
      if p.innerArc == p.outerArc {
        built := MakeDoughnutShape(p, innerStep, outerStep);
        assert Select(p) == Doughnut;
      } else if p.outerArc == 0 {
        built := MakePointyShape(p, innerStep);
        assert Select(p) == Pointy;
      } else if p.outerArc < p.innerArc {
        built := MakeNarrowShape(p, innerStep, outerStep);
        assert Select(p) == Narrow;
      } else {
        built := MakeFanShape(p, innerStep, outerStep);
        assert Select(p) == Fan;
      }
      assert Built(p, built);
      var vertices := RecenterVertices(built.vertices, p.innerRadius);
      m := Mesh(vertices, built.triangles);
      RecenteredBuild(p, built, m);
      FinishedFacts(p, m);
    } else {
      m := MakeCircleShape(p, outerStep);
      assert Select(p) == Circle;
      assert Built(p, m);
      FinishedFacts(p, m);
    }
  }

  /**
   The recentering pass turns a build into the finished shape: every vertex of
   a build is untranslated, so afterwards each lies exactly `innerRadius`
   below the pivot's plane, and shifting it back restores the build.
   */
  lemma RecenteredBuild(p: Params, built: Mesh, m: Mesh)
    requires p.segments != 0 && p.innerRadius > 0.0 && Built(p, built)
    requires m.triangles == built.triangles && |m.vertices| == |built.vertices|
    requires forall i :: 0 <= i < |built.vertices| ==>
      m.vertices[i].r == built.vertices[i].r && m.vertices[i].deg == built.vertices[i].deg
      && m.vertices[i].dz == built.vertices[i].dz - p.innerRadius
    ensures Finished(p, m)
  {
    BuiltFacts(p, built);
    var back := Recentered(m, -p.innerRadius);
    assert forall i :: 0 <= i < |built.vertices| ==> back.vertices[i] == built.vertices[i];
    assert back == built;
  }

  /**
   What every finished shape guarantees: indices in range in stride 3, the
   sizes of its topology, and the fans' shared pivot or apex. Recentering
   moves vertices only, so these carry over from the build.
   */
  lemma FinishedFacts(p: Params, m: Mesh)
    requires p.segments != 0 && Finished(p, m)
    ensures WellFormed(m)
    ensures |m.vertices| == (if QuadTopology(p) then 2 * Spans(p.segments) + 2 else Spans(p.segments) + 2)
    ensures |m.triangles| == (if QuadTopology(p) then 6 else 3) * Spans(p.segments)
    ensures Select(p) == Pointy ==> EveryTriangleHas(m, 1)
    ensures Select(p) == Circle || (Select(p) == Fan && p.innerArc == 0) ==> EveryTriangleHas(m, 0)
  {
    if p.innerRadius > 0.0 {
      var built := Recentered(m, -p.innerRadius);
      BuiltFacts(p, built);
      assert forall t: nat :: t < |m.triangles| / 3 ==> Triangle(m, t) == Triangle(built, t);
    } else {
      BuiltFacts(p, m);
    }
  }

  /**
   What every build guarantees before recentering: its vertices are
   untranslated, its indices are in range in stride 3, its sizes follow the
   topology, and the fans share their pivot or apex.
   */
  lemma BuiltFacts(p: Params, m: Mesh)
    requires p.segments != 0 && Built(p, m)
    ensures Flat(m)
    ensures WellFormed(m)
    ensures |m.vertices| == (if QuadTopology(p) then 2 * Spans(p.segments) + 2 else Spans(p.segments) + 2)
    ensures |m.triangles| == (if QuadTopology(p) then 6 else 3) * Spans(p.segments)
    ensures Select(p) == Pointy ==> EveryTriangleHas(m, 1)
    ensures Select(p) == Circle || (Select(p) == Fan && p.innerArc == 0) ==> EveryTriangleHas(m, 0)
  {
    var innerStep := AngleStep(p.innerArc, p.segments);
    var outerStep := AngleStep(p.outerArc, p.segments);
    var n := Spans(p.segments);
    match Select(p)
    case Doughnut =>
      QuadStripFlat(m, Centered(p.innerRadius, p.innerArc), Centered(p.outerRadius, p.innerArc), innerStep, outerStep, n);
      QuadStripWellFormed(m, Centered(p.innerRadius, p.innerArc), Centered(p.outerRadius, p.innerArc), innerStep, outerStep, n);
    case Pointy =>
      ApexFanFlat(m, Centered(p.innerRadius, p.innerArc), Forward(p.outerRadius), innerStep, n);
      ApexFanWellFormed(m, Centered(p.innerRadius, p.innerArc), Forward(p.outerRadius), innerStep, n);
      ApexShared(m, Centered(p.innerRadius, p.innerArc), Forward(p.outerRadius), innerStep, n);
    case Narrow =>
      QuadStripFlat(m, Centered(p.innerRadius, p.innerArc), Centered(p.outerRadius, p.outerArc), innerStep, outerStep, n);
      QuadStripWellFormed(m, Centered(p.innerRadius, p.innerArc), Centered(p.outerRadius, p.outerArc), innerStep, outerStep, n);
    case Fan =>
      if p.innerArc == 0 {
        PivotFanFlat(m, Centered(0.0, p.outerArc), Forward(p.outerRadius), outerStep, n);
        PivotFanWellFormed(m, Centered(0.0, p.outerArc), Forward(p.outerRadius), outerStep, n);
        PivotShared(m, Centered(0.0, p.outerArc), Forward(p.outerRadius), outerStep, n);
      } else {
        QuadStripFlat(m, Centered(p.innerRadius, p.innerArc), Centered(p.outerRadius, p.outerArc), innerStep, outerStep, n);
        QuadStripWellFormed(m, Centered(p.innerRadius, p.innerArc), Centered(p.outerRadius, p.outerArc), innerStep, outerStep, n);
      }
    case Circle =>
      var rim0 := Polar(p.outerRadius, CircleOffset(p.innerArc, p.outerArc), 0.0);
      PivotFanFlat(m, Forward(0.0), rim0, outerStep, n);
      PivotFanWellFormed(m, Forward(0.0), rim0, outerStep, n);
      PivotShared(m, Forward(0.0), rim0, outerStep, n);
  }
}

/**
 Properties of finished shapes: the contract of a build determines it, where
 each boundary starts and ends, the builder quirks that are kept as they are,
 and worked examples.
 */
module ShapeProperties {
  import opened Geometry
  import opened Layouts
  import opened CircleShapeMesh

  /** A build is determined by its parameters: at most one mesh satisfies `Built`. */
  lemma BuiltUnique(p: Params, m1: Mesh, m2: Mesh)
    requires p.segments != 0 && Built(p, m1) && Built(p, m2)
    ensures m1 == m2
  {
    var innerStep := AngleStep(p.innerArc, p.segments);
    var outerStep := AngleStep(p.outerArc, p.segments);
    var n := Spans(p.segments);
    match Select(p)
    case Doughnut =>
      QuadStripUnique(m1, m2, Centered(p.innerRadius, p.innerArc), Centered(p.outerRadius, p.innerArc),
                      innerStep, outerStep, n);
    case Pointy =>
      ApexFanUnique(m1, m2, Centered(p.innerRadius, p.innerArc), Forward(p.outerRadius), innerStep, n);
    case Narrow =>
      QuadStripUnique(m1, m2, Centered(p.innerRadius, p.innerArc), Centered(p.outerRadius, p.outerArc),
                      innerStep, outerStep, n);
    case Fan =>
      if p.innerArc == 0 {
        PivotFanUnique(m1, m2, Centered(0.0, p.outerArc), Forward(p.outerRadius), outerStep, n);
      } else {
        QuadStripUnique(m1, m2, Centered(p.innerRadius, p.innerArc), Centered(p.outerRadius, p.outerArc),
                        innerStep, outerStep, n);
      }
    case Circle =>
      PivotFanUnique(m1, m2, Forward(0.0), Polar(p.outerRadius, CircleOffset(p.innerArc, p.outerArc), 0.0),
                     outerStep, n);
  }

  /**
   A finished shape is determined by its parameters, so the contract of
   MakeRadialShape describes its result completely.
   */
  lemma FinishedUnique(p: Params, m1: Mesh, m2: Mesh)
    requires p.segments != 0 && Finished(p, m1) && Finished(p, m2)
    ensures m1 == m2
  {
    if p.innerRadius > 0.0 {
      BuiltUnique(p, Recentered(m1, -p.innerRadius), Recentered(m2, -p.innerRadius));
      RecenteredUndo(m1, -p.innerRadius);
      RecenteredUndo(m2, -p.innerRadius);
      assert m1 == Recentered(Recentered(m1, -p.innerRadius), p.innerRadius);
    } else {
      BuiltUnique(p, m1, m2);
    }
  }

  /**
   Doughnut, narrow and wide fan shapes: each boundary is swept symmetrically
   about the forward axis, from half its arc before it to half its arc after
   it (the doughnut's two arcs are equal).
   */
  lemma StripBoundaries(p: Params, m: Mesh)
    requires p.segments >= 1 && Built(p, m) && QuadTopology(p)
    ensures |m.vertices| == 2 * p.segments + 2
    ensures m.vertices[InnerSlot(0)] == Polar(p.innerRadius, -(p.innerArc as real) / 2.0, 0.0)
    ensures m.vertices[InnerSlot(p.segments)] == Polar(p.innerRadius, (p.innerArc as real) / 2.0, 0.0)
    ensures m.vertices[OuterSlot(0)] == Polar(p.outerRadius, -(p.outerArc as real) / 2.0, 0.0)
    ensures m.vertices[OuterSlot(p.segments)] == Polar(p.outerRadius, (p.outerArc as real) / 2.0, 0.0)
  {
    var innerStep := AngleStep(p.innerArc, p.segments);
    var outerStep := AngleStep(p.outerArc, p.segments);
    var inner0 := Centered(p.innerRadius, p.innerArc);
    var outer0 := Centered(p.outerRadius, p.outerArc);
    if Select(p) == Doughnut {
      assert Centered(p.outerRadius, p.innerArc) == outer0;
    }
    assert IsQuadStrip(m, inner0, outer0, innerStep, outerStep, p.segments);
    SweepSpan(inner0, p.innerArc as real, p.segments);
    SweepSpan(outer0, p.outerArc as real, p.segments);
    assert m.vertices[InnerSlot(p.segments)] == Sweep(inner0, innerStep, p.segments);
    assert m.vertices[OuterSlot(p.segments)] == Sweep(outer0, outerStep, p.segments);
  }

  /**
   Pointy shape: the inner boundary is swept symmetrically about the forward
   axis while the apex stays on it, unrotated.
   */
  lemma PointyBoundaries(p: Params, m: Mesh)
    requires p.segments >= 1 && Built(p, m) && Select(p) == Pointy
    ensures |m.vertices| == p.segments + 2
    ensures m.vertices[1] == Polar(p.outerRadius, 0.0, 0.0)
    ensures m.vertices[ApexRimSlot(0)] == Polar(p.innerRadius, -(p.innerArc as real) / 2.0, 0.0)
    ensures m.vertices[ApexRimSlot(p.segments)] == Polar(p.innerRadius, (p.innerArc as real) / 2.0, 0.0)
  {
    var rim0 := Centered(p.innerRadius, p.innerArc);
    var innerStep := AngleStep(p.innerArc, p.segments);
    assert IsApexFan(m, rim0, Forward(p.outerRadius), innerStep, p.segments);
    SweepSpan(rim0, p.innerArc as real, p.segments);
    assert m.vertices[ApexRimSlot(p.segments)] == Sweep(rim0, innerStep, p.segments);
  }

  /**
   Fan without an inner arc: the centring rotation is applied to vertex 0,
   which has radius 0 and so stays at the pivot, and the rim is not centred:
   it runs from the forward axis to a full outer arc past it.
   */
  lemma FanWithoutInnerArc(p: Params, m: Mesh)
    requires p.segments >= 1 && Built(p, m) && Select(p) == Fan && p.innerArc == 0
    ensures |m.vertices| == p.segments + 2
    ensures m.vertices[0] == Polar(0.0, -(p.outerArc as real) / 2.0, 0.0)
    ensures m.vertices[PivotRimSlot(0)] == Polar(p.outerRadius, 0.0, 0.0)
    ensures m.vertices[PivotRimSlot(p.segments)] == Polar(p.outerRadius, p.outerArc as real, 0.0)
  {
    var rim0 := Forward(p.outerRadius);
    var outerStep := AngleStep(p.outerArc, p.segments);
    assert IsPivotFan(m, Centered(0.0, p.outerArc), rim0, outerStep, p.segments);
    SweepSpan(rim0, p.outerArc as real, p.segments);
    assert m.vertices[PivotRimSlot(p.segments)] == Sweep(rim0, outerStep, p.segments);
  }

  /**
   Circle shape: the rim turns through the outer arc around the origin. With
   no inner arc it is symmetric about the forward axis; otherwise it starts a
   whole inner arc past the forward axis rather than half an arc before it.
   */
  lemma CircleBoundaries(p: Params, m: Mesh)
    requires p.segments >= 1 && Built(p, m) && Select(p) == Circle
    ensures |m.vertices| == p.segments + 2
    ensures m.vertices[0] == Polar(0.0, 0.0, 0.0)
    ensures p.innerArc == 0 ==>
      && m.vertices[PivotRimSlot(0)] == Polar(p.outerRadius, -(p.outerArc as real) / 2.0, 0.0)
      && m.vertices[PivotRimSlot(p.segments)] == Polar(p.outerRadius, (p.outerArc as real) / 2.0, 0.0)
    ensures p.innerArc != 0 ==>
      && m.vertices[PivotRimSlot(0)] == Polar(p.outerRadius, p.innerArc as real, 0.0)
      && m.vertices[PivotRimSlot(p.segments)] == Polar(p.outerRadius, (p.innerArc + p.outerArc) as real, 0.0)
  {
    var rim0 := Polar(p.outerRadius, CircleOffset(p.innerArc, p.outerArc), 0.0);
    var outerStep := AngleStep(p.outerArc, p.segments);
    assert IsPivotFan(m, Forward(0.0), rim0, outerStep, p.segments);
    SweepSpan(rim0, p.outerArc as real, p.segments);
    assert m.vertices[PivotRimSlot(p.segments)] == Sweep(rim0, outerStep, p.segments);
  }

  // ---------------------------------------------------------------- examples

  /**
   A full disc of radius 1 in 8 segments: ten vertices (the pivot and nine rim
   vertices, the last one closing the circle on top of the first) and eight
   triangles around the pivot, the rim vertices 45 degrees apart.
   */
  lemma DiscExample(m: Mesh)
    requires Finished(Params(0, 0.0, 360, 1.0, 8), m)
    ensures Select(Params(0, 0.0, 360, 1.0, 8)) == Circle
    ensures |m.vertices| == 10 && |m.triangles| == 24
    ensures EveryTriangleHas(m, 0)
    ensures forall k: nat :: k <= 8 ==> m.vertices[PivotRimSlot(k)] == Polar(1.0, -180.0 + 45.0 * (k as real), 0.0)
  {
    var p := Params(0, 0.0, 360, 1.0, 8);
    assert Select(p) == Circle;
    assert Built(p, m);
    FinishedFacts(p, m);
    var rim0 := Polar(1.0, -180.0, 0.0);
    assert CircleOffset(0, 360) == -180.0;
    assert AngleStep(360, 8) == 45.0;
    assert IsPivotFan(m, Forward(0.0), rim0, 45.0, 8);
    PivotFanSweeps(m, Forward(0.0), rim0, 45.0, 8);
  }

  /**
   A quarter ring between radii 1 and 2 in 4 segments: ten vertices and eight
   triangles, both boundaries running from -45 to +45 degrees in steps of 22.5,
   and every vertex one unit below the pivot after recentering.
   */
  lemma QuarterRingExample(m: Mesh)
    requires Finished(Params(90, 1.0, 90, 2.0, 4), m)
    ensures Select(Params(90, 1.0, 90, 2.0, 4)) == Doughnut
    ensures |m.vertices| == 10 && |m.triangles| == 24
    ensures forall k: nat :: k <= 4 ==> m.vertices[InnerSlot(k)] == Polar(1.0, -45.0 + 22.5 * (k as real), -1.0)
    ensures forall k: nat :: k <= 4 ==> m.vertices[OuterSlot(k)] == Polar(2.0, -45.0 + 22.5 * (k as real), -1.0)
  {
    var p := Params(90, 1.0, 90, 2.0, 4);
    FinishedFacts(p, m);
    var built := Recentered(m, -1.0);
    var inner0 := Polar(1.0, -45.0, 0.0);
    var outer0 := Polar(2.0, -45.0, 0.0);
    assert AngleStep(90, 4) == 22.5;
    assert IsQuadStrip(built, inner0, outer0, 22.5, 22.5, 4);
    QuadStripSweeps(built, inner0, outer0, 22.5, 22.5, 4);
  }

  /**
   A quarter wedge from radius 1 to an apex at radius 2 in 3 segments: five
   vertices and three triangles, all sharing the apex, which stays on the
   forward axis one unit beyond the recentred pivot.
   */
  lemma WedgeExample(m: Mesh)
    requires Finished(Params(90, 1.0, 0, 2.0, 3), m)
    ensures Select(Params(90, 1.0, 0, 2.0, 3)) == Pointy
    ensures |m.vertices| == 5 && |m.triangles| == 9
    ensures EveryTriangleHas(m, 1)
    ensures m.vertices[1] == Polar(2.0, 0.0, -1.0)
  {
    var p := Params(90, 1.0, 0, 2.0, 3);
    FinishedFacts(p, m);
    var built := Recentered(m, -1.0);
    assert built.vertices[1] == Forward(2.0);
  }
}

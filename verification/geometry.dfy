/**
 Symbolic geometry of the radial mesh builder.

 Every vertex the builder creates is the forward vector (0, 0, r) turned
 about the vertical axis, possibly translated along z afterwards. Instead of
 floating-point quaternions, a vertex is kept as the exact triple
 `Polar(r, deg, dz)`, standing for rotY(deg)·(0, 0, r) + (0, 0, dz). A
 rotation about Y then adds to `deg`, and the recentering pass subtracts
 from `dz`; no trigonometry is needed.
 */
module Geometry {

  /** rotY(deg)·(0, 0, r) + (0, 0, dz); the shape lies in the XZ plane. */
  datatype Vertex = Polar(r: real, deg: real, dz: real)

  /** The vector (0, 0, r), the builders' unrotated starting point. */
  function Forward(r: real): Vertex
  {
    Polar(r, 0.0, 0.0)
  }

  /**
   Rotation by `theta` degrees about the Y axis, the builders' Euler rotation
   applied to a vertex. Only vertices that have not been translated are ever
   rotated, and for those the rotation keeps the radius and the plane and
   turns the vertex by exactly `theta`.
   */
  function Rotate(v: Vertex, theta: real): (w: Vertex)
    requires v.dz == 0.0
    ensures w.r == v.r && w.dz == 0.0
    ensures w.deg - v.deg == theta
  {
    v.(deg := v.deg + theta)
  }

  /** The centring rotation the builders apply: half the arc, negated. */
  function CenterOffset(arc: int): real
  {
    -(arc as real) * 0.5
  }

  /**
   The start of a boundary of radius `radius` whose sweep of `arc` degrees is
   centred on the forward axis: it sits half the arc before angle 0.
   */
  function Centered(radius: real, arc: int): (v: Vertex)
    ensures v == Rotate(Forward(radius), CenterOffset(arc))
    ensures v.r == radius && v.dz == 0.0
    ensures 2.0 * v.deg + arc as real == 0.0
  {
    Polar(radius, -(arc as real) / 2.0, 0.0)
  }

  /**
   The k-th vertex of a sweep: `start` rotated k times by `step`, the way
   every builder derives each new boundary vertex from the previous one.
   Rotation keeps the radius and leaves the vertex untranslated.
   */
  function Sweep(start: Vertex, step: real, k: nat): (v: Vertex)
    requires start.dz == 0.0
    ensures v.r == start.r && v.dz == 0.0
    decreases k
  {
    if k == 0 then start else Rotate(Sweep(start, step, k - 1), step)
  }

  /** Closed form of a sweep: the k-th vertex sits k steps past the start angle. */
  lemma {:induction false} SweepAngle(start: Vertex, step: real, k: nat)
    requires start.dz == 0.0
    ensures Sweep(start, step, k) == Polar(start.r, start.deg + (k as real) * step, 0.0)
    decreases k
  {
    if k > 0 {
      SweepAngle(start, step, k - 1);
    }
  }

  /**
   Sweeping `n` steps of `arc / n` turns the start by exactly `arc`: the last
   boundary vertex is the first one rotated through the whole arc.
   */
  lemma SweepSpan(start: Vertex, arc: real, n: int)
    requires start.dz == 0.0 && n >= 1
    ensures Sweep(start, arc / (n as real), n) == Polar(start.r, start.deg + arc, 0.0)
  {
    SweepAngle(start, arc / (n as real), n);
    assert (n as real) * (arc / (n as real)) == arc;
  }
}

# Radial shape mesh builder, modelled in Dafny

This project models `CircleShapeMesh.MakeRadialShape` from a Unity script.
The method builds a flat radial polygon from five inputs:

- the inner arc and the outer arc, in whole degrees;
- the inner radius and the outer radius;
- the number of segments.

It returns a vertex buffer and a flat triangle-index buffer, with three indices per triangle.
A dispatcher picks one of five topology builders:

- **doughnut**: a ring sector;
- **pointy**: a wedge converging on one apex;
- **narrow**: a taper;
- **fan**: a widening shape, or a plain triangle fan when the inner arc is 0;
- **circle**: a pie slice or full disc around the origin.

Each builder seeds its buffers and then grows them one segment at a time.
It appends the indices computed from the current vertex count.
It then appends new vertices, each obtained by rotating an earlier one by `arc / segments` degrees.
When the inner radius is positive, a final pass lowers every vertex's z by the inner radius.
This puts the pivot at the centre of the inner arc.

Geometry is kept exact and symbolic.
A vertex is `Polar(r, deg, dz)`, which stands for rotY(deg)·(0, 0, r) + (0, 0, dz).
A Y rotation adds to `deg`, and the recentering pass subtracts from `dz`.
The index arithmetic (`Count - 1`, `Count - 2`, `Count`, `Count + 1`) is modelled exactly.

Files and modules:

- `geometry.dfy` (`Geometry`): the symbolic vertex, rotation, centring, and the sweep by repeated rotation.
- `layouts.dfy` (`Layouts`): the two buffers and the three layouts the builders emit (quad strip, apex fan, pivot fan), with their derived properties.
- `sweeps.dfy` (`Sweeps`): the three growth loops, written as while-loops over sequences.
- `circle_shape_mesh.dfy` (`CircleShapeMesh`): the parameters, the dispatcher, the five builders, the recentering pass and `MakeRadialShape`.
- `shape_properties.dfy` (`ShapeProperties`): uniqueness of the result, where each boundary starts and ends, the kept quirks, and worked examples.

Three behaviours of the code are kept as written:

- **Circle offset.** With a non-zero inner arc, the circle builder rotates its first rim vertex by the whole inner arc, not by a half arc (`CircleShapeMesh.CircleOffset`).
- **Fan without an inner arc.** The fan builder applies its centring rotation to vertex 0, the origin, which has radius 0. So the rim is not centred: it runs from 0 to the full outer arc (`ShapeProperties.FanWithoutInnerArc`).
- **Doughnut first.** With a positive inner radius and equal arcs, including two zero arcs, the doughnut builder runs, because that test comes before the `outerArc == 0` test (`CircleShapeMesh.Select`).

Every builder emits a seed span and then one more span per loop iteration, `segments - 1` iterations in all.
So `n = max(segments, 1)` spans are emitted, for every segment count except `int.MinValue` (see "Left out").

- Quad shapes seed 4 vertices and 6 indices, then add 2 vertices and 6 indices per iteration: `2n + 2` vertices and `6n` indices.
- Triangle fans seed 3 vertices and 3 indices, then add 1 vertex and 3 indices per iteration: `n + 2` vertices and `3n` indices.

A quarter ring in four segments therefore has 10 vertices and 24 indices (`ShapeProperties.QuarterRingExample`; see also `ShapeProperties.DiscExample` and `ShapeProperties.WedgeExample`).

`Layouts.Spans(segments)` is that `n`.
"Slot" means a position in the vertex buffer.
Quad strip: inner vertex k is at slot 0, 3, 5, … (`InnerSlot`), and outer vertex k is at slot 1, 2, 4, … (`OuterSlot`).
Apex fan: the apex is at slot 1 and the rim at slots 0, 2, 3, ….
Pivot fan: the pivot is at slot 0 and the rim at slots 1, 2, ….

## Model

| member | source | states |
|---|---|---|
| Geometry.Rotate | CircleShapeMesh.cs:113-117 | A Y rotation of an untranslated vertex keeps its radius, keeps it in the pivot plane, and turns it by exactly the given angle |
| Geometry.Centered | CircleShapeMesh.cs:107-114 | Rotating the forward vector (0, 0, r) by `-arc * 0.5` gives the vertex at radius r, untranslated, half the arc before the forward axis |
| Geometry.Sweep | CircleShapeMesh.cs:136-137 | Repeatedly rotating a boundary vertex keeps its radius and leaves it untranslated |
| Geometry.SweepAngle | CircleShapeMesh.cs:126-139 | After k rotations by a step, a vertex sits exactly k steps past its start angle, with the same radius |
| Geometry.SweepSpan | CircleShapeMesh.cs:37-38 | n rotations by `arc / n` turn a vertex through exactly `arc` degrees |
| Layouts.Spans | CircleShapeMesh.cs:126 | The number of spans a build emits: `segments` when it is at least 1, otherwise the single seed span |
| Layouts.QuadStripWellFormed | CircleShapeMesh.cs:119-138 | Every index of a quad strip names one of its vertices, and the index count is a multiple of 3 |
| Layouts.ApexFanWellFormed | CircleShapeMesh.cs:156-166 | Every index of an apex fan names one of its vertices, and the index count is a multiple of 3 |
| Layouts.PivotFanWellFormed | CircleShapeMesh.cs:282-292 | Every index of a pivot fan names one of its vertices, and the index count is a multiple of 3 |
| Layouts.ApexShared | CircleShapeMesh.cs:156-164 | Every triangle of an apex fan contains vertex 1, the apex |
| Layouts.PivotShared | CircleShapeMesh.cs:282-290 | Every triangle of a pivot fan contains vertex 0, the pivot |
| Layouts.QuadStripSweeps | CircleShapeMesh.cs:136-137 | In a quad strip, each new outer or inner vertex is the previous one rotated by that boundary's step; vertex k of a boundary sits k steps past its start |
| Layouts.PivotFanSweeps | CircleShapeMesh.cs:286-292 | In a pivot fan, each rim vertex is the previous one rotated by the step; rim vertex k sits k steps past the first |
| Layouts.ApexFanSweeps | CircleShapeMesh.cs:160-166 | In an apex fan, each rim vertex is the previous one rotated by the step; rim vertex k sits k steps past the first |
| Layouts.QuadStripUnique | CircleShapeMesh.cs:116-138 | The quad-strip layout (slots, winding, sweep) determines both buffers completely |
| Layouts.ApexFanUnique | CircleShapeMesh.cs:147-166 | The apex-fan layout determines both buffers completely |
| Layouts.PivotFanUnique | CircleShapeMesh.cs:275-292 | The pivot-fan layout determines both buffers completely |
| Layouts.QuadStripFlat | CircleShapeMesh.cs:110-117 | No vertex of a quad strip is translated along z before recentering |
| Layouts.ApexFanFlat | CircleShapeMesh.cs:147-154 | No vertex of an apex fan is translated along z before recentering |
| Layouts.PivotFanFlat | CircleShapeMesh.cs:275-280 | No vertex of a pivot fan is translated along z |
| Sweeps.BuildQuadStrip | CircleShapeMesh.cs:116-139 | Seed quad plus one quad per remaining segment. Result: 2n + 2 vertices and 6n indices. Inner vertex k at slot 0 or 2k + 1 and outer vertex k at slot 1 or 2k, each the start rotated k times. Quad k is (inner_k, outer_k, outer_k+1), (inner_k, outer_k+1, inner_k+1). All indices in range, stride 3 |
| Sweeps.QuadStripGrows | CircleShapeMesh.cs:126-138 | Before an iteration the last two slots hold the newest outer and inner vertices. Emitting `Count-1, Count-2, Count, Count-1, Count, Count+1`, then appending the rotation of slot `Count-2` twice, extends a strip of q quads to q + 1 quads |
| Sweeps.QuadVerticesGrow | CircleShapeMesh.cs:136-137 | The two vertices one iteration appends are the next outer and inner sweep vertices, at slots 2q + 2 and 2q + 3, and every earlier boundary vertex keeps its slot |
| Sweeps.QuadIndicesGrow | CircleShapeMesh.cs:128-133 | The six indices one iteration appends are exactly quad q of the strip, and earlier quads are unchanged |
| Sweeps.BuildApexFan | CircleShapeMesh.cs:154-166 | n + 2 vertices and 3n indices. The apex stays at slot 1. Rim vertex k is the start rotated k times. Triangle k is (rim_k, apex, rim_k+1). All indices in range, stride 3 |
| Sweeps.ApexFanGrows | CircleShapeMesh.cs:160-166 | One iteration emits `Count-1, 1, Count` and appends the rotated last rim vertex, extending an apex fan by one triangle |
| Sweeps.BuildPivotFan | CircleShapeMesh.cs:280-292 | n + 2 vertices and 3n indices. The pivot stays at slot 0. Rim vertex k is at slot k + 1, the start rotated k times. Triangle k is (pivot, rim_k, rim_k+1). All indices in range, stride 3 |
| Sweeps.PivotFanGrows | CircleShapeMesh.cs:286-292 | One iteration emits `0, Count-1, Count` and appends the rotated last rim vertex, extending a pivot fan by one triangle |
| CircleShapeMesh.Select | CircleShapeMesh.cs:44-86 | The five builders partition the inputs. Circle iff innerRadius <= 0. Doughnut iff equal arcs (both 0 included). Pointy iff outerArc is 0 and innerArc is not. Narrow iff 0 != outerArc < innerArc. Fan iff 0 != outerArc > innerArc. Each of the last four also needs innerRadius > 0 |
| CircleShapeMesh.AngleStep | CircleShapeMesh.cs:37-38 | The per-segment angle step: `segments` steps make up the whole arc |
| CircleShapeMesh.CircleOffset | CircleShapeMesh.cs:273 | The circle builder's first rotation: minus half the outer arc when the inner arc is 0, otherwise the whole inner arc |
| CircleShapeMesh.MakeDoughnutShape | CircleShapeMesh.cs:104-140 | Emits a quad strip whose inner and outer boundaries both start half the inner arc before the forward axis |
| CircleShapeMesh.MakePointyShape | CircleShapeMesh.cs:142-167 | Emits an apex fan: the inner boundary starts half the inner arc back, and the apex (0, 0, outerRadius) is unrotated and shared by every triangle |
| CircleShapeMesh.MakeNarrowShape | CircleShapeMesh.cs:169-201 | Emits a quad strip whose inner boundary starts half the inner arc back and whose outer boundary starts half the outer arc back |
| CircleShapeMesh.MakeFanShape | CircleShapeMesh.cs:203-268 | With innerArc 0: a pivot fan whose pivot is the origin turned by half the outer arc and whose rim starts unrotated, every triangle sharing vertex 0. Otherwise: the narrow builder's strip |
| CircleShapeMesh.MakeCircleShape | CircleShapeMesh.cs:270-293 | Emits a pivot fan around the origin. The rim starts at outerRadius, turned by -outerArc/2 when innerArc is 0 and by innerArc otherwise. Every triangle shares vertex 0 |
| CircleShapeMesh.Recentered | CircleShapeMesh.cs:74-80 | Moving every vertex by d along z keeps the vertex count and order, each radius and angle, and the index buffer, so well-formedness holds before exactly when it holds after |
| CircleShapeMesh.RecenteredUndo | CircleShapeMesh.cs:74-80 | Shifting every vertex by d and then by -d restores the mesh, so recentering loses nothing |
| CircleShapeMesh.RecenterVertices | CircleShapeMesh.cs:74-80 | Every vertex's z drops by exactly innerRadius. Its radius, its angle (hence x and y), its position and the vertex count are unchanged |
| CircleShapeMesh.MakeRadialShape | CircleShapeMesh.cs:34-86 | The result is the selected builder's buffers, recentred by innerRadius exactly when innerRadius > 0. All indices in range, stride 3. Vertex and index counts follow the topology. The wedge shares vertex 1 and the origin fans share vertex 0 |
| CircleShapeMesh.RecenteredBuild | CircleShapeMesh.cs:73-80 | Lowering every vertex of a build by innerRadius yields the finished shape: every vertex ends exactly innerRadius below the pivot plane |
| CircleShapeMesh.FinishedFacts | CircleShapeMesh.cs:43-86 | A finished shape has in-range indices in stride 3, 2n + 2 or n + 2 vertices and 6n or 3n indices by topology, and the fans' shared apex or pivot |
| CircleShapeMesh.BuiltFacts | CircleShapeMesh.cs:44-72 | Before recentering, every build is flat (dz = 0), well formed, sized by its topology and shares its fan's apex or pivot |
| ShapeProperties.BuiltUnique | CircleShapeMesh.cs:44-86 | For given parameters, at most one pair of buffers is a valid build |
| ShapeProperties.FinishedUnique | CircleShapeMesh.cs:34-86 | For given parameters, at most one finished shape exists, so MakeRadialShape's contract fixes its result |
| ShapeProperties.StripBoundaries | CircleShapeMesh.cs:169-201 | Doughnut, narrow and wide fan, segments >= 1: each boundary runs from -arc/2 to +arc/2 at its own radius |
| ShapeProperties.PointyBoundaries | CircleShapeMesh.cs:142-167 | Pointy, segments >= 1: the inner rim runs from -innerArc/2 to +innerArc/2, and the apex stays at angle 0 |
| ShapeProperties.FanWithoutInnerArc | CircleShapeMesh.cs:205-227 | Fan with innerArc 0: vertex 0 has radius 0 (turned by -outerArc/2), and the rim runs uncentred from angle 0 to angle outerArc |
| ShapeProperties.CircleBoundaries | CircleShapeMesh.cs:270-293 | Circle: the pivot is the origin. The rim runs from -outerArc/2 to +outerArc/2 when innerArc is 0, otherwise from innerArc to innerArc + outerArc |
| ShapeProperties.DiscExample | CircleShapeMesh.cs:270-293 | Full unit disc in 8 segments: circle builder, 10 vertices, 24 indices, every triangle on vertex 0, rim vertices at radius 1 and 45 degrees apart from -180 to +180 |
| ShapeProperties.QuarterRingExample | CircleShapeMesh.cs:104-140 | Quarter ring, radii 1 and 2, in 4 segments: doughnut, 10 vertices, 24 indices. Both boundaries run from -45 to +45 degrees in steps of 22.5, one unit below the pivot |
| ShapeProperties.WedgeExample | CircleShapeMesh.cs:142-167 | Quarter wedge, radius 1 to apex 2, in 3 segments: pointy, 5 vertices, 9 indices, every triangle on the apex (0, 0, 2) lowered by 1 |

## Left out

- Unity integration is not modelled: `Awake`, the serialized field defaults, `new Mesh()`, `RecalculateBounds`/`RecalculateTangents`/`RecalculateNormals` and the `MeshFilter` assignment. These are engine plumbing around the build.
- `Quaternion.Euler` and `Quaternion * Vector3` become exact angle addition on the symbolic vertex. No sine or cosine is evaluated, and float rounding of angles and of `arc / (float)segments` is not modelled.
- Angles are not reduced modulo 360. Two symbolic vertices with angles 360 degrees apart, or with radius 0 and different angles, are the same point but different `Polar` values. The model compares the exact symbolic values the code's rotations produce.
- MakeRadialShape: requires `segments != 0`. In C#, `arc / (float)0` yields infinity or NaN and the rotations yield NaN vertices, and real division in Dafny needs a non-zero divisor. Negative segment counts from -2147483647 upwards are accepted and give one span. The builders take the steps as parameters and are modelled for every segment count.
- MakeRadialShape: does not model the 32-bit wrap of the loop bound `segments - 1` (CircleShapeMesh.cs:126, 160, 187, 219, 252, 286). At `segments = int.MinValue` the bound wraps to `int.MaxValue`, and the C# loop appends vertices until the list runs out of memory. The model uses unbounded integers, so it emits the single seed span for that input instead.
- Layouts.Spans: gives 1 at `segments = int.MinValue`, where the wrapped C# loop bound never lets the loop end normally. `Sweeps.BuildQuadStrip`, `Sweeps.BuildApexFan` and `Sweeps.BuildPivotFan` share this gap.
- `-innerArc` and `-outerArc` (CircleShapeMesh.cs:107, 145, 174, 175, 208, 239, 240, 273) are negated as 32-bit integers and overflow at `int.MinValue`. This is not modelled, and neither are NaN radii: arcs are unbounded integers and radii are reals.
- UV generation is not modelled: the source only has it as a commented-out placeholder.
- The member fields (`vertexList`, `triangleList`, the quaternions and the steps) become locals and parameters, because nothing carries over from one build to the next.

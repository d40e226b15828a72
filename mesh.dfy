/**
 * The mesh primitives of the plate generator. Each one appends triangles to the plate's shared
 * triangle list: the slab with its hanging hole, the ring that reinforces the hole, and one
 * flattened dome per raised braille dot.
 *
 * Coordinates are computed with `pi`, `cos`, `sin` and `sqrt`, which the model takes as given
 * functions (`Trig`); what is proved does not depend on their values: how many triangles each
 * primitive appends, in which order, and at which heights the flat faces lie.
 */
module Mesh {
  import opened SeqUtil

  datatype Vec3 = Vec3(x: real, y: real, z: real)

  /** A facet: the stored normal and three vertices in emission order. */
  datatype Triangle = Triangle(normal: Vec3, v1: Vec3, v2: Vec3, v3: Vec3)

  datatype Trig = Trig(pi: real, cos: real -> real, sin: real -> real, sqrt: real -> real)

  type Point2 = (real, real)

  const Up := Vec3(0.0, 0.0, 1.0)
  const Down := Vec3(0.0, 0.0, -1.0)
  const Side := Vec3(0.0, 0.0, 0.0)

  /** The list of triangles a plate is built into; every primitive appends to it. */
  class TriangleList {
    var items: seq<Triangle>

    constructor()
      ensures items == []
    {
      items := [];
    }
  }

  /** The point at angle `ang` on the circle of radius `r` around `(cx, cy)`. */
  function Polar(t: Trig, cx: real, cy: real, r: real, ang: real): Point2
  {
    (cx + r * t.cos(ang), cy + r * t.sin(ang))
  }

  predicate AllAt(tri: Triangle, z: real)
  {
    tri.v1.z == z && tri.v2.z == z && tri.v3.z == z
  }

  // ---------------------------------------------------------------------------
  // Rounded rectangle outline

  /** The angle of point `i` of a corner that starts at angle `start`. */
  function ArcAngle(t: Trig, start: real, seg: nat, i: nat): real
    requires seg > 0
  {
    start + t.pi / 2.0 * (i as real) / (seg as real)
  }

  /** A quarter circle of `seg + 1` points around `(cx, cy)`, from angle `start` on. */
  function Arc(t: Trig, cx: real, cy: real, r: real, start: real, seg: nat): (ps: seq<Point2>)
    requires seg > 0
    ensures |ps| == seg + 1
  {
    seq(seg + 1, i requires 0 <= i <= seg =>
      Polar(t, cx, cy, r, ArcAngle(t, start, seg, i)))
  }

  /** The outline of a `w` by `h` rectangle whose corners are rounded with radius `r`,
      counter-clockwise from the upper right corner. */
  function RectPath(t: Trig, w: real, h: real, r: real, seg: nat): seq<Point2>
    requires seg > 0
  {
    Arc(t, w - r, h - r, r, 0.0, seg) + Arc(t, r, h - r, r, t.pi / 2.0, seg)
    + Arc(t, r, r, r, t.pi, seg) + Arc(t, w - r, r, r, 3.0 * t.pi / 2.0, seg)
  }

  /** Appends one corner's points. */
  method AppendArc(points: seq<Point2>, t: Trig, cx: real, cy: real, r: real, start: real, seg: nat)
    returns (out: seq<Point2>)
    requires seg > 0
    ensures out == points + Arc(t, cx, cy, r, start, seg)
  {
    out := points;
    for i := 0 to seg + 1
      invariant out == points + Arc(t, cx, cy, r, start, seg)[..i]
    {
      var ang := ArcAngle(t, start, seg, i);
      out := out + [Polar(t, cx, cy, r, ang)];
      assert Arc(t, cx, cy, r, start, seg)[..i + 1]
          == Arc(t, cx, cy, r, start, seg)[..i] + [Arc(t, cx, cy, r, start, seg)[i]];
    }
    assert Arc(t, cx, cy, r, start, seg)[..seg + 1] == Arc(t, cx, cy, r, start, seg);
  }

  /** `_generate_rounded_rect_path`: four corners of `seg + 1` points each. */
  method GenerateRoundedRectPath(t: Trig, w: real, h: real, r: real, seg: nat) returns (points: seq<Point2>)
    requires seg > 0
    ensures points == RectPath(t, w, h, r, seg)
    ensures |points| == 4 * (seg + 1)
  {
    points := AppendArc([], t, w - r, h - r, r, 0.0, seg);
    assert points == Arc(t, w - r, h - r, r, 0.0, seg);
    points := AppendArc(points, t, r, h - r, r, t.pi / 2.0, seg);
    points := AppendArc(points, t, r, r, r, t.pi, seg);
    points := AppendArc(points, t, w - r, r, r, 3.0 * t.pi / 2.0, seg);
  }

  // ---------------------------------------------------------------------------
  // Slab with a hole

  const PlateSegments: nat := 32

  /** The hole's rim point in the direction of an outline point (a zero distance counts as 0.001). */
  function SquaredLength(vx: real, vy: real): real
  {
    vx * vx + vy * vy
  }

  function HolePoint(t: Trig, p: Point2, hcx: real, hcy: real, hr: real): Point2
  {
    var vx := p.0 - hcx;
    var vy := p.1 - hcy;
    var d := t.sqrt(SquaredLength(vx, vy));
    var dist := if d == 0.0 then 0.001 else d;
    (hcx + (vx / dist) * hr, hcy + (vy / dist) * hr)
  }

  function HolePoints(t: Trig, outer: seq<Point2>, hcx: real, hcy: real, hr: real): (hs: seq<Point2>)
    ensures |hs| == |outer|
  {
    seq(|outer|, i requires 0 <= i < |outer| => HolePoint(t, outer[i], hcx, hcy, hr))
  }

  /** The eight triangles between outline points `i` and `i + 1` (cyclically) and the matching
      rim points: two on the top face, two on the bottom face, two on the outer wall, two on the
      hole's wall. */
  function SlabSegment(outer: seq<Point2>, hole: seq<Point2>, depth: real, i: nat): (ts: seq<Triangle>)
    requires |hole| == |outer| && i < |outer|
    ensures |ts| == 8
  {
    var n := (i + 1) % |outer|;
    var o1 := Vec3(outer[i].0, outer[i].1, depth);
    var o2 := Vec3(outer[n].0, outer[n].1, depth);
    var i2 := Vec3(hole[n].0, hole[n].1, depth);
    var i1 := Vec3(hole[i].0, hole[i].1, depth);
    var o1b := Vec3(outer[i].0, outer[i].1, 0.0);
    var o2b := Vec3(outer[n].0, outer[n].1, 0.0);
    var i2b := Vec3(hole[n].0, hole[n].1, 0.0);
    var i1b := Vec3(hole[i].0, hole[i].1, 0.0);
    [ Triangle(Up, o1, o2, i1), Triangle(Up, i1, o2, i2),
      Triangle(Down, o1b, i1b, o2b), Triangle(Down, i1b, i2b, o2b),
      Triangle(Side, o1b, o2b, o2), Triangle(Side, o1b, o2, o1),
      Triangle(Side, i1b, i1, i2b), Triangle(Side, i2b, i1, i2) ]
  }

  function SlabSegments(outer: seq<Point2>, hole: seq<Point2>, depth: real): (ss: seq<seq<Triangle>>)
    requires |hole| == |outer|
    ensures |ss| == |outer|
  {
    seq(|outer|, i requires 0 <= i < |outer| => SlabSegment(outer, hole, depth, i))
  }

  /** The slab of a `width` by `height` plate, `depth` thick, with the hole of radius `hr`. */
  function SlabTriangles(t: Trig, width: real, height: real, depth: real, cornerR: real,
                         hcx: real, hcy: real, hr: real): seq<Triangle>
  {
    var outer := RectPath(t, width, height, cornerR, PlateSegments);
    Concat(SlabSegments(outer, HolePoints(t, outer, hcx, hcy, hr), depth))
  }

  /** The slab has 8 triangles per outline point, 1056 in all; its upward faces lie at the
      plate's thickness, its downward faces at 0, and every vertex at one of the two. */
  lemma SlabFacts(t: Trig, width: real, height: real, depth: real, cornerR: real,
                  hcx: real, hcy: real, hr: real)
    ensures var ts := SlabTriangles(t, width, height, depth, cornerR, hcx, hcy, hr);
      && |ts| == 8 * 4 * (PlateSegments + 1) == 1056
      && (forall tri :: tri in ts && tri.normal == Up ==> AllAt(tri, depth))
      && (forall tri :: tri in ts && tri.normal == Down ==> AllAt(tri, 0.0))
      && (forall tri :: tri in ts ==>
            (tri.v1.z == 0.0 || tri.v1.z == depth) && (tri.v2.z == 0.0 || tri.v2.z == depth)
            && (tri.v3.z == 0.0 || tri.v3.z == depth))
  {
    var outer := RectPath(t, width, height, cornerR, PlateSegments);
    var ss := SlabSegments(outer, HolePoints(t, outer, hcx, hcy, hr), depth);
    ConcatUniformLength(ss, 8);
    forall tri: Triangle | tri in Concat(ss)
      ensures tri.normal == Up ==> AllAt(tri, depth)
      ensures tri.normal == Down ==> AllAt(tri, 0.0)
      ensures (tri.v1.z == 0.0 || tri.v1.z == depth) && (tri.v2.z == 0.0 || tri.v2.z == depth)
              && (tri.v3.z == 0.0 || tri.v3.z == depth)
    {
      ConcatMember(ss, tri);
    }
  }

  /** The rim points of the hole, one per outline point. */
  method ComputeHolePoints(t: Trig, outer: seq<Point2>, hcx: real, hcy: real, hr: real)
    returns (hole: seq<Point2>)
    ensures hole == HolePoints(t, outer, hcx, hcy, hr)
  {
    hole := [];
    for i := 0 to |outer|
      invariant hole == HolePoints(t, outer, hcx, hcy, hr)[..i]
    {
      hole := hole + [HolePoint(t, outer[i], hcx, hcy, hr)];
      assert HolePoints(t, outer, hcx, hcy, hr)[..i + 1]
          == HolePoints(t, outer, hcx, hcy, hr)[..i] + [HolePoints(t, outer, hcx, hcy, hr)[i]];
    }
    assert HolePoints(t, outer, hcx, hcy, hr)[..|outer|] == HolePoints(t, outer, hcx, hcy, hr);
  }

  /** `_add_plate_with_hole`. */
  method AddPlateWithHole(tris: TriangleList, t: Trig, width: real, height: real, depth: real,
                          cornerR: real, hcx: real, hcy: real, hr: real)
    modifies tris
    ensures tris.items == old(tris.items) + SlabTriangles(t, width, height, depth, cornerR, hcx, hcy, hr)
  {
    var outer := GenerateRoundedRectPath(t, width, height, cornerR, PlateSegments);
    var hole := ComputeHolePoints(t, outer, hcx, hcy, hr);
    ghost var ss := SlabSegments(outer, hole, depth);
    ghost var start := tris.items;
    for i := 0 to |outer|
      invariant tris.items == start + Concat(ss[..i])
    {
      var n := (i + 1) % |outer|;
      var o1 := Vec3(outer[i].0, outer[i].1, depth);
      var o2 := Vec3(outer[n].0, outer[n].1, depth);
      var i2 := Vec3(hole[n].0, hole[n].1, depth);
      var i1 := Vec3(hole[i].0, hole[i].1, depth);
      var o1b := Vec3(outer[i].0, outer[i].1, 0.0);
      var o2b := Vec3(outer[n].0, outer[n].1, 0.0);
      var i2b := Vec3(hole[n].0, hole[n].1, 0.0);
      var i1b := Vec3(hole[i].0, hole[i].1, 0.0);
      tris.items := tris.items + [ Triangle(Up, o1, o2, i1), Triangle(Up, i1, o2, i2),
                                   Triangle(Down, o1b, i1b, o2b), Triangle(Down, i1b, i2b, o2b),
                                   Triangle(Side, o1b, o2b, o2), Triangle(Side, o1b, o2, o1),
                                   Triangle(Side, i1b, i1, i2b), Triangle(Side, i2b, i1, i2) ];
      ConcatPrefixSnoc(ss, i);
    }
    assert ss[..|outer|] == ss;
  }

  // ---------------------------------------------------------------------------
  // Reinforcing ring around the hole

  const TubeSegments: nat := 32

  /** The six triangles of one of the ring's 32 sectors: two on top, two on the outer wall, two
      on the inner wall. */
  function TubeAngle(t: Trig, i: nat): real
  {
    2.0 * t.pi * (i as real) / (TubeSegments as real)
  }

  function TubeSector(t: Trig, cx: real, cy: real, zBase: real, rIn: real, rOut: real, height: real, i: nat)
    : (ts: seq<Triangle>)
    ensures |ts| == 6
  {
    var topZ := zBase + height;
    var a1 := TubeAngle(t, i);
    var a2 := TubeAngle(t, i + 1);
    var in1 := Polar(t, cx, cy, rIn, a1);
    var in2 := Polar(t, cx, cy, rIn, a2);
    var out1 := Polar(t, cx, cy, rOut, a1);
    var out2 := Polar(t, cx, cy, rOut, a2);
    var pi1 := Vec3(in1.0, in1.1, topZ);
    var pi2 := Vec3(in2.0, in2.1, topZ);
    var po1 := Vec3(out1.0, out1.1, topZ);
    var po2 := Vec3(out2.0, out2.1, topZ);
    var bo1 := Vec3(po1.x, po1.y, zBase);
    var bo2 := Vec3(po2.x, po2.y, zBase);
    var bi1 := Vec3(pi1.x, pi1.y, zBase);
    var bi2 := Vec3(pi2.x, pi2.y, zBase);
    [ Triangle(Up, po1, po2, pi1), Triangle(Up, pi1, po2, pi2),
      Triangle(Side, bo1, bo2, po2), Triangle(Side, bo1, po2, po1),
      Triangle(Side, bi1, pi1, bi2), Triangle(Side, bi2, pi1, pi2) ]
  }

  function TubeSectors(t: Trig, cx: real, cy: real, zBase: real, rIn: real, rOut: real, height: real)
    : (ss: seq<seq<Triangle>>)
    ensures |ss| == TubeSegments
  {
    seq(TubeSegments, i requires 0 <= i < TubeSegments => TubeSector(t, cx, cy, zBase, rIn, rOut, height, i))
  }

  function TubeTriangles(t: Trig, cx: real, cy: real, zBase: real, rIn: real, rOut: real, height: real)
    : seq<Triangle>
  {
    Concat(TubeSectors(t, cx, cy, zBase, rIn, rOut, height))
  }

  /** The ring has 6 × 32 = 192 triangles; its top lies at `zBase + height` and every vertex
      is on its base or its top. */
  lemma TubeFacts(t: Trig, cx: real, cy: real, zBase: real, rIn: real, rOut: real, height: real)
    ensures var ts := TubeTriangles(t, cx, cy, zBase, rIn, rOut, height);
      && |ts| == 6 * TubeSegments == 192
      && (forall tri :: tri in ts && tri.normal == Up ==> AllAt(tri, zBase + height))
      && (forall tri :: tri in ts ==>
            (tri.v1.z == zBase || tri.v1.z == zBase + height)
            && (tri.v2.z == zBase || tri.v2.z == zBase + height)
            && (tri.v3.z == zBase || tri.v3.z == zBase + height))
  {
    var ss := TubeSectors(t, cx, cy, zBase, rIn, rOut, height);
    ConcatUniformLength(ss, 6);
    forall tri: Triangle | tri in Concat(ss)
      ensures tri.normal == Up ==> AllAt(tri, zBase + height)
      ensures (tri.v1.z == zBase || tri.v1.z == zBase + height)
              && (tri.v2.z == zBase || tri.v2.z == zBase + height)
              && (tri.v3.z == zBase || tri.v3.z == zBase + height)
    {
      ConcatMember(ss, tri);
    }
  }

  /** `_add_tube`. */
  method AddTube(tris: TriangleList, t: Trig, cx: real, cy: real, zBase: real, rIn: real, rOut: real,
                 height: real)
    modifies tris
    ensures tris.items == old(tris.items) + TubeTriangles(t, cx, cy, zBase, rIn, rOut, height)
  {
    ghost var ss := TubeSectors(t, cx, cy, zBase, rIn, rOut, height);
    ghost var start := tris.items;
    var topZ := zBase + height;
    for i := 0 to TubeSegments
      invariant tris.items == start + Concat(ss[..i])
    {
      var a1 := TubeAngle(t, i);
      var a2 := TubeAngle(t, i + 1);
      var in1 := Polar(t, cx, cy, rIn, a1);
      var in2 := Polar(t, cx, cy, rIn, a2);
      var out1 := Polar(t, cx, cy, rOut, a1);
      var out2 := Polar(t, cx, cy, rOut, a2);
      var pi1 := Vec3(in1.0, in1.1, topZ);
      var pi2 := Vec3(in2.0, in2.1, topZ);
      var po1 := Vec3(out1.0, out1.1, topZ);
      var po2 := Vec3(out2.0, out2.1, topZ);
      var bo1 := Vec3(po1.x, po1.y, zBase);
      var bo2 := Vec3(po2.x, po2.y, zBase);
      var bi1 := Vec3(pi1.x, pi1.y, zBase);
      var bi2 := Vec3(pi2.x, pi2.y, zBase);
      tris.items := tris.items + [ Triangle(Up, po1, po2, pi1), Triangle(Up, pi1, po2, pi2),
                                   Triangle(Side, bo1, bo2, po2), Triangle(Side, bo1, po2, po1),
                                   Triangle(Side, bi1, pi1, bi2), Triangle(Side, bi2, pi1, pi2) ];
      ConcatPrefixSnoc(ss, i);
    }
    assert ss[..TubeSegments] == ss;
  }

  // ---------------------------------------------------------------------------
  // Flattened dome of one dot

  const DotSegments: nat := 24
  const DotRings: nat := 6
  const FlatRatio: real := 0.75

  /** The dome is cut at `ThetaLimit`; heights are scaled by `1 / sin(ThetaLimit)` so that the
      cut would sit at the requested height. */
  function ThetaLimit(t: Trig): real
  {
    (t.pi / 2.0) * FlatRatio
  }

  /** The source divides by `sin(ThetaLimit)`. */
  predicate DomeScalable(t: Trig)
  {
    t.sin(ThetaLimit(t)) != 0.0
  }

  function Theta(t: Trig, j: nat): real
  {
    ThetaLimit(t) * ((j as real) / (DotRings as real))
  }

  /** The height of ring `j` (`j` from 1 to 6): the scaled sine, except that the last ring is
      clamped to exactly `cz + h`. */
  function ScaledHeight(t: Trig, cz: real, h: real, j: nat): real
    requires DomeScalable(t)
  {
    var zScale := 1.0 / t.sin(ThetaLimit(t));
    cz + (h * t.sin(Theta(t, j))) * zScale
  }

  function RingZ(t: Trig, cz: real, h: real, j: nat): real
    requires DomeScalable(t)
  {
    if j == DotRings then cz + h else ScaledHeight(t, cz, h, j)
  }

  function RingRadius(t: Trig, r: real, j: nat): real
  {
    if j == 0 then r else r * t.cos(Theta(t, j))
  }

  function Angle(t: Trig, i: nat): real
  {
    2.0 * t.pi * (i as real) / (DotSegments as real)
  }

  /** The points of ring `j`: ring 0 is the base circle of radius `r` at `cz`; ring `j >= 1` has
      radius `r * cos(Theta(j))` at `RingZ(j)`. */
  function Ring(t: Trig, cx: real, cy: real, cz: real, r: real, h: real, j: nat): (ps: seq<Vec3>)
    requires DomeScalable(t)
    ensures |ps| == DotSegments
  {
    var zj := if j == 0 then cz else RingZ(t, cz, h, j);
    seq(DotSegments, i requires 0 <= i < DotSegments =>
      var p := Polar(t, cx, cy, RingRadius(t, r, j), Angle(t, i));
      Vec3(p.0, p.1, zj))
  }

  /** The two side triangles joining point `i` of a ring to point `i` of the ring above. */
  function BandQuad(lower: seq<Vec3>, upper: seq<Vec3>, i: nat): (ts: seq<Triangle>)
    requires |lower| == |upper| == DotSegments && i < DotSegments
    ensures |ts| == 2
  {
    var n := (i + 1) % DotSegments;
    [Triangle(Up, lower[i], lower[n], upper[i]), Triangle(Up, upper[i], lower[n], upper[n])]
  }

  function BandQuads(lower: seq<Vec3>, upper: seq<Vec3>): (qs: seq<seq<Triangle>>)
    requires |lower| == |upper| == DotSegments
    ensures |qs| == DotSegments
  {
    seq(DotSegments, i requires 0 <= i < DotSegments => BandQuad(lower, upper, i))
  }

  /** The lid: a fan from the top ring to its centre. */
  function CapFans(ring: seq<Vec3>, center: Vec3): (fs: seq<seq<Triangle>>)
    requires |ring| == DotSegments
    ensures |fs| == DotSegments
  {
    seq(DotSegments, i requires 0 <= i < DotSegments =>
      [Triangle(Up, ring[i], ring[(i + 1) % DotSegments], center)])
  }

  /** The side triangles between ring `k` and ring `k + 1`. */
  function Band(t: Trig, cx: real, cy: real, cz: real, r: real, h: real, k: nat): seq<Triangle>
    requires DomeScalable(t)
  {
    Concat(BandQuads(Ring(t, cx, cy, cz, r, h, k), Ring(t, cx, cy, cz, r, h, k + 1)))
  }

  /** The first `n` bands, bottom first. */
  function Bands(t: Trig, cx: real, cy: real, cz: real, r: real, h: real, n: nat): seq<Triangle>
    requires DomeScalable(t)
  {
    if n == 0 then [] else Bands(t, cx, cy, cz, r, h, n - 1) + Band(t, cx, cy, cz, r, h, n - 1)
  }

  /** The lid on the last ring, centred at `cz + h`. */
  function Lid(t: Trig, cx: real, cy: real, cz: real, r: real, h: real): seq<Triangle>
    requires DomeScalable(t)
  {
    Concat(CapFans(Ring(t, cx, cy, cz, r, h, DotRings), Vec3(cx, cy, cz + h)))
  }

  function DotTriangles(t: Trig, cx: real, cy: real, cz: real, r: real, h: real): seq<Triangle>
    requires DomeScalable(t)
  {
    Bands(t, cx, cy, cz, r, h, DotRings) + Lid(t, cx, cy, cz, r, h)
  }

  lemma BandLength(t: Trig, cx: real, cy: real, cz: real, r: real, h: real, k: nat)
    requires DomeScalable(t)
    ensures |Band(t, cx, cy, cz, r, h, k)| == 2 * DotSegments
  {
    ConcatUniformLength(BandQuads(Ring(t, cx, cy, cz, r, h, k), Ring(t, cx, cy, cz, r, h, k + 1)), 2);
  }

  /** Each band has two triangles per segment: 2 × 24 = 48 per band. */
  lemma {:induction false} BandsCount(t: Trig, cx: real, cy: real, cz: real, r: real, h: real, n: nat)
    requires DomeScalable(t)
    ensures |Bands(t, cx, cy, cz, r, h, n)| == 48 * n
  {
    if n == 0 {
      assert Bands(t, cx, cy, cz, r, h, n) == [];
    } else {
      var m: nat := n - 1;
      var prev := Bands(t, cx, cy, cz, r, h, m);
      var band := Band(t, cx, cy, cz, r, h, m);
      assert Bands(t, cx, cy, cz, r, h, n) == prev + band;
      BandsCount(t, cx, cy, cz, r, h, m);
      BandLength(t, cx, cy, cz, r, h, m);
      assert |prev| == 48 * m && |band| == 48;
      assert 48 * m + 48 == 48 * n;
    }
  }

  /** A dot has 2 × 24 × 6 + 24 = 312 triangles: six bands of 48 and a lid of 24. */
  lemma DotCount(t: Trig, cx: real, cy: real, cz: real, r: real, h: real)
    requires DomeScalable(t)
    ensures |DotTriangles(t, cx, cy, cz, r, h)| == 2 * DotSegments * DotRings + DotSegments == 312
  {
    BandsCount(t, cx, cy, cz, r, h, DotRings);
    ConcatUniformLength(CapFans(Ring(t, cx, cy, cz, r, h, DotRings), Vec3(cx, cy, cz + h)), 1);
  }

  /** The dot's lid — its last ring and the fan to the centre — lies exactly at `cz + h`, whatever
      the scaled sine would give. */
  lemma DotLidAtHeight(t: Trig, cx: real, cy: real, cz: real, r: real, h: real)
    requires DomeScalable(t)
    ensures forall p :: p in Ring(t, cx, cy, cz, r, h, DotRings) ==> p.z == cz + h
    ensures var lid := Lid(t, cx, cy, cz, r, h);
      forall k :: 0 <= k < |lid| ==> AllAt(lid[k], cz + h)
  {
    var top := Ring(t, cx, cy, cz, r, h, DotRings);
    var fans := CapFans(top, Vec3(cx, cy, cz + h));
    forall k | 0 <= k < |Concat(fans)|
      ensures AllAt(Concat(fans)[k], cz + h)
    {
      ConcatMember(fans, Concat(fans)[k]);
    }
  }

  /** Builds ring `j`'s points. */
  method MakeRing(t: Trig, cx: real, cy: real, cz: real, r: real, h: real, j: nat)
    returns (ring: seq<Vec3>)
    requires DomeScalable(t)
    ensures ring == Ring(t, cx, cy, cz, r, h, j)
  {
    var zj := cz;
    if j > 0 {
      zj := ScaledHeight(t, cz, h, j);
      if j == DotRings {
        zj := cz + h;  // the last ring is clamped to the requested height
      }
    }
    var rj := RingRadius(t, r, j);
    ring := [];
    for i := 0 to DotSegments
      invariant ring == Ring(t, cx, cy, cz, r, h, j)[..i]
    {
      var angle := Angle(t, i);
      var p := Polar(t, cx, cy, rj, angle);
      ring := ring + [Vec3(p.0, p.1, zj)];
      assert Ring(t, cx, cy, cz, r, h, j)[..i + 1]
          == Ring(t, cx, cy, cz, r, h, j)[..i] + [Ring(t, cx, cy, cz, r, h, j)[i]];
    }
    assert Ring(t, cx, cy, cz, r, h, j)[..DotSegments] == Ring(t, cx, cy, cz, r, h, j);
  }

  /** Joins two rings with side triangles. */
  method AppendBand(tris: TriangleList, lower: seq<Vec3>, upper: seq<Vec3>)
    requires |lower| == |upper| == DotSegments
    modifies tris
    ensures tris.items == old(tris.items) + Concat(BandQuads(lower, upper))
  {
    ghost var qs := BandQuads(lower, upper);
    ghost var start := tris.items;
    for i := 0 to DotSegments
      invariant tris.items == start + Concat(qs[..i])
    {
      var n := (i + 1) % DotSegments;
      tris.items := tris.items + [Triangle(Up, lower[i], lower[n], upper[i])];
      tris.items := tris.items + [Triangle(Up, upper[i], lower[n], upper[n])];
      ConcatPrefixSnoc(qs, i);
    }
    assert qs[..DotSegments] == qs;
  }

  /** Closes the top ring with a fan to its centre. */
  method AppendCap(tris: TriangleList, ring: seq<Vec3>, center: Vec3)
    requires |ring| == DotSegments
    modifies tris
    ensures tris.items == old(tris.items) + Concat(CapFans(ring, center))
  {
    ghost var fs := CapFans(ring, center);
    ghost var start := tris.items;
    for i := 0 to DotSegments
      invariant tris.items == start + Concat(fs[..i])
    {
      tris.items := tris.items + [Triangle(Up, ring[i], ring[(i + 1) % DotSegments], center)];
      ConcatPrefixSnoc(fs, i);
    }
    assert fs[..DotSegments] == fs;
  }

  /** One step of the ring loop: builds ring `j` and joins it to ring `j - 1`. */
  method AddRing(tris: TriangleList, t: Trig, cx: real, cy: real, cz: real, r: real, h: real,
                 j: nat, prevRing: seq<Vec3>)
    returns (currentRing: seq<Vec3>)
    requires DomeScalable(t) && 1 <= j
    requires prevRing == Ring(t, cx, cy, cz, r, h, j - 1)
    modifies tris
    ensures currentRing == Ring(t, cx, cy, cz, r, h, j)
    ensures tris.items == old(tris.items) + Band(t, cx, cy, cz, r, h, j - 1)
  {
    currentRing := MakeRing(t, cx, cy, cz, r, h, j);
    AppendBand(tris, prevRing, currentRing);
  }

  /** The ring loop: rings 1 to 6, each joined to the one below; returns the top ring. */
  method AddRings(tris: TriangleList, t: Trig, cx: real, cy: real, cz: real, r: real, h: real,
                  base: seq<Vec3>)
    returns (top: seq<Vec3>)
    requires DomeScalable(t) && base == Ring(t, cx, cy, cz, r, h, 0)
    modifies tris
    ensures top == Ring(t, cx, cy, cz, r, h, DotRings)
    ensures tris.items == old(tris.items) + Bands(t, cx, cy, cz, r, h, DotRings)
  {
    ghost var start := tris.items;
    top := base;
    for j := 1 to DotRings + 1
      invariant top == Ring(t, cx, cy, cz, r, h, j - 1)
      invariant tris.items == start + Bands(t, cx, cy, cz, r, h, j - 1)
    {
      top := AddRing(tris, t, cx, cy, cz, r, h, j, top);
      AppendAssoc(start, Bands(t, cx, cy, cz, r, h, j - 1), Band(t, cx, cy, cz, r, h, j - 1));
    }
  }

  /** `_add_dot_mesh`: the base ring, then rings 1 to 6 each joined to the one below, then the
      lid on ring 6. */
  method AddDotMesh(tris: TriangleList, t: Trig, cx: real, cy: real, cz: real, r: real, h: real)
    requires DomeScalable(t)
    modifies tris
    ensures tris.items == old(tris.items) + DotTriangles(t, cx, cy, cz, r, h)
  {
    ghost var start := tris.items;
    var base := MakeRing(t, cx, cy, cz, r, h, 0);
    var top := AddRings(tris, t, cx, cy, cz, r, h, base);
    AppendCap(tris, top, Vec3(cx, cy, cz + h));
    AppendAssoc(start, Bands(t, cx, cy, cz, r, h, DotRings), Lid(t, cx, cy, cz, r, h));
  }

  // ---------------------------------------------------------------------------
  // One braille character

  /** The centre offsets of dots 1 to 6: left column top to bottom, then right column. */
  function DotOffset(i: nat, px: real, py: real): Point2
    requires i < 6
  {
    [(0.0, 2.0 * py), (0.0, py), (0.0, 0.0), (px, 2.0 * py), (px, py), (px, 0.0)][i]
  }

  /** The dot pattern may be longer than six entries only with the extra entries lowered: the
      source looks up the offset of a raised entry and fails past the sixth. */
  predicate RaisedWithinSix(dots: seq<bool>)
  {
    forall i :: 6 <= i < |dots| ==> !dots[i]
  }

  function CountRaised(dots: seq<bool>): nat
  {
    if dots == [] then 0 else CountRaised(dots[..|dots| - 1]) + (if dots[|dots| - 1] then 1 else 0)
  }

  /** The centre of dot `i`: half a diameter in from the lower left corner of its cell. */
  function DotCentre(i: nat, x: real, y: real, dia: real, px: real, py: real): Point2
    requires i < 6
  {
    var off := DotOffset(i, px, py);
    (x + off.0 + dia / 2.0, y + off.1 + dia / 2.0)
  }

  /** The dome of dot `i` of a character whose lower left dot cell starts at `(x, y)`. */
  function DotAt(t: Trig, i: nat, x: real, y: real, zBase: real, dia: real, h: real, px: real, py: real)
    : (ts: seq<Triangle>)
    requires DomeScalable(t) && i < 6
  {
    DotTriangles(t, DotCentre(i, x, y, dia, px, py).0, DotCentre(i, x, y, dia, px, py).1, zBase, dia / 2.0, h)
  }

  lemma DotAtUnfold(t: Trig, i: nat, x: real, y: real, zBase: real, dia: real, h: real, px: real, py: real)
    requires DomeScalable(t) && i < 6
    ensures DotAt(t, i, x, y, zBase, dia, h, px, py)
      == DotTriangles(t, DotCentre(i, x, y, dia, px, py).0, DotCentre(i, x, y, dia, px, py).1, zBase, dia / 2.0, h)
  {
  }

  lemma DotAtCount(t: Trig, i: nat, x: real, y: real, zBase: real, dia: real, h: real, px: real, py: real)
    requires DomeScalable(t) && i < 6
    ensures |DotAt(t, i, x, y, zBase, dia, h, px, py)| == 312
  {
    var c := DotCentre(i, x, y, dia, px, py);
    DotCount(t, c.0, c.1, zBase, dia / 2.0, h);
  }

  /** The domes of the raised dots among the first `n` entries of `dots`, in entry order. */
  function CharTriangles(t: Trig, dots: seq<bool>, n: nat, x: real, y: real, zBase: real, dia: real,
                         h: real, px: real, py: real): seq<Triangle>
    requires DomeScalable(t) && RaisedWithinSix(dots) && n <= |dots|
  {
    if n == 0 then []
    else CharTriangles(t, dots, n - 1, x, y, zBase, dia, h, px, py)
         + (if dots[n - 1] then DotAt(t, n - 1, x, y, zBase, dia, h, px, py) else [])
  }

  /** A character has 312 triangles per raised dot and none for a lowered one. */
  lemma {:induction false} CharCount(t: Trig, dots: seq<bool>, n: nat, x: real, y: real, zBase: real,
                                     dia: real, h: real, px: real, py: real)
    requires DomeScalable(t) && RaisedWithinSix(dots) && n <= |dots|
    ensures |CharTriangles(t, dots, n, x, y, zBase, dia, h, px, py)| == 312 * CountRaised(dots[..n])
  {
    if n > 0 {
      CharCount(t, dots, n - 1, x, y, zBase, dia, h, px, py);
      assert dots[..n][..n - 1] == dots[..n - 1];
      if dots[n - 1] {
        DotAtCount(t, n - 1, x, y, zBase, dia, h, px, py);
      }
    }
  }

  /** Raises dot `i` of a character: its dome, centred in the dot's cell. */
  method AddDot(tris: TriangleList, t: Trig, i: nat, x: real, y: real, zBase: real, dia: real,
                h: real, px: real, py: real)
    requires DomeScalable(t) && i < 6
    modifies tris
    ensures tris.items == old(tris.items) + DotAt(t, i, x, y, zBase, dia, h, px, py)
  {
    AddDotMesh(tris, t, DotCentre(i, x, y, dia, px, py).0, DotCentre(i, x, y, dia, px, py).1, zBase, dia / 2.0, h);
    DotAtUnfold(t, i, x, y, zBase, dia, h, px, py);
  }

  /** `_add_braille_char`: one dome per raised dot, at that dot's offset. */
  method AddBrailleChar(tris: TriangleList, t: Trig, dots: seq<bool>, x: real, y: real, zBase: real,
                        dia: real, h: real, px: real, py: real)
    requires DomeScalable(t) && RaisedWithinSix(dots)
    modifies tris
    ensures tris.items == old(tris.items) + CharTriangles(t, dots, |dots|, x, y, zBase, dia, h, px, py)
  {
    ghost var start := tris.items;
    for i := 0 to |dots|
      invariant tris.items == start + CharTriangles(t, dots, i, x, y, zBase, dia, h, px, py)
    {
      if dots[i] {
        AddDot(tris, t, i, x, y, zBase, dia, h, px, py);
        AppendAssoc(start, CharTriangles(t, dots, i, x, y, zBase, dia, h, px, py),
                    DotAt(t, i, x, y, zBase, dia, h, px, py));
      }
    }
  }
}

/** bounds<T> of include/mathspp/bounds.hpp: an axis-aligned box given by its
    minimum and maximum corners, its queries, and the two maths::Union
    overloads.  Every query is a function of the box; nothing is updated in
    place.  The bounds<float> specialisation in the same header repeats the
    generic text member for member, so it is modelled by the same definitions. */
module BoundingBox {
  import V = Vector3
  import R = RealArith

  /** `std::min`: the first argument unless the second is smaller. */
  function Min(a: real, b: real): (r: real)
    ensures IsMinOf(r, a, b)
  {
    if b < a then b else a
  }

  /** `std::max`: the first argument unless it is smaller than the second. */
  function Max(a: real, b: real): (r: real)
    ensures IsMaxOf(r, a, b)
  {
    if a < b then b else a
  }

  datatype Bounds = Bounds(min: V.Vec3, max: V.Vec3)

  /** `bounds()`: both corners at the origin. */
  function Default(): (b: Bounds)
    ensures b == FromPoint(V.Zero())
  {
    Bounds(V.Vec3(0.0, 0.0, 0.0), V.Vec3(0.0, 0.0, 0.0))
  }

  /** `bounds(_p)`: the box holding the single point `_p`. */
  function FromPoint(p: V.Vec3): (b: Bounds)
    ensures b.min == p && b.max == p
    ensures WellFormed(b)
  {
    Bounds(p, p)
  }

  /** min <= max on every axis. */
  predicate WellFormed(b: Bounds) {
    b.min.x <= b.max.x && b.min.y <= b.max.y && b.min.z <= b.max.z
  }

  /** `outer` covers `inner`: its corners lie outside `inner`'s on every axis. */
  predicate Encloses(outer: Bounds, inner: Bounds) {
    outer.min.x <= inner.min.x && outer.min.y <= inner.min.y && outer.min.z <= inner.min.z &&
    inner.max.x <= outer.max.x && inner.max.y <= outer.max.y && inner.max.z <= outer.max.z
  }

  /** `p` lies in the closed box. */
  predicate Covers(b: Bounds, p: V.Vec3) {
    b.min.x <= p.x <= b.max.x && b.min.y <= p.y <= b.max.y && b.min.z <= p.z <= b.max.z
  }

  /** `max - min`. */
  function Extent(b: Bounds): V.Vec3 {
    V.Sub(b.max, b.min)
  }

  function SurfaceArea(b: Bounds): real {
    var s := V.Sub(b.max, b.min);
    (s.x * s.y + s.y * s.z + s.x * s.z) * 2.0
  }

  function MaxLength(b: Bounds): (r: real)
    ensures var e := Extent(b); r >= e.x && r >= e.y && r >= e.z
    ensures var e := Extent(b); r == e.x || r == e.y || r == e.z
  {
    var box := V.Sub(b.max, b.min);
    Max(Max(box.x, box.y), box.z)
  }

  /** `min + (max - min) * (T).5`; for an integer element type `(T).5` is 0. */
  function Center(k: V.Element, b: Bounds): V.Vec3 {
    V.Add(b.min, V.MulScalar(V.Sub(b.max, b.min), V.Convert(k, 0.5)))
  }

  /** `(_p - min) / (max - min)`: box-relative coordinates of `_p`.  A
      zero-extent axis divides by zero, which is excluded. */
  function Offset(k: V.Element, b: Bounds, p: V.Vec3): V.Vec3
    requires b.min.x != b.max.x && b.min.y != b.max.y && b.min.z != b.max.z
  {
    V.Div(k, V.Sub(p, b.min), V.Sub(b.max, b.min))
  }

  /** Strict containment: a point on any of the six faces is outside. */
  predicate Contains(b: Bounds, p: V.Vec3) {
    p.x > b.min.x && p.x < b.max.x && p.y > b.min.y && p.y < b.max.y && p.z > b.min.z && p.z < b.max.z
  }

  /** `r` is the smaller of `a` and `b`. */
  predicate IsMinOf(r: real, a: real, b: real) {
    r <= a && r <= b && (r == a || r == b)
  }

  /** `r` is the larger of `a` and `b`. */
  predicate IsMaxOf(r: real, a: real, b: real) {
    r >= a && r >= b && (r == a || r == b)
  }

  /** `maths::Union(_a, _b)`: component-wise min of the minimum corners and max
      of the maximum corners. */
  function Union(a: Bounds, b: Bounds): (r: Bounds)
    ensures IsMinOf(r.min.x, a.min.x, b.min.x) && IsMinOf(r.min.y, a.min.y, b.min.y) && IsMinOf(r.min.z, a.min.z, b.min.z)
    ensures IsMaxOf(r.max.x, a.max.x, b.max.x) && IsMaxOf(r.max.y, a.max.y, b.max.y) && IsMaxOf(r.max.z, a.max.z, b.max.z)
    ensures Encloses(r, a) && Encloses(r, b)
  {
    Bounds(
      V.Vec3(Min(a.min.x, b.min.x), Min(a.min.y, b.min.y), Min(a.min.z, b.min.z)),
      V.Vec3(Max(a.max.x, b.max.x), Max(a.max.y, b.max.y), Max(a.max.z, b.max.z)))
  }

  /** `maths::Union(_b, _p)`: the box grown to take in the point `_p`. */
  function UnionPoint(b: Bounds, p: V.Vec3): (r: Bounds)
    ensures IsMinOf(r.min.x, p.x, b.min.x) && IsMinOf(r.min.y, p.y, b.min.y) && IsMinOf(r.min.z, p.z, b.min.z)
    ensures IsMaxOf(r.max.x, p.x, b.max.x) && IsMaxOf(r.max.y, p.y, b.max.y) && IsMaxOf(r.max.z, p.z, b.max.z)
    ensures Encloses(r, b) && Covers(r, p)
  {
    Bounds(
      V.Vec3(Min(p.x, b.min.x), Min(p.y, b.min.y), Min(p.z, b.min.z)),
      V.Vec3(Max(p.x, b.max.x), Max(p.y, b.max.y), Max(p.z, b.max.z)))
  }

  // ---- Union is a join ----

  lemma UnionComm(a: Bounds, b: Bounds)
    ensures Union(a, b) == Union(b, a)
  {
  }

  lemma UnionAssoc(a: Bounds, b: Bounds, c: Bounds)
    ensures Union(Union(a, b), c) == Union(a, Union(b, c))
  {
  }

  lemma UnionIdem(a: Bounds)
    ensures Union(a, a) == a
  {
  }

  /** Every box that encloses both inputs encloses their union: the union is
      the smallest enclosing box. */
  lemma UnionMinimal(a: Bounds, b: Bounds, c: Bounds)
    requires Encloses(c, a) && Encloses(c, b)
    ensures Encloses(c, Union(a, b))
  {
  }

  /** Growing a box by a point is the union with that point's box, and the
      point's own box absorbs it. */
  lemma UnionPointIsUnion(b: Bounds, p: V.Vec3)
    ensures UnionPoint(b, p) == Union(b, FromPoint(p))
    ensures UnionPoint(FromPoint(p), p) == FromPoint(p)
  {
  }

  /** Every box that encloses `b` and covers `p` encloses `UnionPoint(b, p)`. */
  lemma UnionPointMinimal(b: Bounds, p: V.Vec3, c: Bounds)
    requires Encloses(c, b) && Covers(c, p)
    ensures Encloses(c, UnionPoint(b, p))
  {
  }

  /** Accumulating two points into a box gives the smallest box holding the
      box and both points. */
  lemma UnionTwoPoints(b: Bounds, p: V.Vec3, q: V.Vec3, c: Bounds)
    ensures Encloses(UnionPoint(UnionPoint(b, p), q), b)
    ensures Covers(UnionPoint(UnionPoint(b, p), q), p) && Covers(UnionPoint(UnionPoint(b, p), q), q)
    ensures Encloses(c, b) && Covers(c, p) && Covers(c, q) ==> Encloses(c, UnionPoint(UnionPoint(b, p), q))
  {
  }

  lemma UnionKeepsWellFormed(a: Bounds, b: Bounds, p: V.Vec3)
    requires WellFormed(a)
    ensures WellFormed(Union(a, b)) && WellFormed(UnionPoint(a, p))
  {
  }

  // ---- Containment ----

  /** A contained point forces the box to have positive extent on every axis. */
  lemma ContainsNeedsVolume(b: Bounds, p: V.Vec3)
    requires Contains(b, p)
    ensures b.min.x < b.max.x && b.min.y < b.max.y && b.min.z < b.max.z
  {
  }

  /** A point with any coordinate on a face plane is not contained. */
  lemma FacesExcluded(b: Bounds, p: V.Vec3)
    requires p.x == b.min.x || p.x == b.max.x || p.y == b.min.y || p.y == b.max.y || p.z == b.min.z || p.z == b.max.z
    ensures !Contains(b, p)
  {
  }

  /** Containment is strictly inside the closed box. */
  lemma ContainsInsideCovers(b: Bounds, p: V.Vec3)
    ensures Contains(b, p) ==> Covers(b, p)
    ensures Covers(b, p) && !Contains(b, p) ==>
      p.x == b.min.x || p.x == b.max.x || p.y == b.min.y || p.y == b.max.y || p.z == b.min.z || p.z == b.max.z
  {
  }

  /** For the unit box, a point on the face x = 0 is out and the centre is in. */
  lemma ContainsUnitBox()
    ensures !Contains(Bounds(V.Vec3(0.0, 0.0, 0.0), V.Vec3(1.0, 1.0, 1.0)), V.Vec3(0.0, 0.5, 0.5))
    ensures Contains(Bounds(V.Vec3(0.0, 0.0, 0.0), V.Vec3(1.0, 1.0, 1.0)), V.Vec3(0.5, 0.5, 0.5))
  {
  }

  /** A point contained in a box is contained in any union with it. */
  lemma UnionKeepsContainment(a: Bounds, b: Bounds, p: V.Vec3)
    requires Contains(a, p)
    ensures Contains(Union(a, b), p) && Contains(Union(b, a), p)
  {
  }

  // ---- Measures ----

  /** The area of a box in terms of the lengths of its sides. */
  lemma SurfaceAreaFromSides(b: Bounds, sx: real, sy: real, sz: real)
    requires Extent(b) == V.Vec3(sx, sy, sz)
    ensures SurfaceArea(b) == (sx * sy + sy * sz + sx * sz) * 2.0
  {
  }

  /** The box (0,0,0)-(2,3,4) has area 2 * (6 + 12 + 8). */
  lemma SurfaceAreaExample(b: Bounds)
    requires b.min == V.Vec3(0.0, 0.0, 0.0) && b.max == V.Vec3(2.0, 3.0, 4.0)
    ensures SurfaceArea(b) == 52.0
  {
    assert Extent(b) == V.Vec3(2.0, 3.0, 4.0);
    SurfaceAreaFromSides(b, 2.0, 3.0, 4.0);
  }

  /** A single point, and in particular the default box, has zero area. */
  lemma SurfaceAreaOfPoint(p: V.Vec3)
    ensures SurfaceArea(FromPoint(p)) == 0.0
    ensures SurfaceArea(Default()) == 0.0
  {
    assert V.Sub(p, p) == V.Zero();
    assert V.Sub(V.Zero(), V.Zero()) == V.Zero();
  }

  /** The surface area depends only on the extent: moving a box leaves it
      unchanged. */
  lemma SurfaceAreaTranslation(b: Bounds, d: V.Vec3)
    ensures SurfaceArea(Bounds(V.Add(b.min, d), V.Add(b.max, d))) == SurfaceArea(b)
  {
    assert V.Sub(V.Add(b.max, d), V.Add(b.min, d)) == V.Sub(b.max, b.min);
  }

  /** A well-formed box has non-negative surface area and maximum length. */
  lemma MeasuresNonNeg(b: Bounds)
    requires WellFormed(b)
    ensures SurfaceArea(b) >= 0.0
    ensures MaxLength(b) >= 0.0
  {
    var s := V.Sub(b.max, b.min);
    R.MulNonNeg(s.x, s.y);
    R.MulNonNeg(s.y, s.z);
    R.MulNonNeg(s.x, s.z);
  }

  /** Taking the union with another box never shrinks the surface area of a
      well-formed box. */
  lemma UnionGrowsSurfaceArea(a: Bounds, b: Bounds)
    requires WellFormed(a)
    ensures SurfaceArea(Union(a, b)) >= SurfaceArea(a)
  {
    var s, u := Extent(a), Extent(Union(a, b));
    assert 0.0 <= s.x <= u.x && 0.0 <= s.y <= u.y && 0.0 <= s.z <= u.z;
    R.MulMono(s.x, s.y, u.x, u.y);
    R.MulMono(s.y, s.z, u.y, u.z);
    R.MulMono(s.x, s.z, u.x, u.z);
  }

  // ---- Centre and offset ----

  /** For a floating element type the centre is the midpoint of the corners
      and lies strictly inside a box with volume. */
  lemma CenterIsMidpoint(b: Bounds)
    ensures Center(V.Floating, b) == V.MulScalar(V.Add(b.min, b.max), 0.5)
    ensures b.min.x < b.max.x && b.min.y < b.max.y && b.min.z < b.max.z ==> Contains(b, Center(V.Floating, b))
  {
  }

  /** The integer quirk: `(T).5` truncates to 0, so the centre of an integer
      box is its minimum corner. */
  lemma IntegerCenterIsMin(b: Bounds)
    ensures Center(V.Integer, b) == b.min
  {
    assert V.Trunc(0.5) == 0;
  }

  /** The minimum corner maps to (0,0,0) and the maximum corner to (1,1,1),
      for either element type. */
  lemma OffsetOfCorners(k: V.Element, b: Bounds)
    requires b.min.x != b.max.x && b.min.y != b.max.y && b.min.z != b.max.z
    ensures Offset(k, b, b.min) == V.Zero()
    ensures Offset(k, b, b.max) == V.Vec3(1.0, 1.0, 1.0)
  {
    var d := V.Sub(b.max, b.min);
    assert d.x / d.x == 1.0 && d.y / d.y == 1.0 && d.z / d.z == 1.0;
    assert V.Trunc(1.0) == 1 && V.Trunc(0.0) == 0;
  }

  lemma QuotientInUnit(p: real, q: real)
    requires 0.0 < p < q
    ensures 0.0 < p / q < 1.0
  {
    var r := p / q;
    assert r * q == p;
    if r <= 0.0 {
      R.MulLe(r, 0.0, q);
    }
    if r >= 1.0 {
      R.MulLe(1.0, r, q);
    }
  }

  /** For a floating element type a contained point has every box-relative
      coordinate strictly between 0 and 1. */
  lemma OffsetOfContained(b: Bounds, p: V.Vec3)
    requires Contains(b, p)
    ensures var o := Offset(V.Floating, b, p);
      0.0 < o.x < 1.0 && 0.0 < o.y < 1.0 && 0.0 < o.z < 1.0
  {
    QuotientInUnit(p.x - b.min.x, b.max.x - b.min.x);
    QuotientInUnit(p.y - b.min.y, b.max.y - b.min.y);
    QuotientInUnit(p.z - b.min.z, b.max.z - b.min.z);
  }
}

/** The generic vec3<T> of include/mathspp/vec3.hpp and its free functions in
    namespace maths, read over exact arithmetic.

    The template parameter T is either an integer type or a floating type.  Every
    component is held as an exact `real`; for an `Integer` instantiation the
    components are whole numbers and every place where the C++ code converts a
    value to T (`(T)1 / s`, integer `/`) goes through `Convert`, which truncates
    toward zero as C++ does. */
module Vector3 {
  import R = RealArith

  /** The element type a template is instantiated with. */
  datatype Element = Integer | Floating

  /** An integer read as an exact real. */
  function FromInt(n: int): real {
    n as real
  }

  /** A whole number: the image of some integer. */
  ghost predicate IsWhole(r: real) {
    exists n :: r == FromInt(n)
  }

  /** Representable as a value of the element type. */
  ghost predicate IsElement(k: Element, r: real) {
    k == Floating || IsWhole(r)
  }

  /** Truncation toward zero, the C++ conversion of a quotient to an integer
      type (Dafny's own `Floor` rounds toward minus infinity). */
  function Trunc(r: real): (t: int)
    ensures r >= 0.0 ==> 0.0 <= t as real <= r < t as real + 1.0
    ensures r < 0.0 ==> t as real - 1.0 < r <= t as real <= 0.0
  {
    if r >= 0.0 then r.Floor else -((-r).Floor)
  }

  /** The conversion `(T)r` of an exact value to the element type. */
  function Convert(k: Element, r: real): (c: real)
    ensures k == Floating ==> c == r
    ensures IsElement(k, c)
    ensures k == Integer && r >= 0.0 ==> 0.0 <= c <= r < c + 1.0
    ensures k == Integer && r < 0.0 ==> c - 1.0 < r <= c <= 0.0
  {
    match k
    case Floating => r
    case Integer => FromInt(Trunc(r))
  }

  /** The division `a / b` of two values of the element type. */
  function Quotient(k: Element, a: real, b: real): real
    requires b != 0.0
  {
    Convert(k, a / b)
  }

  datatype Vec3 = Vec3(x: real, y: real, z: real)

  /** All three components are values of the element type. */
  ghost predicate OfElement(k: Element, v: Vec3) {
    IsElement(k, v.x) && IsElement(k, v.y) && IsElement(k, v.z)
  }

  /** The default constructor `vec3()`: every argument defaults to zero. */
  function Zero(): (r: Vec3)
    ensures forall k :: OfElement(k, r)
    ensures forall dim :: 0 <= dim < 3 ==> Index(r, dim) == 0.0
  {
    assert FromInt(0) == 0.0;
    Vec3(0.0, 0.0, 0.0)
  }

  /** `vec3(const T *_xyz)`: copies the first three elements the pointer
      addresses and reads nothing past them. */
  function FromArray(xyz: seq<real>): (r: Vec3)
    requires |xyz| >= 3
    ensures forall dim :: 0 <= dim < 3 ==> Index(r, dim) == xyz[dim]
  {
    Vec3(xyz[0], xyz[1], xyz[2])
  }

  function Add(a: Vec3, b: Vec3): Vec3 {
    Vec3(a.x + b.x, a.y + b.y, a.z + b.z)
  }

  function Sub(a: Vec3, b: Vec3): Vec3 {
    Vec3(a.x - b.x, a.y - b.y, a.z - b.z)
  }

  function Mul(a: Vec3, b: Vec3): Vec3 {
    Vec3(a.x * b.x, a.y * b.y, a.z * b.z)
  }

  function MulScalar(a: Vec3, s: real): Vec3 {
    Vec3(a.x * s, a.y * s, a.z * s)
  }

  /** Component-wise division; a zero divisor component is undefined for integer
      types and gives an infinity or NaN for floating ones, so it is excluded. */
  function Div(k: Element, a: Vec3, b: Vec3): Vec3
    requires b.x != 0.0 && b.y != 0.0 && b.z != 0.0
  {
    Vec3(Quotient(k, a.x, b.x), Quotient(k, a.y, b.y), Quotient(k, a.z, b.z))
  }

  /** The reciprocal `(T)1 / s` that scalar division computes once. */
  function Reciprocal(k: Element, s: real): real
    requires s != 0.0
  {
    Quotient(k, 1.0, s)
  }

  /** `v / s`: one division, then three multiplications by the reciprocal. */
  function DivScalar(k: Element, a: Vec3, s: real): Vec3
    requires s != 0.0
  {
    MulScalar(a, Reciprocal(k, s))
  }

  /** Unary minus is written as multiplication by -1. */
  function Neg(a: Vec3): Vec3 {
    MulScalar(a, -1.0)
  }

  /** `operator==`: exact comparison of the three components. */
  function Eq(a: Vec3, b: Vec3): (r: bool)
    ensures r <==> a == b
  {
    a.x == b.x && a.y == b.y && a.z == b.z
  }

  /** `operator!=`, written out on its own in the source. */
  function Neq(a: Vec3, b: Vec3): (r: bool)
    ensures r <==> !Eq(a, b)
  {
    a.x != b.x || a.y != b.y || a.z != b.z
  }

  /** Const `operator[]`: dimension 0, 1, 2 is x, y, z; any other index reads
      past the three components and is not defined. */
  function Index(v: Vec3, dim: nat): real
    requires dim < 3
  {
    if dim == 0 then v.x else if dim == 1 then v.y else v.z
  }

  /** The vector with component `dim` replaced by `val`: the effect of a write
      through the non-const `operator[]`. */
  function WithComponent(v: Vec3, dim: nat, val: real): (r: Vec3)
    requires dim < 3
    ensures Index(r, dim) == val
    ensures forall j :: 0 <= j < 3 && j != dim ==> Index(r, j) == Index(v, j)
  {
    if dim == 0 then v.(x := val) else if dim == 1 then v.(y := val) else v.(z := val)
  }

  /** The radicand of `Magnitude`, the sum of the squared components. */
  function MagnitudeSq(v: Vec3): real {
    v.x * v.x + v.y * v.y + v.z * v.z
  }

  function Dot(a: Vec3, b: Vec3): real {
    a.x * b.x + a.y * b.y + a.z * b.z
  }

  function Cross(a: Vec3, b: Vec3): Vec3 {
    Vec3(a.y * b.z - a.z * b.y, a.z * b.x - a.x * b.z, a.x * b.y - a.y * b.x)
  }

  function DistSq(a: Vec3, b: Vec3): real {
    var diff := Sub(b, a);
    diff.x * diff.x + diff.y * diff.y + diff.z * diff.z
  }

  /** Coordinates of `v` in the frame with tangent `t`, normal `n` (up) and
      bitangent `bt`. */
  function WorldToLocal(v: Vec3, t: Vec3, n: Vec3, bt: Vec3): Vec3 {
    Vec3(Dot(t, v), Dot(n, v), Dot(bt, v))
  }

  /** The world vector whose coordinates in the frame `t, n, bt` are `v`. */
  function LocalToWorld(v: Vec3, t: Vec3, n: Vec3, bt: Vec3): Vec3 {
    Vec3(
      t.x * v.x + n.x * v.y + bt.x * v.z,
      t.y * v.x + n.y * v.y + bt.y * v.z,
      t.z * v.x + n.z * v.y + bt.z * v.z)
  }

  /** The three frame vectors are unit length and mutually perpendicular. */
  predicate Orthonormal(t: Vec3, n: Vec3, bt: Vec3) {
    Dot(t, t) == 1.0 && Dot(n, n) == 1.0 && Dot(bt, bt) == 1.0 &&
    Dot(t, n) == 0.0 && Dot(t, bt) == 0.0 && Dot(n, bt) == 0.0
  }

  // ---- Properties of the arithmetic ----

  lemma AddSubCancel(a: Vec3, b: Vec3)
    ensures Sub(Add(a, b), b) == a
  {
  }

  lemma AddComm(a: Vec3, b: Vec3)
    ensures Add(a, b) == Add(b, a)
  {
  }

  /** Negation flips every component, cancels itself and is the additive inverse. */
  lemma NegProperties(a: Vec3)
    ensures Neg(a) == Vec3(-a.x, -a.y, -a.z)
    ensures Neg(Neg(a)) == a
    ensures Add(a, Neg(a)) == Zero()
    ensures Sub(Zero(), a) == Neg(a)
  {
  }

  /** For a floating element type, scalar division undoes scalar multiplication. */
  lemma DivScalarUndoesMulScalar(a: Vec3, s: real)
    requires s != 0.0
    ensures DivScalar(Floating, MulScalar(a, s), s) == a
    ensures MulScalar(DivScalar(Floating, a, s), s) == a
  {
    var inv := Reciprocal(Floating, s);
    assert inv * s == 1.0;
    assert a.x * s * inv == a.x * (s * inv);
    assert a.y * s * inv == a.y * (s * inv);
    assert a.z * s * inv == a.z * (s * inv);
    assert a.x * inv * s == a.x * (inv * s);
    assert a.y * inv * s == a.y * (inv * s);
    assert a.z * inv * s == a.z * (inv * s);
  }

  /** For a floating element type, component-wise division undoes
      component-wise multiplication. */
  lemma DivUndoesMul(a: Vec3, b: Vec3)
    requires b.x != 0.0 && b.y != 0.0 && b.z != 0.0
    ensures Div(Floating, Mul(a, b), b) == a
  {
    assert a.x * b.x / b.x == a.x;
    assert a.y * b.y / b.y == a.y;
    assert a.z * b.z / b.z == a.z;
  }

  /** The integer reciprocal `(T)1 / s` is 1 at 1, -1 at -1 and 0 otherwise. */
  lemma IntegerReciprocal(s: real)
    requires s != 0.0 && IsWhole(s)
    ensures Reciprocal(Integer, s) == if s == 1.0 then 1.0 else if s == -1.0 then -1.0 else 0.0
  {
    if s > 1.0 {
      assert 0.0 < 1.0 / s < 1.0 by { assert (1.0 / s) * s == 1.0; }
    } else if s < -1.0 {
      assert -1.0 < 1.0 / s < 0.0 by { assert (1.0 / s) * s == 1.0; }
    }
  }

  /** The integer quirk: an integer vector divided by a scalar of magnitude
      above one becomes the zero vector, whatever its components. */
  lemma IntegerDivScalarVanishes(a: Vec3, s: real)
    requires s > 1.0 || s < -1.0
    ensures DivScalar(Integer, a, s) == Zero()
  {
    if s > 1.0 {
      assert 0.0 < 1.0 / s < 1.0 by { assert (1.0 / s) * s == 1.0; }
    } else {
      assert -1.0 < 1.0 / s < 0.0 by { assert (1.0 / s) * s == 1.0; }
    }
  }

  /** Integer division by 1 and by -1 are exact. */
  lemma IntegerDivScalarByUnit(a: Vec3)
    ensures DivScalar(Integer, a, 1.0) == a
    ensures DivScalar(Integer, a, -1.0) == Neg(a)
  {
    assert FromInt(1) == 1.0 && FromInt(-1) == -1.0;
    IntegerReciprocal(1.0);
    IntegerReciprocal(-1.0);
  }

  /** Integer component-wise division truncates toward zero (7 / 2 == 3,
      -7 / 2 == -3), unlike Dafny's Euclidean division. */
  lemma IntegerDivTruncates()
    ensures Div(Integer, Vec3(7.0, -7.0, 1.0), Vec3(2.0, 2.0, 3.0)) == Vec3(3.0, -3.0, 0.0)
  {
    assert Trunc(-7.0 / 2.0) == -3;
    assert Trunc(1.0 / 3.0) == 0;
  }

  /** Reading integers as reals commutes with `+` and `-`: sums and
      differences of whole numbers are whole. */
  lemma FromIntSum(a: real, b: real, i: int, j: int)
    requires a == FromInt(i) && b == FromInt(j)
    ensures a + b == FromInt(i + j)
    ensures a - b == FromInt(i - j)
  {
  }

  /** Reading integers as reals commutes with `*`: products of whole numbers
      are whole. */
  lemma FromIntProduct(a: real, b: real, i: int, j: int) returns (k: int)
    requires a == FromInt(i) && b == FromInt(j)
    ensures k == i * j
    ensures a * b == FromInt(k)
  {
    k := i * j;
  }

  // ---- Properties of the free functions ----

  lemma DotComm(a: Vec3, b: Vec3)
    ensures Dot(a, b) == Dot(b, a)
  {
  }

  lemma CrossAntiComm(a: Vec3, b: Vec3)
    ensures Cross(a, b) == Neg(Cross(b, a))
  {
  }

  /** The cross product is perpendicular to both of its arguments. */
  lemma CrossPerpendicular(a: Vec3, b: Vec3)
    ensures Dot(a, Cross(a, b)) == 0.0
    ensures Dot(b, Cross(a, b)) == 0.0
  {
    assert Dot(a, Cross(a, b)) == a.x * (a.y * b.z - a.z * b.y) + a.y * (a.z * b.x - a.x * b.z) + a.z * (a.x * b.y - a.y * b.x);
    assert Dot(b, Cross(a, b)) == b.x * (a.y * b.z - a.z * b.y) + b.y * (a.z * b.x - a.x * b.z) + b.z * (a.x * b.y - a.y * b.x);
  }

  /** The squared magnitude is the vector's dot product with itself and is
      never negative. */
  lemma MagnitudeSqProperties(v: Vec3)
    ensures MagnitudeSq(v) == Dot(v, v)
    ensures MagnitudeSq(v) >= 0.0
  {
    R.SquareNonNeg(v.x); R.SquareNonNeg(v.y); R.SquareNonNeg(v.z);
  }

  /** The squared distance is the squared magnitude of the difference, is
      symmetric, and is never negative. */
  lemma DistSqProperties(a: Vec3, b: Vec3)
    ensures DistSq(a, b) == Dot(Sub(b, a), Sub(b, a))
    ensures DistSq(a, b) == MagnitudeSq(Sub(b, a))
    ensures DistSq(a, b) == DistSq(b, a)
    ensures DistSq(a, b) >= 0.0
  {
    var d := Sub(b, a);
    MagnitudeSqProperties(d);
    var e := Sub(a, b);
    assert e == Neg(d);
    assert d.x * d.x == e.x * e.x && d.y * d.y == e.y * e.y && d.z * d.z == e.z * e.z;
  }

  lemma DotAddRight(a: Vec3, b: Vec3, c: Vec3)
    ensures Dot(a, Add(b, c)) == Dot(a, b) + Dot(a, c)
  {
    assert a.x * (b.x + c.x) == a.x * b.x + a.x * c.x;
    assert a.y * (b.y + c.y) == a.y * b.y + a.y * c.y;
    assert a.z * (b.z + c.z) == a.z * b.z + a.z * c.z;
  }

  lemma DotMulScalarRight(a: Vec3, b: Vec3, s: real)
    ensures Dot(a, MulScalar(b, s)) == s * Dot(a, b)
  {
    assert a.x * (b.x * s) == s * (a.x * b.x);
    assert a.y * (b.y * s) == s * (a.y * b.y);
    assert a.z * (b.z * s) == s * (a.z * b.z);
  }

  /** `LocalToWorld` is the combination `t * v.x + n * v.y + bt * v.z` of the
      frame vectors: the form the SSE specialisation computes. */
  lemma LocalToWorldIsCombination(v: Vec3, t: Vec3, n: Vec3, bt: Vec3)
    ensures LocalToWorld(v, t, n, bt)
         == Add(Add(MulScalar(t, v.x), MulScalar(n, v.y)), MulScalar(bt, v.z))
  {
  }

  /** `Dot(t, LocalToWorld(v))` expands linearly in the coordinates of `v`. */
  lemma DotLocalToWorld(u: Vec3, v: Vec3, t: Vec3, n: Vec3, bt: Vec3)
    ensures Dot(u, LocalToWorld(v, t, n, bt))
         == v.x * Dot(u, t) + v.y * Dot(u, n) + v.z * Dot(u, bt)
  {
    LocalToWorldIsCombination(v, t, n, bt);
    var p, q, r := MulScalar(t, v.x), MulScalar(n, v.y), MulScalar(bt, v.z);
    DotAddRight(u, Add(p, q), r);
    DotAddRight(u, p, q);
    DotMulScalarRight(u, t, v.x);
    DotMulScalarRight(u, n, v.y);
    DotMulScalarRight(u, bt, v.z);
  }

  /** The two frame changes are adjoint: `WorldToLocal` multiplies by the
      matrix with rows t, n, bt and `LocalToWorld` by its transpose. */
  lemma FrameChangesAdjoint(v: Vec3, w: Vec3, t: Vec3, n: Vec3, bt: Vec3)
    ensures Dot(WorldToLocal(v, t, n, bt), w) == Dot(v, LocalToWorld(w, t, n, bt))
  {
    DotLocalToWorld(v, w, t, n, bt);
    DotComm(v, t); DotComm(v, n); DotComm(v, bt);
    var l := WorldToLocal(v, t, n, bt);
    assert Dot(l, w) == Dot(t, v) * w.x + Dot(n, v) * w.y + Dot(bt, v) * w.z;
  }

  /** In an orthonormal frame, going to world space and back gives the local
      coordinates unchanged. */
  lemma FrameRoundTrip(v: Vec3, t: Vec3, n: Vec3, bt: Vec3)
    requires Orthonormal(t, n, bt)
    ensures WorldToLocal(LocalToWorld(v, t, n, bt), t, n, bt) == v
  {
    DotLocalToWorld(t, v, t, n, bt);
    DotLocalToWorld(n, v, t, n, bt);
    DotLocalToWorld(bt, v, t, n, bt);
    DotComm(n, t); DotComm(bt, t); DotComm(bt, n);
  }

  // ---- Objects: compound assignment and writable indexing ----

  /** A vec3<T> object in memory: the receiver of the compound-assignment
      operators and of the non-const `operator[]`, which update x, y and z in
      place and hand back `*this`. */
  class Vec3Var {
    const elem: Element
    var x: real
    var y: real
    var z: real
    /** For an integer object, the integers the components hold. */
    ghost var ix: int
    ghost var iy: int
    ghost var iz: int

    function Value(): Vec3
      reads this
    {
      Vec3(x, y, z)
    }

    /** Every component is a value of the element type, as a `T` field is:
        for an integer object, the image of its integer view. */
    ghost predicate Valid()
      reads this
    {
      elem == Integer ==> x == FromInt(ix) && y == FromInt(iy) && z == FromInt(iz)
    }

    /** A valid object holds a vector of its element type. */
    lemma ValidIsOfElement()
      requires Valid()
      ensures OfElement(elem, Value())
    {
      if elem == Integer {
        assert IsWhole(x) && IsWhole(y) && IsWhole(z);
      }
    }

    /** `vec3(_x, _y, _z)`; omitted arguments are zero.  The arguments are
        already values of type `T`. */
    constructor (k: Element, x0: real, y0: real, z0: real)
      requires IsElement(k, x0) && IsElement(k, y0) && IsElement(k, z0)
      ensures Valid()
      ensures elem == k
      ensures Value() == Vec3(x0, y0, z0)
    {
      elem := k;
      x, y, z := x0, y0, z0;
      if k == Integer {
        ghost var i :| x0 == FromInt(i);
        ghost var j :| y0 == FromInt(j);
        ghost var l :| z0 == FromInt(l);
        ix, iy, iz := i, j, l;
      }
    }

    /** `operator+=`; `rhs` may be this very object. */
    method AddAssign(rhs: Vec3Var) returns (self: Vec3Var)
      requires Valid() && rhs.Valid() && rhs.elem == elem
      modifies this
      ensures Valid()
      ensures self == this
      ensures Value() == Add(old(Value()), old(rhs.Value()))
    {
      var r := Add(Value(), rhs.Value());
      if elem == Integer {
        FromIntSum(x, rhs.x, ix, rhs.ix);
        FromIntSum(y, rhs.y, iy, rhs.iy);
        FromIntSum(z, rhs.z, iz, rhs.iz);
      }
      x, y, z, ix, iy, iz := r.x, r.y, r.z, ix + rhs.ix, iy + rhs.iy, iz + rhs.iz;
      self := this;
    }

    /** `operator-=`; `rhs` may be this very object. */
    method SubAssign(rhs: Vec3Var) returns (self: Vec3Var)
      requires Valid() && rhs.Valid() && rhs.elem == elem
      modifies this
      ensures Valid()
      ensures self == this
      ensures Value() == Sub(old(Value()), old(rhs.Value()))
    {
      var r := Sub(Value(), rhs.Value());
      if elem == Integer {
        FromIntSum(x, rhs.x, ix, rhs.ix);
        FromIntSum(y, rhs.y, iy, rhs.iy);
        FromIntSum(z, rhs.z, iz, rhs.iz);
      }
      x, y, z, ix, iy, iz := r.x, r.y, r.z, ix - rhs.ix, iy - rhs.iy, iz - rhs.iz;
      self := this;
    }

    /** `operator*=` by a vector; `rhs` may be this very object. */
    method MulAssign(rhs: Vec3Var) returns (self: Vec3Var)
      requires Valid() && rhs.Valid() && rhs.elem == elem
      modifies this
      ensures Valid()
      ensures self == this
      ensures Value() == Mul(old(Value()), old(rhs.Value()))
    {
      var r := Mul(Value(), rhs.Value());
      ghost var i, j, l := 0, 0, 0;
      if elem == Integer {
        i := FromIntProduct(x, rhs.x, ix, rhs.ix);
        j := FromIntProduct(y, rhs.y, iy, rhs.iy);
        l := FromIntProduct(z, rhs.z, iz, rhs.iz);
      }
      x, y, z, ix, iy, iz := r.x, r.y, r.z, i, j, l;
      self := this;
    }

    /** `operator*=` by a scalar, which is already a value of type `T`. */
    method MulScalarAssign(s: real) returns (self: Vec3Var)
      requires Valid() && IsElement(elem, s)
      modifies this
      ensures Valid()
      ensures self == this
      ensures Value() == MulScalar(old(Value()), s)
    {
      var r := MulScalar(Value(), s);
      ghost var i, j, l := 0, 0, 0;
      if elem == Integer {
        ghost var n :| s == FromInt(n);
        i := FromIntProduct(x, s, ix, n);
        j := FromIntProduct(y, s, iy, n);
        l := FromIntProduct(z, s, iz, n);
      }
      x, y, z, ix, iy, iz := r.x, r.y, r.z, i, j, l;
      self := this;
    }

    /** `operator/=` by a vector of the same element type; `rhs` may be this
        very object, each component of the divisor is read before it is
        overwritten. */
    method DivAssign(rhs: Vec3Var) returns (self: Vec3Var)
      requires Valid() && rhs.Valid() && rhs.elem == elem
      requires rhs.x != 0.0 && rhs.y != 0.0 && rhs.z != 0.0
      modifies this
      ensures Valid()
      ensures self == this
      ensures Value() == Div(elem, old(Value()), old(rhs.Value()))
    {
      ix := Trunc(x / rhs.x);
      x := Quotient(elem, x, rhs.x);
      iy := Trunc(y / rhs.y);
      y := Quotient(elem, y, rhs.y);
      iz := Trunc(z / rhs.z);
      z := Quotient(elem, z, rhs.z);
      self := this;
    }

    /** `operator/=` by a scalar: the reciprocal `(T)1 / s` is computed once
        and each component is multiplied by it. */
    method DivScalarAssign(s: real) returns (self: Vec3Var)
      requires Valid() && IsElement(elem, s)
      requires s != 0.0
      modifies this
      ensures Valid()
      ensures self == this
      ensures Value() == DivScalar(elem, old(Value()), s)
      ensures Value() == MulScalar(old(Value()), Reciprocal(elem, s))
    {
      var inv := Reciprocal(elem, s);
      var r := MulScalar(Value(), inv);
      ghost var i, j, l := 0, 0, 0;
      if elem == Integer {
        ghost var n := Trunc(1.0 / s);
        assert inv == FromInt(n);
        i := FromIntProduct(x, inv, ix, n);
        j := FromIntProduct(y, inv, iy, n);
        l := FromIntProduct(z, inv, iz, n);
      }
      x, y, z, ix, iy, iz := r.x, r.y, r.z, i, j, l;
      self := this;
    }

    /** Const `operator[]` on the object. */
    method Get(dim: nat) returns (r: real)
      requires dim < 3
      ensures r == Index(Value(), dim)
    {
      if dim == 0 {
        r := x;
      } else if dim == 1 {
        r := y;
      } else {
        r := z;
      }
    }

    /** A write `v[dim] = val` through the reference the non-const
        `operator[]` returns: only that component changes. */
    method Set(dim: nat, val: real)
      requires dim < 3
      requires Valid() && IsElement(elem, val)
      modifies this
      ensures Valid()
      ensures Value() == WithComponent(old(Value()), dim, val)
      ensures Index(Value(), dim) == val
      ensures forall j :: 0 <= j < 3 && j != dim ==> Index(Value(), j) == Index(old(Value()), j)
    {
      ghost var n := 0;
      if elem == Integer {
        n :| val == FromInt(n);
      }
      if dim == 0 {
        x, ix := val, n;
      } else if dim == 1 {
        y, iy := val, n;
      } else {
        z, iz := val, n;
      }
    }
  }
}

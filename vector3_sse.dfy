/** The SSE specialisation vec3<float> of include/mathspp/vec3.hpp: four
    floating lanes x, y, z and a padding lane a, combined lane by lane as one
    128-bit register, together with the specialised maths::Dot and
    maths::LocalToWorld.  Lanes are exact reals; the padding lane can also hold
    a value no caller may rely on (a NaN from 0/0, or whatever memory held), so
    it is a `Pad`. */
module Vector3Sse {
  import V = Vector3

  /** The padding lane: a known number, or a value with no meaning. */
  datatype Pad = Lane(v: real) | Junk

  datatype Lanes = Lanes(x: real, y: real, z: real, a: Pad)

  /** Lanes 0 to 2 read as a generic vector. */
  function Xyz(v: Lanes): V.Vec3 {
    V.Vec3(v.x, v.y, v.z)
  }

  function PadAdd(p: Pad, q: Pad): Pad {
    if p.Lane? && q.Lane? then Lane(p.v + q.v) else Junk
  }

  function PadSub(p: Pad, q: Pad): Pad {
    if p.Lane? && q.Lane? then Lane(p.v - q.v) else Junk
  }

  function PadMul(p: Pad, q: Pad): Pad {
    if p.Lane? && q.Lane? then Lane(p.v * q.v) else Junk
  }

  /** Division in the padding lane: dividing by a zero padding (the usual
      case, the constructor sets it to zero) gives a meaningless lane. */
  function PadDiv(p: Pad, q: Pad): Pad {
    if p.Lane? && q.Lane? && q.v != 0.0 then Lane(p.v / q.v) else Junk
  }

  /** `vec3<float>(_x, _y, _z)`: omitted arguments are zero, padding is zero. */
  function Make(x: real, y: real, z: real): (r: Lanes)
    ensures Xyz(r) == V.Vec3(x, y, z)
    ensures r.a == Lane(0.0)
  {
    Lanes(x, y, z, Lane(0.0))
  }

  /** `vec3<float>(const float *_xyz)`: copies three floats and leaves the
      padding lane as it was in memory, given here as `stale`. */
  function FromArray(xyz: seq<real>, stale: Pad): (r: Lanes)
    requires |xyz| >= 3
    ensures Xyz(r) == V.FromArray(xyz)
    ensures r.a == stale
  {
    Lanes(xyz[0], xyz[1], xyz[2], stale)
  }

  /** `_mm_add_ps`. */
  function Add(p: Lanes, q: Lanes): (r: Lanes)
    ensures Xyz(r) == V.Add(Xyz(p), Xyz(q))
  {
    Lanes(p.x + q.x, p.y + q.y, p.z + q.z, PadAdd(p.a, q.a))
  }

  /** `_mm_sub_ps`. */
  function Sub(p: Lanes, q: Lanes): (r: Lanes)
    ensures Xyz(r) == V.Sub(Xyz(p), Xyz(q))
  {
    Lanes(p.x - q.x, p.y - q.y, p.z - q.z, PadSub(p.a, q.a))
  }

  /** `_mm_mul_ps`. */
  function Mul(p: Lanes, q: Lanes): (r: Lanes)
    ensures Xyz(r) == V.Mul(Xyz(p), Xyz(q))
  {
    Lanes(p.x * q.x, p.y * q.y, p.z * q.z, PadMul(p.a, q.a))
  }

  /** `_mm_div_ps`; the three real lanes of the divisor must be non-zero, the
      padding lane need not be. */
  function Div(p: Lanes, q: Lanes): (r: Lanes)
    requires q.x != 0.0 && q.y != 0.0 && q.z != 0.0
    ensures Xyz(r) == V.Div(V.Floating, Xyz(p), Xyz(q))
  {
    Lanes(p.x / q.x, p.y / q.y, p.z / q.z, PadDiv(p.a, q.a))
  }

  /** `_mm_set_ps1(s)`: the scalar broadcast to all four lanes. */
  function Broadcast(s: real): (r: Lanes)
    ensures Xyz(r) == V.Vec3(s, s, s) && r.a == Lane(s)
  {
    Lanes(s, s, s, Lane(s))
  }

  function MulScalar(p: Lanes, s: real): (r: Lanes)
    ensures Xyz(r) == V.MulScalar(Xyz(p), s)
  {
    Mul(p, Broadcast(s))
  }

  /** Scalar division multiplies by the broadcast reciprocal `1.f / s`. */
  function DivScalar(p: Lanes, s: real): (r: Lanes)
    requires s != 0.0
    ensures Xyz(r) == V.DivScalar(V.Floating, Xyz(p), s)
  {
    Mul(p, Broadcast(1.0 / s))
  }

  function Neg(p: Lanes): (r: Lanes)
    ensures Xyz(r) == V.Neg(Xyz(p))
  {
    MulScalar(p, -1.0)
  }

  /** `operator==` compares x, y and z only. */
  function Eq(p: Lanes, q: Lanes): (r: bool)
    ensures r <==> V.Eq(Xyz(p), Xyz(q))
    ensures r <==> Xyz(p) == Xyz(q)
  {
    p.x == q.x && p.y == q.y && p.z == q.z
  }

  function Neq(p: Lanes, q: Lanes): (r: bool)
    ensures r <==> V.Neq(Xyz(p), Xyz(q))
    ensures r <==> !Eq(p, q)
  {
    p.x != q.x || p.y != q.y || p.z != q.z
  }

  /** `operator[]` on dimensions 0 to 2; index 3 depends on the layout and is
      not part of the contract. */
  function Index(p: Lanes, dim: nat): (r: real)
    requires dim < 3
    ensures r == V.Index(Xyz(p), dim)
  {
    if dim == 0 then p.x else if dim == 1 then p.y else p.z
  }

  /** The radicand of the SSE `Magnitude`: square lane-wise, then sum lanes 0
      to 2 only. */
  function MagnitudeSq(p: Lanes): (r: real)
    ensures r == V.MagnitudeSq(Xyz(p))
  {
    var sq := Mul(p, p);
    sq.x + sq.y + sq.z
  }

  /** The SSE `maths::Dot`: multiply lane-wise, then sum lanes 0 to 2 only. */
  function Dot(p: Lanes, q: Lanes): (r: real)
    ensures r == V.Dot(Xyz(p), Xyz(q))
  {
    var sq := Mul(p, q);
    sq.x + sq.y + sq.z
  }

  /** The SSE `maths::LocalToWorld`: `t * v.x + n * v.y + bt * v.z` with
      broadcast scalars. */
  function LocalToWorld(v: Lanes, t: Lanes, n: Lanes, bt: Lanes): (r: Lanes)
    ensures Xyz(r) == V.LocalToWorld(Xyz(v), Xyz(t), Xyz(n), Xyz(bt))
  {
    V.LocalToWorldIsCombination(Xyz(v), Xyz(t), Xyz(n), Xyz(bt));
    Add(Add(MulScalar(t, v.x), MulScalar(n, v.y)), MulScalar(bt, v.z))
  }

  // ---- The padding lane never leaks ----

  /** Whatever the padding lanes hold, comparison, the magnitude sum, the dot
      product and the three real lanes of every lane-wise operation are the
      same. */
  lemma PaddingIgnored(p: Lanes, q: Lanes, p': Pad, q': Pad)
    ensures Eq(p.(a := p'), q.(a := q')) == Eq(p, q)
    ensures MagnitudeSq(p.(a := p')) == MagnitudeSq(p)
    ensures Dot(p.(a := p'), q.(a := q')) == Dot(p, q)
    ensures Xyz(Add(p.(a := p'), q.(a := q'))) == Xyz(Add(p, q))
    ensures Xyz(Mul(p.(a := p'), q.(a := q'))) == Xyz(Mul(p, q))
  {
  }

  /** Dividing two freshly constructed vectors leaves 0/0 in the padding lane:
      the lane really is polluted, and the three real lanes are still the
      generic quotient. */
  lemma DivisionPollutesPadding(x: real, y: real, z: real, x': real, y': real, z': real)
    requires x' != 0.0 && y' != 0.0 && z' != 0.0
    ensures Div(Make(x, y, z), Make(x', y', z')).a == Junk
    ensures Xyz(Div(Make(x, y, z), Make(x', y', z'))) == V.Div(V.Floating, V.Vec3(x, y, z), V.Vec3(x', y', z'))
  {
  }

  /** Junk in the padding lane stays junk through every lane-wise operation,
      and never reaches a result the caller reads. */
  lemma JunkIsAbsorbing(p: Lanes, q: Lanes)
    requires p.a == Junk
    ensures Add(p, q).a == Junk && Sub(p, q).a == Junk && Mul(p, q).a == Junk
    ensures Add(q, p).a == Junk && Sub(q, p).a == Junk && Mul(q, p).a == Junk
    ensures Dot(p, q) == V.Dot(Xyz(p), Xyz(q))
  {
  }

  // ---- Objects: compound assignment ----

  /** A vec3<float> object in memory.  Every compound assignment loads both
      operands as four lanes, combines them and stores all four lanes back,
      padding included. */
  class LanesVar {
    var x: real
    var y: real
    var z: real
    var a: Pad

    function Value(): Lanes
      reads this
    {
      Lanes(x, y, z, a)
    }

    constructor (x0: real, y0: real, z0: real)
      ensures Value() == Make(x0, y0, z0)
    {
      x, y, z, a := x0, y0, z0, Lane(0.0);
    }

    /** `_mm_store_ps(this, r)`. */
    method Store(r: Lanes)
      modifies this
      ensures Value() == r
    {
      x, y, z, a := r.x, r.y, r.z, r.a;
    }

    method AddAssign(rhs: LanesVar) returns (self: LanesVar)
      modifies this
      ensures self == this
      ensures Value() == Add(old(Value()), old(rhs.Value()))
      ensures Xyz(Value()) == V.Add(Xyz(old(Value())), Xyz(old(rhs.Value())))
    {
      Store(Add(Value(), rhs.Value()));
      self := this;
    }

    method SubAssign(rhs: LanesVar) returns (self: LanesVar)
      modifies this
      ensures self == this
      ensures Value() == Sub(old(Value()), old(rhs.Value()))
      ensures Xyz(Value()) == V.Sub(Xyz(old(Value())), Xyz(old(rhs.Value())))
    {
      Store(Sub(Value(), rhs.Value()));
      self := this;
    }

    method MulAssign(rhs: LanesVar) returns (self: LanesVar)
      modifies this
      ensures self == this
      ensures Value() == Mul(old(Value()), old(rhs.Value()))
      ensures Xyz(Value()) == V.Mul(Xyz(old(Value())), Xyz(old(rhs.Value())))
    {
      Store(Mul(Value(), rhs.Value()));
      self := this;
    }

    method DivAssign(rhs: LanesVar) returns (self: LanesVar)
      requires rhs.x != 0.0 && rhs.y != 0.0 && rhs.z != 0.0
      modifies this
      ensures self == this
      ensures Value() == Div(old(Value()), old(rhs.Value()))
      ensures Xyz(Value()) == V.Div(V.Floating, Xyz(old(Value())), Xyz(old(rhs.Value())))
    {
      Store(Div(Value(), rhs.Value()));
      self := this;
    }

    method MulScalarAssign(s: real) returns (self: LanesVar)
      modifies this
      ensures self == this
      ensures Value() == MulScalar(old(Value()), s)
      ensures Xyz(Value()) == V.MulScalar(Xyz(old(Value())), s)
    {
      Store(Mul(Value(), Broadcast(s)));
      self := this;
    }

    method DivScalarAssign(s: real) returns (self: LanesVar)
      requires s != 0.0
      modifies this
      ensures self == this
      ensures Value() == DivScalar(old(Value()), s)
      ensures Xyz(Value()) == V.DivScalar(V.Floating, Xyz(old(Value())), s)
    {
      Store(Mul(Value(), Broadcast(1.0 / s)));
      self := this;
    }

    /** A write through the non-const `operator[]` at dimension 0 to 2 changes
        that lane and no other, padding included. */
    method Set(dim: nat, val: real)
      requires dim < 3
      modifies this
      ensures Xyz(Value()) == V.WithComponent(Xyz(old(Value())), dim, val)
      ensures a == old(a)
    {
      if dim == 0 {
        x := val;
      } else if dim == 1 {
        y := val;
      } else {
        z := val;
      }
    }
  }
}

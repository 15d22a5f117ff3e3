/** The scalar utilities of include/mathspp/maths.hpp: BITFLAG, maths::Lerp,
    maths::Clamp, maths::BarycentricInterpolation, the three maths::Fract
    overloads and maths::FindInterval. */
module Maths {
  import V = Vector3
  import R = RealArith

  // ---- BITFLAG ----

  /** `BITFLAG(i)`, `(T)1 << i`, over unbounded naturals: each step of the
      shift doubles. */
  function BitFlag(i: nat): (r: nat)
    ensures r >= 1
  {
    if i == 0 then 1 else 2 * BitFlag(i - 1)
  }

  /** Bit `j` of the binary representation of `n`. */
  function Bit(n: nat, j: nat): bool {
    if j == 0 then n % 2 == 1 else Bit(n / 2, j - 1)
  }

  lemma {:induction false} NoBitsInZero(j: nat)
    ensures !Bit(0, j)
  {
    if j > 0 {
      NoBitsInZero(j - 1);
    }
  }

  /** `BITFLAG(i)` has exactly one bit set, bit `i`: distinct flags can be
      or-ed together and tested apart. */
  lemma {:induction false} BitFlagSingleBit(i: nat, j: nat)
    ensures Bit(BitFlag(i), j) <==> i == j
  {
    if i == 0 {
      if j > 0 {
        NoBitsInZero(j - 1);
      }
    } else if j > 0 {
      assert BitFlag(i) / 2 == BitFlag(i - 1);
      BitFlagSingleBit(i - 1, j - 1);
    }
  }

  /** Shifting by `i` then by `j` is shifting by `i + j`. */
  lemma {:induction false} BitFlagAdd(i: nat, j: nat)
    ensures BitFlag(i) * BitFlag(j) == BitFlag(i + j)
  {
    if i > 0 {
      BitFlagAdd(i - 1, j);
    }
  }

  /** Larger shifts give larger flags, so distinct positions give distinct flags. */
  lemma {:induction false} BitFlagStrictlyIncreasing(i: nat, j: nat)
    requires i < j
    ensures BitFlag(i) < BitFlag(j)
  {
    if i + 1 < j {
      BitFlagStrictlyIncreasing(i, j - 1);
    }
  }

  // ---- Lerp, Clamp, BarycentricInterpolation ----

  /** `maths::Lerp(_a, _b, _r)` at scalar type. */
  function Lerp(a: real, b: real, r: real): real {
    a + (b - a) * r
  }

  /** Lerp runs from `a` at 0 to `b` at 1, through the midpoint at one half. */
  lemma LerpEnds(a: real, b: real)
    ensures Lerp(a, b, 0.0) == a
    ensures Lerp(a, b, 1.0) == b
    ensures Lerp(a, b, 0.5) == (a + b) / 2.0
  {
  }

  /** For a parameter in [0, 1], Lerp stays between its end points. */
  lemma LerpBetween(a: real, b: real, r: real)
    requires 0.0 <= r <= 1.0 && a <= b
    ensures a <= Lerp(a, b, r) <= b
  {
    R.MulNonNeg(b - a, r);
    R.MulMono(b - a, r, b - a, 1.0);
  }

  /** `maths::Clamp(_value, _min, _max)`, `std::max(std::min(_value, _max),
      _min)`, at the `int` instantiation FindInterval uses. */
  function Clamp(value: int, min: int, max: int): (r: int)
    ensures min <= max ==> min <= r <= max
    ensures min <= value <= max ==> r == value
    ensures min <= max && value < min ==> r == min
    ensures min <= max && max < value ==> r == max
    ensures max < min ==> r == min
  {
    var lo := if max < value then max else value;
    if lo < min then min else lo
  }

  /** `maths::BarycentricInterpolation(_t0, _t1, _t2, _u, _v)` at scalar type. */
  function BarycentricInterpolation(t0: real, t1: real, t2: real, u: real, v: real): real {
    t0 + (t1 - t0) * u + (t2 - t0) * v
  }

  /** The interpolation is the weighted sum with weights 1 - u - v, u, v, and
      so reproduces each corner value at that corner. */
  lemma BarycentricProperties(t0: real, t1: real, t2: real, u: real, v: real)
    ensures BarycentricInterpolation(t0, t1, t2, u, v) == (1.0 - u - v) * t0 + u * t1 + v * t2
    ensures BarycentricInterpolation(t0, t1, t2, 0.0, 0.0) == t0
    ensures BarycentricInterpolation(t0, t1, t2, 1.0, 0.0) == t1
    ensures BarycentricInterpolation(t0, t1, t2, 0.0, 1.0) == t2
  {
    assert (t1 - t0) * u == u * t1 - u * t0;
    assert (t2 - t0) * v == v * t2 - v * t0;
  }

  // ---- Fract ----

  /** `maths::Fract(_r)`, `_r - floor(_r)`. */
  function Fract(r: real): (f: real)
    ensures 0.0 <= f < 1.0
    ensures (r - f).Floor as real == r - f
  {
    r - r.Floor as real
  }

  /** The fractional part ignores whole-number shifts and is the identity on
      [0, 1). */
  lemma FractPeriodic(r: real, n: int)
    ensures Fract(r + n as real) == Fract(r)
    ensures 0.0 <= r < 1.0 <==> Fract(r) == r
  {
    assert (r + n as real).Floor == r.Floor + n;
  }

  /** The two components of a vec2; vec2.hpp itself is not part of this model. */
  datatype Vec2 = Vec2(x: real, y: real)

  /** `maths::Fract(const vec2<T> &)`: the fractional part of each component. */
  function Fract2(v: Vec2): (r: Vec2)
    ensures r == Vec2(Fract(v.x), Fract(v.y))
    ensures 0.0 <= r.x < 1.0 && 0.0 <= r.y < 1.0
  {
    Vec2(v.x - v.x.Floor as real, v.y - v.y.Floor as real)
  }

  /** `maths::Fract(const vec3<T> &)`: the fractional part of each component. */
  function Fract3(v: V.Vec3): (r: V.Vec3)
    ensures r == V.Vec3(Fract(v.x), Fract(v.y), Fract(v.z))
    ensures 0.0 <= r.x < 1.0 && 0.0 <= r.y < 1.0 && 0.0 <= r.z < 1.0
  {
    V.Vec3(v.x - v.x.Floor as real, v.y - v.y.Floor as real, v.z - v.z.Floor as real)
  }

  /** Shifting a vector by whole numbers on each axis leaves its fractional
      parts unchanged. */
  lemma Fract3Periodic(v: V.Vec3, i: int, j: int, k: int)
    ensures Fract3(V.Add(v, V.Vec3(i as real, j as real, k as real))) == Fract3(v)
  {
    FractPeriodic(v.x, i);
    FractPeriodic(v.y, j);
    FractPeriodic(v.z, k);
  }

  // ---- FindInterval ----

  /** The predicate may be asked about every index of the table. */
  ghost predicate Defined(size: int, pred: int --> bool) {
    forall i :: 0 <= i < size ==> pred.requires(i)
  }

  /** The predicate holds on a prefix of [0, size) and fails on the rest. */
  ghost predicate TruePrefix(size: int, pred: int --> bool)
    requires Defined(size, pred)
  {
    forall i, j :: 0 <= i < j < size && pred(j) ==> pred(i)
  }

  /** `f` is where the predicate changes from true to false: it holds just
      before `f` (or `f` is 0) and fails at `f` (or `f` is past the table). */
  ghost predicate IsCrossing(size: int, pred: int --> bool, f: int)
    requires Defined(size, pred)
  {
    0 <= f && (f <= size || f == 0) &&
    (f == 0 || pred(f - 1)) &&
    (f >= size || !pred(f))
  }

  /** Reference by linear scan: the first index from `from` on whose predicate
      fails, or `size` when there is none. */
  function FirstFalse(size: int, pred: int --> bool, from: nat): (f: nat)
    requires Defined(size, pred)
    ensures from <= f
    ensures from <= size ==> f <= size
    ensures forall i :: from <= i < f && i < size ==> pred(i)
    ensures f < size ==> !pred(f)
    decreases size - from
  {
    if from >= size then from
    else if !pred(from) then from
    else FirstFalse(size, pred, from + 1)
  }

  /** The linear-scan reference for FindInterval: the last index whose
      predicate holds, clamped to [0, size - 2]. */
  function FindIntervalReference(size: int, pred: int --> bool): int
    requires Defined(size, pred)
  {
    Clamp(FirstFalse(size, pred, 0) - 1, 0, size - 2)
  }

  /** For a true-prefix predicate the crossing is unique: it is what the
      linear scan finds. */
  lemma CrossingIsFirstFalse(size: int, pred: int --> bool, f: int)
    requires Defined(size, pred)
    requires TruePrefix(size, pred)
    requires IsCrossing(size, pred, f)
    ensures f == FirstFalse(size, pred, 0)
  {
    var g := FirstFalse(size, pred, 0);
    if f < g {
      assert false;
    } else if g < f {
      assert false;
    }
  }

  /** `maths::FindInterval(_size, _predicate)`: binary search for the point
      where the predicate turns false, then the index before it clamped to
      [0, size - 2].  The predicate is only ever asked about indices in
      [0, size). */
  method FindInterval(size: int, pred: int --> bool) returns (r: nat)
    requires Defined(size, pred)
    ensures size >= 2 ==> r <= size - 2
    ensures size < 2 ==> r == 0
    ensures exists f :: IsCrossing(size, pred, f) && r == Clamp(f - 1, 0, size - 2)
    ensures TruePrefix(size, pred) ==> r == FindIntervalReference(size, pred)
  {
    var first, len := 0, size;
    while len > 0
      invariant size <= 0 ==> first == 0 && len == size
      invariant size > 0 ==> 0 <= first && 0 <= len && first + len <= size
      invariant first == 0 || pred(first - 1)
      invariant size > 0 ==> first + len == size || !pred(first + len)
      decreases len
    {
      // `len >> 1` on a positive int is halving.
      var half := len / 2;
      var middle := first + half;
      if pred(middle) {
        first := middle + 1;
        len := len - (half + 1);
      } else {
        len := half;
      }
    }
    assert IsCrossing(size, pred, first);
    r := Clamp(first - 1, 0, size - 2);
    if TruePrefix(size, pred) {
      CrossingIsFirstFalse(size, pred, first);
    }
  }
}

# mathspp core in Dafny

This project models the core of the header-only C++ maths library mathspp over
exact arithmetic, and proves properties of that model. It covers three headers:

- `include/mathspp/vec3.hpp`:
  - the generic three-component vector `vec3<T>` and its operators;
  - the compound assignments that update a vector in place;
  - `operator[]`;
  - the free functions `maths::Dot`, `Cross`, `DistSq`, `WorldToLocal` and
    `LocalToWorld`;
  - the SSE specialisation `vec3<float>`, a four-lane register with a padding
    lane `a`.
- `include/mathspp/bounds.hpp`:
  - the axis-aligned box `bounds<T>` and its queries (`SurfaceArea`,
    `MaxLength`, `Center`, `Offset`, the strict `Contains`);
  - the two `maths::Union` overloads.
- `include/mathspp/maths.hpp`: `BITFLAG`, `Lerp`, `Clamp`,
  `BarycentricInterpolation`, the three `Fract` overloads, and the binary search
  `FindInterval`.

Modules:

- `Vector3` (`vector3.dfy`):
  - The template parameter `T` is an `Element`, either `Integer` or `Floating`.
  - Every component is an exact `real`.
  - Each place where the C++ converts a value to `T` goes through `Convert`,
    which truncates toward zero for integer types. These places are the
    reciprocal `(T)1 / s`, integer `/` and `(T).5`.
  - The integer quirks therefore follow from the definitions and are not
    patched: division by a scalar of magnitude above one gives the zero
    vector, and the centre of an integer box is its minimum corner.
  - Pure operators are functions on the datatype `Vec3`.
  - The compound assignments and the writable `operator[]` are methods of the
    class `Vec3Var`. They update its fields in place and hand back `this`. The
    right-hand operand is an object reference, so `v += v` is covered.
- `Vector3Sse` (`vector3_sse.dfy`):
  - The SSE `vec3<float>` is the datatype `Lanes(x, y, z, a)`.
  - The padding lane is a `Pad`: either a known number, or `Junk`. `Junk`
    stands for NaN (from 0/0) or uninitialised memory.
  - Each lane-wise operation is proved to agree with the generic one on lanes
    0 to 2.
  - The padding lane never reaches `==`, the magnitude sum or the SSE `Dot`.
  - `LanesVar` is the in-memory object whose compound assignments store all
    four lanes back.
- `BoundingBox` (`bounds.dfy`): the box, its queries and the union lattice laws.
- `Maths` (`maths.dfy`):
  - the scalar utilities;
  - `FindInterval`, as a method with the source's `while` loop, proved against
    a linear-scan reference.
- `RealArith` (`real_arith.dfy`): four facts about products of exact reals
  (signs and monotonicity) that the other modules use as proof steps.

An integer `Vec3Var` keeps ghost integers `ix`, `iy`, `iz` beside its
components. Its invariant `Valid()` says each component is the real image of
its integer. So every compound assignment is proved to keep an integer vector
integral.

Two operations are defined only for some inputs:

- `Offset` divides by `max - min` on each axis. A box that is flat on some axis
  divides by zero there, so the model requires non-zero extents. With them,
  `Offset(min) == (0,0,0)` and `Offset(max) == (1,1,1)`.
- `FindInterval` halves its range by asking the predicate at a midpoint. For
  a predicate that is true on a prefix of `[0, size)` and false afterwards, it
  returns the last true index, clamped to `[0, size - 2]`. For any other
  predicate it returns a clamped index at some true-to-false crossing, not
  necessarily the first.

## Model

| member | source | states |
|---|---|---|
| Vector3.Trunc | include/mathspp/vec3.hpp:35 | the conversion of a quotient to an integer type truncates toward zero: `t` lies between 0 and `r`, less than one away from `r` |
| Vector3.Convert | include/mathspp/vec3.hpp:36 | `(T)r` is `r` itself for a floating type. For an integer type it is a whole number toward zero from `r`, less than one away from it |
| Vector3.Zero | include/mathspp/vec3.hpp:21-25 | the default-constructed vector has components that are values of either element type, and has 0 at every index |
| Vector3.FromArray | include/mathspp/vec3.hpp:27-29 | the pointer constructor copies the first three elements: index `dim` of the result is `xyz[dim]` |
| Vector3.Add | include/mathspp/vec3.hpp:31 | `a + b` is the component-wise sum |
| Vector3.Sub | include/mathspp/vec3.hpp:32 | `a - b` is the component-wise difference |
| Vector3.Mul | include/mathspp/vec3.hpp:33 | `a * b` is the component-wise product |
| Vector3.MulScalar | include/mathspp/vec3.hpp:34 | `a * s` multiplies each component by `s` |
| Vector3.Quotient | include/mathspp/vec3.hpp:35 | the division `a / b` of two values of type `T`, converted back to `T` |
| Vector3.Div | include/mathspp/vec3.hpp:35 | `a / b` is the component-wise quotient in the element type |
| Vector3.Reciprocal | include/mathspp/vec3.hpp:36 | the reciprocal `(T)1 / s`, computed once per scalar division |
| Vector3.DivScalar | include/mathspp/vec3.hpp:36 | `a / s` multiplies each component by the reciprocal `(T)1 / s` |
| Vector3.Neg | include/mathspp/vec3.hpp:37 | unary minus is `a * -1` |
| Vector3.Index | include/mathspp/vec3.hpp:80 | `v[0]`, `v[1]`, `v[2]` read x, y, z |
| Vector3.MagnitudeSq | include/mathspp/vec3.hpp:84 | the radicand `x * x + y * y + z * z` of `Magnitude` |
| Vector3.Dot | include/mathspp/vec3.hpp:183-185 | the sum of the component-wise products |
| Vector3.Cross | include/mathspp/vec3.hpp:188-190 | the cross product, component by component as the source writes it |
| Vector3.DistSq | include/mathspp/vec3.hpp:193-196 | the squared length of `b - a`, summed component-wise |
| Vector3.WorldToLocal | include/mathspp/vec3.hpp:200-202 | the local coordinates are the dot products of `v` with `t`, `n` and `bt` |
| Vector3.LocalToWorld | include/mathspp/vec3.hpp:204-210 | each world component is `t * v.x + n * v.y + bt * v.z` on that axis |
| Vector3.FromIntSum | include/mathspp/vec3.hpp:31-32 | sums and differences of integers, read as reals, are the images of the integer sum and difference |
| Vector3.FromIntProduct | include/mathspp/vec3.hpp:33-34 | a product of integers, read as reals, is the image of the integer product |
| Vector3.Eq | include/mathspp/vec3.hpp:77 | `==` holds exactly when the two vectors are equal in all three components |
| Vector3.Neq | include/mathspp/vec3.hpp:78 | `!=`, written out separately in the source, is the exact negation of `==` |
| Vector3.WithComponent | include/mathspp/vec3.hpp:82 | a write at dimension `dim` sets that component to `val` and leaves the other two unchanged |
| Vector3.AddSubCancel | include/mathspp/vec3.hpp:31-32 | `(a + b) - b == a` |
| Vector3.AddComm | include/mathspp/vec3.hpp:31 | vector addition is commutative |
| Vector3.NegProperties | include/mathspp/vec3.hpp:37 | unary minus, written as `*this * -1`, negates each component, is its own inverse, and is the additive inverse (`a + -a == 0`, `0 - a == -a`) |
| Vector3.DivScalarUndoesMulScalar | include/mathspp/vec3.hpp:34-36 | for a floating type, dividing by a non-zero scalar through its reciprocal undoes multiplying by it, in both orders |
| Vector3.DivUndoesMul | include/mathspp/vec3.hpp:33-35 | for a floating type, component-wise division undoes component-wise multiplication |
| Vector3.IntegerReciprocal | include/mathspp/vec3.hpp:36 | the integer reciprocal `(T)1 / s` is 1 at 1, -1 at -1, and 0 at every other non-zero integer |
| Vector3.IntegerDivScalarVanishes | include/mathspp/vec3.hpp:36 | for an integer type, dividing any vector by a scalar of magnitude above 1 gives the zero vector |
| Vector3.IntegerDivScalarByUnit | include/mathspp/vec3.hpp:36 | for an integer type, dividing by 1 is the identity and dividing by -1 is negation |
| Vector3.IntegerDivTruncates | include/mathspp/vec3.hpp:35 | integer component-wise division truncates toward zero: (7,-7,1)/(2,2,3) == (3,-3,0) |
| Vector3.DotComm | include/mathspp/vec3.hpp:183-185 | `Dot(a, b) == Dot(b, a)` |
| Vector3.CrossAntiComm | include/mathspp/vec3.hpp:188-190 | `Cross(a, b) == -Cross(b, a)` |
| Vector3.CrossPerpendicular | include/mathspp/vec3.hpp:188-190 | the cross product is perpendicular to both arguments: its dot product with each is 0 |
| Vector3.MagnitudeSqProperties | include/mathspp/vec3.hpp:84 | the radicand of `Magnitude` is `Dot(v, v)` and is never negative |
| Vector3.DistSqProperties | include/mathspp/vec3.hpp:193-196 | `DistSq(a, b)` is `Dot(b - a, b - a)`, which is the squared magnitude of `b - a`. It is symmetric and never negative |
| Vector3.LocalToWorldIsCombination | include/mathspp/vec3.hpp:204-210 | the generic `LocalToWorld` is the combination `t * v.x + n * v.y + bt * v.z` of the frame vectors |
| Vector3.DotLocalToWorld | include/mathspp/vec3.hpp:204-210 | `Dot(u, LocalToWorld(v))` is linear in the local coordinates `v` |
| Vector3.FrameChangesAdjoint | include/mathspp/vec3.hpp:200-210 | `WorldToLocal` and `LocalToWorld` are adjoint: `Dot(WorldToLocal(v), w) == Dot(v, LocalToWorld(w))` |
| Vector3.FrameRoundTrip | include/mathspp/vec3.hpp:200-210 | in an orthonormal frame, `WorldToLocal(LocalToWorld(v)) == v` |
| Vector3.Vec3Var.ValidIsOfElement | include/mathspp/vec3.hpp:19 | a valid object holds a vector whose components are all values of its element type |
| Vector3.Vec3Var.constructor | include/mathspp/vec3.hpp:21-25 | the three-scalar constructor, given values of type `T`, sets x, y and z exactly and yields a valid object |
| Vector3.Vec3Var.AddAssign | include/mathspp/vec3.hpp:39-44 | after `v += w` the object holds old `v` + old `w` (also when `w` is `v`) and the method returns the object itself. A valid object stays valid: an integer vector stays integral |
| Vector3.Vec3Var.SubAssign | include/mathspp/vec3.hpp:45-50 | after `v -= w` the object holds old `v` - old `w`, and the method returns the object itself. A valid object stays valid: an integer vector stays integral |
| Vector3.Vec3Var.MulAssign | include/mathspp/vec3.hpp:51-56 | after `v *= w` the object holds the component-wise product, and the method returns the object itself. A valid object stays valid: an integer vector stays integral |
| Vector3.Vec3Var.MulScalarAssign | include/mathspp/vec3.hpp:57-62 | after `v *= s` the object holds old `v * s`, and the method returns the object itself. A valid object stays valid: an integer vector stays integral |
| Vector3.Vec3Var.DivAssign | include/mathspp/vec3.hpp:63-68 | after `v /= w` the object holds the component-wise quotient in its element type, and the method returns the object itself. A valid object stays valid: an integer vector stays integral |
| Vector3.Vec3Var.DivScalarAssign | include/mathspp/vec3.hpp:69-75 | after `v /= s` the object holds old `v / s`, which is old `v` times the single reciprocal `(T)1 / s`, and the method returns the object itself. A valid object stays valid: an integer vector stays integral |
| Vector3.Vec3Var.Get | include/mathspp/vec3.hpp:80 | the const `operator[]` at 0, 1, 2 reads x, y, z |
| Vector3.Vec3Var.Set | include/mathspp/vec3.hpp:82 | writing a value of type `T` through `v[dim]` sets that component, leaves the other two unchanged and keeps the object valid |
| Vector3Sse.PadAdd | include/mathspp/vec3.hpp:112-114 | `+` in the padding lane: the sum of two known lanes, otherwise meaningless |
| Vector3Sse.PadSub | include/mathspp/vec3.hpp:115-117 | `-` in the padding lane: the difference of two known lanes, otherwise meaningless |
| Vector3Sse.PadMul | include/mathspp/vec3.hpp:118-120 | `*` in the padding lane: the product of two known lanes, otherwise meaningless |
| Vector3Sse.PadDiv | include/mathspp/vec3.hpp:121-123 | `/` in the padding lane: meaningless when either lane is, or when the divisor lane is zero |
| Vector3Sse.Make | include/mathspp/vec3.hpp:101-106 | the constructor sets x, y, z exactly and the padding lane to 0 |
| Vector3Sse.FromArray | include/mathspp/vec3.hpp:108-110 | the pointer constructor agrees with the generic one on x, y, z and leaves the padding lane as memory held it |
| Vector3Sse.Add | include/mathspp/vec3.hpp:112-114 | `_mm_add_ps` agrees with the generic `+` on lanes 0 to 2 |
| Vector3Sse.Sub | include/mathspp/vec3.hpp:115-117 | `_mm_sub_ps` agrees with the generic `-` on lanes 0 to 2 |
| Vector3Sse.Mul | include/mathspp/vec3.hpp:118-120 | `_mm_mul_ps` agrees with the generic `*` on lanes 0 to 2 |
| Vector3Sse.Div | include/mathspp/vec3.hpp:121-123 | `_mm_div_ps` agrees with the generic floating `/` on lanes 0 to 2, whatever the divisor's padding lane holds |
| Vector3Sse.Broadcast | include/mathspp/vec3.hpp:124-125 | `_mm_set_ps1(s)` puts `s` in all four lanes |
| Vector3Sse.MulScalar | include/mathspp/vec3.hpp:124-126 | scalar multiplication by broadcast agrees with the generic one on lanes 0 to 2 |
| Vector3Sse.DivScalar | include/mathspp/vec3.hpp:127-129 | scalar division by broadcasting `1.f / s` agrees with the generic floating scalar division on lanes 0 to 2 |
| Vector3Sse.Neg | include/mathspp/vec3.hpp:130 | unary minus agrees with the generic one on lanes 0 to 2 |
| Vector3Sse.Eq | include/mathspp/vec3.hpp:157 | `==` agrees with the generic `==` on lanes 0 to 2, so the padding lane plays no part |
| Vector3Sse.Neq | include/mathspp/vec3.hpp:158 | `!=` agrees with the generic `!=` and is the negation of `==` |
| Vector3Sse.Index | include/mathspp/vec3.hpp:160 | `operator[]` at 0, 1, 2 reads the generic component |
| Vector3Sse.MagnitudeSq | include/mathspp/vec3.hpp:164-166 | the SSE magnitude's sum over lanes 0 to 2 of the squared lanes equals the generic radicand |
| Vector3Sse.Dot | include/mathspp/vec3.hpp:243-246 | the SSE `Dot` summing lanes 0 to 2 of the lane-wise product equals the generic `Dot` |
| Vector3Sse.LocalToWorld | include/mathspp/vec3.hpp:213-215 | the SSE `LocalToWorld` built from broadcast products and sums equals the generic `LocalToWorld` on lanes 0 to 2 |
| Vector3Sse.PaddingIgnored | include/mathspp/vec3.hpp:157-166 | changing the padding lanes changes neither `==`, nor the magnitude sum, nor `Dot`, nor lanes 0 to 2 of `+` and `*` |
| Vector3Sse.DivisionPollutesPadding | include/mathspp/vec3.hpp:101-106 | dividing two freshly constructed vectors leaves a meaningless padding lane (0/0) while lanes 0 to 2 hold the generic quotient |
| Vector3Sse.JunkIsAbsorbing | include/mathspp/vec3.hpp:112-120 | a meaningless padding lane stays meaningless through `+`, `-`, `*` and never reaches `Dot` |
| Vector3Sse.LanesVar.constructor | include/mathspp/vec3.hpp:101-106 | the object constructor sets x, y, z and a zero padding lane |
| Vector3Sse.LanesVar.Store | include/mathspp/vec3.hpp:174-176 | `_mm_store_ps` writes all four lanes |
| Vector3Sse.LanesVar.AddAssign | include/mathspp/vec3.hpp:132-135 | `+=` stores the lane-wise sum into all four lanes, agrees with the generic `+` on x, y, z, and returns the object |
| Vector3Sse.LanesVar.SubAssign | include/mathspp/vec3.hpp:136-139 | `-=` stores the lane-wise difference, agrees with the generic `-` on x, y, z, and returns the object |
| Vector3Sse.LanesVar.MulAssign | include/mathspp/vec3.hpp:140-143 | `*=` by a vector stores the lane-wise product, agrees with the generic `*` on x, y, z, and returns the object |
| Vector3Sse.LanesVar.DivAssign | include/mathspp/vec3.hpp:144-147 | `/=` by a vector stores the lane-wise quotient, agrees with the generic floating `/` on x, y, z, and returns the object |
| Vector3Sse.LanesVar.MulScalarAssign | include/mathspp/vec3.hpp:148-151 | `*=` by a scalar stores the product with the broadcast scalar, agrees with the generic one, and returns the object |
| Vector3Sse.LanesVar.DivScalarAssign | include/mathspp/vec3.hpp:152-155 | `/=` by a scalar stores the product with the broadcast `1.f / s`, agrees with the generic floating scalar division, and returns the object |
| Vector3Sse.LanesVar.Set | include/mathspp/vec3.hpp:162 | a write through `operator[]` at 0 to 2 changes only that lane, and not the padding |
| BoundingBox.Min | include/mathspp/bounds.hpp:110 | `std::min` is at most both arguments and equals one of them |
| BoundingBox.Max | include/mathspp/bounds.hpp:111 | `std::max` is at least both arguments and equals one of them |
| BoundingBox.Default | include/mathspp/bounds.hpp:12-15 | the default box is the single-point box at the origin |
| BoundingBox.FromPoint | include/mathspp/bounds.hpp:22-25 | the point constructor puts both corners at `p`, which is a well-formed box |
| BoundingBox.SurfaceArea | include/mathspp/bounds.hpp:27-30 | twice the sum of the three face areas of `max - min` |
| BoundingBox.MaxLength | include/mathspp/bounds.hpp:32-35 | `MaxLength` is at least every extent of `max - min` and equals one of them |
| BoundingBox.Center | include/mathspp/bounds.hpp:37-39 | `min + (max - min) * (T).5` |
| BoundingBox.Offset | include/mathspp/bounds.hpp:45-49 | `(p - min) / (max - min)` in the element type |
| BoundingBox.Contains | include/mathspp/bounds.hpp:51-53 | `p` lies strictly between `min` and `max` on all three axes |
| BoundingBox.Union | include/mathspp/bounds.hpp:107-113 | each component of the union's min is the smaller of the inputs' mins, and each component of its max is the larger of their maxes. The union encloses both inputs |
| BoundingBox.UnionPoint | include/mathspp/bounds.hpp:115-121 | growing a box by a point takes per component the min and max of the point and the corners; the result encloses the box and covers the point |
| BoundingBox.UnionComm | include/mathspp/bounds.hpp:107-113 | `Union(a, b) == Union(b, a)` |
| BoundingBox.UnionAssoc | include/mathspp/bounds.hpp:107-113 | `Union` is associative |
| BoundingBox.UnionIdem | include/mathspp/bounds.hpp:107-113 | `Union(a, a) == a` |
| BoundingBox.UnionMinimal | include/mathspp/bounds.hpp:107-113 | any box enclosing both inputs encloses their union, so the union is the smallest enclosing box |
| BoundingBox.UnionPointIsUnion | include/mathspp/bounds.hpp:115-121 | `Union(b, p) == Union(b, bounds(p))` and `Union(bounds(p), p) == bounds(p)` |
| BoundingBox.UnionPointMinimal | include/mathspp/bounds.hpp:115-121 | any box enclosing `b` and covering `p` encloses `Union(b, p)` |
| BoundingBox.UnionTwoPoints | include/mathspp/bounds.hpp:115-121 | adding two points in turn gives the smallest box enclosing the box and both points |
| BoundingBox.UnionKeepsWellFormed | include/mathspp/bounds.hpp:107-121 | the union of a well-formed box with any box, and with any point, is well formed |
| BoundingBox.ContainsNeedsVolume | include/mathspp/bounds.hpp:51-53 | a contained point forces `min < max` strictly on every axis |
| BoundingBox.FacesExcluded | include/mathspp/bounds.hpp:51-53 | a point with any coordinate on one of the six face planes is not contained |
| BoundingBox.ContainsInsideCovers | include/mathspp/bounds.hpp:51-53 | contained points lie in the closed box, and a point of the closed box that is not contained lies on a face |
| BoundingBox.ContainsUnitBox | include/mathspp/bounds.hpp:51-53 | for the box (0,0,0)-(1,1,1), the point (0,0.5,0.5) is out and (0.5,0.5,0.5) is in |
| BoundingBox.UnionKeepsContainment | include/mathspp/bounds.hpp:51-53 | a point contained in a box is contained in its union with any other box |
| BoundingBox.SurfaceAreaExample | include/mathspp/bounds.hpp:27-30 | a box with corners (0,0,0) and (2,3,4) has surface area 52 |
| BoundingBox.SurfaceAreaOfPoint | include/mathspp/bounds.hpp:12-30 | a point box, and so the default box, has surface area 0 |
| BoundingBox.SurfaceAreaTranslation | include/mathspp/bounds.hpp:27-30 | moving a box leaves its surface area unchanged |
| BoundingBox.MeasuresNonNeg | include/mathspp/bounds.hpp:27-35 | a well-formed box has non-negative surface area and maximum length |
| BoundingBox.UnionGrowsSurfaceArea | include/mathspp/bounds.hpp:27-30 | the union with another box never has less surface area than a well-formed box |
| BoundingBox.CenterIsMidpoint | include/mathspp/bounds.hpp:37-39 | for a floating type the centre is the midpoint of the corners, and it is contained in a box with volume |
| BoundingBox.IntegerCenterIsMin | include/mathspp/bounds.hpp:37-39 | for an integer type `(T).5` is 0, so the centre is the minimum corner |
| BoundingBox.OffsetOfCorners | include/mathspp/bounds.hpp:45-49 | with non-zero extents, `Offset(min) == (0,0,0)` and `Offset(max) == (1,1,1)` for both element types |
| BoundingBox.OffsetOfContained | include/mathspp/bounds.hpp:45-53 | for a floating type, a contained point has every box-relative coordinate strictly between 0 and 1 |
| Maths.BitFlag | include/mathspp/maths.hpp:58-61 | `BITFLAG(i)` is a positive number |
| Maths.NoBitsInZero | include/mathspp/maths.hpp:58-61 | zero has no bit set |
| Maths.BitFlagSingleBit | include/mathspp/maths.hpp:58-61 | `BITFLAG(i)` has bit `j` set exactly when `j == i` |
| Maths.BitFlagAdd | include/mathspp/maths.hpp:58-61 | `BITFLAG(i) * BITFLAG(j) == BITFLAG(i + j)` |
| Maths.BitFlagStrictlyIncreasing | include/mathspp/maths.hpp:58-61 | `i < j` implies `BITFLAG(i) < BITFLAG(j)`, so distinct positions give distinct flags |
| Maths.Lerp | include/mathspp/maths.hpp:65-68 | `a + (b - a) * r` |
| Maths.LerpEnds | include/mathspp/maths.hpp:65-68 | `Lerp(a, b, 0) == a`, `Lerp(a, b, 1) == b`, and at one half it gives the midpoint |
| Maths.LerpBetween | include/mathspp/maths.hpp:65-68 | for `r` in [0, 1] and `a <= b`, the result lies between `a` and `b` |
| Maths.Clamp | include/mathspp/maths.hpp:70-73 | when `min <= max` the result is in [min, max]. A value in range is returned unchanged; one below gives `min`, one above gives `max`. When `max < min` the result is `min` |
| Maths.BarycentricInterpolation | include/mathspp/maths.hpp:75-78 | `t0 + (t1 - t0) * u + (t2 - t0) * v` |
| Maths.BarycentricProperties | include/mathspp/maths.hpp:75-78 | the interpolation is the weighted sum with weights `1 - u - v`, `u`, `v`, so it yields `t0`, `t1`, `t2` at (0,0), (1,0), (0,1) |
| Maths.Fract | include/mathspp/maths.hpp:80-83 | `Fract(r)` lies in [0, 1), and `r - Fract(r)` is a whole number |
| Maths.FractPeriodic | include/mathspp/maths.hpp:80-83 | `Fract(r + n) == Fract(r)` for every integer `n`, and `Fract(r) == r` exactly when `r` is in [0, 1) |
| Maths.Fract2 | include/mathspp/maths.hpp:85-88 | the vec2 overload is the scalar `Fract` on each component, each in [0, 1) |
| Maths.Fract3 | include/mathspp/maths.hpp:90-93 | the vec3 overload is the scalar `Fract` on each component, each in [0, 1) |
| Maths.Fract3Periodic | include/mathspp/maths.hpp:90-93 | shifting a vector by whole numbers on each axis leaves its fractional parts unchanged |
| Maths.FirstFalse | include/mathspp/maths.hpp:95-108 | the linear-scan reference: the first index from `from` whose predicate fails, or `size` if none does. The predicate holds at every index before it |
| Maths.FindIntervalReference | include/mathspp/maths.hpp:95-108 | the reference result: the last index before the linear scan's first failing index, clamped to [0, size - 2] |
| Maths.CrossingIsFirstFalse | include/mathspp/maths.hpp:97-106 | for a predicate that is true on a prefix, the true-to-false crossing is unique and is the linear scan's first failing index |
| Maths.FindInterval | include/mathspp/maths.hpp:95-108 | the predicate is only asked about indices in [0, size). The loop terminates (`len` decreases) and ends at a crossing of the predicate. The result is `Clamp(first - 1, 0, size - 2)`: in [0, size - 2] when `size >= 2`, 0 otherwise. For a true-prefix predicate it equals the linear-scan reference |

## Left out

- `Magnitude`, `Normalised` and `bounds::DiagonalLength` need `std::sqrt`.
  - The model states facts about the squared magnitude only: `MagnitudeSq`, a
    sum over three lanes for SSE.
  - It does not prove the normalise/rescale round trip.
- `SphericalDirection`, `SphericalTheta`, `SphericalPhi` and `Rotate` are
  trigonometric floating-point code, and are not modelled.
- IEEE rounding, infinities and NaN are not modelled.
  - Arithmetic is exact.
  - A zero divisor in `/`, `/=` and `Offset` is excluded by a precondition.
    For integer types it is undefined behaviour; for floating ones it gives
    an infinity or NaN.
  - The one place a NaN matters to the contract is the SSE padding lane,
    where it is `Junk`.
- SIMD intrinsics, `alignas(16)`, `memcpy` and `reinterpret_cast` are stood in
  for by lane-wise functions.
  - `operator[]` at an index of 3 or more depends on memory layout (undefined
    for the generic type), so it is not part of the contracts.
  - The private `__m128` constructor appears only as `LanesVar.Store`.
- The `bounds<float>` specialisation repeats the generic `bounds<T>` text
  member for member, so it is modelled by the same definitions.
- Fixed-width integers are not modelled.
  - `BITFLAG` is modelled over unbounded naturals. A shift past the width of
    `T` (undefined behaviour) is not modelled.
  - `FindInterval` works on unbounded `int`. `_size - 2` overflowing at the
    most negative `int`, and the conversion of the result to `unsigned`, are
    not modelled. The result is 0 or more in every case.
- The constants (`PI`, `E_NUM`, `MAX_REAL` and the rest), the typedefs and the
  `LAMBDA_*` macros of `maths.hpp` are not modelled.
- `vec2`, `affine3` and `complex_t` are not part of this model.
  - `Vec2` here is only the pair of components that `Fract` needs.
- `Maths.Clamp` is modelled at `int`, the instantiation `FindInterval` uses.
  Its other instantiations are not modelled.
- `Lerp` and `BarycentricInterpolation` are modelled at scalar `real` only.
  Their vector instantiations apply the same expression component-wise.
- Vector3.MagnitudeSqProperties: proves the squared magnitude is never
  negative, but not that it is zero only for the zero vector. The solver does
  not reliably settle that a sum of real squares equal to 0 forces each of
  them to 0.
- Vector3.DistSqProperties: for the same reason, proves the squared distance
  is never negative and symmetric, but not that it is zero only for equal
  points.

# fiz_math core: Vec4 and meter conversions, in Dafny

This project models two value types of the `fiz_math` Rust library and proves
their laws.

- `Vec4<T>` (`src/vec4.rs`), a four-component vector (x, y, z, w). It has
  component-wise `+ - * /` and negation, and scalar broadcast (`add_scalar`,
  `sub_scalar`, `mul_scalar`, `div_scalar`). It also has `dot` and
  `length_sq`, component-wise `clamp` and exact equality. Its `partial_cmp`
  is all-or-nothing: `Less` or `Greater` only when all four components agree
  strictly, `Equal` for equal vectors, incomparable otherwise. `any_less` and
  `any_greater` are existential. It has `zero`, `one` and `is_zero`.
  Module `Vectors` (`vec4.dfy`) fixes the scalar `T` to `int`. The datatype
  constructor `Vec4(x, y, z, w)` is `Vec4::new`. Every operation is a
  function, and the algebraic laws are lemmas.
- `M<T>` (`src/dist/m.rs`), a distance in meters, and its conversions
  `to_mm` (times 1000), `to_cm` (times 100), `to_km` (divided by 1000) and
  `to_m` (identity). Module `Dist` (`dist_m.dfy`) gives them twice:
  - over `real`, which stands for a floating-point scalar with exact
    arithmetic;
  - over a bounded integer scalar (`IntType`, with the Rust integer types as
    constants). There the factor is first cast into the type, as
    `T::from(1000).unwrap()` does. A factor the type cannot hold makes the
    source panic, so it is a precondition here. The division truncates.
- Module `Scalars` (`scalars.dfy`) holds the scalar operations. `TruncDiv` is
  Rust's integer `/`, which rounds toward zero; Dafny's `/` is Euclidean.
  `ClampScalar` is the scalar clamp.
- Module `Cmp` (`cmp.dfy`) holds `Option` and `Ordering`.

Where the code and its doc comments disagree, the model follows the code.
The exception is `dot`, which is modelled both ways (see "## Findings").

The doc comments of `any_less` and `any_greater` disagree with their code:
- The comment of `any_less` (src/vec4.rs:388-389) reads "any_less tells if
  any component of the other vector is less than any component of this
  vector".
- The comment of `any_greater` (src/vec4.rs:404-405) reads "any_greater
  tells if any component of the other vector is greater than any component
  of this vector".

Both comments put the other vector first, and both compare any component
with any component. The code compares matching components only, with self
first: `self.x < o.x || ...` (src/vec4.rs:401) and `self.x > o.x || ...`
(src/vec4.rs:417). The documented examples (src/vec4.rs:396-397 and
412-413) come out true under both the comments and the code, so they do not
settle which is meant. The model follows the code: `Vectors.AnyLess(a, b)`
holds when some component of `a` is below the matching component of `b`.

## Model

| member | source | states |
|---|---|---|
| `Scalars.TruncDiv` | src/vec4.rs:326-333 | integer `/` of a component: the remainder is below the divisor in magnitude and never has the opposite sign to the dividend |
| `Scalars.TruncDivUnique` | src/vec4.rs:326-333 | those remainder conditions fix the quotient uniquely, so they are a complete specification of rounding toward zero |
| `Scalars.ClampScalar` | src/vec4.rs:373-376 | the scalar clamp lies in `[min, max]` when `min <= max`, returns a value already inside unchanged, returns `min` for a value below it, and `max` for a value above it when `min <= max` |
| `Vectors.Zero` | src/vec4.rs:486-488 | every component is 0 |
| `Vectors.One` | src/vec4.rs:77-79 | every component is 1 |
| `Vectors.IsZero` | src/vec4.rs:502-507 | holds iff every component is 0, iff the vector equals `Zero()` |
| `Vectors.Add` | src/vec4.rs:174-181 | component i of the sum is the sum of the components i |
| `Vectors.Sub` | src/vec4.rs:236-243 | component i of the difference is the difference of the components i |
| `Vectors.Neg` | src/vec4.rs:217-219 | component i is negated |
| `Vectors.Mul` | src/vec4.rs:281-288 | component i of the product is the product of the components i |
| `Vectors.Div` | src/vec4.rs:326-333 | when no divisor component is 0, component i is the truncating quotient of the components i |
| `Vectors.AddScalar` | src/vec4.rs:195-202 | the same scalar is added to every component |
| `Vectors.SubScalar` | src/vec4.rs:257-264 | the same scalar is subtracted from every component |
| `Vectors.MulScalar` | src/vec4.rs:302-309 | every component is multiplied by the same scalar |
| `Vectors.DivScalar` | src/vec4.rs:347-354 | every component is divided, truncating, by the same nonzero scalar |
| `Vectors.Dot` | src/vec4.rs:148-151 | the dot product as its doc comment promises: a vector's dot product with itself is its squared length, and the dot product with the zero vector is 0 |
| `Vectors.DotAsWritten` | src/vec4.rs:150 | the formula as written agrees with the dot product on vectors with only an x component, but against the zero vector it gives `y + z + w` |
| `Vectors.LengthSq` | src/vec4.rs:155-157 | the squared length is never negative, and it is 0 iff the vector is the zero vector |
| `Vectors.Clamp` | src/vec4.rs:371-378 | each component is clamped on its own; with `min <= max` every component lies in `[min, max]`, and components already in range are unchanged |
| `Vectors.Eq` | src/vec4.rs:441-446 | component-wise equality holds iff the vectors are equal |
| `Vectors.AnyLess` | src/vec4.rs:399-402 | holds iff some component of self is below the matching component of other |
| `Vectors.AnyGreater` | src/vec4.rs:415-418 | holds iff some component of self is above the matching component of other |
| `Vectors.PartialCmp` | src/vec4.rs:460-470 | `Some(Less)` iff all four components are strictly below, `Some(Greater)` iff all four are strictly above, `Some(Equal)` iff the vectors are equal, and `None` iff none of these holds |
| `Vectors.Lt` | src/vec4.rs:460-470 | Rust's `<` derived from `partial_cmp` holds iff every component is strictly below |
| `Vectors.Le` | src/vec4.rs:460-470 | Rust's `<=` derived from `partial_cmp` holds iff every component is strictly below or the vectors are equal |
| `Vectors.AddZeroIdentity` | src/vec4.rs:174-181 | the zero vector is a two-sided additive identity |
| `Vectors.AddCommutative` | src/vec4.rs:174-181 | vector addition is commutative |
| `Vectors.SubUndoesAdd` | src/vec4.rs:236-243 | `(a + b) - b == a` and `(a - b) + b == a` |
| `Vectors.SubIsAddNeg` | src/vec4.rs:217-243 | `a - b == a + (-b)` |
| `Vectors.NegInvolution` | src/vec4.rs:217-219 | `-(-v) == v`, and `v + (-v)` is the zero vector |
| `Vectors.MulOneIdentity` | src/vec4.rs:77-79 | the one vector is a two-sided multiplicative identity, and the zero vector annihilates |
| `Vectors.MulCommutative` | src/vec4.rs:281-288 | vector multiplication is commutative |
| `Vectors.DivUndoesMul` | src/vec4.rs:326-333 | `(a * b) / b == a` when no component of `b` is 0 |
| `Vectors.DivNeg` | src/vec4.rs:326-333 | `(-a) / b == -(a / b)`, because quotients round toward zero |
| `Vectors.ArithmeticExamples` | src/vec4.rs:170-172 | the documented examples of `+`, `-`, `*`, `/` and negation hold |
| `Vectors.ScalarIsSplat` | src/vec4.rs:195-202 | each scalar operation equals the vector operation against the vector with that scalar in every component |
| `Vectors.ScalarRoundTrip` | src/vec4.rs:347-354 | `sub_scalar(s)` undoes `add_scalar(s)`, and `div_scalar(s)` undoes `mul_scalar(s)` for `s != 0` |
| `Vectors.ScalarExamples` | src/vec4.rs:192-193 | the documented examples of the four scalar operations hold |
| `Vectors.DotLaws` | src/vec4.rs:153-157 | the corrected dot product is symmetric, and `length_sq(a + b) == length_sq(a) + 2 dot(a, b) + length_sq(b)` |
| `Vectors.DotLinear` | src/vec4.rs:148-151 | the corrected dot product is linear in its first argument: additive and scalar-homogeneous |
| `Vectors.DotAsWrittenCounterexample` | src/vec4.rs:150 | the dot product as written gives 2 for `(0,1,0,0)` with itself, where the dot product and the squared length give 1 |
| `Vectors.DotAsWrittenIsNotDot` | src/vec4.rs:150 | some pair of vectors tells the dot product as written apart from the dot product (the pair comes from `Vectors.DotAsWrittenWitness`) |
| `Vectors.ClampExample` | src/vec4.rs:368-369 | `(-2,4,-6,8).clamp(-1,2) == (-1,2,-1,2)` |
| `Vectors.ClampIdempotent` | src/vec4.rs:371-378 | with `min <= max`, clamping twice equals clamping once |
| `Vectors.AnyLessMirrorsAnyGreater` | src/vec4.rs:399-418 | `any_less(a, b) == any_greater(b, a)`, and neither holds iff the vectors are equal |
| `Vectors.PartialCmpReverse` | src/vec4.rs:460-470 | comparing the other way round reverses the result, and incomparable stays incomparable |
| `Vectors.LtStrictPartialOrder` | src/vec4.rs:460-470 | `<` is irreflexive, asymmetric and transitive, `<=` is `<` or equality, and `a < b` implies `any_less(a, b)` and not `any_greater(a, b)` |
| `Vectors.ComparisonExamples` | src/vec4.rs:396-397 | `(1,2,3,4) < (2,3,4,5)`; a vector with one component equal and the others below is incomparable; `(0,0,0,1).any_less((0,0,0,2))` holds though the two are incomparable |
| `Vectors.AnyLessIsNotLt` | src/vec4.rs:399-402 | `any_less` does not imply `<`, and two vectors can each have a component below the other's while being incomparable |
| `Vectors.ZeroExamples` | src/vec4.rs:497-500 | `zero()` is zero; `(1,0,0,0)` and `one()` are not |
| `Dist.NumCastFrom` | src/dist/m.rs:53 | `T::from(n)` yields `n` itself exactly when the scalar type can hold `n`, and nothing otherwise |
| `Dist.ToMM` | src/dist/m.rs:52-54 | over an exact scalar, dividing the millimeters by 1000 gives back the meters |
| `Dist.ToCM` | src/dist/m.rs:67-69 | over an exact scalar, dividing the centimeters by 100 gives back the meters |
| `Dist.ToKM` | src/dist/m.rs:97-99 | over an exact scalar, multiplying the kilometers by 1000 gives back the meters |
| `Dist.ToM` | src/dist/m.rs:82-84 | `to_m` returns its argument unchanged, for any scalar |
| `Dist.ToMMInt` | src/dist/m.rs:52-54 | over an integer scalar that holds 1000, the millimeters are exactly 1000 times the meters |
| `Dist.ToCMInt` | src/dist/m.rs:67-69 | over an integer scalar that holds 100, the centimeters are exactly 100 times the meters |
| `Dist.ToKMInt` | src/dist/m.rs:97-99 | over an integer scalar that holds 1000, the quotient rounds toward zero: the meters left over are fewer than 1000 and have the sign of the input |
| `Dist.ConversionExamples` | src/dist/m.rs:50 | `M(1.0)` is `MM(1000.0)` and `CM(100.0)`, `M(1000.0)` is `KM(1.0)`, and `M(1.0).to_m()` is `M(1.0)` |
| `Dist.ToMIdentity` | src/dist/m.rs:80-84 | `M(x).to_m() == M(x)` for every `x` and scalar |
| `Dist.ConversionsInvertible` | src/dist/m.rs:97-99 | over an exact scalar, whole kilometers come out whole: `M(1000 k).to_km()` is `KM(k)` |
| `Dist.ConversionsConsistent` | src/dist/m.rs:52-54 | the millimeter value is 10 times the centimeter value and 1000000 times the kilometer value |
| `Dist.ConversionsMonotone` | src/dist/m.rs:67-69 | each conversion preserves the order of distances and is injective |
| `Dist.FactorRepresentable` | src/dist/m.rs:53 | 1000 does not fit an 8-bit scalar, so `to_mm` and `to_km` panic there, while 100 fits it; 16-bit scalars hold 1000; whenever 1000 fits, 100 fits |
| `Dist.IntFactorsExact` | src/dist/m.rs:52-54 | over integers, wherever `to_mm` is defined `to_cm` is too, and the millimeters are 10 times the centimeters |
| `Dist.ToKMIntExact` | src/dist/m.rs:97-99 | over integers, `M(1000 k).to_km()` is `KM(k)` |
| `Dist.ToKMIntRoundTrip` | src/dist/m.rs:97-99 | over integers, kilometers times 1000 give the meters back, and millimeters equal a million times the kilometers, both iff the meters are a multiple of 1000 |
| `Dist.ToKMIntLossy` | src/dist/m.rs:97-99 | over integers, two different distances in meters can give the same kilometers |
| `Dist.ToKMIntExamples` | src/dist/m.rs:98 | 1500 m is 1 km and -1500 m is -1 km (rounding toward zero), and 999 m is 0 km |
| `Dist.IntAgreesWithExact` | src/dist/m.rs:52-54 | on whole meters the integer conversions give the exact results; `to_km` does so when the meters are whole kilometers |

## Findings

| source | as written | input that shows it | evidently intended | confidence | as-written member | corrected member |
|---|---|---|---|---|---|---|
| src/vec4.rs:150 | `dot` computes `x*b.x + y + b.y + z + b.z + w + b.w`: only the x terms are multiplied | `a = b = (0,1,0,0)` gives 2; the dot product and `length_sq` give 1. Against the zero vector it gives `y + z + w` instead of 0 | the sum of the component-wise products `x*b.x + y*b.y + z*b.z + w*b.w` | high (not executed) | `Vectors.DotAsWritten`, with `Vectors.DotAsWrittenCounterexample` and `Vectors.DotAsWrittenIsNotDot` | `Vectors.Dot`, with `Vectors.DotLaws` and `Vectors.DotLinear` |

Both versions are in the model. The laws of the dot product are stated about
the corrected `Vectors.Dot`.

## Left out

- `almost_equal`, `is_nan`, `round` and `length` (src/vec4.rs:96-144) are left out. They need floating-point tolerance, NaN, rounding and square root, which exact arithmetic does not have.
- The `Display` impl (src/vec4.rs:46-58) is left out. It is string formatting, and it prints the tag `Vec3(...)` for a four-component vector.
- `AsRef` (src/vec4.rs:381-385) is left out. It only lets `any_less` and `any_greater` accept a borrowed vector, so here they take a `Vec4` directly.
- The genericity over `T` and the `num` traits is left out. `Vec4` is fixed to `int`, and the distance conversions to `real` and to bounded integers. `Vec4<MM>` and other unit-typed vectors are not modelled.
- Integer overflow and wrap-around are left out. The arithmetic of `Vec4` and the products in `to_mm` and `to_cm` are unbounded. The library passes the scalar's own overflow behaviour through unchanged. Division by zero is a precondition (`NoZeroComponent`, `s != 0`). An integer scalar's own division panics there, and a float's gives an infinity, or NaN for `0.0 / 0.0`.
- `Vectors.Clamp` uses a scalar clamp that is not part of this model. `Scalars.ClampScalar` is the usual `if v < min then min else if v > max then max else v`. What the real scalar clamp does when `min > max` is not modelled.
- `Dist.ToMM`, `Dist.ToCM` and `Dist.ToKM` use exact `real` arithmetic. The floating-point rounding of `f32` and `f64` is not modelled.
- Floating-point comparison is left out. With NaN components, `==` and `partial_cmp` behave differently in Rust, and `int` has no NaN.
- The `unit!` macro and the files for MM, CM and KM are not part of this model. Neither are their conversions back to meters. Only the conversions out of `M` are modelled.

/** A four-component vector (x, y, z, w) over an integer scalar: component-wise
    arithmetic, scalar broadcast, dot product and squared length, clamping,
    exact equality, an all-or-nothing partial order, the existential
    comparisons, and the zero and one vectors. */
module Vectors {
  import opened Cmp
  import opened Scalars

  /** A vector is a plain value; `Vec4(x, y, z, w)` is its constructor. */
  datatype Vec4 = Vec4(x: int, y: int, z: int, w: int) {

    /** The i-th component, in the order x, y, z, w. */
    function At(i: nat): int
      requires i < 4
    {
      if i == 0 then x else if i == 1 then y else if i == 2 then z else w
    }
  }

  /** The vector with every component equal to `s`. */
  function Splat(s: int): Vec4 {
    Vec4(s, s, s, s)
  }

  // ---------------------------------------------------------------------
  // Identity elements

  /** Every component is the additive identity. */
  function Zero(): (r: Vec4)
    ensures forall i :: 0 <= i < 4 ==> r.At(i) == 0
  {
    Vec4(0, 0, 0, 0)
  }

  /** Every component is the multiplicative identity. */
  function One(): (r: Vec4)
    ensures forall i :: 0 <= i < 4 ==> r.At(i) == 1
  {
    Vec4(1, 1, 1, 1)
  }

  /** Holds exactly when every component is zero, that is, when `v` is the
      zero vector. */
  predicate IsZero(v: Vec4)
    ensures IsZero(v) <==> (forall i :: 0 <= i < 4 ==> v.At(i) == 0)
    ensures IsZero(v) <==> v == Zero()
  {
    AtAll(v);
    v.x == 0 && v.y == 0 && v.z == 0 && v.w == 0
  }

  // ---------------------------------------------------------------------
  // Component-wise arithmetic

  function Add(a: Vec4, b: Vec4): (r: Vec4)
    ensures forall i :: 0 <= i < 4 ==> r.At(i) == a.At(i) + b.At(i)
  {
    Vec4(a.x + b.x, a.y + b.y, a.z + b.z, a.w + b.w)
  }

  function Sub(a: Vec4, b: Vec4): (r: Vec4)
    ensures forall i :: 0 <= i < 4 ==> r.At(i) == a.At(i) - b.At(i)
  {
    Vec4(a.x - b.x, a.y - b.y, a.z - b.z, a.w - b.w)
  }

  function Neg(v: Vec4): (r: Vec4)
    ensures forall i :: 0 <= i < 4 ==> r.At(i) == -v.At(i)
  {
    Vec4(-v.x, -v.y, -v.z, -v.w)
  }

  function Mul(a: Vec4, b: Vec4): (r: Vec4)
    ensures forall i :: 0 <= i < 4 ==> r.At(i) == a.At(i) * b.At(i)
  {
    Vec4(a.x * b.x, a.y * b.y, a.z * b.z, a.w * b.w)
  }

  /** No component of `v` is zero: the condition for dividing by `v`. */
  predicate NoZeroComponent(v: Vec4) {
    v.x != 0 && v.y != 0 && v.z != 0 && v.w != 0
  }

  /** Component-wise integer division, each quotient rounded toward zero. */
  function Div(a: Vec4, b: Vec4): (r: Vec4)
    requires NoZeroComponent(b)
    ensures forall i :: 0 <= i < 4 ==> r.At(i) == TruncDiv(a.At(i), b.At(i))
  {
    Vec4(TruncDiv(a.x, b.x), TruncDiv(a.y, b.y), TruncDiv(a.z, b.z), TruncDiv(a.w, b.w))
  }

  // ---------------------------------------------------------------------
  // Scalar broadcast

  function AddScalar(v: Vec4, s: int): (r: Vec4)
    ensures forall i :: 0 <= i < 4 ==> r.At(i) == v.At(i) + s
  {
    Vec4(v.x + s, v.y + s, v.z + s, v.w + s)
  }

  function SubScalar(v: Vec4, s: int): (r: Vec4)
    ensures forall i :: 0 <= i < 4 ==> r.At(i) == v.At(i) - s
  {
    Vec4(v.x - s, v.y - s, v.z - s, v.w - s)
  }

  function MulScalar(v: Vec4, s: int): (r: Vec4)
    ensures forall i :: 0 <= i < 4 ==> r.At(i) == v.At(i) * s
  {
    Vec4(v.x * s, v.y * s, v.z * s, v.w * s)
  }

  function DivScalar(v: Vec4, s: int): (r: Vec4)
    requires s != 0
    ensures forall i :: 0 <= i < 4 ==> r.At(i) == TruncDiv(v.At(i), s)
  {
    Vec4(TruncDiv(v.x, s), TruncDiv(v.y, s), TruncDiv(v.z, s), TruncDiv(v.w, s))
  }

  // ---------------------------------------------------------------------
  // Dot product and squared length

  /** The dot product: the sum of the component-wise products. A vector's
      dot product with itself is its squared length, and any vector's dot
      product with the zero vector is zero. */
  function Dot(a: Vec4, b: Vec4): (r: int)
    ensures a == b ==> r == LengthSq(a)
    ensures IsZero(b) ==> r == 0
  {
    a.x * b.x + a.y * b.y + a.z * b.z + a.w * b.w
  }

  /** The dot product exactly as the library computes it: only the x terms
      are multiplied, the other six operands are added. It agrees with the
      dot product on vectors that have only an x component, but against the
      zero vector it yields the sum of the y, z and w components. */
  function DotAsWritten(a: Vec4, b: Vec4): (r: int)
    ensures a.y == a.z == a.w == 0 && b.y == b.z == b.w == 0 ==> r == Dot(a, b)
    ensures IsZero(b) ==> r == a.y + a.z + a.w
  {
    a.x * b.x + a.y + b.y + a.z + b.z + a.w + b.w
  }

  /** The squared magnitude: never negative, and zero only for the zero
      vector. */
  function LengthSq(v: Vec4): (r: int)
    ensures r >= 0
    ensures r == 0 <==> IsZero(v)
  {
    SquareNonNegative(v.x);
    SquareNonNegative(v.y);
    SquareNonNegative(v.z);
    SquareNonNegative(v.w);
    v.x * v.x + v.y * v.y + v.z * v.z + v.w * v.w
  }

  lemma SquareNonNegative(n: int)
    ensures n * n >= 0
    ensures n * n == 0 <==> n == 0
  {
    if n < 0 {
      assert n * n == (-n) * (-n);
    }
  }

  // ---------------------------------------------------------------------
  // Clamping

  /** Each component clamped into `[min, max]` by the scalar clamp. */
  function Clamp(v: Vec4, min: int, max: int): (r: Vec4)
    ensures forall i :: 0 <= i < 4 ==> r.At(i) == ClampScalar(v.At(i), min, max)
    ensures min <= max ==> forall i :: 0 <= i < 4 ==> min <= r.At(i) <= max
    ensures forall i :: 0 <= i < 4 && min <= v.At(i) <= max ==> r.At(i) == v.At(i)
  {
    Vec4(ClampScalar(v.x, min, max), ClampScalar(v.y, min, max),
         ClampScalar(v.z, min, max), ClampScalar(v.w, min, max))
  }

  // ---------------------------------------------------------------------
  // Comparison

  /** Exact component-wise equality; agrees with value equality. */
  predicate Eq(a: Vec4, b: Vec4)
    ensures Eq(a, b) <==> a == b
  {
    a.x == b.x && a.y == b.y && a.z == b.z && a.w == b.w
  }

  /** Some component of `a` is below the matching component of `b`. */
  predicate AnyLess(a: Vec4, b: Vec4)
    ensures AnyLess(a, b) <==> exists i :: 0 <= i < 4 && a.At(i) < b.At(i)
  {
    AtAll(a); AtAll(b);
    a.x < b.x || a.y < b.y || a.z < b.z || a.w < b.w
  }

  /** Some component of `a` is above the matching component of `b`. */
  predicate AnyGreater(a: Vec4, b: Vec4)
    ensures AnyGreater(a, b) <==> exists i :: 0 <= i < 4 && a.At(i) > b.At(i)
  {
    AtAll(a); AtAll(b);
    a.x > b.x || a.y > b.y || a.z > b.z || a.w > b.w
  }

  /** The four components as `At` gives them. */
  lemma AtAll(v: Vec4)
    ensures v.At(0) == v.x && v.At(1) == v.y && v.At(2) == v.z && v.At(3) == v.w
  {
  }

  /** Every component of `a` is strictly below the matching one of `b`. */
  ghost predicate AllLess(a: Vec4, b: Vec4) {
    forall i :: 0 <= i < 4 ==> a.At(i) < b.At(i)
  }

  /** The partial order: `Less` or `Greater` only when all four components
      agree strictly, `Equal` for equal vectors, incomparable otherwise. */
  function PartialCmp(a: Vec4, b: Vec4): (r: Option<Ordering>)
    ensures r == Some(Less) <==> AllLess(a, b)
    ensures r == Some(Greater) <==> AllLess(b, a)
    ensures r == Some(Equal) <==> a == b
    ensures r == None <==> !AllLess(a, b) && !AllLess(b, a) && a != b
  {
    AtAll(a); AtAll(b);
    if a.x < b.x && a.y < b.y && a.z < b.z && a.w < b.w then
      Some(Less)
    else if a.x > b.x && a.y > b.y && a.z > b.z && a.w > b.w then
      Some(Greater)
    else if Eq(a, b) then
      Some(Equal)
    else
      None
  }

  /** `a < b` as the partial order defines it: every component of `a` is
      strictly below the matching one of `b`. */
  predicate Lt(a: Vec4, b: Vec4)
    ensures Lt(a, b) <==> AllLess(a, b)
  {
    PartialCmp(a, b) == Some(Less)
  }

  /** `a <= b` as the partial order defines it: every component of `a` is
      strictly below the matching one of `b`, or the vectors are equal. */
  predicate Le(a: Vec4, b: Vec4)
    ensures Le(a, b) <==> AllLess(a, b) || a == b
  {
    PartialCmp(a, b) == Some(Less) || PartialCmp(a, b) == Some(Equal)
  }

  // ---------------------------------------------------------------------
  // Laws of the arithmetic

  /** The zero vector is a two-sided identity for addition. */
  lemma AddZeroIdentity(v: Vec4)
    ensures Add(v, Zero()) == v && Add(Zero(), v) == v
  {
  }

  lemma AddCommutative(a: Vec4, b: Vec4)
    ensures Add(a, b) == Add(b, a)
  {
  }

  /** Subtraction undoes addition, and adding back undoes subtraction. */
  lemma SubUndoesAdd(a: Vec4, b: Vec4)
    ensures Sub(Add(a, b), b) == a
    ensures Add(Sub(a, b), b) == a
  {
  }

  /** Subtracting is adding the negation. */
  lemma SubIsAddNeg(a: Vec4, b: Vec4)
    ensures Sub(a, b) == Add(a, Neg(b))
  {
  }

  /** Negation is an involution, and adding a vector to its negation gives
      the zero vector. */
  lemma NegInvolution(v: Vec4)
    ensures Neg(Neg(v)) == v
    ensures Add(v, Neg(v)) == Zero()
  {
  }

  /** The one vector is a two-sided identity for multiplication, and the
      zero vector annihilates. */
  lemma MulOneIdentity(v: Vec4)
    ensures Mul(v, One()) == v && Mul(One(), v) == v
    ensures Mul(v, Zero()) == Zero()
  {
  }

  lemma MulCommutative(a: Vec4, b: Vec4)
    ensures Mul(a, b) == Mul(b, a)
  {
  }

  /** Division undoes multiplication by a vector with no zero component. */
  lemma DivUndoesMul(a: Vec4, b: Vec4)
    requires NoZeroComponent(b)
    ensures Div(Mul(a, b), b) == a
  {
    TruncDivCancel(a.x, b.x);
    TruncDivCancel(a.y, b.y);
    TruncDivCancel(a.z, b.z);
    TruncDivCancel(a.w, b.w);
  }

  /** Quotients are rounded toward zero, so division commutes with negation
      of the dividend. */
  lemma DivNeg(a: Vec4, b: Vec4)
    requires NoZeroComponent(b)
    ensures Div(Neg(a), b) == Neg(Div(a, b))
  {
    TruncDivNeg(a.x, b.x);
    TruncDivNeg(a.y, b.y);
    TruncDivNeg(a.z, b.z);
    TruncDivNeg(a.w, b.w);
  }

  /** The library's documented examples of the four vector operators. */
  lemma ArithmeticExamples()
    ensures Add(Vec4(1, 2, 3, 3), Vec4(4, 5, 6, 6)) == Vec4(5, 7, 9, 9)
    ensures Sub(Vec4(1, 2, 3, 3), Vec4(4, 5, 6, 6)) == Vec4(-3, -3, -3, -3)
    ensures Mul(Vec4(1, 2, 3, 3), Vec4(4, 5, 6, 6)) == Vec4(4, 10, 18, 18)
    ensures Div(Vec4(4, 5, 9, 9), Vec4(1, 2, 3, 3)) == Vec4(4, 2, 3, 3)
    ensures Neg(Vec4(1, 2, 3, 4)) == Vec4(-1, -2, -3, -4)
  {
  }

  /** Each scalar operation is the vector operation against the vector whose
      every component is that scalar. */
  lemma ScalarIsSplat(v: Vec4, s: int)
    ensures AddScalar(v, s) == Add(v, Splat(s))
    ensures SubScalar(v, s) == Sub(v, Splat(s))
    ensures MulScalar(v, s) == Mul(v, Splat(s))
    ensures s != 0 ==> NoZeroComponent(Splat(s)) && DivScalar(v, s) == Div(v, Splat(s))
  {
  }

  /** The scalar operations undo each other: subtracting undoes adding, and
      dividing by a nonzero scalar undoes multiplying by it. */
  lemma ScalarRoundTrip(v: Vec4, s: int)
    ensures SubScalar(AddScalar(v, s), s) == v
    ensures s != 0 ==> DivScalar(MulScalar(v, s), s) == v
  {
    if s != 0 {
      TruncDivCancel(v.x, s);
      TruncDivCancel(v.y, s);
      TruncDivCancel(v.z, s);
      TruncDivCancel(v.w, s);
    }
  }

  /** The library's documented examples of the scalar operations. */
  lemma ScalarExamples()
    ensures AddScalar(Vec4(1, 2, 3, 4), 1) == Vec4(2, 3, 4, 5)
    ensures SubScalar(Vec4(2, 3, 4, 5), 1) == Vec4(1, 2, 3, 4)
    ensures MulScalar(Vec4(1, 2, 3, 4), 2) == Vec4(2, 4, 6, 8)
    ensures DivScalar(Vec4(2, 4, 6, 8), 2) == Vec4(1, 2, 3, 4)
  {
  }

  // ---------------------------------------------------------------------
  // Laws of the dot product

  /** The dot product is symmetric, and the dot product of a sum with
      itself expands as for numbers. */
  lemma DotLaws(a: Vec4, b: Vec4)
    ensures Dot(a, b) == Dot(b, a)
    ensures LengthSq(Add(a, b)) == LengthSq(a) + 2 * Dot(a, b) + LengthSq(b)
  {
    var s := Add(a, b);
    assert s.x * s.x == a.x * a.x + 2 * (a.x * b.x) + b.x * b.x;
    assert s.y * s.y == a.y * a.y + 2 * (a.y * b.y) + b.y * b.y;
    assert s.z * s.z == a.z * a.z + 2 * (a.z * b.z) + b.z * b.z;
    assert s.w * s.w == a.w * a.w + 2 * (a.w * b.w) + b.w * b.w;
  }

  /** The dot product is linear in its first argument. */
  lemma DotLinear(a: Vec4, b: Vec4, c: Vec4, s: int)
    ensures Dot(Add(a, b), c) == Dot(a, c) + Dot(b, c)
    ensures Dot(MulScalar(a, s), c) == s * Dot(a, c)
  {
    Distributes(a.x, b.x, c.x, s);
    Distributes(a.y, b.y, c.y, s);
    Distributes(a.z, b.z, c.z, s);
    Distributes(a.w, b.w, c.w, s);
    assert s * Dot(a, c) == s * (a.x * c.x) + s * (a.y * c.y) + s * (a.z * c.z) + s * (a.w * c.w);
  }

  /** One component's share of DotLinear. */
  lemma Distributes(p: int, q: int, c: int, s: int)
    ensures (p + q) * c == p * c + q * c
    ensures (p * s) * c == s * (p * c)
  {
  }

  /** The dot product as written is not the dot product: on the unit y
      vector with itself it yields 2 where the dot product, and the squared
      length, are 1. */
  lemma DotAsWrittenCounterexample()
    ensures DotAsWritten(Vec4(0, 1, 0, 0), Vec4(0, 1, 0, 0)) == 2
    ensures Dot(Vec4(0, 1, 0, 0), Vec4(0, 1, 0, 0)) == 1
    ensures LengthSq(Vec4(0, 1, 0, 0)) == 1
  {
    var e := Vec4(0, 1, 0, 0);
    assert DotAsWritten(e, e) == 0 * 0 + 1 + 1 + 0 + 0 + 0 + 0;
    assert Dot(e, e) == 0 * 0 + 1 * 1 + 0 * 0 + 0 * 0;
  }

  /** The counterexample, handed out as a pair of vectors. */
  lemma DotAsWrittenWitness() returns (a: Vec4, b: Vec4)
    ensures DotAsWritten(a, b) != Dot(a, b)
  {
    a, b := Vec4(0, 1, 0, 0), Vec4(0, 1, 0, 0);
    DotAsWrittenCounterexample();
  }

  /** Hence the dot product as written is a different function from the
      dot product: some pair of vectors tells them apart. */
  lemma DotAsWrittenIsNotDot()
    ensures exists a: Vec4, b: Vec4 :: DotAsWritten(a, b) != Dot(a, b)
  {
    var a, b := DotAsWrittenWitness();
  }

  // ---------------------------------------------------------------------
  // Laws of clamping

  /** The library's documented clamp example. */
  lemma ClampExample()
    ensures Clamp(Vec4(-2, 4, -6, 8), -1, 2) == Vec4(-1, 2, -1, 2)
  {
  }

  /** With ordered bounds, clamping a clamped vector changes nothing. */
  lemma ClampIdempotent(v: Vec4, min: int, max: int)
    requires min <= max
    ensures Clamp(Clamp(v, min, max), min, max) == Clamp(v, min, max)
  {
  }

  // ---------------------------------------------------------------------
  // Laws of comparison

  /** `AnyLess` and `AnyGreater` are each other's mirror image, and neither
      holds exactly when the vectors are equal. */
  lemma AnyLessMirrorsAnyGreater(a: Vec4, b: Vec4)
    ensures AnyLess(a, b) == AnyGreater(b, a)
    ensures !AnyLess(a, b) && !AnyGreater(a, b) <==> a == b
  {
  }

  /** The partial order is the same seen from either side. */
  lemma PartialCmpReverse(a: Vec4, b: Vec4)
    ensures PartialCmp(b, a) == ReverseOption(PartialCmp(a, b))
  {
  }

  /** `<` is a strict partial order whose reflexive closure is `<=`, and
      `a < b` implies that some, and no, component of `a` is respectively
      below and above that of `b`. */
  lemma LtStrictPartialOrder(a: Vec4, b: Vec4, c: Vec4)
    ensures !Lt(a, a)
    ensures Lt(a, b) ==> !Lt(b, a)
    ensures Lt(a, b) && Lt(b, c) ==> Lt(a, c)
    ensures Le(a, b) <==> Lt(a, b) || a == b
    ensures Lt(a, b) ==> AnyLess(a, b) && !AnyGreater(a, b)
  {
    if Lt(a, b) {
      assert a.At(0) < b.At(0);
    }
  }

  /** The order is all-or-nothing: one component equal and three below
      leaves the vectors incomparable, although `AnyLess` holds. */
  lemma ComparisonExamples()
    ensures Lt(Vec4(1, 2, 3, 4), Vec4(2, 3, 4, 5))
    ensures PartialCmp(Vec4(1, 2, 3, 4), Vec4(1, 3, 4, 5)) == None
    ensures AnyLess(Vec4(0, 0, 0, 1), Vec4(0, 0, 0, 2))
    ensures AnyGreater(Vec4(0, 0, 0, 2), Vec4(0, 0, 0, 1))
    ensures PartialCmp(Vec4(0, 0, 0, 1), Vec4(0, 0, 0, 2)) == None
    ensures Eq(Vec4(4, 5, 9, 9), Vec4(4, 5, 9, 9))
  {
  }

  /** `any_less` and `<` answer different questions: some vectors have a
      component below the other's and are yet incomparable, and others are
      incomparable because neither has a component below the other's in
      every place. */
  lemma AnyLessIsNotLt()
    ensures exists a: Vec4, b: Vec4 :: AnyLess(a, b) && !Lt(a, b)
    ensures exists a: Vec4, b: Vec4 :: PartialCmp(a, b) == None && AnyLess(a, b) && AnyGreater(a, b)
  {
    var a, b := Vec4(0, 0, 0, 1), Vec4(0, 0, 0, 2);
    assert AnyLess(a, b) && !Lt(a, b);
    var c, d := Vec4(0, 1, 0, 0), Vec4(1, 0, 0, 0);
    assert PartialCmp(c, d) == None && AnyLess(c, d) && AnyGreater(c, d);
  }

  /** The library's documented zero-detection examples. */
  lemma ZeroExamples()
    ensures IsZero(Zero())
    ensures !IsZero(Vec4(1, 0, 0, 0))
    ensures !IsZero(One())
  {
  }
}

/** Distances in meters and their conversions to millimeters, centimeters,
    kilometers and meters. Each unit wraps one scalar read in that unit.
    The conversions are given twice: over `real`, standing for a
    floating-point scalar with exact arithmetic, and over a bounded integer
    scalar, where the factor must first be cast into the scalar type and the
    division truncates toward zero. */
module Dist {
  import opened Cmp
  import opened Scalars

  datatype M<T> = M(value: T)
  datatype MM<T> = MM(value: T)
  datatype CM<T> = CM(value: T)
  datatype KM<T> = KM(value: T)

  // ---------------------------------------------------------------------
  // Integer scalar types

  /** The values an integer scalar type can hold. */
  datatype IntType = IntType(min: int, max: int) {
    /** Every machine integer type holds zero. */
    predicate Valid() {
      min <= 0 <= max
    }
  }

  const U8 := IntType(0, 0xFF)
  const I8 := IntType(-0x80, 0x7F)
  const U16 := IntType(0, 0xFFFF)
  const I16 := IntType(-0x8000, 0x7FFF)
  const U32 := IntType(0, 0xFFFF_FFFF)
  const I32 := IntType(-0x8000_0000, 0x7FFF_FFFF)
  const U64 := IntType(0, 0xFFFF_FFFF_FFFF_FFFF)
  const I64 := IntType(-0x8000_0000_0000_0000, 0x7FFF_FFFF_FFFF_FFFF)

  /** Casting an integer literal into the scalar type: the same value when
      the type can hold it, nothing otherwise. */
  function NumCastFrom(n: int, t: IntType): (r: Option<int>)
    ensures r.Some? <==> t.min <= n <= t.max
    ensures r.Some? ==> r.value == n
  {
    if t.min <= n <= t.max then Some(n) else None
  }

  // ---------------------------------------------------------------------
  // Conversions over an exact (real) scalar

  /** Meters to millimeters: times 1000, so dividing the millimeters by
      1000 gives back the meters. */
  function ToMM(m: M<real>): (r: MM<real>)
    ensures r.value / 1000.0 == m.value
  {
    MM(m.value * 1000.0)
  }

  /** Meters to centimeters: times 100, so dividing the centimeters by 100
      gives back the meters. */
  function ToCM(m: M<real>): (r: CM<real>)
    ensures r.value / 100.0 == m.value
  {
    CM(m.value * 100.0)
  }

  /** Meters to kilometers: divided by 1000, so multiplying the kilometers
      by 1000 gives back the meters. */
  function ToKM(m: M<real>): (r: KM<real>)
    ensures r.value * 1000.0 == m.value
  {
    KM(m.value / 1000.0)
  }

  /** Meters to meters, for any scalar: the value itself. */
  function ToM<T>(m: M<T>): (r: M<T>)
    ensures r == m
  {
    m
  }

  // ---------------------------------------------------------------------
  // Conversions over a bounded integer scalar

  /** Meters to millimeters; the factor 1000 must fit the scalar type. */
  function ToMMInt(m: M<int>, t: IntType): (r: MM<int>)
    requires NumCastFrom(1000, t).Some?
    ensures r.value == 1000 * m.value
  {
    MM(m.value * NumCastFrom(1000, t).value)
  }

  /** Meters to centimeters; the factor 100 must fit the scalar type. */
  function ToCMInt(m: M<int>, t: IntType): (r: CM<int>)
    requires NumCastFrom(100, t).Some?
    ensures r.value == 100 * m.value
  {
    CM(m.value * NumCastFrom(100, t).value)
  }

  /** Meters to kilometers; the factor 1000 must fit the scalar type, and
      the quotient is rounded toward zero. */
  function ToKMInt(m: M<int>, t: IntType): (r: KM<int>)
    requires NumCastFrom(1000, t).Some?
    ensures -1000 < m.value - 1000 * r.value < 1000
    ensures m.value >= 0 ==> m.value - 1000 * r.value >= 0
    ensures m.value <= 0 ==> m.value - 1000 * r.value <= 0
  {
    KM(TruncDiv(m.value, NumCastFrom(1000, t).value))
  }

  // ---------------------------------------------------------------------
  // Laws of the exact conversions

  /** The library's documented conversion examples. */
  lemma ConversionExamples()
    ensures ToMM(M(1.0)) == MM(1000.0)
    ensures ToCM(M(1.0)) == CM(100.0)
    ensures ToKM(M(1000.0)) == KM(1.0)
    ensures ToM(M(1.0)) == M(1.0)
  {
  }

  /** Converting meters to meters changes nothing, whatever the scalar. */
  lemma ToMIdentity<T>(m: M<T>)
    ensures ToM(m) == m
  {
  }

  /** Whole kilometers come out whole. (That each conversion is undone by
      its factor is the contract of ToMM, ToCM and ToKM.) */
  lemma ConversionsInvertible(k: real)
    ensures ToKM(M(1000.0 * k)) == KM(k)
  {
  }

  /** The three conversions agree with each other: a distance has ten times
      as many millimeters as centimeters and a million times as many
      millimeters as kilometers. */
  lemma ConversionsConsistent(m: M<real>)
    ensures ToMM(m).value == 10.0 * ToCM(m).value
    ensures ToMM(m).value == 1000000.0 * ToKM(m).value
    ensures ToCM(m).value == 100000.0 * ToKM(m).value
  {
  }

  /** Every conversion preserves the order of distances, hence is
      injective. */
  lemma ConversionsMonotone(a: M<real>, b: M<real>)
    ensures a.value < b.value ==> ToMM(a).value < ToMM(b).value
    ensures a.value < b.value ==> ToCM(a).value < ToCM(b).value
    ensures a.value < b.value ==> ToKM(a).value < ToKM(b).value
    ensures ToMM(a) == ToMM(b) || ToCM(a) == ToCM(b) || ToKM(a) == ToKM(b) ==> a == b
  {
  }

  // ---------------------------------------------------------------------
  // Laws of the integer conversions

  /** A factor that the scalar type cannot hold makes the conversion fail:
      1000 does not fit an 8-bit type, so 8-bit meters have no millimeter or
      kilometer conversion, while 100 fits and 16-bit types hold both. */
  lemma FactorRepresentable()
    ensures NumCastFrom(1000, U8) == None && NumCastFrom(1000, I8) == None
    ensures NumCastFrom(100, U8) == Some(100) && NumCastFrom(100, I8) == Some(100)
    ensures NumCastFrom(1000, I16) == Some(1000) && NumCastFrom(1000, U16) == Some(1000)
    ensures forall t: IntType :: NumCastFrom(1000, t).Some? && t.Valid() ==> NumCastFrom(100, t).Some?
  {
  }

  /** Whenever the millimeter conversion is defined, so is the centimeter
      one, and a distance has ten times as many millimeters as
      centimeters. */
  lemma IntFactorsExact(m: M<int>, t: IntType)
    requires t.Valid() && NumCastFrom(1000, t).Some?
    ensures NumCastFrom(100, t).Some?
    ensures ToMMInt(m, t).value == 10 * ToCMInt(m, t).value
  {
  }

  /** Whole kilometers convert exactly. */
  lemma ToKMIntExact(k: int, t: IntType)
    requires NumCastFrom(1000, t).Some?
    ensures ToKMInt(M(1000 * k), t) == KM(k)
  {
    TruncDivCancel(k, 1000);
  }

  /** The kilometer conversion loses nothing exactly when the meters are a
      whole number of kilometers; only then does it agree with the
      millimeter conversion. */
  lemma ToKMIntRoundTrip(m: M<int>, t: IntType)
    requires t.Valid() && NumCastFrom(1000, t).Some?
    ensures ToKMInt(m, t).value * 1000 == m.value <==> m.value % 1000 == 0
    ensures ToMMInt(m, t).value == 1000000 * ToKMInt(m, t).value <==> m.value % 1000 == 0
  {
    var q := ToKMInt(m, t).value;
    if m.value % 1000 == 0 {
      var k := m.value / 1000;
      assert m.value == 1000 * k;
      ToKMIntExact(k, t);
    }
    assert ToMMInt(m, t).value == 1000 * m.value;
    assert 1000000 * q == 1000 * (1000 * q);
  }

  /** Over an integer scalar the kilometer conversion loses information:
      different distances in meters give the same kilometers. */
  lemma ToKMIntLossy(t: IntType)
    requires t.Valid() && NumCastFrom(1000, t).Some?
    ensures exists a: int, b: int ::
      t.min <= a <= t.max && t.min <= b <= t.max && a != b && ToKMInt(M(a), t) == ToKMInt(M(b), t)
  {
    ToKMIntExact(0, t);
    assert ToKMInt(M(1), t) == KM(0);
    assert ToKMInt(M(0), t) == KM(0);
  }

  /** Negative meters round toward zero too, unlike a floor division. */
  lemma ToKMIntExamples()
    ensures ToKMInt(M(1500), I32) == KM(1)
    ensures ToKMInt(M(-1500), I32) == KM(-1)
    ensures ToKMInt(M(999), I16) == KM(0)
    ensures ToKMInt(M(-999), I16) == KM(0)
  {
    TruncDivNeg(1500, 1000);
    TruncDivNeg(999, 1000);
  }

  /** On whole meters the integer conversions give the exact conversions'
      results, the kilometer one when the meters are whole kilometers. */
  lemma IntAgreesWithExact(n: int, t: IntType)
    requires t.Valid() && NumCastFrom(1000, t).Some?
    ensures ToMMInt(M(n), t).value as real == ToMM(M(n as real)).value
    ensures ToCMInt(M(n), t).value as real == ToCM(M(n as real)).value
    ensures n % 1000 == 0 ==> ToKMInt(M(n), t).value as real == ToKM(M(n as real)).value
  {
    if n % 1000 == 0 {
      ToKMIntExact(n / 1000, t);
      assert n == 1000 * (n / 1000);
    }
  }
}

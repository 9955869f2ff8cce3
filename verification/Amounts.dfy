/** Amounts in minor units on their way through float64 arithmetic. */
module Amounts {

  function AbsReal(x: real): real {
    if x < 0.0 then -x else x
  }

  const TWO51: int := 0x8_0000_0000_0000
  const TWO53: int := 0x20_0000_0000_0000

  /** math.Round: to the nearest integer, halves away from zero. */
  function RoundHalfAway(x: real): int {
    if x < 0.0 then -(0.5 - x).Floor else (x + 0.5).Floor
  }

  /** `fl` maps an exact result to the delivered one; float64(v) is exact for the amounts at hand. */
  function MinorUnitsToAmount(v: int, fl: real -> real): real {
    fl(v as real / 100.0)
  }

  function AmountToMinorUnits(x: real, fl: real -> real): int {
    RoundHalfAway(fl(x * 100.0))
  }

  /** The amount that comes back: one division and one multiplication are delivered by `fl`. */
  function Returned(v: int, fl: real -> real): int {
    AmountToMinorUnits(MinorUnitsToAmount(v, fl), fl)
  }

  lemma RoundsToNearest(v: int, b: real)
    requires AbsReal(b - v as real) < 0.5
    ensures RoundHalfAway(b) == v
  {
  }

  // ------------------------------------------------------------ by relative error

  /** The delivered result is off by at most 2^-53 of the exact one (section 4.3.1 of IEEE 754-2019). */
  predicate RoundsAt(fl: real -> real, x: real) {
    AbsReal(fl(x) - x) * TWO53 as real <= AbsReal(x)
  }

  /** The two operations on v are within the error bound; nothing is asked of any other operation. */
  predicate Accurate(v: int, fl: real -> real) {
    RoundsAt(fl, v as real / 100.0) && RoundsAt(fl, MinorUnitsToAmount(v, fl) * 100.0)
  }

  /** Dividing and multiplying by 100 loses less than half a minor unit. */
  lemma ErrorBelowHalf(v: int, a: real, b: real)
    requires -TWO51 < v < TWO51
    requires AbsReal(a - v as real / 100.0) * TWO53 as real <= AbsReal(v as real / 100.0)
    requires AbsReal(b - a * 100.0) * TWO53 as real <= AbsReal(a * 100.0)
    ensures AbsReal(b - v as real) < 0.5
  {
    var x := v as real;
    assert AbsReal(x) <= 2251799813685247.0;
    assert AbsReal(a * 100.0 - x) * TWO53 as real <= AbsReal(x);
    assert AbsReal(a * 100.0) <= AbsReal(x) + AbsReal(a * 100.0 - x);
    assert AbsReal(b - x) <= AbsReal(b - a * 100.0) + AbsReal(a * 100.0 - x);
  }

  /** Amounts below 2^51 minor units survive the trip, however the two operations round within the bound. */
  lemma AmountRoundTrip(v: int, fl: real -> real)
    requires -TWO51 < v < TWO51 && Accurate(v, fl)
    ensures Returned(v, fl) == v
  {
    var a := MinorUnitsToAmount(v, fl);
    ErrorBelowHalf(v, a, fl(a * 100.0));
    RoundsToNearest(v, fl(a * 100.0));
  }

  function RoundUp(x: real): real {
    x + x / TWO53 as real
  }

  /** 2^51 is the exact limit of the error bound alone: one permitted rounding changes the amount 2^51. */
  lemma ErrorLimitIsSharp()
    ensures Accurate(TWO51, RoundUp)
    ensures Returned(TWO51, RoundUp) == TWO51 + 1
  {
    var v := TWO51 as real;
    assert v == 2251799813685248.0;
    var b := RoundUp(RoundUp(v / 100.0) * 100.0);
    assert b == v + 0.5 + 0.25 / TWO53 as real;
  }

  // ------------------------------------------------------------ float64 values

  /** x * 2^e, by doubling and halving. */
  function Scaled(x: real, e: int): real
    decreases if e < 0 then -e else e
  {
    if e == 0 then x else if e > 0 then 2.0 * Scaled(x, e - 1) else Scaled(x, e + 1) / 2.0
  }

  predicate IsScaled(x: real, m: int, e: int) {
    x == Scaled(m as real, e)
  }

  /** The finite float64 values: a significand of 53 bits and an exponent in range. */
  ghost predicate IsFloat64(x: real) {
    exists m: int, e: int :: -TWO53 < m < TWO53 && -1074 <= e <= 971 && IsScaled(x, m, e)
  }

  /** x is delivered as a float64 value at least as near as any other; ties may go either way. */
  ghost predicate NearestAt(fl: real -> real, x: real) {
    IsFloat64(fl(x)) && forall y :: IsFloat64(y) ==> AbsReal(fl(x) - x) <= AbsReal(y - x)
  }

  /** The significand of a float64 value, as section 3.4 of IEEE 754-2019 represents it, is even. */
  ghost predicate EvenSignificand(x: real) {
    exists m: int, e: int ::
      -TWO53 < m < TWO53 && -1074 <= e <= 971 && IsScaled(x, m, e) && Normalised(m, e) && m % 2 == 0
  }

  predicate Normalised(m: int, e: int) {
    2 * m >= TWO53 || 2 * m <= -TWO53 || e == -1074
  }

  /** roundTiesToEven of section 4.3.1 of IEEE 754-2019: of two equally near values, one with an even significand. */
  ghost predicate TiesToEvenAt(fl: real -> real, x: real) {
    forall y :: IsFloat64(y) && y != fl(x) && AbsReal(y - x) == AbsReal(fl(x) - x) ==> EvenSignificand(fl(x))
  }

  lemma {:induction false} ScaledOrder(x: real, y: real, e: int)
    ensures Scaled(x, e) <= Scaled(y, e) <==> x <= y
    decreases if e < 0 then -e else e
  {
    if e > 0 {
      ScaledOrder(x, y, e - 1);
    } else if e < 0 {
      ScaledOrder(x, y, e + 1);
    }
  }

  lemma {:induction false} ScaledZero(e: int)
    ensures Scaled(0.0, e) == 0.0
    decreases if e < 0 then -e else e
  {
    if e > 0 {
      ScaledZero(e - 1);
    } else if e < 0 {
      ScaledZero(e + 1);
    }
  }

  lemma {:induction false} ScaledDifference(x: real, y: real, e: int)
    ensures Scaled(x - y, e) == Scaled(x, e) - Scaled(y, e)
    decreases if e < 0 then -e else e
  {
    if e > 0 {
      ScaledDifference(x, y, e - 1);
    } else if e < 0 {
      ScaledDifference(x, y, e + 1);
    }
  }

  lemma {:induction false} ScaledDouble(x: real, e: int)
    ensures Scaled(2.0 * x, e) == 2.0 * Scaled(x, e)
    decreases if e < 0 then -e else e
  {
    if e > 0 {
      ScaledDouble(x, e - 1);
    } else if e < 0 {
      ScaledDouble(x, e + 1);
    }
  }

  /** One binary digit moves from the exponent to the significand. */
  lemma ScaledStep(x: real, e: int)
    ensures Scaled(2.0 * x, e - 1) == Scaled(x, e)
  {
    if e > 0 {
      ScaledDouble(x, e - 1);
    } else {
      ScaledDouble(x, e);
    }
  }

  lemma ScaledDistance(x: real, y: real, e: int)
    ensures AbsReal(Scaled(x, e) - Scaled(y, e)) == Scaled(AbsReal(x - y), e)
  {
    ScaledDifference(x, y, e);
    ScaledDifference(y, x, e);
    ScaledOrder(x, y, e);
    ScaledOrder(y, x, e);
  }

  /** Being nearer does not depend on the unit. */
  lemma NearerInUnits(x: real, y: real, t: real, e: int)
    ensures AbsReal(Scaled(x, e) - Scaled(t, e)) <= AbsReal(Scaled(y, e) - Scaled(t, e))
       <==> AbsReal(x - t) <= AbsReal(y - t)
  {
    ScaledDistance(x, t, e);
    ScaledDistance(y, t, e);
    ScaledOrder(AbsReal(x - t), AbsReal(y - t), e);
  }

  lemma SameUnits(x: real, y: real, e: int)
    requires Scaled(x, e) == Scaled(y, e)
    ensures x == y
  {
    ScaledOrder(x, y, e);
    ScaledOrder(y, x, e);
  }

  /** An integer multiple of 2^e is one of 2^d for every smaller d, and an even one stays even. */
  lemma {:induction false} Refine(m: int, e: int, d: int) returns (n: int)
    requires d <= e
    ensures Scaled(m as real, e) == Scaled(n as real, d)
    ensures d < e || m % 2 == 0 ==> n % 2 == 0
    decreases e - d
  {
    if d == e {
      n := m;
    } else {
      ScaledStep(m as real, e);
      assert (2 * m) as real == 2.0 * m as real;
      n := Refine(2 * m, e - 1, d);
    }
  }

  lemma {:induction false} ScaledGrows(x: real, d: int, e: int)
    requires x >= 0.0 && d <= e
    ensures Scaled(x, d) <= Scaled(x, e)
    decreases e - d
  {
    if d < e {
      ScaledGrows(x, d, e - 1);
      ScaledStep(x, e);
      ScaledOrder(x, 2.0 * x, e - 1);
    }
  }

  /** A number with a 53 bit significand that reaches 2^53 units of 2^d has a larger exponent than d. */
  lemma LargeExponent(m: int, e: int, d: int)
    requires m < TWO53 && Scaled(m as real, e) >= Scaled(TWO53 as real, d)
    ensures d < e
  {
    if e <= d {
      var up := if m < 0 then 0 else m;
      ScaledOrder(m as real, up as real, e);
      ScaledGrows(up as real, e, d);
      ScaledOrder(TWO53 as real, up as real, d);
    }
  }

  /** Every multiple of 2^e up to 2^53 of them is a float64 value. */
  lemma {:induction false} GridIsFloat64(m: int, e: int)
    requires -TWO53 <= m <= TWO53 && -1074 <= e < 971
    ensures IsFloat64(Scaled(m as real, e))
  {
    var x := Scaled(m as real, e);
    if m == TWO53 || m == -TWO53 {
      var half := if m == TWO53 then TWO53 / 2 else -(TWO53 / 2);
      ScaledStep(half as real, e + 1);
      assert IsScaled(x, half, e + 1);
    } else {
      assert IsScaled(x, m, e);
    }
  }

  lemma IntegerIsFloat64(v: int)
    requires -TWO53 <= v <= TWO53
    ensures IsFloat64(v as real)
  {
    GridIsFloat64(v, 0);
  }

  /** Between 2^52 and 2^53 units of 2^g, where float64 values are 2^g apart. */
  predicate InBinade(t: real, g: int) {
    -1074 < g < 971 && TWO53 as real / 2.0 <= t <= TWO53 as real
  }

  lemma LowestOfBinade(t: real, g: int)
    requires TWO53 as real / 2.0 <= t
    ensures Scaled(TWO53 as real, g - 1) <= Scaled(t, g)
  {
    var half := TWO53 as real / 2.0;
    ScaledStep(half, g);
    ScaledOrder(half, t, g);
  }

  /** A float64 value of at least 2^52 units is a whole number of them. */
  lemma LargeIsWhole(x: real, g: int) returns (k: int)
    requires IsFloat64(x) && x >= Scaled(TWO53 as real, g - 1)
    ensures x == Scaled(k as real, g)
  {
    var m: int, e: int :| -TWO53 < m < TWO53 && -1074 <= e <= 971 && IsScaled(x, m, e);
    LargeExponent(m, e, g - 1);
    k := Refine(m, e, g);
  }

  lemma NearestBeats(fl: real -> real, x: real, y: real)
    requires NearestAt(fl, x) && IsFloat64(y)
    ensures AbsReal(fl(x) - x) <= AbsReal(y - x)
  {
  }

  /** A result delivered as nearest is a whole number of units, ... */
  lemma DeliveredUnits(fl: real -> real, t: real, g: int, x: real) returns (k: int)
    requires InBinade(t, g) && x == Scaled(t, g) && NearestAt(fl, x)
    ensures fl(x) == Scaled(k as real, g)
  {
    GridIsFloat64(TWO53, g - 1);
    NearestBeats(fl, x, Scaled(TWO53 as real, g - 1));
    LowestOfBinade(t, g);
    k := LargeIsWhole(fl(x), g);
  }

  /** ... and no other number of units is nearer. */
  lemma NoneNearer(fl: real -> real, t: real, g: int, x: real, k: int, n: int)
    requires InBinade(t, g) && x == Scaled(t, g) && NearestAt(fl, x) && fl(x) == Scaled(k as real, g)
    requires 0 <= n <= TWO53
    ensures AbsReal(k as real - t) <= AbsReal(n as real - t)
  {
    GridIsFloat64(n, g);
    NearestBeats(fl, x, Scaled(n as real, g));
    NearerInUnits(k as real, n as real, t, g);
  }

  /** The whole number within half a unit is delivered. */
  lemma NearestUnits(fl: real -> real, t: real, g: int, x: real, n: int)
    requires InBinade(t, g) && x == Scaled(t, g) && NearestAt(fl, x)
    requires 0 <= n <= TWO53 && AbsReal(n as real - t) < 0.5
    ensures fl(x) == Scaled(n as real, g)
  {
    var k := DeliveredUnits(fl, t, g, x);
    NoneNearer(fl, t, g, x, k, n);
    OnlyOneNear(k, n, t);
  }

  lemma OnlyOneNear(k: int, n: int, t: real)
    requires AbsReal(n as real - t) < 0.5 && AbsReal(k as real - t) <= AbsReal(n as real - t)
    ensures k == n
  {
  }

  /** A value of at least 2^52 units with an even significand is an even number of them. */
  lemma EvenUnits(n: int, g: int, m: int, e: int)
    requires TWO53 <= 2 * n && m < TWO53 && m % 2 == 0 && Scaled(n as real, g) == Scaled(m as real, e)
    ensures n % 2 == 0
  {
    LowestOfBinade(n as real, g);
    LargeExponent(m, e, g - 1);
    var k := Refine(m, e, g);
    SameUnits(n as real, k as real, g);
  }

  lemma EvenSignificandIsEven(n: int, g: int)
    requires TWO53 <= 2 * n && EvenSignificand(Scaled(n as real, g))
    ensures n % 2 == 0
  {
    var m: int, e: int :| -TWO53 < m < TWO53 && -1074 <= e <= 971 && IsScaled(Scaled(n as real, g), m, e)
                          && Normalised(m, e) && m % 2 == 0;
    EvenUnits(n, g, m, e);
  }

  /** Half way between two whole numbers of units the even one is delivered. */
  lemma TiedUnits(fl: real -> real, t: real, g: int, x: real, n: int)
    requires InBinade(t, g) && x == Scaled(t, g) && NearestAt(fl, x) && TiesToEvenAt(fl, x)
    requires n < TWO53 && t == n as real + 0.5
    ensures fl(x) == Scaled((if n % 2 == 0 then n else n + 1) as real, g)
  {
    var k := DeliveredUnits(fl, t, g, x);
    NoneNearer(fl, t, g, x, k, n);
    EitherSide(k, n, t);
    TieIsEven(fl, t, g, x, k, if k == n then n + 1 else n);
  }

  lemma EitherSide(k: int, n: int, t: real)
    requires t == n as real + 0.5 && AbsReal(k as real - t) <= AbsReal(n as real - t)
    ensures k == n || k == n + 1
    ensures AbsReal((if k == n then n + 1 else n) as real - t) == AbsReal(k as real - t)
  {
  }

  lemma TieIsEven(fl: real -> real, t: real, g: int, x: real, k: int, other: int)
    requires x == Scaled(t, g) && -1074 <= g < 971 && TiesToEvenAt(fl, x) && fl(x) == Scaled(k as real, g)
    requires k != other && TWO53 <= 2 * k && 0 <= other <= TWO53
    requires AbsReal(other as real - t) == AbsReal(k as real - t)
    ensures k % 2 == 0
  {
    var y := Scaled(other as real, g);
    GridIsFloat64(other, g);
    NearerInUnits(k as real, other as real, t, g);
    NearerInUnits(other as real, k as real, t, g);
    if y == fl(x) {
      SameUnits(other as real, k as real, g);
    }
    assert EvenSignificand(fl(x));
    EvenSignificandIsEven(k, g);
  }

  // ------------------------------------------------------------ small amounts, however ties are broken

  /** The two operations on v are those of float64 arithmetic. */
  ghost predicate Float64(v: int, fl: real -> real) {
    NearestAt(fl, v as real / 100.0) && NearestAt(fl, MinorUnitsToAmount(v, fl) * 100.0)
  }

  /** The smallest amount that float64 arithmetic changes: 100 * 2^45 + 2. */
  const FLOAT_LIMIT: int := 3518437208883202

  const TWO45: real := 35184372088832.0

  /** The powers of two that amounts meet. */
  lemma FinePowers(x: real)
    ensures Scaled(x, -8) == x / 256.0 && Scaled(x, -7) == x / 128.0 && Scaled(x, -6) == x / 64.0
    ensures Scaled(x, -1) == x / 2.0 && Scaled(x, 0) == x && Scaled(x, 1) == 2.0 * x
  {
    assert Scaled(x, -1) == x / 2.0 && Scaled(x, -2) == x / 4.0 && Scaled(x, -3) == x / 8.0;
    assert Scaled(x, -4) == x / 16.0 && Scaled(x, -5) == x / 32.0;
  }

  /** Below 2^45 a float64 value lies within 2^-9. */
  lemma NearGrid(x: real) returns (y: real)
    requires AbsReal(x) <= TWO45
    ensures IsFloat64(y) && AbsReal(y - x) <= 1.0 / 512.0
  {
    var m := (x * 256.0 + 0.5).Floor;
    FinePowers(m as real);
    GridIsFloat64(m, -8);
    y := m as real / 256.0;
  }

  /** Just above it, one lies near the quotients of the two amounts below the limit. */
  lemma NearGridAbove(v: int) returns (y: real)
    requires AbsReal(v as real / 100.0) > TWO45 && -FLOAT_LIMIT < v < FLOAT_LIMIT
    ensures IsFloat64(y) && AbsReal(y - v as real / 100.0) < 0.0025
  {
    var m := if v > 0 then 0x10_0000_0000_0001 else -0x10_0000_0000_0001;
    FinePowers(m as real);
    GridIsFloat64(m, -7);
    y := m as real / 128.0;
  }

  /** The quotient is off by less than a quarter of a minor unit. */
  lemma QuotientError(v: int, fl: real -> real)
    requires -FLOAT_LIMIT < v < FLOAT_LIMIT && NearestAt(fl, v as real / 100.0)
    ensures AbsReal(MinorUnitsToAmount(v, fl) * 100.0 - v as real) < 0.25
  {
    var x := v as real / 100.0;
    var y: real;
    if AbsReal(x) <= TWO45 {
      y := NearGrid(x);
    } else {
      y := NearGridAbove(v);
    }
    NearestBeats(fl, x, y);
  }

  /** In float64 arithmetic every amount below 100 * 2^45 + 2 comes back unchanged. */
  lemma Float64RoundTrip(v: int, fl: real -> real)
    requires -FLOAT_LIMIT < v < FLOAT_LIMIT && Float64(v, fl)
    ensures Returned(v, fl) == v
  {
    var x := MinorUnitsToAmount(v, fl) * 100.0;
    QuotientError(v, fl);
    IntegerIsFloat64(v);
    NearestBeats(fl, x, v as real);
    RoundsToNearest(v, fl(x));
  }

  // ------------------------------------------------------------ exactly which amounts come back

  /** x is delivered as IEEE 754 arithmetic does by default: nearest, and ties to even. */
  ghost predicate IeeeAt(fl: real -> real, x: real) {
    NearestAt(fl, x) && TiesToEvenAt(fl, x)
  }

  /** The two operations on v are those of IEEE 754 arithmetic. */
  ghost predicate Ieee(v: int, fl: real -> real) {
    IeeeAt(fl, v as real / 100.0) && IeeeAt(fl, MinorUnitsToAmount(v, fl) * 100.0)
  }

  const CENTS45: int := 3518437208883200
  const CENTS46: int := 7036874417766400
  const TWO52: int := 0x10_0000_0000_0000

  /** How far v * c / 25 is from the nearest whole number, in 25ths, upwards. */
  function Offset(c: int, v: int): (e: int)
    ensures -12 <= e <= 12
  {
    var r := c * v % 25;
    if r <= 12 then -r else 25 - r
  }

  function NearestUnit(c: int, v: int): (n: int)
    ensures 25 * n == c * v + Offset(c, v)
  {
    (c * v + 12) / 25
  }

  /** Between 100 * 2^45 and 100 * 2^46 the quotient is a multiple of 2^-7. */
  lemma QuotientOf32(v: int, fl: real -> real)
    requires CENTS45 <= v < CENTS46 && NearestAt(fl, v as real / 100.0)
    ensures MinorUnitsToAmount(v, fl) * 100.0 == v as real + Offset(32, v) as real / 32.0
  {
    var t, n := v as real * 1.28, NearestUnit(32, v);
    FinePowers(t);
    FinePowers(n as real);
    NearestUnits(fl, t, -7, v as real / 100.0, n);
  }

  /** From there to 2^53 it is a multiple of 2^-6. */
  lemma QuotientOf16(v: int, fl: real -> real)
    requires CENTS46 <= v <= TWO53 && NearestAt(fl, v as real / 100.0)
    ensures MinorUnitsToAmount(v, fl) * 100.0 == v as real + Offset(16, v) as real / 16.0
  {
    var t, n := v as real * 0.64, NearestUnit(16, v);
    FinePowers(t);
    FinePowers(n as real);
    NearestUnits(fl, t, -6, v as real / 100.0, n);
  }

  /** Below 2^52 the product is a multiple of one half. */
  lemma ProductInHalves(v: int, fl: real -> real, e: int, x: real)
    requires CENTS45 <= v < TWO52 && -12 <= e <= 12 && x == v as real + e as real / 32.0
    requires NearestAt(fl, x) && (e == 8 || e == -8 ==> TiesToEvenAt(fl, x))
    ensures RoundHalfAway(fl(x)) == if e > 8 then v + 1 else v
  {
    var t := 2.0 * v as real + e as real / 16.0;
    if e == 8 {
      TiedHalves(v, fl, t, x, 2 * v);
    } else if e == -8 {
      TiedHalves(v, fl, t, x, 2 * v - 1);
    } else {
      NearestHalves(v, fl, t, x, if e > 8 then 2 * v + 1 else if e < -8 then 2 * v - 1 else 2 * v);
    }
  }

  lemma NearestHalves(v: int, fl: real -> real, t: real, x: real, n: int)
    requires InBinade(t, -1) && x == t / 2.0 && NearestAt(fl, x)
    requires AbsReal(n as real - t) < 0.5 && 2 * v - 1 <= n <= 2 * v + 1 && 0 < n <= TWO53
    ensures RoundHalfAway(fl(x)) == if n > 2 * v then v + 1 else v
  {
    FinePowers(t);
    FinePowers(n as real);
    NearestUnits(fl, t, -1, x, n);
    HalfRounds(v, n);
  }

  lemma HalfRounds(v: int, n: int)
    requires 2 * v - 1 <= n <= 2 * v + 1 && n > 0
    ensures RoundHalfAway(n as real / 2.0) == if n > 2 * v then v + 1 else v
  {
    assert n == 2 * v - 1 || n == 2 * v || n == 2 * v + 1;
  }

  /** A tie next to v goes to v, which is an even number of halves. */
  lemma TiedHalves(v: int, fl: real -> real, t: real, x: real, n: int)
    requires InBinade(t, -1) && x == t / 2.0 && NearestAt(fl, x) && TiesToEvenAt(fl, x)
    requires t == n as real + 0.5 && (n == 2 * v || n == 2 * v - 1) && 0 < n < TWO53
    ensures RoundHalfAway(fl(x)) == v
  {
    FinePowers(t);
    FinePowers((2 * v) as real);
    TiedUnits(fl, t, -1, x, n);
    HalfRounds(v, 2 * v);
  }

  /** The whole number nearest to v + d, and of two equally near ones the even one. */
  function NearestWhole(v: int, d: real): int {
    if d > 0.5 || (d == 0.5 && v % 2 == 1) then v + 1
    else if d < -0.5 || (d == -0.5 && v % 2 == 1) then v - 1
    else v
  }

  /** Between 2^52 and 2^53 the product is a whole number. */
  lemma ProductInWholes(v: int, fl: real -> real, d: real, x: real)
    requires TWO52 <= v < TWO53 && -1.0 < d < 1.0 && (v == TWO52 ==> d >= 0.0) && x == v as real + d
    requires NearestAt(fl, x) && TiesToEvenAt(fl, x)
    ensures RoundHalfAway(fl(x)) == NearestWhole(v, d)
  {
    if d == 0.5 {
      TiedUnits(fl, x, 0, x, v);
    } else if d == -0.5 {
      TiedUnits(fl, x, 0, x, v - 1);
    } else {
      NearestUnits(fl, x, 0, x, NearestWhole(v, d));
    }
  }

  lemma ProductAtTop(fl: real -> real, x: real)
    requires TWO53 as real <= x < TWO53 as real + 1.0 && NearestAt(fl, x)
    ensures RoundHalfAway(fl(x)) == TWO53
  {
    FinePowers(x / 2.0);
    FinePowers(TWO52 as real);
    NearestUnits(fl, x / 2.0, 1, x, TWO52);
  }

  /** By how much float64 arithmetic changes the amount v. */
  function ShiftUp(v: nat): int {
    if v < CENTS45 then 0
    else if v < TWO52 then if 13 <= 32 * v % 25 <= 16 then 1 else 0
    else if v < CENTS46 then 0
    else
      var r := 16 * v % 25;
      if 13 <= r <= 16 || (r == 17 && v % 2 == 1) then 1
      else if 9 <= r <= 12 || (r == 8 && v % 2 == 1) then -1
      else 0
  }

  function Shift(v: int): int {
    if v < 0 then -ShiftUp(-v) else ShiftUp(v)
  }

  lemma ReturnedBelow2To52(v: int, fl: real -> real)
    requires CENTS45 <= v < TWO52 && Ieee(v, fl)
    ensures Returned(v, fl) == v + ShiftUp(v)
  {
    QuotientOf32(v, fl);
    ProductInHalves(v, fl, Offset(32, v), MinorUnitsToAmount(v, fl) * 100.0);
  }

  lemma ReturnedFrom2To52(v: int, fl: real -> real)
    requires TWO52 <= v < CENTS46 && Ieee(v, fl)
    ensures Returned(v, fl) == v
  {
    QuotientOf32(v, fl);
    ProductInWholes(v, fl, Offset(32, v) as real / 32.0, MinorUnitsToAmount(v, fl) * 100.0);
  }

  lemma ReturnedAbove(v: int, fl: real -> real)
    requires CENTS46 <= v <= TWO53 && Ieee(v, fl)
    ensures Returned(v, fl) == v + ShiftUp(v)
  {
    var x := MinorUnitsToAmount(v, fl) * 100.0;
    QuotientOf16(v, fl);
    ProductAbove(v, fl, Offset(16, v), x);
    ShiftIsNearestWhole(v);
  }

  lemma ProductAbove(v: int, fl: real -> real, e: int, x: real)
    requires CENTS46 <= v <= TWO53 && e == Offset(16, v) && x == v as real + e as real / 16.0
    requires NearestAt(fl, x) && TiesToEvenAt(fl, x)
    ensures RoundHalfAway(fl(x)) == NearestWhole(v, e as real / 16.0)
  {
    if v == TWO53 {
      assert Offset(16, TWO53) == 3;
      ProductAtTop(fl, x);
    } else {
      ProductInWholes(v, fl, e as real / 16.0, x);
    }
  }

  lemma ShiftIsNearestWhole(v: int)
    requires CENTS46 <= v <= TWO53
    ensures NearestWhole(v, Offset(16, v) as real / 16.0) == v + ShiftUp(v)
  {
  }

  lemma ReturnedUp(v: nat, fl: real -> real)
    requires v <= TWO53 && Ieee(v, fl)
    ensures Returned(v, fl) == v + ShiftUp(v)
  {
    if v < CENTS45 {
      Float64RoundTrip(v, fl);
    } else if v < TWO52 {
      ReturnedBelow2To52(v, fl);
    } else if v < CENTS46 {
      ReturnedFrom2To52(v, fl);
    } else {
      ReturnedAbove(v, fl);
    }
  }

  // ------------------------------------------------------------ negative amounts

  function Mirrored(fl: real -> real): real -> real {
    x => -fl(-x)
  }

  lemma NegatedIsScaled(x: real, m: int, e: int)
    requires IsScaled(x, m, e)
    ensures IsScaled(-x, -m, e)
  {
    ScaledDifference(0.0, m as real, e);
    ScaledZero(e);
    assert (-m) as real == 0.0 - m as real;
  }

  lemma NegatedIsFloat64(x: real)
    requires IsFloat64(x)
    ensures IsFloat64(-x)
  {
    var m: int, e: int :| -TWO53 < m < TWO53 && -1074 <= e <= 971 && IsScaled(x, m, e);
    NegatedIsScaled(x, m, e);
  }

  lemma NegatedIsEven(x: real)
    requires EvenSignificand(x)
    ensures EvenSignificand(-x)
  {
    var m: int, e: int :| -TWO53 < m < TWO53 && -1074 <= e <= 971 && IsScaled(x, m, e)
                          && Normalised(m, e) && m % 2 == 0;
    NegatedIsScaled(x, m, e);
    assert Normalised(-m, e) && -m % 2 == 0;
  }

  lemma MirroredNearest(fl: real -> real, x: real, z: real)
    requires NearestAt(fl, x) && z == -x
    ensures NearestAt(Mirrored(fl), z)
  {
    NegatedIsFloat64(fl(x));
    forall y | IsFloat64(y)
      ensures AbsReal(-fl(x) - z) <= AbsReal(y - z)
    {
      NegatedIsFloat64(y);
      NearestBeats(fl, x, -y);
    }
  }

  lemma MirroredTies(fl: real -> real, x: real, z: real)
    requires TiesToEvenAt(fl, x) && z == -x
    ensures TiesToEvenAt(Mirrored(fl), z)
  {
    var a := fl(x);
    forall y | IsFloat64(y) && y != -a && AbsReal(y - z) == AbsReal(-a - z)
      ensures EvenSignificand(-a)
    {
      NegatedIsFloat64(y);
      assert -y != a && AbsReal(-y - x) == AbsReal(a - x);
      NegatedIsEven(a);
    }
  }

  /** Both operations on -v under the mirrored arithmetic are the negated ones on v. */
  lemma MirroredSteps(v: int, fl: real -> real)
    ensures (-v) as real / 100.0 == -(v as real / 100.0)
    ensures MinorUnitsToAmount(-v, Mirrored(fl)) * 100.0 == -(MinorUnitsToAmount(v, fl) * 100.0)
  {
  }

  lemma MirroredReturns(v: int, fl: real -> real)
    ensures Returned(-v, Mirrored(fl)) == -Returned(v, fl)
  {
    MirroredSteps(v, fl);
  }

  lemma MirroredAt(fl: real -> real, x: real, z: real)
    requires IeeeAt(fl, x) && z == -x
    ensures IeeeAt(Mirrored(fl), z)
  {
    MirroredNearest(fl, x, z);
    MirroredTies(fl, x, z);
  }

  lemma MirroredIeee(v: int, fl: real -> real)
    requires Ieee(v, fl)
    ensures Ieee(-v, Mirrored(fl))
  {
    MirroredSteps(v, fl);
    MirroredAt(fl, v as real / 100.0, (-v) as real / 100.0);
    MirroredAt(fl, MinorUnitsToAmount(v, fl) * 100.0, MinorUnitsToAmount(-v, Mirrored(fl)) * 100.0);
  }

  lemma ReturnedDown(v: int, fl: real -> real)
    requires -TWO53 <= v < 0 && Ieee(v, fl)
    ensures Returned(v, fl) == v - ShiftUp(-v)
  {
    MirroredReturns(v, fl);
    MirroredUp(v, fl);
  }

  lemma MirroredUp(v: int, fl: real -> real)
    requires -TWO53 <= v < 0 && Ieee(v, fl)
    ensures Returned(-v, Mirrored(fl)) == -v + ShiftUp(-v)
  {
    var up: nat, mirrored := -v, Mirrored(fl);
    MirroredIeee(v, fl);
    ReturnedUp(up, mirrored);
  }

  /**
   * What IEEE 754 arithmetic makes of every amount whose float64 is exact: it comes back unchanged if
   * and only if its shift is 0, and off by that one minor unit otherwise.
   */
  lemma ReturnedIsShifted(v: int, fl: real -> real)
    requires -TWO53 <= v <= TWO53 && Ieee(v, fl)
    ensures Returned(v, fl) == v + Shift(v)
    ensures Returned(v, fl) == v <==> Shift(v) == 0
  {
    if v < 0 {
      ReturnedDown(v, fl);
    } else {
      ReturnedUp(v, fl);
    }
  }

  /** The first amount that changes does so however the arithmetic breaks ties. */
  lemma Float64LimitIsSharp(fl: real -> real)
    requires Float64(FLOAT_LIMIT, fl)
    ensures Returned(FLOAT_LIMIT, fl) == FLOAT_LIMIT + 1
  {
    QuotientOf32(FLOAT_LIMIT, fl);
    assert Offset(32, FLOAT_LIMIT) == 11;
    ProductInHalves(FLOAT_LIMIT, fl, 11, MinorUnitsToAmount(FLOAT_LIMIT, fl) * 100.0);
  }

  // ------------------------------------------------------------ what the codec needs

  /** Each of these is enough for an amount to come back. */
  ghost predicate Carries(v: int, fl: real -> real) {
    || (-TWO51 < v < TWO51 && Accurate(v, fl))
    || (-FLOAT_LIMIT < v < FLOAT_LIMIT && Float64(v, fl))
    || (-TWO53 <= v <= TWO53 && Ieee(v, fl) && Shift(v) == 0)
  }

  lemma CarriedAmount(v: int, fl: real -> real)
    requires Carries(v, fl)
    ensures Returned(v, fl) == v
  {
    if -TWO51 < v < TWO51 && Accurate(v, fl) {
      AmountRoundTrip(v, fl);
    } else if -FLOAT_LIMIT < v < FLOAT_LIMIT && Float64(v, fl) {
      Float64RoundTrip(v, fl);
    } else {
      ReturnedIsShifted(v, fl);
    }
  }
}

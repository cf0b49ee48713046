/** Volume sizes: how a requested number of bytes becomes a number of MiB.

    CreateVolume goes through IEEE 754 binary64 (conversion from int64 with roundTiesToEven,
    division, ceil); ControllerExpandVolume divides the integers first, so that its ceil
    has nothing left to round. Both are modelled over exact integers, and the binary64
    conversion is proved to be the correctly rounded one. */
module VolumeSizes {
  const MIB: int := 0x10_0000
  const GIB: int := 0x4000_0000
  const TWO_TO_53: int := 0x20_0000_0000_0000
  const TWO_TO_63: int := 0x8000_0000_0000_0000

  /** The fraction of binary64: `m` is the signed significand, and the value is m * 2^e. */
  datatype Double = Double(m: int, e: int)

  function Abs(x: int): nat {
    if x < 0 then -x else x
  }

  function Pow2(n: nat): (p: nat)
    ensures p >= 1
  {
    if n == 0 then 1 else 2 * Pow2(n - 1)
  }

  function CeilDiv(a: int, n: int): int
    requires n > 0
  {
    -((-a) / n)
  }

  /** Go's integer division, which truncates toward zero. */
  function TruncDiv(a: int, n: int): int
    requires n > 0
  {
    if a >= 0 then a / n else -((-a) / n)
  }

  /** Two's complement wrap-around of int64. */
  function Wrap64(x: int): int {
    (x + TWO_TO_63) % (2 * TWO_TO_63) - TWO_TO_63
  }

  /** The finite binary64 values (section 3.3 of IEEE 754-2019). */
  ghost predicate IsBinary64(d: Double) {
    && -TWO_TO_53 < d.m < TWO_TO_53
    && -1074 <= d.e <= 971
  }

  ghost function Value(d: Double): real {
    if d.e >= 0 then (d.m * Pow2(d.e)) as real else d.m as real / Pow2(-d.e) as real
  }

  /** How many low bits of `a` do not fit in a 53-bit significand. */
  function Shift(a: nat): nat {
    if a < TWO_TO_53 then 0 else 1 + Shift(a / 2)
  }

  /** a / u rounded to the nearest integer, a tie going to the even one. */
  function RoundHalfEven(a: nat, u: nat): nat
    requires u >= 1
  {
    var q, r := a / u, a % u;
    if 2 * r < u || (2 * r == u && q % 2 == 0) then q else q + 1
  }

  /** float64(a) for a >= 0: a significand that rounds up to 2^53 is renormalised. */
  function FromNat(a: nat): Double {
    var k := Shift(a);
    var m := RoundHalfEven(a, Pow2(k));
    if m == TWO_TO_53 then Double(TWO_TO_53 / 2, k + 1) else Double(m, k)
  }

  /** float64(b) */
  function FromInt64(b: int): Double {
    var d := FromNat(Abs(b));
    if b < 0 then Double(-d.m, d.e) else d
  }

  /** Division by float64(MbToBytes), a power of two: only the exponent moves. */
  function DivideByMib(d: Double): Double {
    Double(d.m, d.e - 20)
  }

  /** int64(math.Ceil(d)) */
  function CeilOf(d: Double): int {
    if d.e >= 0 then d.m * Pow2(d.e) else CeilDiv(d.m, Pow2(-d.e))
  }

  /** The size CreateVolume asks for; no capacity range, or one of zero bytes, means 1 GiB. */
  function RequestedBytes(requiredBytes: int): int {
    if requiredBytes == 0 then GIB else requiredBytes
  }

  function CreateSizeMb(requiredBytes: int): int {
    CeilOf(DivideByMib(FromInt64(RequestedBytes(requiredBytes))))
  }

  function CreateCapacity(requiredBytes: int): int {
    Wrap64(CreateSizeMb(requiredBytes) * MIB)
  }

  function ExpandSizeMb(requiredBytes: int): int {
    TruncDiv(requiredBytes, MIB)
  }

  function ExpandCapacity(requiredBytes: int): int {
    Wrap64(ExpandSizeMb(requiredBytes) * MIB)
  }

  // ----- powers of two and the shift -----

  lemma {:induction false} Pow2Add(a: nat, b: nat)
    ensures Pow2(a + b) == Pow2(a) * Pow2(b)
  {
    if a > 0 {
      Pow2Add(a - 1, b);
    }
  }

  lemma {:induction false} Pow2Monotone(a: nat, b: nat)
    requires a <= b
    ensures Pow2(a) <= Pow2(b)
  {
    if a < b {
      Pow2Monotone(a, b - 1);
    }
  }

  lemma {:induction false} ShiftBounds(a: nat)
    ensures a < TWO_TO_53 * Pow2(Shift(a))
    ensures Shift(a) > 0 ==> a >= TWO_TO_53 / 2 * Pow2(Shift(a))
  {
    if a >= TWO_TO_53 {
      ShiftBounds(a / 2);
    }
  }

  lemma {:induction false} ShiftAtMost(a: nat, k: nat)
    requires a < TWO_TO_53 * Pow2(k)
    ensures Shift(a) <= k
  {
    if a >= TWO_TO_53 {
      ShiftAtMost(a / 2, k - 1);
    }
  }

  /** An int64 loses at most ten bits, an eleventh only at -2^63. */
  lemma ShiftOfInt64(a: nat)
    requires a <= TWO_TO_63
    ensures Shift(a) <= 11
    ensures a < TWO_TO_63 ==> Shift(a) <= 10
    ensures Pow2(10) == 1024 && Pow2(11) == 2048
  {
    Pow2Concrete();
    ShiftAtMost(a, 11);
    if a < TWO_TO_63 {
      ShiftAtMost(a, 10);
    }
  }

  lemma Pow2Concrete()
    ensures Pow2(4) == 16 && Pow2(8) == 256 && Pow2(10) == 1024 && Pow2(11) == 2048
    ensures Pow2(20) == MIB
  {
    assert Pow2(4) == 16;
    Pow2Add(4, 4);
    Pow2Add(8, 2);
    Pow2Add(10, 1);
    Pow2Add(10, 10);
  }

  // ----- the conversion is the correctly rounded one -----

  ghost function Distance(x: real, y: real): real {
    if x < y then y - x else x - y
  }

  /** The integer that float64(b) stands for. */
  function Rounded(b: int): int {
    var d := FromInt64(b);
    if d.e >= 0 then d.m * Pow2(d.e) else 0
  }

  lemma MulMonotone(x: int, y: int, u: nat)
    requires x <= y
    ensures x * u <= y * u
  {
  }

  lemma Division(a: nat, u: nat)
    requires u >= 1
    ensures a == a / u * u + a % u && 0 <= a % u < u
  {
  }

  /** RoundHalfEven picks the nearest multiple, and on a tie the even one. */
  lemma {:induction false} NearestMultiple(a: nat, u: nat, j: int)
    requires u >= 1
    ensures var n := RoundHalfEven(a, u);
            && Abs(a - n * u) <= Abs(a - j * u)
            && 2 * Abs(a - n * u) <= u
            && (Abs(a - n * u) == Abs(a - j * u) && n != j ==> n % 2 == 0)
            && (n == a / u || n == a / u + 1)
  {
    var q, r := a / u, a % u;
    Division(a, u);
    NearestGivenQuotient(a, u, j, q, r);
  }

  lemma {:induction false} NearestGivenQuotient(a: nat, u: nat, j: int, q: nat, r: nat)
    requires u >= 1 && r < u && a == q * u + r
    ensures var n := if 2 * r < u || (2 * r == u && q % 2 == 0) then q else q + 1;
            && Abs(a - n * u) <= Abs(a - j * u)
            && 2 * Abs(a - n * u) <= u
            && (Abs(a - n * u) == Abs(a - j * u) && n != j ==> n % 2 == 0)
  {
    assert (q + 1) * u == q * u + u;
    var below, above := q * u, q * u + u;
    var y := j * u;
    if j < q {
      MulMonotone(j, q - 1, u);
      assert (q - 1) * u == below - u;
    } else if j > q + 1 {
      MulMonotone(q + 2, j, u);
      assert (q + 2) * u == above + u;
    }
  }

  /** 2^63 is a power of two, and does not round up. */
  lemma RoundsUpBelowTheTop(a: nat)
    requires a <= TWO_TO_63 && RoundHalfEven(a, Pow2(Shift(a))) == TWO_TO_53
    ensures Shift(a) <= 10
  {
    ShiftOfInt64(a);
    assert RoundHalfEven(TWO_TO_63, 2048) == TWO_TO_63 / 2048;
  }

  lemma Renormalised(k: nat)
    ensures TWO_TO_53 / 2 * Pow2(k + 1) == TWO_TO_53 * Pow2(k)
  {
  }

  /** What float64(a) is, in one piece: the significand fits, and it stands for `a` rounded to
      a multiple of the unit in the last place. */
  lemma {:induction false} FromNatShape(a: nat)
    requires a <= TWO_TO_63
    ensures var d, k, n := FromNat(a), Shift(a), RoundHalfEven(a, Pow2(Shift(a)));
            && 0 <= d.m < TWO_TO_53 && 0 <= d.e <= 11
            && d.m * Pow2(d.e) == n * Pow2(k)
            && d.m % 2 == n % 2
            && (k == 0 ==> n == a)
  {
    var k := Shift(a);
    var u := Pow2(k);
    ShiftBounds(a);
    ShiftOfInt64(a);
    QuotientBelow(a, u, TWO_TO_53);
    var n := RoundHalfEven(a, u);
    assert n <= TWO_TO_53;
    if n == TWO_TO_53 {
      RoundsUpBelowTheTop(a);
      Renormalised(k);
    }
  }

  lemma {:induction false} FromInt64Shape(b: int)
    requires Abs(b) <= TWO_TO_63
    ensures var d, k, n := FromInt64(b), Shift(Abs(b)), RoundHalfEven(Abs(b), Pow2(Shift(Abs(b))));
            && IsBinary64(d) && 0 <= d.e <= 11
            && Value(d) == Rounded(b) as real
            && Rounded(b) == (if b < 0 then -(n * Pow2(k)) else n * Pow2(k))
            && d.m % 2 == n % 2
            && (k == 0 ==> Rounded(b) == b)
  {
    FromNatShape(Abs(b));
    WithSign(FromNat(Abs(b)), b < 0);
  }

  lemma {:induction false} WithSign(d: Double, negative: bool)
    requires 0 <= d.m < TWO_TO_53 && 0 <= d.e <= 11
    ensures var f := if negative then Double(-d.m, d.e) else d;
            && IsBinary64(f)
            && Value(f) == (f.m * Pow2(f.e)) as real
            && f.m * Pow2(f.e) == (if negative then -(d.m * Pow2(d.e)) else d.m * Pow2(d.e))
            && f.m % 2 == d.m % 2
  {
    if negative {
      NegatedProduct(d.m, Pow2(d.e));
      NegatedParity(d.m);
    }
  }

  lemma NegatedParity(x: int)
    ensures (-x) % 2 == x % 2
  {
  }

  lemma NegatedProduct(x: int, y: int)
    ensures (-x) * y == -(x * y)
  {
  }

  lemma {:induction false} QuotientBelow(a: nat, u: nat, n: nat)
    requires u >= 1 && a < n * u
    ensures a / u < n
  {
    Division(a, u);
    if a / u >= n {
      MulMonotone(n, a / u, u);
    }
  }

  lemma {:induction false} QuotientAtLeast(a: nat, u: nat, n: nat)
    requires u >= 1 && a >= n * u
    ensures a / u >= n && a / u * u >= n * u
  {
    Division(a, u);
    var q := a / u;
    assert (q + 1) * u == q * u + u;
    if q < n {
      MulMonotone(q + 1, n, u);
    }
    MulMonotone(n, q, u);
  }

  /** A binary64 value with an exponent below k is smaller than 2^53 * 2^(k-1). */
  lemma {:induction false} SmallExponent(k: nat, d: Double)
    requires k > 0 && IsBinary64(d) && d.e < k
    ensures Value(d) < (TWO_TO_53 * Pow2(k - 1)) as real
  {
    if d.e >= 0 {
      Pow2Monotone(d.e, k - 1);
      SmallProduct(d.m, Pow2(d.e), Pow2(k - 1));
    } else {
      SmallFraction(d.m as real, Pow2(-d.e) as real, TWO_TO_53 as real);
    }
  }

  lemma SmallProduct(m: int, p: nat, q: nat)
    requires m < TWO_TO_53 && 1 <= p <= q
    ensures m * p < TWO_TO_53 * q
  {
    MulMonotone(m, TWO_TO_53 - 1, p);
  }

  lemma SmallFraction(x: real, p: real, bound: real)
    requires p >= 1.0 && x < bound && bound > 0.0
    ensures x / p < bound
  {
    if x > 0.0 {
      assert x / p <= x;
    }
  }

  /** Candidates whose exponent reaches the shift are multiples of the same unit. */
  lemma {:induction false} NearestOnGrid(b: nat, d: Double)
    requires d.e >= Shift(b)
    ensures var x, n := RoundHalfEven(b, Pow2(Shift(b))) * Pow2(Shift(b)), RoundHalfEven(b, Pow2(Shift(b)));
            && Abs(b - x) <= Abs(b - d.m * Pow2(d.e))
            && (Abs(b - x) == Abs(b - d.m * Pow2(d.e)) && x != d.m * Pow2(d.e) ==> n % 2 == 0)
  {
    var k := Shift(b);
    var j := d.m * Pow2(d.e - k);
    Pow2Add(d.e - k, k);
    MulAssociates(d.m, Pow2(d.e - k), Pow2(k));
    NearestMultiple(b, Pow2(k), j);
  }

  /** The others lie strictly further away than the multiple just below. */
  lemma {:induction false} NearestOffGrid(b: nat, d: Double)
    requires Shift(b) > 0 && IsBinary64(d) && d.e < Shift(b)
    ensures var x := RoundHalfEven(b, Pow2(Shift(b))) * Pow2(Shift(b));
            Value(d) < (b - Abs(b - x)) as real
  {
    var k := Shift(b);
    var u := Pow2(k);
    SmallExponent(k, d);
    ShiftBounds(b);
    var half := TWO_TO_53 / 2;
    assert half * u == TWO_TO_53 * Pow2(k - 1);
    QuotientAtLeast(b, u, half);
    NearestMultiple(b, u, b / u);
    Division(b, u);
  }

  lemma {:induction false} NearestForNonNegative(b: nat, d: Double)
    requires b <= TWO_TO_63 && IsBinary64(d)
    ensures Distance(b as real, Rounded(b) as real) <= Distance(b as real, Value(d))
    ensures Distance(b as real, Rounded(b) as real) == Distance(b as real, Value(d)) && Value(d) != Rounded(b) as real
            ==> FromInt64(b).m % 2 == 0
  {
    FromInt64Shape(b);
    if Shift(b) > 0 {
      if d.e >= Shift(b) {
        NearestOnGrid(b, d);
      } else {
        NearestOffGrid(b, d);
      }
    }
  }

  lemma MulAssociates(x: int, y: int, z: int)
    ensures x * (y * z) == (x * y) * z
  {
  }

  lemma {:induction false} ConversionBySign(a: int)
    requires 0 < a <= TWO_TO_63
    ensures var f := FromNat(a);
            && f.e >= 0 && FromInt64(a) == f && FromInt64(-a) == Double(-f.m, f.e)
            && Rounded(a) == f.m * Pow2(f.e) && Rounded(-a) == -(f.m * Pow2(f.e))
  {
    FromNatShape(a);
    NegatedProduct(FromNat(a).m, Pow2(FromNat(a).e));
  }

  lemma {:induction false} ConversionMirrors(b: int)
    requires 0 < Abs(b) <= TWO_TO_63
    ensures Rounded(-b) == -Rounded(b) && FromInt64(-b).m == -FromInt64(b).m
  {
    ConversionBySign(Abs(b));
  }

  lemma {:induction false} ValueMirrors(d: Double)
    ensures Value(Double(-d.m, d.e)) == -Value(d)
  {
    if d.e >= 0 {
      NegatedProduct(d.m, Pow2(d.e));
    } else {
      NegatedQuotient(d.m as real, Pow2(-d.e) as real);
    }
  }

  lemma NegatedQuotient(x: real, p: real)
    requires p != 0.0
    ensures (-x) / p == -(x / p)
  {
  }

  lemma DistanceMirrors(x: real, y: real)
    ensures Distance(-x, -y) == Distance(x, y)
  {
  }

  lemma ParityMirrors(m: int)
    ensures (-m) % 2 == m % 2
  {
  }

  /** The mirror image of NearestForNonNegative. */
  lemma {:induction false} NearestForNegative(b: int, d: Double)
    requires -TWO_TO_63 <= b < 0 && IsBinary64(d)
    ensures Distance(b as real, Rounded(b) as real) <= Distance(b as real, Value(d))
    ensures Distance(b as real, Rounded(b) as real) == Distance(b as real, Value(d)) && Value(d) != Rounded(b) as real
            ==> FromInt64(b).m % 2 == 0
  {
    var mirrored := Double(-d.m, d.e);
    ConversionMirrors(b);
    ValueMirrors(d);
    NearestForNonNegative(-b, mirrored);
    DistanceMirrors(b as real, Rounded(b) as real);
    DistanceMirrors(b as real, Value(d));
    ParityMirrors(FromInt64(b).m);
  }

  lemma {:induction false} NearestForAny(b: int, d: Double)
    requires -TWO_TO_63 <= b < TWO_TO_63 && IsBinary64(d)
    ensures Distance(b as real, Rounded(b) as real) <= Distance(b as real, Value(d))
    ensures Distance(b as real, Rounded(b) as real) == Distance(b as real, Value(d)) && Value(d) != Rounded(b) as real
            ==> FromInt64(b).m % 2 == 0
  {
    if b >= 0 {
      NearestForNonNegative(b, d);
    } else {
      NearestForNegative(b, d);
    }
  }

  lemma {:induction false} ConversionValue(b: int)
    requires -TWO_TO_63 <= b < TWO_TO_63
    ensures IsBinary64(FromInt64(b)) && Value(FromInt64(b)) == Rounded(b) as real
  {
    FromInt64Shape(b);
  }

  /** No finite binary64 value is nearer to an int64 than the one the model converts it to,
      and when another is just as near, the model's has the even significand. */
  lemma {:induction false} ConversionIsCorrectlyRounded(b: int, d: Double)
    requires -TWO_TO_63 <= b < TWO_TO_63 && IsBinary64(d)
    ensures IsBinary64(FromInt64(b)) && Value(FromInt64(b)) == Rounded(b) as real
    ensures Distance(b as real, Value(FromInt64(b))) <= Distance(b as real, Value(d))
    ensures Distance(b as real, Value(FromInt64(b))) == Distance(b as real, Value(d)) && Value(d) != Value(FromInt64(b))
            ==> FromInt64(b).m % 2 == 0
  {
    ConversionValue(b);
    NearestForAny(b, d);
  }

  // ----- division by MbToBytes is exact -----

  lemma ShiftedProduct(m: int, p: nat, q: nat)
    requires q >= 1
    ensures (m * (p * q)) as real == (m * p) as real * q as real
  {
    MulAssociates(m, p, q);
    IntegerProduct(m * p, q);
  }

  lemma IntegerProduct(x: int, y: int)
    ensures (x * y) as real == x as real * y as real
  {
  }

  lemma QuotientOfProduct(x: real, y: real, q: real)
    requires q != 0.0 && x == y * q
    ensures x / q == y
  {
  }

  lemma QuotientOfQuotient(x: real, p: real, q: real)
    requires p != 0.0 && q != 0.0 && p * q != 0.0
    ensures x / p / q == x / (p * q)
  {
    var y := x / p / q;
    assert y * q * p == x;
    assert y * (p * q) == y * q * p;
  }

  lemma MixedQuotient(x: int, p: nat, q: nat)
    requires p >= 1 && q >= 1
    ensures (x * p) as real / (p * q) as real == x as real / q as real
  {
    IntegerProduct(x, p);
    IntegerProduct(p, q);
    var y := x as real / q as real;
    assert y * q as real == x as real;
    assert y * (p as real * q as real) == y * q as real * p as real;
  }

  /** Dividing by 2^20 moves the exponent and loses nothing: the quotient is a binary64 value, unless
      it would be subnormal, which no quotient of an integer is. */
  lemma DivisionIsExact(d: Double)
    ensures Value(DivideByMib(d)) == Value(d) / MIB as real
    ensures IsBinary64(d) && d.e >= 20 - 1074 ==> IsBinary64(DivideByMib(d))
  {
    Pow2Concrete();
    if d.e >= 20 {
      Pow2Add(d.e - 20, 20);
      ShiftedProduct(d.m, Pow2(d.e - 20), Pow2(20));
      QuotientOfProduct(Value(d), Value(DivideByMib(d)), MIB as real);
    } else if d.e >= 0 {
      Pow2Add(d.e, 20 - d.e);
      MixedQuotient(d.m, Pow2(d.e), Pow2(20 - d.e));
    } else {
      Pow2Add(-d.e, 20);
      IntegerProduct(Pow2(-d.e), Pow2(20));
      QuotientOfQuotient(d.m as real, Pow2(-d.e) as real, MIB as real);
    }
  }

  // ----- what the rounding means for a volume -----

  lemma {:induction false} CeilDivUnique(a: int, n: int, c: int)
    requires n > 0 && (c - 1) * n < a <= c * n
    ensures CeilDiv(a, n) == c
  {
    var q := (-a) / n;
    assert q * n <= -a < q * n + n;
    assert (c - 1) * n == c * n - n;
    if -q > c {
      MulMonotone(c + 1, -q, n);
      assert (c + 1) * n == c * n + n;
      NegatedProduct(q, n);
    } else if -q < c {
      MulMonotone(-q, c - 1, n);
      NegatedProduct(q, n);
    }
  }

  lemma {:induction false} CeilDivBounds(a: int, n: int)
    requires n > 0
    ensures (CeilDiv(a, n) - 1) * n < a <= CeilDiv(a, n) * n
  {
    var q := (-a) / n;
    assert q * n <= -a < q * n + n;
    NegatedProduct(q, n);
    assert (-q - 1) * n == (-q) * n - n;
  }

  /** Dividing by 2^20 in binary64 is exact, so only the conversion rounds. */
  lemma {:induction false} CreateSizeIsCeilOfRounded(b: int)
    requires -TWO_TO_63 <= b < TWO_TO_63 && b != 0
    ensures CreateSizeMb(b) == CeilDiv(Rounded(b), MIB)
  {
    FromInt64Shape(b);
    var d := FromInt64(b);
    Pow2Concrete();
    Pow2Add(20 - d.e, d.e);
    CancelFactor(d.m, Pow2(20 - d.e), Pow2(d.e));
  }

  lemma {:induction false} CancelFactor(m: int, q: nat, p: nat)
    requires q >= 1 && p >= 1
    ensures q * p >= 1 && CeilDiv(m * p, q * p) == CeilDiv(m, q)
  {
    var c := CeilDiv(m, q);
    CeilDivBounds(m, q);
    MulMonotone(1, q, p);
    StrictMul((c - 1) * q, m, p);
    MulMonotone(m, c * q, p);
    MulAssociates(c - 1, q, p);
    MulAssociates(c, q, p);
    CeilDivUnique(m * p, q * p, c);
  }

  lemma StrictMul(x: int, y: int, p: nat)
    requires x < y && p >= 1
    ensures x * p < y * p
  {
  }

  /** The exact size of a created volume: rounded up to a whole MiB, except that a remainder of
      at most half a binary64 unit is lost in the conversion. */
  lemma {:induction false} CreateSizeFormula(b: int)
    requires 1 <= b < TWO_TO_63
    ensures CreateSizeMb(b)
            == b / MIB + (if b % MIB == 0 || (b >= TWO_TO_53 && 2 * (b % MIB) <= Pow2(Shift(b))) then 0 else 1)
  {
    CreateSizeIsCeilOfRounded(b);
    FromInt64Shape(b);
    var t, r := b / MIB, b % MIB;
    if b < TWO_TO_53 {
      CeilDivUnique(b, MIB, if r == 0 then t else t + 1);
    } else {
      var v := UnitsPerMib(b);
      var z := RoundedRemainder(b, t, r, Pow2(Shift(b)), v);
      CeilDivUnique(Rounded(b), MIB, if z == 0 then t else t + 1);
    }
  }

  /** The binary64 unit at `b` and the number of such units in a MiB are both even. */
  lemma {:induction false} UnitsPerMib(b: nat) returns (v: nat)
    requires TWO_TO_53 <= b < TWO_TO_63
    ensures MIB == Pow2(Shift(b)) * v && Pow2(Shift(b)) % 2 == 0 && v % 2 == 0
  {
    ShiftOfInt64(b);
    Pow2Concrete();
    var k := Shift(b);
    Pow2Add(k, 20 - k);
    v := Pow2(20 - k);
    assert v == 2 * Pow2(19 - k);
    assert Pow2(k) == 2 * Pow2(k - 1);
  }

  /** Where a number with `t` whole MiBs and a remainder of s units and w lies on the grid of units. */
  lemma {:induction false} GridQuotient(b: nat, t: nat, s: nat, w: nat, u: nat, v: nat)
    requires MIB == u * v && w < u && b == t * MIB + (s * u + w)
    ensures b / u == t * v + s && b % u == w && (t * v + s) * u == t * MIB + s * u
  {
    GridPosition(t, s, u, v);
    EqualFactor(t, u * v, MIB);
    QuotientUnique(b, u, t * v + s, w);
  }

  lemma EqualFactor(t: int, x: int, y: int)
    requires x == y
    ensures t * x == t * y
  {
  }

  lemma EvenDoesNotMatter(x: nat, s: nat)
    requires x % 2 == 0
    ensures (x + s) % 2 == s % 2
  {
  }

  /** Rounding on the grid, in terms of products already multiplied out. */
  lemma RoundsOnGrid(b: nat, u: nat, q: nat, s: nat, w: nat, whole: int, su: int)
    requires u >= 1 && b / u == q && b % u == w && q % 2 == s % 2
    requires q * u == whole + su
    ensures RoundHalfEven(b, u) * u == whole + (if 2 * w < u || (2 * w == u && s % 2 == 0) then su else su + u)
  {
    NextMultiple(q, u);
  }

  /** Above 2^53, rounding keeps the whole MiBs and rounds the remainder within one MiB. */
  lemma {:induction false} RoundedRemainder(b: nat, t: nat, r: nat, u: nat, v: nat) returns (z: nat)
    requires b == t * MIB + r && r < MIB && MIB == u * v && u >= 1 && v % 2 == 0
    ensures RoundHalfEven(b, u) * u == t * MIB + z && z <= MIB
    ensures z == 0 <==> 2 * r <= u
  {
    Division(r, u);
    QuotientBelow(r, u, v);
    z := RoundedAt(b, t, r / u, r % u, u, v);
  }

  lemma {:induction false} RoundedAt(b: nat, t: nat, s: nat, w: nat, u: nat, v: nat) returns (z: nat)
    requires MIB == u * v && u >= 1 && v % 2 == 0 && s < v && w < u && b == t * MIB + (s * u + w)
    ensures RoundHalfEven(b, u) * u == t * MIB + z && z <= MIB
    ensures z == 0 <==> 2 * (s * u + w) <= u
  {
    GridQuotient(b, t, s, w, u, v);
    EvenMultiple(t, v);
    EvenDoesNotMatter(t * v, s);
    RoundsOnGrid(b, u, t * v + s, s, w, t * MIB, s * u);
    RemainderRounds(s, w, u, v);
    z := if 2 * w < u || (2 * w == u && s % 2 == 0) then s * u else s * u + u;
  }

  lemma NextMultiple(q: int, u: int)
    ensures (q + 1) * u == q * u + u
  {
  }

  lemma {:induction false} RemainderRounds(s: nat, w: nat, u: nat, v: nat)
    requires s < v && w < u
    ensures var z := if 2 * w < u || (2 * w == u && s % 2 == 0) then s * u else s * u + u;
            z <= u * v && (z == 0 <==> 2 * (s * u + w) <= u)
  {
    MulMonotone(s + 1, v, u);
    NextMultiple(s, u);
    if s > 0 {
      MulMonotone(1, s, u);
    }
  }

  lemma GridPosition(t: nat, s: nat, u: nat, v: nat)
    ensures (t * v + s) * u == t * (u * v) + s * u
  {
    MulAssociates(t, v, u);
  }

  lemma {:induction false} QuotientUnique(a: nat, u: nat, q: nat, w: nat)
    requires u >= 1 && w < u && a == q * u + w
    ensures a / u == q && a % u == w
  {
    Division(a, u);
    var p := a / u;
    assert (p + 1) * u == p * u + u;
    assert (q + 1) * u == q * u + u;
    if p < q {
      MulMonotone(p + 1, q, u);
    } else if p > q {
      MulMonotone(q + 1, p, u);
    }
  }

  lemma EvenMultiple(t: nat, v: nat)
    requires v % 2 == 0
    ensures t * v % 2 == 0
  {
    var h := v / 2;
    assert t * v == 2 * (t * h);
  }

  lemma ShiftRange(b: nat)
    requires TWO_TO_53 <= b < TWO_TO_63
    ensures 2 <= Pow2(Shift(b)) <= 1024
  {
    ShiftOfInt64(b);
    Pow2Monotone(1, Shift(b));
    Pow2Monotone(Shift(b), 10);
  }

  /** Up to 2^53 bytes the caller gets at least what it asked for, and less than a MiB more. */
  lemma CreateCapacityBounds(b: int)
    requires 1 <= b <= TWO_TO_53
    ensures b <= CreateCapacity(b) < b + MIB
  {
    CreateSizeFormula(b);
    Division(b, MIB);
    CapacityOf(b);
  }

  /** Whole MiBs below 2^63 bytes multiply back without wrapping. */
  lemma CapacityOf(b: int)
    requires 0 <= CreateSizeMb(b) * MIB < TWO_TO_63
    ensures CreateCapacity(b) == CreateSizeMb(b) * MIB
  {
  }

  /** Beyond 2^53 a volume can come out short. It does exactly when the request exceeds a whole
      number of MiB by at most half a binary64 unit, and then by at most 512 bytes. */
  lemma CreateShortfallIff(b: int)
    requires 1 <= b <= TWO_TO_63 - MIB
    ensures CreateCapacity(b) < b <==> b > TWO_TO_53 && 0 < b % MIB && 2 * (b % MIB) <= Pow2(Shift(b))
    ensures b - 512 <= CreateCapacity(b) < b + MIB
    ensures CreateCapacity(b) == CreateSizeMb(b) * MIB
  {
    CreateSizeFormula(b);
    if b >= TWO_TO_53 {
      ShiftRange(b);
    }
    Division(b, MIB);
    CapacityOf(b);
  }

  /** 2^53 is the last request for which CreateCapacityBounds holds on every smaller one. */
  lemma FirstShortfall()
    ensures CreateCapacity(TWO_TO_53 + 1) == TWO_TO_53
  {
    CreateSizeFormula(TWO_TO_53 + 1);
    ShiftRange(TWO_TO_53 + 1);
  }

  /** The reported capacity overflows int64 exactly for the last few requests. */
  lemma CreateOverflowIff(b: int)
    requires 1 <= b < TWO_TO_63
    ensures CreateSizeMb(b) * MIB >= TWO_TO_63 <==> b > TWO_TO_63 - MIB + 512
    ensures b > TWO_TO_63 - MIB + 512 ==> CreateCapacity(b) == -TWO_TO_63
  {
    CreateSizeFormula(b);
    if b >= TWO_TO_63 - MIB {
      ShiftNearTheTop(b);
    }
  }

  lemma ShiftNearTheTop(b: int)
    requires TWO_TO_63 - MIB <= b < TWO_TO_63
    ensures Shift(b) == 10 && Pow2(10) == 1024
  {
    ShiftBounds(b);
    ShiftOfInt64(b);
    assert Pow2(10) == 2 * Pow2(9);
    if Shift(b) < 10 {
      Pow2Monotone(Shift(b), 9);
    }
  }

  /** A negative request, which CreateVolume does not check for, yields a size below 1 MiB, which
      createDisk refuses; no other request does. */
  lemma NonPositiveSizeIff(b: int)
    requires -TWO_TO_63 <= b < TWO_TO_63
    ensures CreateSizeMb(b) < 1 <==> b < 0
  {
    if b > 0 {
      CreateSizeFormula(b);
      if b >= TWO_TO_53 {
        assert b / MIB >= 1;
      }
    } else if b < 0 {
      CreateSizeIsCeilOfRounded(b);
      FromInt64Shape(b);
      MulMonotone(0, RoundHalfEven(Abs(b), Pow2(Shift(Abs(b)))), Pow2(Shift(Abs(b))));
      CeilDivBounds(Rounded(b), MIB);
    }
  }

  /** Without a required size the volume has 1 GiB. */
  lemma DefaultSize()
    ensures CreateSizeMb(0) == 1024 && CreateCapacity(0) == 1024 * MIB == 0x4000_0000
  {
    CreateSizeFormula(GIB);
    assert CreateSizeMb(0) == CreateSizeMb(GIB);
  }

  /** Expansion is meant to reach at least the required bytes; dividing before the ceil, it
      reaches them exactly when they are a whole number of MiB (or not positive). */
  lemma ExpandMeetsRequestIff(b: int)
    requires -TWO_TO_63 <= b < TWO_TO_63
    ensures ExpandCapacity(b) >= b <==> b <= 0 || b % MIB == 0
    ensures ExpandCapacity(b) == ExpandSizeMb(b) * MIB
  {
  }

  /** Expanding a volume to the very size it was created for changes nothing when that is a whole
      number of MiB, and is refused as a shrink otherwise. */
  lemma ExpandAfterCreate(b: int)
    requires 1 <= b <= TWO_TO_53
    ensures b % MIB == 0 ==> ExpandSizeMb(b) == CreateSizeMb(b)
    ensures b % MIB != 0 ==> ExpandSizeMb(b) == CreateSizeMb(b) - 1
  {
    CreateSizeFormula(b);
  }
}

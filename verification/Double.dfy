/** Double-precision division and `Math.ceil` (sections 3.4 and 4.3.1 of IEEE 754-2008). */
module Double {
  function Pow2(e: nat): (p: int)
    ensures p >= 1
  {
    if e == 0 then 1 else 2 * Pow2(e - 1)
  }

  const LIMIT: int := 0x20_0000_0000_0000   // 2^53

  function Times(x: real, p: int): real {
    x * p as real
  }

  function Product(m: int, p: int): int {
    m * p
  }

  /** x = m * 2^e or x = m / 2^e with a 53-bit significand and an exponent in range.  A significand of 2^53 is
      one of 2^52 with the next exponent, as long as there is a next one. */
  predicate IsScaled(x: real, m: int, e: nat) {
    && -LIMIT <= m <= LIMIT
    && (|| (e <= 971 && (e < 971 || -LIMIT < m < LIMIT) && x == Product(m, Pow2(e)) as real)
        || (e <= 1074 && Times(x, Pow2(e)) == m as real))
  }

  ghost predicate IsDouble(x: real) {
    exists m: int, e: nat :: IsScaled(x, m, e)
  }

  function Abs(x: real): real {
    if x < 0.0 then -x else x
  }

  /** r is a double, and no double is nearer to q. */
  ghost predicate RoundsTo(q: real, r: real) {
    IsDouble(r) && forall d :: IsDouble(d) ==> Abs(q - r) <= Abs(q - d)
  }

  function Ceil(x: real): int {
    if x.Floor as real == x then x.Floor else x.Floor + 1
  }

  /** The integer ceiling of a / b. */
  function CeilDiv(a: nat, b: nat): nat
    requires b > 0
  {
    (a + b - 1) / b
  }

  // ---------------------------------------------------------------- arithmetic

  lemma RealCancel(x: real, y: real, p: real)
    requires p > 0.0 && x * p < y * p
    ensures x < y
  {
  }

  lemma DivideMultiply(x: real, y: real)
    requires y > 0.0
    ensures x / y * y == x
  {
  }

  lemma {:induction false} ProductAsReal(n: int, p: nat)
    ensures (n * p) as real == n as real * p as real
    decreases p
  {
    if p > 0 {
      ProductAsReal(n, p - 1);
      assert n * p == n * (p - 1) + n;
      assert n as real * p as real == n as real * (p - 1) as real + n as real;
    } else {
      assert n * p == 0;
    }
  }

  lemma CancelInt(x: int, y: int, b: int)
    requires b > 0 && x * b < y * b
    ensures x < y
  {
  }

  lemma DivAtLeast(s: int, q: int, b: int)
    requires b > 0 && q * b <= s
    ensures q <= s / b
  {
    assert s == b * (s / b) + s % b;
    CancelInt(q, s / b + 1, b);
  }

  lemma DivBelow(s: int, q: int, b: int)
    requires b > 0 && s < q * b
    ensures s / b < q
  {
  }

  lemma Pow2Sum(i: nat, j: nat)
    ensures Pow2(i + j) == Pow2(i) * Pow2(j)
  {
    if j > 0 { Pow2Sum(i, j - 1); }
  }

  lemma Pow2Of53()
    ensures Pow2(53) == LIMIT
  {
    assert Pow2(10) == 1024 && Pow2(20) == 0x10_0000 && Pow2(30) == 0x4000_0000;
    assert Pow2(40) == 0x100_0000_0000 && Pow2(50) == 0x4_0000_0000_0000;
  }

  lemma IntegerIsDouble(n: int)
    requires -LIMIT <= n <= LIMIT
    ensures IsDouble(n as real)
  {
    assert IsScaled(n as real, n, 0);
  }

  // ---------------------------------------------------------------- the ceiling is exact

  /** The exponent of the largest power of two that is at most n. */
  function Log2(n: nat): (j: nat)
    requires n >= 1
    ensures Pow2(j) <= n < 2 * Pow2(j)
  {
    if n == 1 then 0 else Log2(n / 2) + 1
  }

  lemma Pow2Grows(i: nat, j: nat)
    requires i < j
    ensures 2 * Pow2(i) <= Pow2(j)
  {
  }

  lemma Log2Small(n: nat)
    requires 1 <= n <= LIMIT
    ensures Log2(n) <= 53
  {
    Pow2Of53();
    if Log2(n) > 53 { Pow2Grows(53, Log2(n)); }
  }

  /** The real quotient of two integers. */
  function Ratio(a: int, b: int): real
    requires b > 0
  {
    a as real / b as real
  }

  /** a / b = n + rest / b. */
  lemma Quotient(a: nat, b: nat)
    requires b > 0
    ensures Ratio(a, b) == (a / b) as real + Ratio(a % b, b)
  {
  }

  lemma Compare(x: real, y: real, c: real)
    requires y > 0.0
    ensures x < c * y ==> x / y < c
    ensures x <= c * y ==> x / y <= c
    ensures x > c * y ==> x / y > c
    ensures x >= c * y ==> x / y >= c
  {
  }

  lemma FractionRange(rest: nat, b: nat)
    requires rest < b
    ensures 0.0 <= Ratio(rest, b) < 1.0
    ensures rest > 0 ==> 0.0 < Ratio(rest, b)
    ensures 2 * rest >= b ==> Ratio(rest, b) >= 0.5
    ensures 2 * rest <= b ==> Ratio(rest, b) <= 0.5
  {
    Compare(rest as real, b as real, 0.0);
    Compare(rest as real, b as real, 1.0);
    Compare(rest as real, b as real, 0.5);
    assert (2 * rest) as real == 2.0 * rest as real;
  }

  lemma Distribute(x: real, y: real, p: real)
    ensures (x + y) * p == x * p + y * p
  {
  }

  lemma MulMono(n: nat, p: nat, b: nat)
    requires p <= b
    ensures 0 <= n * p <= n * b
  {
  }

  lemma ScaledIsDouble(x: real, m: int, e: nat)
    requires -LIMIT <= m <= LIMIT && e <= 1074 && x * Pow2(e) as real == m as real
    ensures IsDouble(x)
  {
    assert IsScaled(x, m, e);
  }

  /** n + 1 / 2^j, where 2^j is at most b, still has a 53-bit significand. */
  lemma StepIsDouble(n: nat, j: nat, a: nat, b: nat) returns (d: real)
    requires Pow2(j) <= b && j <= 53 && n * b + 1 <= a <= LIMIT
    ensures IsDouble(d) && d == n as real + Ratio(1, Pow2(j))
  {
    var p := Pow2(j);
    var step, x := 1.0 / p as real, n as real;
    d := x + step;
    DivideMultiply(1.0, p as real);
    ProductAsReal(n, p);
    MulMono(n, p, b);
    Distribute(x, step, p as real);
    ScaledIsDouble(d, n * p + 1, j);
  }

  /** 1/p < 2 * rest / b, because b < 2p. */
  lemma StepFits(rest: nat, b: nat, p: nat)
    requires rest >= 1 && 1 <= p <= b < 2 * p
    ensures 0.0 < Ratio(1, p) < 2.0 * Ratio(rest, b)
  {
    var x, y := 1.0 / p as real, rest as real / b as real;
    DivideMultiply(1.0, p as real);
    DivideMultiply(rest as real, b as real);
    assert y > 0.0;
    assert y * (2 * p - b) as real > 0.0;
    assert 2.0 * y * p as real == y * b as real + y * (2 * p - b) as real;
    RealCancel(x, 2.0 * y, p as real);
  }

  lemma FloorTimes(a: nat, b: nat)
    requires b > 0 && a % b > 0
    ensures a / b * b + 1 <= a
  {
  }

  lemma Commute(a: int, b: int)
    ensures a * b == b * a
  {
  }

  lemma Nearer(q: real, d: real, n: real, f: real, step: real)
    requires q == n + f && d == n + step && 0.0 < step < 2.0 * f
    ensures Abs(q - d) < q - n
  {
  }

  /** A quotient that is not an integer has a double strictly nearer than the integer below it. */
  lemma NearerThanFloor(a: nat, b: nat, n: nat, rest: nat) returns (d: real)
    requires 1 <= b <= LIMIT && a <= LIMIT && n * b + 1 <= a && rest > 0
    requires Ratio(a, b) == n as real + Ratio(rest, b)
    ensures IsDouble(d) && Abs(Ratio(a, b) - d) < Ratio(a, b) - n as real
  {
    hide IsDouble, Abs, Pow2, Ratio;
    var j := Log2(b);
    Log2Small(b);
    d := StepIsDouble(n, j, a, b);
    StepFits(rest, b, Pow2(j));
    Nearer(Ratio(a, b), d, n as real, Ratio(rest, b), Ratio(1, Pow2(j)));
  }

  lemma Multiples(b: int, n: int)
    ensures n * b == b * n && (n + 1) * b == b * n + b && (n + 2) * b == b * n + 2 * b
  {
  }

  lemma AtLeastFactor(b: nat, n: nat)
    requires b > 0
    ensures b * n >= n
  {
  }

  lemma CeilOf(a: nat, b: nat, n: nat, rest: nat)
    requires b > 0 && a == b * n + rest && rest < b
    ensures (a + b - 1) / b == n + if rest > 0 then 1 else 0
    ensures n + (if rest > 0 then 1 else 0) <= a
  {
    Multiples(b, n);
    AtLeastFactor(b, n);
    if rest > 0 {
      DivAtLeast(a + b - 1, n + 1, b);
      DivBelow(a + b - 1, n + 2, b);
    } else {
      DivAtLeast(a + b - 1, n, b);
      DivBelow(a + b - 1, n + 1, b);
    }
  }

  lemma CeilDivCases(a: nat, b: nat)
    requires b > 0
    ensures CeilDiv(a, b) == a / b + if a % b > 0 then 1 else 0
    ensures a / b + (if a % b > 0 then 1 else 0) <= a
  {
    CeilOf(a, b, a / b, a % b);
  }

  lemma CeilBetween(n: int, r: real)
    requires n as real < r <= (n + 1) as real
    ensures Ceil(r) == n + 1
  {
  }

  /** No farther than n + 1 and nearer than n. */
  lemma Between(q: real, r: real, n: real)
    requires n <= q <= n + 1.0 && Abs(q - r) <= Abs(q - (n + 1.0)) && Abs(q - r) < q - n
    ensures n < r <= n + 1.0
  {
  }

  lemma CeilRounded(q: real, r: real, n: nat, f: real, d: real)
    requires RoundsTo(q, r) && q == n as real + f && 0.0 < f < 1.0
    requires IsDouble((n + 1) as real) && IsDouble(d) && Abs(q - d) < q - n as real
    ensures Ceil(r) == n + 1
  {
    hide IsDouble;
    Between(q, r, n as real);
    CeilBetween(n, r);
  }

  /** `Math.ceil` of the rounded quotient is the exact integer ceiling, however ties are broken. */
  lemma CeilExact(a: nat, b: nat, r: real)
    requires 1 <= b <= LIMIT && a <= LIMIT && RoundsTo(Ratio(a, b), r)
    ensures Ceil(r) == CeilDiv(a, b)
  {
    hide IsDouble, CeilDiv;
    var q, n, rest := Ratio(a, b), a / b, a % b;
    Quotient(a, b);
    CeilDivCases(a, b);
    FractionRange(rest, b);
    if rest > 0 {
      FloorTimes(a, b);
      var d := NearerThanFloor(a, b, n, rest);
      IntegerIsDouble(n + 1);
      CeilRounded(q, r, n, Ratio(rest, b), d);
    } else {
      IntegerIsDouble(n);
      assert Abs(q - r) <= Abs(q - n as real);
    }
  }

  // ---------------------------------------------------------------- division itself

  lemma EnoughScale(a: nat, b: nat)
    requires 1 <= a && 1 <= b <= LIMIT
    ensures LIMIT * b <= 2 * a * Pow2(105)
  {
    Pow2Sum(53, 52);
    Pow2Of53();
    assert Pow2(53) == 2 * Pow2(52);
    assert LIMIT * b <= LIMIT * LIMIT;
    assert 2 * Pow2(105) <= 2 * a * Pow2(105);
  }

  /** The least scale at which a * 2^e / b reaches 2^52. */
  function Scale(a: nat, b: nat, e: nat): (r: nat)
    requires 1 <= a && 1 <= b <= LIMIT && e <= 105
    requires e == 0 || 2 * a * Pow2(e - 1) < LIMIT * b
    ensures r <= 105 && LIMIT * b <= 2 * a * Pow2(r)
    ensures r == 0 || 2 * a * Pow2(r - 1) < LIMIT * b
    decreases 105 - e
  {
    EnoughScale(a, b);
    if LIMIT * b <= 2 * a * Pow2(e) then e else Scale(a, b, e + 1)
  }

  /** Round half to even, at the scale that gives a 53-bit significand. */
  predicate RoundUp(m: nat, rest: nat, b: nat) {
    2 * rest > b || (2 * rest == b && m % 2 == 1)
  }

  function Scaled(a: nat, e: nat): (s: nat)
    ensures s == a * Pow2(e)
  {
    a * Pow2(e)
  }

  /** s / b rounded to an integer, over 2^e. */
  function RoundAt(s: nat, b: nat, e: nat): real
    requires b >= 1
  {
    (if RoundUp(s / b, s % b, b) then s / b + 1 else s / b) as real / Pow2(e) as real
  }

  function Divide(a: nat, b: nat): real
    requires a < LIMIT && 1 <= b <= LIMIT
  {
    if a == 0 then 0.0 else RoundAt(Scaled(a, Scale(a, b, 0)), b, Scale(a, b, 0))
  }

  lemma SplitPow2(i: nat, j: nat)
    requires i <= j
    ensures Pow2(j) == Product(Pow2(i), Pow2(j - i))
  {
    Pow2Sum(i, j - i);
  }

  lemma AtLeastTwo(k: nat)
    requires k >= 1
    ensures Pow2(k) >= 2
  {
  }

  lemma IntegerOutside(y: real, v: int, m: nat)
    requires y == v as real
    ensures y <= m as real || y >= (m + 1) as real
  {
    if v <= m {
      assert v as real <= m as real;
    } else {
      assert v as real >= (m + 1) as real;
    }
  }

  lemma IntegerSpaced(x: real, n: int, p: nat, m: nat)
    requires x == n as real
    ensures Times(x, p) <= m as real || Times(x, p) >= (m + 1) as real
  {
    ProductAsReal(n, p);
    IntegerOutside(x * p as real, n * p, m);
  }

  lemma Associate(x: real, y: real, z: real)
    ensures x * (y * z) == (x * y) * z
  {
  }

  lemma FineSpaced(x: real, n: int, p: nat, g: nat, m: nat)
    requires Times(x, p) == n as real
    ensures Times(x, Product(p, g)) <= m as real || Times(x, Product(p, g)) >= (m + 1) as real
  {
    ProductAsReal(p, g);
    Associate(x, p as real, g as real);
    ProductAsReal(n, g);
    IntegerOutside(x * (p * g) as real, n * g, m);
  }

  lemma CoarseSpaced(x: real, n: int, p: nat, g: nat, m: nat)
    requires Times(x, Product(p, g)) == n as real && g >= 2 && n <= LIMIT <= 2 * m
    ensures Times(x, p) <= m as real
  {
  }

  /** At a scale where significands take all 53 bits, no double lies strictly between neighbours. */
  lemma DoublesSpaced(x: real, m: nat, e: nat)
    requires IsDouble(x) && LIMIT <= 2 * m
    ensures Times(x, Pow2(e)) <= m as real || Times(x, Pow2(e)) >= (m + 1) as real
  {
    hide Times, Product, Pow2;
    var n: int, k: nat :| IsScaled(x, n, k);
    if x == Product(n, Pow2(k)) as real {
      IntegerSpaced(x, Product(n, Pow2(k)), Pow2(e), m);
    } else if k <= e {
      SplitPow2(k, e);
      FineSpaced(x, n, Pow2(k), Pow2(e - k), m);
    } else {
      SplitPow2(e, k);
      AtLeastTwo(k - e);
      CoarseSpaced(x, n, Pow2(e), Pow2(k - e), m);
    }
  }

  lemma Twice(a: int, p: int)
    ensures 2 * a * p == 2 * (a * p)
  {
  }

  lemma BoundsOf(a: nat, b: nat, s: nat)
    requires 1 <= b && LIMIT * b <= 2 * s && (s < LIMIT * b)
    ensures LIMIT <= 2 * (s / b) && s / b + 1 <= LIMIT
  {
  }

  lemma TwiceScaled(a: nat, e: nat)
    requires e > 0
    ensures Scaled(a, e) == 2 * a * Pow2(e - 1)
  {
  }

  lemma ScaledBounds(a: nat, b: nat)
    requires 1 <= a < LIMIT && 1 <= b <= LIMIT
    ensures var s := Scaled(a, Scale(a, b, 0)); LIMIT <= 2 * (s / b) && s / b + 1 <= LIMIT
  {
    var e := Scale(a, b, 0);
    if e > 0 { TwiceScaled(a, e); }
    hide Pow2, Scale;
    Twice(a, Pow2(e));
    BoundsOf(a, b, Scaled(a, e));
  }

  lemma ScaledQuotient(a: nat, b: nat, e: nat, m: nat, rest: nat)
    requires 1 <= b && a * Pow2(e) == b * m + rest
    ensures a as real / b as real * Pow2(e) as real == m as real + rest as real / b as real
  {
  }

  /** Rounding m + f to the nearer neighbour beats everything outside the interval. */
  lemma NeighbourWins(m: nat, f: real, up: bool, w: real)
    requires 0.0 <= f < 1.0 && (up ==> f >= 0.5) && (!up ==> f <= 0.5)
    requires w <= m as real || w >= (m + 1) as real
    ensures Abs(m as real + f - (if up then m + 1 else m) as real) <= Abs(m as real + f - w)
  {
  }

  lemma Unscale(q: real, r: real, d: real, p: real)
    requires p > 0.0 && Abs(q * p - r * p) <= Abs(q * p - d * p)
    ensures Abs(q - r) <= Abs(q - d)
  {
  }

  lemma BeatsDouble(a: nat, b: nat, e: nat, m: nat, rest: nat, k: nat, r: real, d: real)
    requires 1 <= b && a * Pow2(e) == b * m + rest && rest < b && LIMIT <= 2 * m
    requires k == if RoundUp(m, rest, b) then m + 1 else m
    requires r * Pow2(e) as real == k as real && IsDouble(d)
    ensures Abs(a as real / b as real - r) <= Abs(a as real / b as real - d)
  {
    hide IsDouble, Abs, Pow2;
    var q, p, f := a as real / b as real, Pow2(e) as real, rest as real / b as real;
    ScaledQuotient(a, b, e, m, rest);
    FractionRange(rest, b);
    DoublesSpaced(d, m, e);
    NeighbourWins(m, f, RoundUp(m, rest, b), d * p);
    assert q * p - r * p == m as real + f - k as real;
    assert q * p - d * p == m as real + f - d * p;
    Unscale(q, r, d, p);
  }

  lemma RoundsAtScale(a: nat, b: nat, e: nat, m: nat, rest: nat)
    requires 1 <= b && e <= 105 && a * Pow2(e) == b * m + rest && rest < b
    requires LIMIT <= 2 * m && m + 1 <= LIMIT
    ensures RoundsTo(a as real / b as real, (if RoundUp(m, rest, b) then m + 1 else m) as real / Pow2(e) as real)
  {
    hide IsDouble, Abs;
    var k := if RoundUp(m, rest, b) then m + 1 else m;
    var q, p := a as real / b as real, Pow2(e) as real;
    var r := k as real / p;
    DivideMultiply(k as real, p);
    ScaledIsDouble(r, k, e);
    forall d | IsDouble(d) ensures Abs(q - r) <= Abs(q - d) {
      BeatsDouble(a, b, e, m, rest, k, r, d);
    }
  }

  lemma DivMod(s: nat, b: nat)
    requires b >= 1
    ensures s == b * (s / b) + s % b && s % b < b
  {
  }

  lemma ZeroRounds(b: nat)
    requires b >= 1
    ensures RoundsTo(Ratio(0, b), 0.0)
  {
    IntegerIsDouble(0);
    assert 0 as real / b as real == 0.0;
  }

  /** The division is correctly rounded: the result is a double and no double is nearer to the quotient. */
  lemma DivideRounds(a: nat, b: nat)
    requires a < LIMIT && 1 <= b <= LIMIT
    ensures RoundsTo(Ratio(a, b), Divide(a, b))
  {
    if a == 0 {
      ZeroRounds(b);
    } else {
      hide RoundsTo, Scale, Pow2;
      var e := Scale(a, b, 0);
      var s := Scaled(a, e);
      ScaledBounds(a, b);
      DivMod(s, b);
      RoundsAtScale(a, b, e, s / b, s % b);
    }
  }

  /** The page count: exact for every total below 2^53 and every limit up to 2^53. */
  lemma PageCountExact(total: nat, limit: nat)
    requires total < LIMIT && 1 <= limit <= LIMIT
    ensures Ceil(Divide(total, limit)) == CeilDiv(total, limit)
  {
    hide RoundsTo, Divide, Ceil, CeilDiv;
    DivideRounds(total, limit);
    CeilExact(total, limit, Divide(total, limit));
  }
}

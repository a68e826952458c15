/**
  Decimal arithmetic as the engine uses it.

  Money is an integer number of 10^-2 units, a rate an integer number of 10^-10 units.
  Rounding is half-even (roundTiesToEven, section 4.3.1 of IEEE 754-2008), and the default
  decimal context keeps 28 significant digits, so a product or a quotient is rounded once by
  the context before a `quantize` rounds it again.
 */
module Money {

  datatype Currency = USD | EUR | KES | NGN

  /** A finite decimal: coeff * 10^-places. */
  datatype Dec = Dec(coeff: int, places: nat)

  datatype Option<+T> = None | Some(value: T)

  const MONEY_PLACES: nat := 2
  const RATE_PLACES: nat := 10
  const RATE_ONE: nat := 10_000_000_000
  const TEN_27: nat := 1_000_000_000_000_000_000_000_000_000
  const TEN_28: nat := 10_000_000_000_000_000_000_000_000_000

  /** NUMERIC(20, s) columns hold coefficients of at most 20 digits. */
  const NUMERIC_LIMIT: int := 100_000_000_000_000_000_000

  predicate FitsNumeric(coeff: int) {
    -NUMERIC_LIMIT < coeff < NUMERIC_LIMIT
  }

  function Pow10(n: nat): (p: nat)
    ensures p >= 1
    ensures n > 0 ==> p % 10 == 0
  {
    if n == 0 then 1 else 10 * Pow10(n - 1)
  }

  lemma Pow10Next(n: nat)
    ensures Pow10(n + 1) == 10 * Pow10(n) && Pow10(0) == 1
  {
  }

  lemma {:induction false} Pow10Add(a: nat, b: nat)
    ensures Pow10(a + b) == Pow10(a) * Pow10(b)
  {
    hide Pow10;
    Pow10Next(b);
    if a > 0 {
      Pow10Add(a - 1, b);
      Pow10Next(a - 1);
      Pow10Next(a - 1 + b);
      MulAssoc(10, Pow10(a - 1), Pow10(b));
    }
  }

  // ---------------------------------------------------------------- half-even rounding

  /** The integer nearest to num / den, the even one of two equally near. */
  function RoundHalfEven(num: int, den: int): (r: int)
    requires den > 0
    ensures num >= 0 ==> r >= 0
  {
    var q, r := num / den, num % den;
    if 2 * r < den then q
    else if 2 * r > den then q + 1
    else if q % 2 == 0 then q
    else q + 1
  }

  /** The definition of IEEE 754: no integer is nearer, and a tie goes to the even one. */
  ghost predicate IsNearestEven(q: int, num: int, den: int) {
    var twiceError := 2 * (q * den - num);
    && -den <= twiceError <= den
    && (twiceError == den || twiceError == -den ==> q % 2 == 0)
  }

  lemma DivMod(num: int, den: int)
    requires den > 0
    ensures num == (num / den) * den + num % den
    ensures 0 <= num % den < den
  {
  }

  /** Two integers cannot both be the nearest-even one. */
  lemma NearestEvenUnique(p: int, q: int, num: int, den: int)
    requires den > 0 && p <= q
    requires IsNearestEven(p, num, den) && IsNearestEven(q, num, den)
    ensures p == q
  {
    if p < q {
      MulLe(p + 1, q, den);
      assert (p + 1) * den == p * den + den;
      if p + 2 <= q {
        MulLe(p + 2, q, den);
      }
    }
  }

  lemma RoundError(num: int, den: int)
    requires den > 0
    ensures IsNearestEven(RoundHalfEven(num, den), num, den)
  {
    var q := num / den;
    DivMod(num, den);
    assert (q + 1) * den == q * den + den;
  }

  /** RoundHalfEven is exactly the nearest-even integer. */
  lemma NearestEven(q: int, num: int, den: int)
    requires den > 0
    ensures IsNearestEven(q, num, den) <==> q == RoundHalfEven(num, den)
  {
    var r := RoundHalfEven(num, den);
    RoundError(num, den);
    if IsNearestEven(q, num, den) {
      if q <= r {
        NearestEvenUnique(q, r, num, den);
      } else {
        NearestEvenUnique(r, q, num, den);
      }
    }
  }

  /** An integer value is left alone. */
  lemma RoundExact(n: int, den: int)
    requires den > 0
    ensures RoundHalfEven(n * den, den) == n
  {
    assert n * den - n * den == 0;
    NearestEven(n, n * den, den);
  }

  lemma MulLe(a: int, b: int, k: int)
    requires a <= b && 0 <= k
    ensures a * k <= b * k
  {
  }

  lemma MulLt(a: int, b: int, k: int)
    requires a < b && 0 < k
    ensures a * k < b * k
  {
  }

  lemma MulAssoc(a: int, b: int, c: int)
    ensures (a * b) * c == a * (b * c)
  {
  }

  /** Scaling numerator and denominator by the same factor changes nothing. */
  lemma RoundScale(num: int, den: int, k: int)
    requires den > 0 && k > 0
    ensures den * k > 0
    ensures RoundHalfEven(num * k, den * k) == RoundHalfEven(num, den)
  {
    var q := RoundHalfEven(num, den);
    RoundError(num, den);
    var e := 2 * (q * den - num);
    MulLt(0, den, k);
    MulLe(e, den, k);
    MulLe(-den, e, k);
    assert (-den) * k == -(den * k);
    assert 2 * (q * (den * k) - num * k) == e * k by {
      assert q * (den * k) == (q * den) * k;
      assert (q * den) * k - num * k == (q * den - num) * k;
    }
    if e < den {
      MulLt(e, den, k);
    }
    if -den < e {
      MulLt(-den, e, k);
    }
    NearestEven(q, num * k, den * k);
  }

  lemma Apart(q: int, p: int, den: int)
    requires q < p && 0 < den
    ensures q * den + den <= p * den
  {
    MulLe(q + 1, p, den);
  }

  lemma RoundMonotone(a: int, b: int, den: int)
    requires den > 0 && a <= b
    ensures RoundHalfEven(a, den) <= RoundHalfEven(b, den)
  {
    var p, q := RoundHalfEven(a, den), RoundHalfEven(b, den);
    RoundError(a, den);
    RoundError(b, den);
    if p > q {
      Apart(q, p, den); // the errors leave room for this only if a == b
    }
  }

  /** Monotone across denominators: a/d <= b/e rounds to no more. */
  lemma RoundMonotoneRational(a: int, d: int, b: int, e: int)
    requires d > 0 && e > 0 && a * e <= b * d
    ensures RoundHalfEven(a, d) <= RoundHalfEven(b, e)
  {
    RoundScale(a, d, e);
    RoundScale(b, e, d);
    assert d * e == e * d;
    RoundMonotone(a * e, b * d, d * e);
  }

  /** A tie of num / den is a whole number on any even finer grid. */
  lemma TieOnGrid(q: int, num: int, den: int, half: int)
    requires 2 * (q * den - num) == den || 2 * (q * den - num) == -den
    ensures 2 * (q * den - num) == den ==> (2 * q * half - half) * den == num * (2 * half)
    ensures 2 * (q * den - num) == -den ==> (2 * q * half + half) * den == num * (2 * half)
  {
    if 2 * (q * den - num) == den {
      calc {
        (2 * q * half - half) * den;
        (2 * (q * den) - den) * half;
        (2 * num) * half;
      }
    }
    if 2 * (q * den - num) == -den {
      calc {
        (2 * q * half + half) * den;
        (2 * (q * den) + den) * half;
        (2 * num) * half;
      }
    }
  }

  /** How the error of a rounding on a finer grid adds to the error of the coarse one. */
  lemma ErrorsAdd(q: int, m: int, num: int, den: int, fine: int)
    ensures (2 * (q * fine - m)) * den
         == (2 * (q * den - num)) * fine - 2 * (m * den - num * fine)
  {
    calc {
      (2 * (q * fine - m)) * den;
      2 * (q * den) * fine - 2 * (m * den);
      (2 * (q * den - num)) * fine + 2 * (num * fine) - 2 * (m * den);
    }
  }

  /** Off a tie, rounding on a grid finer than 1/den cannot reach a midpoint. */
  lemma OffTie(e: int, f: int, g: int, den: int, fine: int)
    requires 0 < den < fine && -den < e < den && -den <= f <= den
    requires g * den == e * fine - f
    ensures -fine < g < fine
  {
    MulLe(e, den - 1, fine);
    MulLe(1 - den, e, fine);
    assert (den - 1) * fine == fine * den - fine && (1 - den) * fine == fine - fine * den;
    if g >= fine {
      MulLe(fine, g, den);
    }
    if g <= -fine {
      MulLe(g, -fine, den);
    }
  }

  lemma FinerThenCoarser(q: int, m: int, num: int, den: int, fine: int)
    requires 0 < den < fine && fine % 2 == 0
    requires IsNearestEven(q, num, den) && IsNearestEven(m, num * fine, den)
    ensures IsNearestEven(q, m, fine)
  {
    var e := 2 * (q * den - num);
    if -den < e < den {
      ErrorsAdd(q, m, num, den, fine);
      OffTie(e, 2 * (m * den - num * fine), 2 * (q * fine - m), den, fine);
    } else {
      var half := fine / 2;
      assert fine == 2 * half;
      TieOnGrid(q, num, den, half);
      var n := if e == den then 2 * q * half - half else 2 * q * half + half;
      assert n * den - num * fine == 0;
      ExactUnique(n, m, num * fine, den);
      assert 2 * q * half == q * fine;
    }
  }

  lemma ExactUnique(n: int, m: int, num: int, den: int)
    requires den > 0 && n * den == num && IsNearestEven(m, num, den)
    ensures m == n
  {
    assert IsNearestEven(n, num, den);
    if m <= n {
      NearestEvenUnique(m, n, num, den);
    } else {
      NearestEvenUnique(n, m, num, den);
    }
  }

  /**
    Rounding twice is rounding once, when the first rounding works on a grid finer than 1/den:
    num/den then cannot come close enough to a midpoint to be moved onto it.
   */
  lemma RoundTwice(num: int, den: int, fine: int)
    requires 0 < den < fine && fine % 2 == 0
    ensures RoundHalfEven(RoundHalfEven(num * fine, den), fine) == RoundHalfEven(num, den)
  {
    var q, m := RoundHalfEven(num, den), RoundHalfEven(num * fine, den);
    RoundError(num, den);
    RoundError(num * fine, den);
    FinerThenCoarser(q, m, num, den, fine);
    NearestEven(q, m, fine);
  }

  /** `Decimal.quantize(..., ROUND_HALF_EVEN)`, as a coefficient with that many places. */
  function Quantize(d: Dec, places: nat): (r: int)
    ensures d.coeff >= 0 ==> r >= 0
  {
    if d.places <= places then d.coeff * Pow10(places - d.places)
    else RoundHalfEven(d.coeff, Pow10(d.places - places))
  }

  /** `quantize` is one rounding of the value it is given, whatever the number of places given. */
  lemma QuantizeIsRounding(d: Dec, places: nat)
    ensures Quantize(d, places) == RoundHalfEven(d.coeff * Pow10(places), Pow10(d.places))
  {
    hide Pow10, RoundHalfEven;
    if d.places <= places {
      Pow10Add(places - d.places, d.places);
      MulAssoc(d.coeff, Pow10(places - d.places), Pow10(d.places));
      RoundExact(d.coeff * Pow10(places - d.places), Pow10(d.places));
    } else {
      Pow10Add(d.places - places, places);
      RoundScale(d.coeff, Pow10(d.places - places), Pow10(places));
    }
  }

  function RoundMoney(d: Dec): (r: int)
    ensures d.coeff >= 0 ==> r >= 0
  {
    Quantize(d, MONEY_PLACES)
  }

  function RoundRate(d: Dec): (r: int)
    ensures d.coeff >= 0 ==> r >= 0
  {
    Quantize(d, RATE_PLACES)
  }

  /** Settled money is already on the grid, so rounding it neither creates nor destroys any. */
  lemma RoundMoneyIdentity(cents: int)
    ensures RoundMoney(Dec(cents, MONEY_PLACES)) == cents
  {
    assert Pow10(0) == 1;
  }

  // ---------------------------------------------------------------- the 28-digit context

  /** The weight of the last of the 28 digits the context keeps of an integer coefficient. */
  function Ulp(c: nat): (u: nat)
    ensures u >= 1 && c < TEN_28 * u
    ensures u == 1 || (TEN_27 * u <= c && u % 10 == 0)
  {
    if c < TEN_28 then 1
    else
      var u := Ulp(c / 10);
      assert u == 1 || TEN_27 * (10 * u) <= 10 * (c / 10);
      10 * u
  }

  /** A coefficient as the context returns it: at most 28 significant digits, same scale. */
  function ContextRound(c: nat): (r: nat)
  {
    var u := Ulp(c);
    RoundHalfEven(c, u) * u
  }

  /** a * b in the default context. */
  function ContextTimes(a: nat, b: nat): nat {
    ContextRound(a * b)
  }

  lemma ContextExact(c: nat)
    requires c < TEN_28
    ensures ContextRound(c) == c
  {
    RoundExact(c, 1);
  }

  /** The context moves a value by at most half a unit in its 28th digit. */
  lemma ContextError(c: nat)
    ensures 2 * (ContextRound(c) - c) <= Ulp(c) && 2 * (c - ContextRound(c)) <= Ulp(c)
    ensures c < TEN_28 ==> ContextRound(c) == c
    ensures c >= TEN_28 ==> Ulp(c) * TEN_27 <= c
  {
    RoundError(c, Ulp(c));
    if c < TEN_28 {
      ContextExact(c);
    }
  }

  /** The unit is a power of ten. */
  lemma {:induction false} UlpIsPower(c: nat) returns (k: nat)
    ensures Ulp(c) == Pow10(k)
    ensures c < TEN_28 ==> k == 0
  {
    k := 0;
    if c >= TEN_28 {
      k := UlpIsPower(c / 10);
      k := k + 1;
    }
  }

  /**
    What the context does, without reference to how: its result is a whole number of units of a
    power of ten, with at most 28 digits and not fewer, and is the nearest-even such number.
   */
  lemma ContextIsNearest(c: nat) returns (k: nat, q: nat)
    ensures ContextRound(c) == q * Pow10(k) && IsNearestEven(q, c, Pow10(k))
    ensures c < TEN_28 * Pow10(k)
    ensures k == 0 || TEN_27 * Pow10(k) <= c
  {
    k := UlpIsPower(c);
    q := RoundHalfEven(c, Ulp(c));
    RoundError(c, Ulp(c));
  }

  lemma UlpMonotone(a: nat, b: nat)
    requires a <= b
    ensures Ulp(a) <= Ulp(b)
    ensures Ulp(a) < Ulp(b) ==> 10 * Ulp(a) <= Ulp(b)
  {
    if a < TEN_28 {
    } else {
      UlpMonotone(a / 10, b / 10);
    }
  }

  lemma ContextMonotone(a: nat, b: nat)
    requires a <= b
    ensures ContextRound(a) <= ContextRound(b)
  {
    var u, v := Ulp(a), Ulp(b);
    UlpMonotone(a, b);
    if u == v {
      RoundMonotone(a, b, u);
      MulLe(RoundHalfEven(a, u), RoundHalfEven(b, u), u);
    } else {
      // a stays below the first value with one more digit, and b does not fall under it
      RoundMonotone(a, TEN_28 * u, u);
      RoundExact(TEN_28, u);
      MulLe(RoundHalfEven(a, u), TEN_28, u);
      RoundMonotone(TEN_27 * v, b, v);
      RoundExact(TEN_27, v);
      MulLe(TEN_27, RoundHalfEven(b, v), v);
    }
  }

  /** How many decimal places a quotient needs for 28 significant digits. */
  function QuotientPlaces(num: nat, den: nat): (k: nat)
    requires 0 < num && 0 < den
    ensures TEN_27 * den <= num * Pow10(k)
    decreases TEN_27 * den - num
  {
    if TEN_27 * den <= num then 0
    else
      var k := QuotientPlaces(10 * num, den);
      assert 10 * num * Pow10(k) == num * Pow10(k + 1);
      k + 1
  }

  /** num / den in the default context, for quotients below 10^28. */
  function ContextQuotient(num: nat, den: nat): (d: Dec)
    requires 0 < num < TEN_28 * den
    ensures d.coeff >= 0
  {
    var k := QuotientPlaces(num, den);
    Dec(RoundHalfEven(num * Pow10(k), den), k)
  }

  /** The first digit kept is not a zero, so exactly 28 digits are kept. */
  lemma QuotientDigits(num: nat, den: nat)
    requires 0 < num < TEN_28 * den
    ensures var k := QuotientPlaces(num, den);
            TEN_27 * den <= num * Pow10(k) < TEN_28 * den
    decreases TEN_27 * den - num
  {
    if TEN_27 * den <= num {
    } else {
      QuotientDigits(10 * num, den);
      var k := QuotientPlaces(10 * num, den);
      assert 10 * num * Pow10(k) == num * Pow10(k + 1);
    }
  }

  /** The digits of 1 / (p * 10^-14) reach far beyond the tenth place. */
  lemma QuotientReach(p: nat)
    requires p > 0
    ensures var k := QuotientPlaces(100_000_000_000_000, p);
            k > 10 && p < Pow10(k - 10) && Pow10(k) == RATE_ONE * Pow10(k - 10)
  {
    var k := QuotientPlaces(100_000_000_000_000, p);
    assert 10_000_000_000_000 * p <= Pow10(k);
    assert Pow10(10) == RATE_ONE;
    assert k > 10;
    Pow10Add(10, k - 10);
  }

  /**
    The context rounds a quotient to 28 digits and `quantize` rounds it again to 10 places. For
    1 / (p * 10^-14) the two roundings always give the half-even rounding of the true quotient.
   */
  lemma QuotientThenQuantize(p: nat)
    requires p > 0
    ensures RoundRate(ContextQuotient(100_000_000_000_000, p))
         == RoundHalfEven(1_000_000_000_000_000_000_000_000, p)
  {
    hide RoundHalfEven, QuotientPlaces, Pow10;
    QuotientReach(p);
    var k := QuotientPlaces(100_000_000_000_000, p);
    var fine := Pow10(k - 10);
    assert 100_000_000_000_000 * Pow10(k) == 1_000_000_000_000_000_000_000_000 * fine;
    RoundTwice(1_000_000_000_000_000_000_000_000, p, fine);
  }

  // ---------------------------------------------------------------- a product, then quantize

  const HALF: nat := 5_000_000_000

  /**
    A product that the context moves exactly onto a midpoint between two quanta of 10^10, and
    whose tie then breaks away from the side the product lay on.
   */
  predicate Misrounds(c: nat) {
    var t := ContextRound(c);
    && t != c
    && t % RATE_ONE == HALF
    && (c < t <==> (t / RATE_ONE) % 2 == 1)
  }

  lemma UlpDivides(c: nat, j: nat) returns (k: nat)
    requires c < TEN_28 * Pow10(j)
    ensures Pow10(j) == k * Ulp(c)
  {
    if c < TEN_28 {
      k := Pow10(j);
    } else {
      assert j > 0;
      k := UlpDivides(c / 10, j - 1);
      var v := Ulp(c / 10);
      assert 10 * (k * v) == k * (10 * v);
    }
  }

  /** Multiples of u that differ, differ by at least u. */
  lemma GridGap(a: int, b: int, u: int)
    requires u > 0
    ensures a * u == b * u || a * u >= b * u + u || a * u <= b * u - u
  {
    if a > b {
      Apart(b, a, u);
    } else if a < b {
      Apart(a, b, u);
    }
  }

  /** The context's result is a midpoint, or lies a whole unit away from every midpoint. */
  lemma ContextMidpointGap(c: nat)
    requires c < TEN_28 * 1_000_000_000
    ensures var t, u := ContextRound(c), Ulp(c);
            var mid := (t / RATE_ONE) * RATE_ONE + HALF;
            t == mid || t <= mid - u || t >= mid + u
  {
    var u, n := Ulp(c), 10 * (ContextRound(c) / RATE_ONE) + 5;
    assert Pow10(9) == 1_000_000_000;
    var k := UlpDivides(c, 9);
    MulAssoc(n, k, u);
    assert n * (k * u) == n * 1_000_000_000;
    GridGap(RoundHalfEven(c, u), n * k, u);
  }

  /**
    For products below 10^37 (every product of two NUMERIC(20,10) rates, and of any stored
    amount with such a rate, unless it is about to overflow its column): rounding by the
    context and then to 10 fewer places is one half-even rounding, except when it misrounds.
   */
  lemma ContextThenQuantize(c: nat)
    requires c < TEN_28 * 1_000_000_000
    ensures RoundHalfEven(ContextRound(c), RATE_ONE) == RoundHalfEven(c, RATE_ONE) <==> !Misrounds(c)
  {
    var t, u := ContextRound(c), Ulp(c);
    ContextError(c);
    ContextMidpointGap(c);
    DivMod(t, RATE_ONE);
    var q := RoundHalfEven(t, RATE_ONE);
    NearestEven(q, c, RATE_ONE);
    var k := UlpDivides(c, 9);
    assert Pow10(9) == 1_000_000_000;
    assert u <= 1_000_000_000 by {
      if k >= 1 { MulLe(1, k, u); }
    }
  }

  /** Below 28 digits nothing is rounded twice. */
  lemma ShortProductExact(c: nat)
    requires c < TEN_28
    ensures !Misrounds(c)
    ensures RoundHalfEven(ContextRound(c), RATE_ONE) == RoundHalfEven(c, RATE_ONE)
  {
    ContextExact(c);
  }
}

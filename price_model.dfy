/**
 * The polynomial price model: a quadratic polynomial in the redemption price P,
 * the redemption rate R and the time T, scaled by a divisor and clamped to a floor
 * and an optional ceiling, then rounded as JavaScript's Math.round does.
 *
 * Arithmetic is exact (`real`); the source computes in IEEE-754 doubles.
 */
module PriceModel {
  import opened Wrappers

  /** The coefficient dictionary. `None` is a key that is absent from it. */
  datatype Coefs = Coefs(
    q: Option<real>,
    c: Option<real>,
    r: Option<real>,
    p: Option<real>,
    t: Option<real>,
    rr: Option<real>,
    pp: Option<real>,
    tt: Option<real>,
    pt: Option<real>,
    pr: Option<real>,
    rt: Option<real>,
    l: Option<real>,
    h: Option<real>)

  /** The empty dictionary `{}`. */
  const NoCoefs: Coefs :=
    Coefs(None, None, None, None, None, None, None, None, None, None, None, None, None)

  /** The divisor used when `q` is absent or zero: 10^12. */
  const DefaultDivisor: real := 1_000_000_000_000.0

  /** A price model holds its coefficient dictionary and never changes it. */
  datatype PriceModel = PriceModel(coefs: Coefs)

  datatype ConfigError = CoefsRequired

  /** The constructor: a missing (null or undefined) dictionary is refused. */
  function New(coefs: Option<Coefs>): (r: Result<PriceModel, ConfigError>)
    ensures r.Ok? <==> coefs.Some?
    ensures r.Ok? ==> r.value.coefs == coefs.value
    ensures r.Err? ==> r.error == CoefsRequired
  {
    match coefs
    case None => Err(CoefsRequired)
    case Some(k) => Ok(PriceModel(k))
  }

  /** JavaScript truthiness of a number that may be absent: present and non-zero. */
  predicate Truthy(v: Option<real>)
  {
    v.Some? && v.value != 0.0
  }

  /** `v || d`: the coefficient when it is truthy, the default otherwise. */
  function Or(v: Option<real>, d: real): real
  {
    if Truthy(v) then v.value else d
  }

  /** The divisor `q || 1e12`; because zero falls back too, it is never zero. */
  function Divisor(k: Coefs): (d: real)
    ensures d != 0.0
    ensures Truthy(k.q) ==> d == k.q.value
    ensures !Truthy(k.q) ==> d == DefaultDivisor
  {
    Or(k.q, DefaultDivisor)
  }

  /** The floor `l || 0`. */
  function Floor(k: Coefs): real
  {
    Or(k.l, 0.0)
  }

  /** The polynomial, in the factored form in which the source writes it. */
  function Numerator(k: Coefs, P: real, R: real, T: real): real
  {
    var c, r, p, t := Or(k.c, 0.0), Or(k.r, 0.0), Or(k.p, 0.0), Or(k.t, 0.0);
    var rr, pp, tt := Or(k.rr, 0.0), Or(k.pp, 0.0), Or(k.tt, 0.0);
    var pt, pr, rt := Or(k.pt, 0.0), Or(k.pr, 0.0), Or(k.rt, 0.0);
    c + P * (p + pp * P + pr * R + pt * T) + R * (r + rr * R + rt * T) + T * (t + tt * T)
  }

  /** The polynomial divided by the divisor, before clamping and rounding. */
  function Scaled(k: Coefs, P: real, R: real, T: real): real
  {
    Numerator(k, P, R, T) / Divisor(k)
  }

  /**
   * Math.round as ECMA-262 defines it (section 21.3.2.28 of ECMAScript 2023):
   * the nearest integer, with ties going towards +infinity.
   */
  function MathRound(x: real): (n: int)
    ensures n as real - 0.5 <= x < n as real + 0.5
  {
    (x + 0.5).Floor
  }

  /** A real number that is a whole number. */
  predicate IsWhole(x: real)
  {
    x.Floor as real == x
  }

  /**
   * `evaluate(redemptionPrice, redemptionRate, time)`: the floor when the scaled
   * value is below it; otherwise the ceiling when it is truthy and exceeded;
   * otherwise the scaled value rounded.
   */
  function Evaluate(m: PriceModel, P: real, R: real, T: real): (v: real)
    ensures v == Floor(m.coefs) || (Truthy(m.coefs.h) && v == m.coefs.h.value) || IsWhole(v)
  {
    var x := Scaled(m.coefs, P, R, T);
    if x < Floor(m.coefs) then Floor(m.coefs)
    else if Truthy(m.coefs.h) && x > m.coefs.h.value then m.coefs.h.value
    else MathRound(x) as real
  }

  /** The polynomial as a plain sum of its ten monomials, each with its coefficient. */
  function Expanded(k: Coefs, P: real, R: real, T: real): real
  {
    Or(k.c, 0.0)
    + Or(k.p, 0.0) * P + Or(k.r, 0.0) * R + Or(k.t, 0.0) * T
    + Or(k.pp, 0.0) * (P * P) + Or(k.rr, 0.0) * (R * R) + Or(k.tt, 0.0) * (T * T)
    + Or(k.pr, 0.0) * (P * R) + Or(k.pt, 0.0) * (P * T) + Or(k.rt, 0.0) * (R * T)
  }

  /** The factored polynomial of the source is the sum of its monomials. */
  lemma NumeratorIsExpanded(k: Coefs, P: real, R: real, T: real)
    ensures Numerator(k, P, R, T) == Expanded(k, P, R, T)
  {
  }

  /** Every polynomial coefficient of `k` is the sum of the same coefficient of `a` and `b`. */
  predicate SumOfCoefs(k: Coefs, a: Coefs, b: Coefs)
  {
    && Or(k.c, 0.0) == Or(a.c, 0.0) + Or(b.c, 0.0)
    && Or(k.p, 0.0) == Or(a.p, 0.0) + Or(b.p, 0.0)
    && Or(k.r, 0.0) == Or(a.r, 0.0) + Or(b.r, 0.0)
    && Or(k.t, 0.0) == Or(a.t, 0.0) + Or(b.t, 0.0)
    && Or(k.pp, 0.0) == Or(a.pp, 0.0) + Or(b.pp, 0.0)
    && Or(k.rr, 0.0) == Or(a.rr, 0.0) + Or(b.rr, 0.0)
    && Or(k.tt, 0.0) == Or(a.tt, 0.0) + Or(b.tt, 0.0)
    && Or(k.pr, 0.0) == Or(a.pr, 0.0) + Or(b.pr, 0.0)
    && Or(k.pt, 0.0) == Or(a.pt, 0.0) + Or(b.pt, 0.0)
    && Or(k.rt, 0.0) == Or(a.rt, 0.0) + Or(b.rt, 0.0)
  }

  /** The coefficients contribute additively and independently to the scaled value. */
  lemma TermsAreAdditive(k: Coefs, a: Coefs, b: Coefs, P: real, R: real, T: real)
    requires SumOfCoefs(k, a, b)
    requires Divisor(a) == Divisor(k) && Divisor(b) == Divisor(k)
    ensures Scaled(k, P, R, T) == Scaled(a, P, R, T) + Scaled(b, P, R, T)
  {
    var d := Divisor(k);
    var nk, na, nb := Numerator(k, P, R, T), Numerator(a, P, R, T), Numerator(b, P, R, T);
    assert nk == na + nb by {
      NumeratorIsExpanded(k, P, R, T);
      NumeratorIsExpanded(a, P, R, T);
      NumeratorIsExpanded(b, P, R, T);
      ExpandedIsAdditive(k, a, b, P, R, T);
    }
    DivideSum(na, nb, d);
  }

  /** Division by a non-zero divisor distributes over a sum (a separate step for the solver). */
  lemma DivideSum(x: real, y: real, d: real)
    requires d != 0.0
    ensures (x + y) / d == x / d + y / d
  {
  }

  /** The monomial sum is linear in the coefficients. */
  lemma ExpandedIsAdditive(k: Coefs, a: Coefs, b: Coefs, P: real, R: real, T: real)
    requires SumOfCoefs(k, a, b)
    ensures Expanded(k, P, R, T) == Expanded(a, P, R, T) + Expanded(b, P, R, T)
  {
  }

  /** Every coefficient of the polynomial is absent or zero. */
  predicate ZeroPolynomial(k: Coefs)
  {
    && !Truthy(k.c) && !Truthy(k.p) && !Truthy(k.r) && !Truthy(k.t)
    && !Truthy(k.pp) && !Truthy(k.rr) && !Truthy(k.tt)
    && !Truthy(k.pr) && !Truthy(k.pt) && !Truthy(k.rt)
  }

  /**
   * With every coefficient absent or zero (whatever `q` is), every input evaluates to 0;
   * the empty dictionary is one such case.
   */
  lemma AllFalsyGiveZero(k: Coefs, P: real, R: real, T: real)
    requires ZeroPolynomial(k) && !Truthy(k.l) && !Truthy(k.h)
    ensures Evaluate(PriceModel(k), P, R, T) == 0.0
    ensures Evaluate(PriceModel(NoCoefs), P, R, T) == 0.0
  {
    NumeratorIsExpanded(k, P, R, T);
    NumeratorIsExpanded(NoCoefs, P, R, T);
  }

  /** Below the floor, the result is exactly the floor: no rounding, no ceiling. */
  lemma FloorClamp(m: PriceModel, P: real, R: real, T: real)
    requires Scaled(m.coefs, P, R, T) < Floor(m.coefs)
    ensures Evaluate(m, P, R, T) == Floor(m.coefs)
  {
  }

  /** At or above the floor and above a truthy ceiling, the result is exactly the ceiling. */
  lemma CeilingClamp(m: PriceModel, P: real, R: real, T: real)
    requires Scaled(m.coefs, P, R, T) >= Floor(m.coefs)
    requires Truthy(m.coefs.h) && Scaled(m.coefs, P, R, T) > m.coefs.h.value
    ensures Evaluate(m, P, R, T) == m.coefs.h.value
  {
  }

  /** Otherwise (including when `h` is absent or zero) the result is the rounded scaled value. */
  lemma Unclamped(m: PriceModel, P: real, R: real, T: real)
    requires Scaled(m.coefs, P, R, T) >= Floor(m.coefs)
    requires !Truthy(m.coefs.h) || Scaled(m.coefs, P, R, T) <= m.coefs.h.value
    ensures Evaluate(m, P, R, T) == MathRound(Scaled(m.coefs, P, R, T)) as real
    ensures Evaluate(m, P, R, T) == (Scaled(m.coefs, P, R, T) + 0.5).Floor as real
  {
  }

  /** A ceiling of 0 is falsy and is ignored: any value at or above the floor is only rounded. */
  lemma ZeroCeilingIgnored(m: PriceModel, P: real, R: real, T: real)
    requires m.coefs.h == Some(0.0)
    requires Scaled(m.coefs, P, R, T) >= Floor(m.coefs)
    ensures Evaluate(m, P, R, T) == MathRound(Scaled(m.coefs, P, R, T)) as real
  {
  }

  /** MathRound gives the unique integer n with n - 1/2 <= x < n + 1/2. */
  lemma MathRoundUnique(x: real, n: int)
    requires n as real - 0.5 <= x < n as real + 0.5
    ensures MathRound(x) == n
  {
  }

  /** MathRound is monotone. */
  lemma MathRoundMonotone(x: real, y: real)
    requires x <= y
    ensures MathRound(x) <= MathRound(y)
  {
  }

  /** Rounding a value that is at least (at most) a whole number stays at least (at most) it. */
  lemma MathRoundKeepsWholeBounds(x: real, w: real)
    requires IsWhole(w)
    ensures x >= w ==> MathRound(x) as real >= w
    ensures x <= w ==> MathRound(x) as real <= w
  {
    MathRoundUnique(w, w.Floor);
    if x >= w {
      MathRoundMonotone(w, x);
    }
    if x <= w {
      MathRoundMonotone(x, w);
    }
  }

  /** With a whole floor not above a truthy ceiling (or no ceiling), the result is at least the floor. */
  lemma AtLeastFloor(m: PriceModel, P: real, R: real, T: real)
    requires IsWhole(Floor(m.coefs))
    requires Truthy(m.coefs.h) ==> Floor(m.coefs) <= m.coefs.h.value
    ensures Evaluate(m, P, R, T) >= Floor(m.coefs)
  {
    MathRoundKeepsWholeBounds(Scaled(m.coefs, P, R, T), Floor(m.coefs));
  }

  /** With whole bounds l <= h and a truthy h, the result lies in [l, h]. */
  lemma WithinBounds(m: PriceModel, P: real, R: real, T: real)
    requires IsWhole(Floor(m.coefs)) && Truthy(m.coefs.h) && IsWhole(m.coefs.h.value)
    requires Floor(m.coefs) <= m.coefs.h.value
    ensures Floor(m.coefs) <= Evaluate(m, P, R, T) <= m.coefs.h.value
  {
    var x := Scaled(m.coefs, P, R, T);
    MathRoundKeepsWholeBounds(x, Floor(m.coefs));
    MathRoundKeepsWholeBounds(x, m.coefs.h.value);
  }

  /** With whole (or absent) floor and ceiling, every result is a whole number. */
  lemma WholeResult(m: PriceModel, P: real, R: real, T: real)
    requires IsWhole(Floor(m.coefs))
    requires Truthy(m.coefs.h) ==> IsWhole(m.coefs.h.value)
    ensures IsWhole(Evaluate(m, P, R, T))
  {
  }

  /** A fractional floor can be undercut by rounding: l = 0.4 and c/q = 0.45 give 0. */
  lemma FractionalFloorUndercut()
    ensures Evaluate(PriceModel(NoCoefs.(c := Some(45.0), q := Some(100.0), l := Some(0.4))), 0.0, 0.0, 0.0) == 0.0
  {
  }

  /** A truthy ceiling below the floor wins whenever the floor is reached: l = 5, h = 1 give 1. */
  lemma CeilingBelowFloorWins()
    ensures Evaluate(PriceModel(NoCoefs.(c := Some(6.0), l := Some(5.0), h := Some(1.0), q := Some(1.0))), 0.0, 0.0, 0.0) == 1.0
  {
  }

  /** With only `c` set, the default floor 0 turns a negative constant into 0. */
  lemma OnlyConstant(cv: real, P: real, R: real, T: real)
    ensures var m := PriceModel(NoCoefs.(c := Some(cv)));
      Evaluate(m, P, R, T) == if cv < 0.0 then 0.0 else MathRound(cv / DefaultDivisor) as real
  {
    NumeratorIsExpanded(NoCoefs.(c := Some(cv)), P, R, T);
  }

  /** The assertions of the model's test file, at (P, R, T) = (10, 100, 1000). */
  lemma ClampVectors()
    ensures Evaluate(PriceModel(NoCoefs), 10.0, 100.0, 1000.0) == 0.0
    ensures Evaluate(PriceModel(NoCoefs.(c := Some(6.0), q := Some(3.0), l := Some(3.0))), 10.0, 100.0, 1000.0) == 3.0
    ensures Evaluate(PriceModel(NoCoefs.(c := Some(6.0), q := Some(3.0), h := Some(1.0))), 10.0, 100.0, 1000.0) == 1.0
    ensures Evaluate(PriceModel(NoCoefs.(c := Some(6.0), q := Some(3.0))), 10.0, 100.0, 1000.0) == 2.0
    ensures Evaluate(PriceModel(NoCoefs.(c := Some(10_000_000_000_000.0))), 10.0, 100.0, 1000.0) == 10.0
  {
    NumeratorIsExpanded(NoCoefs, 10.0, 100.0, 1000.0);
  }

  /** The linear-coefficient assertion of the model's test file, with q = 1. */
  lemma LinearTermVector()
    ensures Evaluate(PriceModel(NoCoefs.(p := Some(2.0), r := Some(3.0), t := Some(5.0), q := Some(1.0))), 10.0, 100.0, 1000.0) == 5320.0
  {
    NumeratorIsExpanded(NoCoefs.(p := Some(2.0), r := Some(3.0), t := Some(5.0), q := Some(1.0)), 10.0, 100.0, 1000.0);
  }

  /** The quadratic-coefficient assertion of the model's test file, with q = 1. */
  lemma QuadraticTermVector()
    ensures Evaluate(PriceModel(NoCoefs.(pp := Some(2.0), rr := Some(3.0), tt := Some(5.0), q := Some(1.0))), 10.0, 100.0, 1000.0) == 5030200.0
  {
    NumeratorIsExpanded(NoCoefs.(pp := Some(2.0), rr := Some(3.0), tt := Some(5.0), q := Some(1.0)), 10.0, 100.0, 1000.0);
  }

  /** The `pr` assertion of the model's test file, with q = 1. */
  lemma PriceRateTermVector()
    ensures Evaluate(PriceModel(NoCoefs.(pr := Some(2.0), q := Some(1.0))), 10.0, 100.0, 1000.0) == 2000.0
  {
    NumeratorIsExpanded(NoCoefs.(pr := Some(2.0), q := Some(1.0)), 10.0, 100.0, 1000.0);
  }

  /** The `pt` assertion of the model's test file, with q = 1. */
  lemma PriceTimeTermVector()
    ensures Evaluate(PriceModel(NoCoefs.(pt := Some(2.0), q := Some(1.0))), 10.0, 100.0, 1000.0) == 20000.0
  {
    NumeratorIsExpanded(NoCoefs.(pt := Some(2.0), q := Some(1.0)), 10.0, 100.0, 1000.0);
  }

  /** The `rt` assertion of the model's test file, with q = 1. */
  lemma RateTimeTermVector()
    ensures Evaluate(PriceModel(NoCoefs.(rt := Some(2.0), q := Some(1.0))), 10.0, 100.0, 1000.0) == 200000.0
  {
    NumeratorIsExpanded(NoCoefs.(rt := Some(2.0), q := Some(1.0)), 10.0, 100.0, 1000.0);
  }
}

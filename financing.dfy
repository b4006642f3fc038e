/** The financing calculator: validates a price and a down payment and returns one
    amortisation option per term of 3, 4, 5 and 6 years. The source computes with
    Python's `decimal` module, so exact real arithmetic stands for it here. */
module Financing {

  import opened Common

  datatype FinancingOption = FinancingOption(
    years: int,
    months: int,
    monthlyPayment: real,
    totalPaid: real,
    totalInterest: real)

  /** The two ValueError cases. */
  datatype FinancingError = PriceNotPositive | NegativeDownPayment

  /** The terms offered, in years, in the order they are tried. */
  const Terms: seq<nat> := [3, 4, 5, 6]

  function Pow(b: real, n: nat): real
  {
    if n == 0 then 1.0 else b * Pow(b, n - 1)
  }

  function Abs(x: real): real { if x < 0.0 then -x else x }

  // ---------------------------------------------------------------------------
  // Rounding: Decimal.quantize(Decimal("0.01")) with the default context, whose
  // rounding mode is ROUND_HALF_EVEN.

  /** y rounded to the nearest integer, ties to the even neighbour. */
  function RoundHalfEven(y: real): int
  {
    var f := y.Floor;
    var frac := y - f as real;
    if frac < 0.5 then f
    else if frac > 0.5 then f + 1
    else if f % 2 == 0 then f else f + 1
  }

  /** What it means for n to be y rounded half-to-even: n is the nearest integer, and
      of two equally near it is the even one. */
  predicate IsHalfEvenRounding(y: real, n: int)
  {
    Abs(n as real - y) < 0.5 || (Abs(n as real - y) == 0.5 && n % 2 == 0)
  }

  /** RoundHalfEven computes exactly the half-even rounding, and that rounding is unique. */
  lemma RoundHalfEvenCorrect(y: real, n: int)
    ensures IsHalfEvenRounding(y, RoundHalfEven(y))
    ensures IsHalfEvenRounding(y, n) <==> n == RoundHalfEven(y)
  {
    var f := y.Floor;
    assert f as real <= y < f as real + 1.0;
    if IsHalfEvenRounding(y, n) {
      assert f - 1 <= n <= f + 2;
      if n == f - 1 || n == f + 2 {
        assert false;
      }
    }
  }

  /** Decimal's quantize to two fraction digits. */
  function Quantize2(x: real): real
  {
    RoundHalfEven(x * 100.0) as real / 100.0
  }

  predicate IsCents(x: real)
  {
    (x * 100.0).Floor as real == x * 100.0
  }

  /** quantize lands on a whole number of cents at most half a cent away, leaves cent
      amounts alone (so it is idempotent), and resolves an exact half cent to an even
      number of cents. */
  lemma Quantize2Spec(x: real)
    ensures IsCents(Quantize2(x))
    ensures Abs(Quantize2(x) - x) <= 0.005
    ensures IsCents(x) ==> Quantize2(x) == x
    ensures Quantize2(Quantize2(x)) == Quantize2(x)
    ensures IsHalfEvenRounding(x * 100.0, RoundHalfEven(x * 100.0))
  {
    var n := RoundHalfEven(x * 100.0);
    RoundHalfEvenCorrect(x * 100.0, n);
    assert Quantize2(x) * 100.0 == n as real;
    assert (n as real).Floor == n;
    RoundHalfEvenCorrect(n as real, n);
    assert Abs(n as real - x * 100.0) <= 0.5;
    if IsCents(x) {
      var m := (x * 100.0).Floor;
      RoundHalfEvenCorrect(x * 100.0, m);
    }
  }

  lemma Quantize2Near(x: real)
    ensures x - 0.005 <= Quantize2(x) <= x + 0.005
  {
    Quantize2Spec(x);
  }

  // ---------------------------------------------------------------------------
  // Amortisation.

  /** `(1 + r) ** n - 1`, the denominator of the payment formula. */
  function Denominator(r: real, n: nat): real
  {
    Pow(1.0 + r, n) - 1.0
  }

  /** The unrounded monthly payment `principal * (r * (1+r)^n) / ((1+r)^n - 1)`. */
  function MonthlyPayment(principal: real, r: real, n: nat): real
    requires Denominator(r, n) != 0.0
  {
    principal * (r * Pow(1.0 + r, n)) / Denominator(r, n)
  }

  /** The option for one term, or None when the term is skipped because its
      denominator is zero. */
  function TermOption(principal: real, r: real, years: nat): Option<FinancingOption>
  {
    if Denominator(r, years * 12) == 0.0 then None
    else Some(RoundedOption(years, MonthlyPayment(principal, r, years * 12), principal))
  }

  /** The option of a term given its unrounded monthly payment: the total uses the
      unrounded monthly payment, the interest the unrounded total, and each field is
      rounded on its own. */
  function RoundedOption(years: nat, monthly: real, principal: real): FinancingOption
  {
    var n := years * 12;
    var total := monthly * (n as real);
    FinancingOption(years, n, Quantize2(monthly), Quantize2(total), Quantize2(total - principal))
  }

  /** The options for the given terms, in the order of the terms. */
  function OptionsFor(principal: real, r: real, terms: seq<nat>): seq<FinancingOption>
  {
    if terms == [] then []
    else
      var rest := OptionsFor(principal, r, terms[..|terms| - 1]);
      match TermOption(principal, r, terms[|terms| - 1])
      case None => rest
      case Some(o) => rest + [o]
  }

  lemma OptionsForSnoc(principal: real, r: real, terms: seq<nat>, i: nat)
    requires i < |terms|
    ensures OptionsFor(principal, r, terms[..i + 1]) ==
      match TermOption(principal, r, terms[i])
      case None => OptionsFor(principal, r, terms[..i])
      case Some(o) => OptionsFor(principal, r, terms[..i]) + [o]
  {
    assert terms[..i + 1][..i] == terms[..i];
  }

  /** calc_financing as a function of its arguments. */
  function Calc(price: real, downPayment: real, annualRate: real): (res: Result<seq<FinancingOption>, FinancingError>)
    ensures price <= 0.0 ==> res == Err(PriceNotPositive)
    ensures price > 0.0 && downPayment < 0.0 ==> res == Err(NegativeDownPayment)
    ensures price > 0.0 && 0.0 <= downPayment && price <= downPayment ==> res == Ok([])
    ensures res.Err? <==> price <= 0.0 || downPayment < 0.0
  {
    if price <= 0.0 then Err(PriceNotPositive)
    else if downPayment < 0.0 then Err(NegativeDownPayment)
    else if downPayment >= price then Ok([])
    else Ok(OptionsFor(price - downPayment, annualRate / 12.0, Terms))
  }

  /** calc_financing: the validation, then the loop over the terms that skips a term
      with a zero denominator and appends every other option. */
  method CalcFinancing(price: real, downPayment: real, annualRate: real)
    returns (res: Result<seq<FinancingOption>, FinancingError>)
    ensures res == Calc(price, downPayment, annualRate)
  {
    if price <= 0.0 {
      return Err(PriceNotPositive);
    }
    if downPayment < 0.0 {
      return Err(NegativeDownPayment);
    }
    if downPayment >= price {
      return Ok([]);
    }
    var principal := price - downPayment;
    var r := annualRate / 12.0;
    var terms := Terms;
    var options: seq<FinancingOption> := [];
    for i := 0 to |terms|
      invariant options == OptionsFor(principal, r, terms[..i])
    {
      OptionsForSnoc(principal, r, terms, i);
      var years := terms[i];
      var n := years * 12;
      var denom := Pow(1.0 + r, n) - 1.0;
      if denom == 0.0 {
        continue;
      }
      var monthly := MonthlyPayment(principal, r, n);
      options := options + [RoundedOption(years, monthly, principal)];
    }
    assert terms[..|terms|] == terms;
    return Ok(options);
  }

  // ---------------------------------------------------------------------------
  // Properties of the options.

  /** Options come in term order, each a term from the offered list with months =
      years * 12, and there is at most one per term. */
  lemma {:induction false} OptionsOrdered(principal: real, r: real, terms: seq<nat>)
    requires forall i, j :: 0 <= i < j < |terms| ==> terms[i] < terms[j]
    ensures var os := OptionsFor(principal, r, terms);
      |os| <= |terms| &&
      (forall k :: 0 <= k < |os| ==> os[k].years in terms && os[k].months == os[k].years * 12) &&
      (forall k, l :: 0 <= k < l < |os| ==> os[k].years < os[l].years)
  {
    if terms != [] {
      var init := terms[..|terms| - 1];
      OptionsOrdered(principal, r, init);
      var os := OptionsFor(principal, r, init);
      assert forall k :: 0 <= k < |os| ==> os[k].years < terms[|terms| - 1] by {
        forall k | 0 <= k < |os| ensures os[k].years < terms[|terms| - 1] {
          var j :| 0 <= j < |init| && init[j] == os[k].years;
          assert terms[j] == init[j];
        }
      }
    }
  }

  /** With every denominator non-zero, every term yields one option and the years are
      exactly the terms. */
  lemma {:induction false} OptionsAllTerms(principal: real, r: real, terms: seq<nat>)
    requires forall k :: 0 <= k < |terms| ==> Denominator(r, terms[k] * 12) != 0.0
    ensures var os := OptionsFor(principal, r, terms);
      |os| == |terms| && forall k :: 0 <= k < |os| ==> os[k].years == terms[k]
  {
    if terms != [] {
      OptionsAllTerms(principal, r, terms[..|terms| - 1]);
    }
  }

  /** With every denominator zero, every term is skipped. */
  lemma {:induction false} OptionsNoTerms(principal: real, r: real, terms: seq<nat>)
    requires forall k :: 0 <= k < |terms| ==> Denominator(r, terms[k] * 12) == 0.0
    ensures OptionsFor(principal, r, terms) == []
  {
    if terms != [] {
      OptionsNoTerms(principal, r, terms[..|terms| - 1]);
    }
  }

  /** Each option is the option of one of the terms. */
  lemma {:induction false} OptionsFromTerms(principal: real, r: real, terms: seq<nat>, k: nat)
    requires k < |OptionsFor(principal, r, terms)|
    ensures var o := OptionsFor(principal, r, terms)[k];
      o.years >= 0 && TermOption(principal, r, o.years) == Some(o)
  {
    var init := terms[..|terms| - 1];
    if k < |OptionsFor(principal, r, init)| {
      OptionsFromTerms(principal, r, init, k);
    }
  }

  lemma PowGreaterThanOne(b: real, n: nat)
    requires b > 1.0 && n >= 1
    ensures Pow(b, n) > 1.0
  {
    if n > 1 {
      PowGreaterThanOne(b, n - 1);
      assert b * Pow(b, n - 1) > 1.0 * Pow(b, n - 1);
    }
  }

  lemma PowBelowOne(b: real, n: nat)
    requires 0.0 <= b < 1.0 && n >= 1
    ensures 0.0 <= Pow(b, n) < 1.0
  {
    if n > 1 {
      PowBelowOne(b, n - 1);
      var p := Pow(b, n - 1);
      assert Pow(b, n) == b * p;
      MulNonNegative(b, p);
      MulAtMostOne(b, p);
    }
  }

  lemma MulNonNegative(x: real, y: real)
    requires x >= 0.0 && y >= 0.0
    ensures x * y >= 0.0
  {
  }

  lemma MulAtMostOne(b: real, p: real)
    requires 0.0 <= b <= 1.0 && 0.0 <= p
    ensures b * p <= p
  {
    MulNonNegative(1.0 - b, p);
    assert (1.0 - b) * p == p - b * p;
  }

  lemma PowAbs(b: real, n: nat)
    ensures Abs(Pow(b, n)) == Pow(Abs(b), n)
  {
    if n > 0 {
      PowAbs(b, n - 1);
      assert Abs(b * Pow(b, n - 1)) == Abs(b) * Abs(Pow(b, n - 1));
    }
  }

  lemma PowMinusOneEven(n: nat)
    requires n % 2 == 0
    ensures Pow(-1.0, n) == 1.0
  {
    if n > 0 {
      PowMinusOneEven(n - 2);
      assert Pow(-1.0, n) == -1.0 * (-1.0 * Pow(-1.0, n - 2));
    }
  }

  /** A term of n months (n even and positive) is skipped exactly when the monthly rate
      is 0 or -2, i.e. when (1+r)^n = 1. */
  lemma DenominatorZeroIff(r: real, n: nat)
    requires n >= 2 && n % 2 == 0
    ensures Denominator(r, n) == 0.0 <==> r == 0.0 || r == -2.0
  {
    var b := 1.0 + r;
    PowAbs(b, n);
    if Abs(b) > 1.0 {
      PowGreaterThanOne(Abs(b), n);
    } else if Abs(b) < 1.0 {
      PowBelowOne(Abs(b), n);
    } else if b == -1.0 {
      PowMinusOneEven(n);
    } else {
      assert b == 1.0;
      PowOne(n);
    }
  }

  lemma PowOne(n: nat)
    ensures Pow(1.0, n) == 1.0
  {
    if n > 0 { PowOne(n - 1); }
  }

  /** For valid inputs that need financing, either every term is offered, in the order
      3, 4, 5, 6 with months = years * 12, or, when the annual rate is 0 or -24 (the
      denominators vanish), none is. */
  lemma CalcTerms(price: real, downPayment: real, annualRate: real)
    requires 0.0 < price && 0.0 <= downPayment < price
    ensures Calc(price, downPayment, annualRate).Ok?
    ensures var os := Calc(price, downPayment, annualRate).value;
      (annualRate == 0.0 || annualRate == -24.0 ==> os == []) &&
      (annualRate != 0.0 && annualRate != -24.0 ==>
        |os| == 4 && forall k :: 0 <= k < 4 ==> os[k].years == Terms[k] && os[k].months == 12 * Terms[k])
  {
    var r := annualRate / 12.0;
    var terms := Terms;
    forall k | 0 <= k < |terms| ensures Denominator(r, terms[k] * 12) == 0.0 <==> r == 0.0 || r == -2.0 {
      DenominatorZeroIff(r, terms[k] * 12);
    }
    if annualRate == 0.0 || annualRate == -24.0 {
      OptionsNoTerms(price - downPayment, r, terms);
    } else {
      OptionsAllTerms(price - downPayment, r, terms);
      OptionsOrdered(price - downPayment, r, terms);
    }
  }

  /** With a positive rate and a positive principal every unrounded monthly payment is
      positive; it exceeds the interest-only payment principal * r. */
  lemma MonthlyPositive(principal: real, r: real, n: nat)
    requires principal > 0.0 && r > 0.0 && n >= 1
    ensures Denominator(r, n) > 0.0
    ensures MonthlyPayment(principal, r, n) > principal * r > 0.0
  {
    var p := Pow(1.0 + r, n);
    PowGreaterThanOne(1.0 + r, n);
    var d := p - 1.0;
    assert p / d > 1.0;
    assert MonthlyPayment(principal, r, n) == (principal * r) * (p / d);
  }

  lemma ScaledError(e: real, n: real)
    requires Abs(e) <= 0.005 && n >= 0.0
    ensures Abs(e * n) <= 0.005 * n
  {
    if e >= 0.0 {
      assert e * n <= 0.005 * n;
    } else {
      assert -e * n <= 0.005 * n;
    }
  }

  /** The three rounded figures of a term, each within half a cent of the figure it
      rounds. */
  lemma QuantizedFigures(m: real, t: real, p: real)
    ensures m - 0.005 <= Quantize2(m) <= m + 0.005
    ensures t - 0.005 <= Quantize2(t) <= t + 0.005
    ensures t - p - 0.005 <= Quantize2(t - p) <= t - p + 0.005
  {
    Quantize2Near(m);
    Quantize2Near(t);
    Quantize2Near(t - p);
  }

  /** The figures of o are those of a term of `years` years with exact monthly
      payment `monthly`, each rounded to within half a cent: the monthly payment,
      the total paid (monthly * months) and the interest (total - principal). */
  predicate NearFigures(o: FinancingOption, years: nat, monthly: real, principal: real)
  {
    var t := monthly * ((years * 12) as real);
    o.months == years * 12 &&
    monthly - 0.005 <= o.monthlyPayment <= monthly + 0.005 &&
    t - 0.005 <= o.totalPaid <= t + 0.005 &&
    t - principal - 0.005 <= o.totalInterest <= t - principal + 0.005
  }

  /** Each rounded figure of an option is within half a cent of the exact
      amortisation figure it rounds. */
  lemma RoundedNear(years: nat, monthly: real, principal: real)
    ensures NearFigures(RoundedOption(years, monthly, principal), years, monthly, principal)
  {
    QuantizedFigures(monthly, monthly * ((years * 12) as real), principal);
  }

  /** Figures rounded to within half a cent agree with each other up to rounding:
      total paid is monthly payment times months within (months + 1) half cents,
      and total interest is total paid minus the principal within a cent. */
  lemma NearFiguresConsistent(o: FinancingOption, years: nat, monthly: real, principal: real)
    requires NearFigures(o, years, monthly, principal)
    ensures Abs(o.totalPaid - o.monthlyPayment * (o.months as real)) <= (o.months as real + 1.0) * 0.005
    ensures Abs(o.totalInterest - (o.totalPaid - principal)) <= 0.01
  {
    RoundingErrors(monthly, o.months as real, principal, o.monthlyPayment, o.totalPaid, o.totalInterest);
  }

  /** The rounded figures of every option agree with each other up to rounding. */
  lemma RoundedFiguresConsistent(years: nat, monthly: real, principal: real)
    ensures var o := RoundedOption(years, monthly, principal);
      Abs(o.totalPaid - o.monthlyPayment * (o.months as real)) <= (o.months as real + 1.0) * 0.005 &&
      Abs(o.totalInterest - (o.totalPaid - principal)) <= 0.01
  {
    RoundedNear(years, monthly, principal);
    NearFiguresConsistent(RoundedOption(years, monthly, principal), years, monthly, principal);
  }

  /** The arithmetic behind RoundedFiguresConsistent, on plain numbers: qm, qt and qi
      are within half a cent of m, m * n and m * n - p. */
  lemma RoundingErrors(m: real, n: real, p: real, qm: real, qt: real, qi: real)
    requires n >= 0.0
    requires m - 0.005 <= qm <= m + 0.005
    requires m * n - 0.005 <= qt <= m * n + 0.005
    requires m * n - p - 0.005 <= qi <= m * n - p + 0.005
    ensures Abs(qt - qm * n) <= (n + 1.0) * 0.005
    ensures Abs(qi - (qt - p)) <= 0.01
  {
    var e := qm - m;
    ScaledError(e, n);
    var d1, d2 := qt - m * n, e * n;
    assert qm * n == m * n + d2;
    assert qt - qm * n == d1 - d2;
    assert Abs(d1 - d2) <= Abs(d1) + Abs(d2);
    assert (n + 1.0) * 0.005 == 0.005 * n + 0.005;
  }

  /** With a positive rate and a principal large enough that the interest-only
      payment is above half a cent, all four terms are offered and every rounded
      monthly payment is positive. */
  lemma RoundedPaymentsPositive(price: real, downPayment: real, annualRate: real)
    requires 0.0 < price && 0.0 <= downPayment < price
    requires annualRate > 0.0 && (price - downPayment) * annualRate > 0.06
    ensures var res := Calc(price, downPayment, annualRate);
      res.Ok? && |res.value| == 4 &&
      forall k :: 0 <= k < 4 ==> res.value[k].years == Terms[k] && res.value[k].monthlyPayment > 0.0
  {
    var principal, r := price - downPayment, annualRate / 12.0;
    assert !(principal * annualRate <= 0.06);
    MonthlyRateShare(principal, annualRate);
    assert !(principal * r <= 0.005);
    CalcTerms(price, downPayment, annualRate);
    var os := OptionsFor(principal, r, Terms);
    forall k | 0 <= k < 4 ensures os[k].monthlyPayment > 0.0 {
      OptionsFromTerms(principal, r, Terms, k);
      OptionPaymentPositive(principal, r, os[k].years);
    }
  }

  /** A term's option, when an interest-only payment is above half a cent, has a
      positive rounded monthly payment. */
  lemma OptionPaymentPositive(principal: real, r: real, years: nat)
    requires principal > 0.0 && r > 0.0 && years >= 1 && principal * r > 0.005
    ensures TermOption(principal, r, years).Some?
    ensures TermOption(principal, r, years).value.monthlyPayment > 0.0
  {
    var n := years * 12;
    MonthlyPositive(principal, r, n);
    var m := MonthlyPayment(principal, r, n);
    RoundedNear(years, m, principal);
  }

  lemma MonthlyRateShare(x: real, c: real)
    requires x * c > 0.06
    ensures x * (c / 12.0) > 0.005
  {
    assert x * (c / 12.0) == (x * c) / 12.0;
  }

  /** The worked example: price 200000, down payment 50000, rate 0.10 gives four
      options for 3 to 6 years, each with a positive rounded monthly payment. */
  lemma ExampleTest(price: real, downPayment: real, annualRate: real)
    requires price == 200000.0 && downPayment == 50000.0 && annualRate == 0.10
    ensures var res := Calc(price, downPayment, annualRate);
      res.Ok? && |res.value| == 4 && res.value[0].years == 3 && res.value[3].years == 6 &&
      forall k :: 0 <= k < 4 ==> res.value[k].monthlyPayment > 0.0
  {
    RoundedPaymentsPositive(price, downPayment, annualRate);
  }

  /** Down payment equal to the price: nothing to finance. */
  lemma ExampleNoFinancing()
    ensures Calc(200000.0, 200000.0, 0.10) == Ok([])
  {
  }


}

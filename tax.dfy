/** Jamaican PAYE income tax, statutory contributions and payroll
    (toolkit/jamaica-tax/python/jamaica_tax/__init__.py). Amounts are exact
    reals. `round(value, 2)` is modelled as rounding to the nearest cent with
    an exact half going to the even cent, which is what Python's `round`
    does with a value it can represent exactly. */
module Tax {
  import opened Wrappers

  /** Annual income-tax threshold, J$1,500,096. */
  const AnnualThreshold: real := 1500096.0
  /** Width of the 25% band above the threshold. */
  const FirstBandWidth: real := 6000000.0
  const FirstBandRate: real := 0.25
  const SecondBandRate: real := 0.30

  const NisEmployeeRate: real := 0.03
  const NisEmployerRate: real := 0.03
  /** Annual income on which NIS is charged at most. */
  const NisAnnualCeiling: real := 5000000.0

  const NhtEmployeeRate: real := 0.02
  const NhtEmployerRate: real := 0.03

  const EducationTaxEmployeeRate: real := 0.0225
  const EducationTaxEmployerRate: real := 0.035

  const HeartNtaRate: real := 0.03

  function Min(a: real, b: real): real { if a <= b then a else b }

  // ---------------------------------------------------------------------
  // Rounding to cents
  // ---------------------------------------------------------------------

  /** The whole number nearest to `y`; an exact half goes to the even
      neighbour. Values outside [0, 2) are brought into it by steps of 2,
      which keep the parity. */
  function RoundHalfEven(y: real): int
    decreases if y < 0.0 then (-y).Floor + 2 else y.Floor
  {
    if y < 0.0 then RoundHalfEven(y + 2.0) - 2
    else if y >= 2.0 then RoundHalfEven(y - 2.0) + 2
    else if y <= 0.5 then 0
    else if y < 1.5 then 1
    else 2
  }

  /** Adding 2 to the argument adds 2 to the result. */
  lemma RoundHalfEvenStep(y: real)
    ensures RoundHalfEven(y + 2.0) == RoundHalfEven(y) + 2
  {
    if y >= 0.0 {
      assert y + 2.0 - 2.0 == y;
    }
  }

  /** The result is at most half away from `y`. */
  lemma {:induction false} RoundHalfEvenBounds(y: real)
    ensures y - 0.5 <= RoundHalfEven(y) as real <= y + 0.5
    decreases if y < 0.0 then (-y).Floor + 2 else y.Floor
  {
    if y < 0.0 {
      RoundHalfEvenBounds(y + 2.0);
    } else if y >= 2.0 {
      RoundHalfEvenBounds(y - 2.0);
    }
  }

  /** Shifting by an even whole number commutes with rounding. */
  lemma {:induction false} RoundHalfEvenShift(y: real, j: int)
    ensures RoundHalfEven(y + (2 * j) as real) == RoundHalfEven(y) + 2 * j
    decreases if j < 0 then -j else j
  {
    if j > 0 {
      RoundHalfEvenShift(y, j - 1);
      RoundHalfEvenStep(y + (2 * (j - 1)) as real);
      assert y + (2 * (j - 1)) as real + 2.0 == y + (2 * j) as real;
    } else if j < 0 {
      RoundHalfEvenShift(y, j + 1);
      RoundHalfEvenStep(y + (2 * j) as real);
      assert y + (2 * j) as real + 2.0 == y + (2 * (j + 1)) as real;
    }
  }

  /** A whole number rounds to itself. */
  lemma RoundHalfEvenWhole(n: int)
    ensures RoundHalfEven(n as real) == n
  {
    var j := n / 2;
    RoundHalfEvenShift((n % 2) as real, j);
    assert (n % 2) as real + (2 * j) as real == n as real;
  }

  /** Rounding to the nearest whole number keeps the order. */
  lemma {:induction false} RoundHalfEvenMonotone(y1: real, y2: real)
    requires y1 <= y2
    ensures RoundHalfEven(y1) <= RoundHalfEven(y2)
    decreases if y1 < 0.0 then (-y1).Floor + 2 else y1.Floor
  {
    if y1 < 0.0 {
      RoundHalfEvenStep(y1);
      RoundHalfEvenStep(y2);
      RoundHalfEvenMonotone(y1 + 2.0, y2 + 2.0);
    } else if y1 >= 2.0 {
      RoundHalfEvenStep(y1 - 2.0);
      RoundHalfEvenStep(y2 - 2.0);
      assert y1 - 2.0 + 2.0 == y1 && y2 - 2.0 + 2.0 == y2;
      RoundHalfEvenMonotone(y1 - 2.0, y2 - 2.0);
    } else if y2 >= 2.0 {
      RoundHalfEvenBounds(y2);
    }
  }

  /** Python's `round(x, ndigits)` for `ndigits >= 0`: `x` rounded to
      `ndigits` decimals, an exact half going to the even neighbour. */
  function Round(x: real, ndigits: nat): real
    decreases ndigits
  {
    if ndigits == 0 then RoundHalfEven(x) as real
    else Round(x * 10.0, ndigits - 1) / 10.0
  }

  /** `_round2`. */
  function Round2(x: real): real
  {
    Round(x, 2)
  }

  /** `k` cents, as an amount. */
  function FromCents(k: int): real { k as real / 100.0 }

  /** `x` is a whole number of cents. */
  ghost predicate IsCents(x: real) {
    exists k :: x == FromCents(k)
  }

  /** Rounding to two decimals is rounding the number of cents. */
  lemma Round2Units(x: real)
    ensures Round2(x) == RoundHalfEven(x * 100.0) as real / 100.0
  {
    assert Round(x, 2) == Round(x * 10.0, 1) / 10.0;
    assert Round(x * 10.0, 1) == Round(x * 10.0 * 10.0, 0) / 10.0;
    assert x * 10.0 * 10.0 == x * 100.0;
  }

  /** A whole number of cents is left alone by rounding. */
  lemma Round2OfCents(x: real)
    requires IsCents(x)
    ensures Round2(x) == x
  {
    var n :| x == FromCents(n);
    Round2Units(x);
    assert x * 100.0 == n as real;
    RoundHalfEvenWhole(n);
  }

  /** A whole number of cents is left alone by rounding. */
  lemma Round2OfWhole(n: int)
    ensures Round2(FromCents(n)) == FromCents(n)
  {
    Round2OfCents(FromCents(n));
  }

  /** `_round2` gives a whole number of cents at most half a cent away. */
  lemma Round2Facts(x: real)
    ensures IsCents(Round2(x))
    ensures x - 0.005 <= Round2(x) <= x + 0.005
  {
    Round2Units(x);
    RoundHalfEvenBounds(x * 100.0);
    assert Round2(x) == FromCents(RoundHalfEven(x * 100.0));
  }

  /** Rounding keeps the order. */
  lemma Round2Monotone(x: real, y: real)
    requires x <= y
    ensures Round2(x) <= Round2(y)
  {
    Round2Units(x);
    Round2Units(y);
    RoundHalfEvenMonotone(x * 100.0, y * 100.0);
  }

  /** Adding whole dollars commutes with rounding. */
  lemma Round2Shift(x: real, n: int)
    ensures Round2(x + n as real) == Round2(x) + n as real
  {
    Round2Units(x);
    Round2Units(x + n as real);
    assert (x + n as real) * 100.0 == x * 100.0 + (2 * (50 * n)) as real;
    RoundHalfEvenShift(x * 100.0, 50 * n);
  }

  /** Sums and differences of whole cents are whole cents. */
  lemma CentsArithmetic(a: real, b: real)
    requires IsCents(a) && IsCents(b)
    ensures IsCents(a + b) && IsCents(a - b)
  {
    var m :| a == FromCents(m);
    var n :| b == FromCents(n);
    assert a + b == FromCents(m + n);
    assert a - b == FromCents(m - n);
  }

  /** Rounding a non-negative amount gives a non-negative amount. */
  lemma Round2NonNegative(x: real)
    requires x >= 0.0
    ensures Round2(x) >= 0.0
  {
    assert 0.0 == FromCents(0);
    Round2OfCents(0.0);
    Round2Monotone(0.0, x);
  }

  // ---------------------------------------------------------------------
  // Income-tax brackets
  // ---------------------------------------------------------------------

  datatype TaxBracket = TaxBracket(min: real, max: Option<real>, rate: real, bracketLabel: string)

  /** `get_income_tax_brackets`: the tax-free threshold, the 25% band and
      the open-ended 30% band. */
  function IncomeTaxBrackets(): seq<TaxBracket>
  {
    [ TaxBracket(0.0, Some(AnnualThreshold), 0.0, "0 - 1,500,096 (Threshold)"),
      TaxBracket(AnnualThreshold, Some(AnnualThreshold + FirstBandWidth), FirstBandRate,
                 "1,500,097 - 7,500,096 (25%)"),
      TaxBracket(AnnualThreshold + FirstBandWidth, None, SecondBandRate, "Above 7,500,096 (30%)") ]
  }

  /** Consecutive brackets meet, the first starts at 0, and only the last
      one is open-ended. */
  predicate Contiguous(bs: seq<TaxBracket>) {
    && |bs| > 0
    && bs[0].min == 0.0
    && (forall i :: 0 < i < |bs| ==> bs[i - 1].max == Some(bs[i].min))
    && (forall i :: 0 <= i < |bs| ==> (bs[i].max.None? <==> i == |bs| - 1))
  }

  lemma BracketsContiguous()
    ensures Contiguous(IncomeTaxBrackets())
    ensures |IncomeTaxBrackets()| == 3
    ensures IncomeTaxBrackets()[0].max == Some(AnnualThreshold) && IncomeTaxBrackets()[0].rate == 0.0
  {
  }

  /** The part of `income` that falls inside bracket `b`. */
  function Portion(b: TaxBracket, income: real): (p: real)
    ensures p >= 0.0
  {
    var top := match b.max
      case None => income
      case Some(m) => Min(income, m);
    if top > b.min then top - b.min else 0.0
  }

  /** Tax charged band by band from a bracket table, in exact arithmetic. */
  function BracketTax(bs: seq<TaxBracket>, income: real): real
  {
    if bs == [] then 0.0
    else bs[0].rate * Portion(bs[0], income) + BracketTax(bs[1..], income)
  }

  // ---------------------------------------------------------------------
  // Income tax
  // ---------------------------------------------------------------------

  datatype BracketDetail = BracketDetail(bracket: string, taxableInThisBracket: real, tax: real)

  datatype IncomeTaxBreakdown = IncomeTaxBreakdown(
    annualIncome: real,
    threshold: real,
    taxableIncome: real,
    tax: real,
    effectiveRate: real,
    brackets: seq<BracketDetail>)

  /** `max(0.0, annual_income - threshold)`. */
  function TaxableIncome(income: real): (t: real)
    ensures t >= 0.0
  {
    if income - AnnualThreshold > 0.0 then income - AnnualThreshold else 0.0
  }

  /** The part of the taxable income charged at 25%. */
  function FirstBand(taxable: real): real { Min(taxable, FirstBandWidth) }

  /** The 25% band's tax, rounded to the cent. */
  function FirstBandTax(taxable: real): real { Round2(FirstBand(taxable) * FirstBandRate) }

  /** The 30% band's tax, rounded to the cent. */
  function SecondBandTax(taxable: real): real { Round2((taxable - FirstBand(taxable)) * SecondBandRate) }

  /** Tax on the two bands in exact arithmetic, before any rounding. */
  function ExactTax(income: real): real
  {
    var t := TaxableIncome(income);
    FirstBandRate * FirstBand(t) + SecondBandRate * (t - FirstBand(t))
  }

  /** The result `calculate_income_tax` returns for `annual_income`: a
      ValueError for a negative income; otherwise the 25% band up to
      J$6,000,000 above the threshold, the 30% band above that, each listed
      only when its portion is positive and each taxed and rounded on its
      own. */
  function IncomeTax(income: real): (r: Result<IncomeTaxBreakdown>)
    ensures r.Err? <==> income < 0.0
    ensures r.Err? ==> r.error == ValueError
  {
    if income < 0.0 then Err(ValueError)
    else
      var t := TaxableIncome(income);
      var first := FirstBand(t);
      var second := t - first;
      var firstTax := FirstBandTax(t);
      var secondTax := SecondBandTax(t);
      var firstDetail := if first > 0.0 then [BracketDetail("25%", Round2(first), firstTax)] else [];
      var secondDetail := if second > 0.0 then [BracketDetail("30%", Round2(second), secondTax)] else [];
      var tax := Round2(firstTax + (if second > 0.0 then secondTax else 0.0));
      var rate := if income > 0.0 then Round2(tax / income) else 0.0;
      Ok(IncomeTaxBreakdown(Round2(income), AnnualThreshold, Round2(t), tax, Round2(rate),
                            firstDetail + secondDetail))
  }

  /** `calculate_income_tax`, step by step: the remaining taxable income
      and the running total are updated band by band, and a detail is
      appended for each band that is used. */
  method CalculateIncomeTax(annualIncome: real) returns (r: Result<IncomeTaxBreakdown>)
    ensures r == IncomeTax(annualIncome)
  {
    if annualIncome < 0.0 {
      return Err(ValueError);
    }
    var taxableIncome := TaxableIncome(annualIncome);
    var details: seq<BracketDetail> := [];
    var remaining := taxableIncome;
    var totalTax := 0.0;

    var inFirst := Min(remaining, FirstBandWidth);
    var firstTax := Round2(inFirst * FirstBandRate);
    if inFirst > 0.0 {
      details := details + [BracketDetail("25%", Round2(inFirst), firstTax)];
    }
    ghost var firstDetails := details;
    totalTax := totalTax + firstTax;
    remaining := remaining - inFirst;

    var secondTax := Round2(remaining * SecondBandRate);
    if remaining > 0.0 {
      details := details + [BracketDetail("30%", Round2(remaining), secondTax)];
      totalTax := totalTax + secondTax;
    } else {
      assert details == firstDetails + [];
    }

    ghost var spec := IncomeTax(annualIncome).value;
    assert details == spec.brackets;
    assert Round2(totalTax) == spec.tax;
    totalTax := Round2(totalTax);
    var effectiveRate := if annualIncome > 0.0 then Round2(totalTax / annualIncome) else 0.0;
    r := Ok(IncomeTaxBreakdown(Round2(annualIncome), AnnualThreshold, Round2(taxableIncome),
                               totalTax, Round2(effectiveRate), details));
  }

  /** At or below the threshold nothing is taxable: no bands, no tax, and
      an effective rate of 0. */
  lemma NoTaxAtOrBelowThreshold(income: real)
    requires 0.0 <= income <= AnnualThreshold
    ensures IncomeTax(income).Ok?
    ensures IncomeTax(income).value.taxableIncome == 0.0
    ensures IncomeTax(income).value.tax == 0.0
    ensures IncomeTax(income).value.brackets == []
    ensures IncomeTax(income).value.effectiveRate == 0.0
  {
    Round2OfWhole(0);
    if income > 0.0 {
      assert 0.0 / income == 0.0;
    }
  }

  /** The tax is the sum of the two band taxes, with no further rounding
      (a sum of whole cents is already whole). */
  lemma IncomeTaxIsBandSum(income: real)
    requires income >= 0.0
    ensures IncomeTax(income).value.tax == FirstBandTax(TaxableIncome(income)) + SecondBandTax(TaxableIncome(income))
  {
    var t := TaxableIncome(income);
    var ft, st := FirstBandTax(t), SecondBandTax(t);
    Round2Facts(FirstBand(t) * FirstBandRate);
    Round2Facts((t - FirstBand(t)) * SecondBandRate);
    if t - FirstBand(t) > 0.0 {
      CentsArithmetic(ft, st);
      Round2OfCents(ft + st);
    } else {
      assert t - FirstBand(t) == 0.0;
      Round2OfWhole(0);
      assert st == 0.0;
      Round2OfCents(ft + 0.0);
    }
  }

  /** The computed tax is within a cent of the exact two-band tax: 25% of
      the taxable income up to J$6,000,000 plus 30% of the excess. */
  lemma IncomeTaxNearExact(income: real)
    requires income >= 0.0
    ensures ExactTax(income) - 0.01 <= IncomeTax(income).value.tax <= ExactTax(income) + 0.01
  {
    IncomeTaxIsBandSum(income);
    var t := TaxableIncome(income);
    Round2Facts(FirstBand(t) * FirstBandRate);
    Round2Facts((t - FirstBand(t)) * SecondBandRate);
  }

  /** A band's detail is listed exactly when its portion is positive, and
      the details' taxable amounts add up to the reported taxable income. */
  lemma IncomeTaxDetails(income: real)
    requires income >= 0.0
    ensures var b := IncomeTax(income).value;
      var t := TaxableIncome(income);
      && |b.brackets| == (if t > 0.0 then 1 else 0) + (if t > FirstBandWidth then 1 else 0)
      && (forall d :: d in b.brackets ==> d.taxableInThisBracket >= 0.0 && d.tax >= 0.0)
      && DetailTotal(b.brackets) == b.taxableIncome
  {
    var t := TaxableIncome(income);
    var first := FirstBand(t);
    var second := t - first;
    var b := IncomeTax(income).value;
    Round2NonNegative(first);
    Round2NonNegative(first * FirstBandRate);
    if t > FirstBandWidth {
      Round2NonNegative(second);
      Round2NonNegative(second * SecondBandRate);
      DetailsOfBothBands(t, first, second, b.brackets);
    } else if t > 0.0 {
      assert b.brackets == [BracketDetail("25%", Round2(first), FirstBandTax(t))];
      assert DetailTotal(b.brackets) == Round2(first);
    } else {
      assert b.brackets == [];
      Round2OfWhole(0);
    }
  }

  /** Above the first band, the 25% detail records J$6,000,000 and the 30%
      detail the rest, rounded. */
  lemma DetailsOfBothBands(t: real, first: real, second: real, ds: seq<BracketDetail>)
    requires t > FirstBandWidth && first == FirstBand(t) && second == t - first
    requires ds == [BracketDetail("25%", Round2(first), FirstBandTax(t)),
                    BracketDetail("30%", Round2(second), SecondBandTax(t))]
    ensures DetailTotal(ds) == Round2(t)
  {
    assert first == 6000000 as real;
    Round2Shift(second, 6000000);
    Round2OfWhole(600000000);
    assert ds[1..][1..] == [];
    assert DetailTotal(ds[1..]) == Round2(second) + DetailTotal(ds[1..][1..]);
  }


  /** Sum of the details' taxable amounts. */
  function DetailTotal(ds: seq<BracketDetail>): real
  {
    if ds == [] then 0.0 else ds[0].taxableInThisBracket + DetailTotal(ds[1..])
  }

  /** Income tax never decreases as income grows. */
  lemma IncomeTaxMonotone(a: real, b: real)
    requires 0.0 <= a <= b
    ensures IncomeTax(a).value.tax <= IncomeTax(b).value.tax
  {
    IncomeTaxIsBandSum(a);
    IncomeTaxIsBandSum(b);
    var ta, tb := TaxableIncome(a), TaxableIncome(b);
    var fa, fb := FirstBand(ta), FirstBand(tb);
    assert ta <= tb;
    assert fa <= fb;
    assert ta - fa <= tb - fb;
    Round2Monotone(fa * FirstBandRate, fb * FirstBandRate);
    Round2Monotone((ta - fa) * SecondBandRate, (tb - fb) * SecondBandRate);
  }

  /** The bracket table and the calculation agree: charging each bracket
      of `get_income_tax_brackets` its rate on the part of the income that
      falls in it gives the exact two-band tax. */
  lemma BracketsAgreeWithIncomeTax(income: real)
    requires income >= 0.0
    ensures BracketTax(IncomeTaxBrackets(), income) == ExactTax(income)
  {
    var bs := IncomeTaxBrackets();
    var t := TaxableIncome(income);
    var rest, last := bs[1..], bs[2..];
    assert last[1..] == [];
    assert BracketTax(last, income) == SecondBandRate * Portion(bs[2], income);
    assert BracketTax(rest, income) == FirstBandRate * Portion(bs[1], income) + BracketTax(last, income);
    assert BracketTax(bs, income) == 0.0 * Portion(bs[0], income) + BracketTax(rest, income);
    assert Portion(bs[1], income) == FirstBand(t);
    assert Portion(bs[2], income) == t - FirstBand(t);
  }

  // ---------------------------------------------------------------------
  // Statutory contributions
  // ---------------------------------------------------------------------

  datatype NisContribution = NisContribution(employee: real, employer: real, total: real, atCeiling: bool)

  datatype StatutoryContribution = StatutoryContribution(employee: real, employer: real, total: real)

  /** `calculate_nis`: 3% from employee and employer on the annual gross
      capped at J$5,000,000; a ValueError for a negative gross. */
  function Nis(annualGross: real): (r: Result<NisContribution>)
    ensures r.Err? <==> annualGross < 0.0
    ensures r.Err? ==> r.error == ValueError
  {
    if annualGross < 0.0 then Err(ValueError)
    else
      var capped := Min(annualGross, NisAnnualCeiling);
      var employee := Round2(capped * NisEmployeeRate);
      var employer := Round2(capped * NisEmployerRate);
      Ok(NisContribution(employee, employer, Round2(employee + employer), annualGross >= NisAnnualCeiling))
  }

  /** Both shares are 3% of the capped gross, so neither exceeds J$150,000
      a year and both are exactly that at or above the ceiling; the total
      is their sum, and `at_ceiling` holds exactly when the gross reaches
      the ceiling. */
  lemma NisCapped(annualGross: real)
    requires annualGross >= 0.0
    ensures var n := Nis(annualGross).value;
      && n.employee == n.employer == Round2(NisEmployeeRate * Min(annualGross, NisAnnualCeiling))
      && 0.0 <= n.employee <= 150000.0
      && (annualGross >= NisAnnualCeiling ==> n.employee == 150000.0)
      && n.total == n.employee + n.employer
      && (n.atCeiling <==> annualGross >= NisAnnualCeiling)
  {
    var capped := Min(annualGross, NisAnnualCeiling);
    var employee := Round2(capped * NisEmployeeRate);
    Round2NonNegative(capped * NisEmployeeRate);
    Round2Facts(capped * NisEmployeeRate);
    Round2OfWhole(15000000);
    Round2Monotone(capped * NisEmployeeRate, 150000.0);
    CentsArithmetic(employee, employee);
    Round2OfCents(employee + employee);
  }

  /** A levy split between employee and employer, both shares rounded on
      their own; a ValueError for a negative gross. */
  function Statutory(grossPay: real, employeeRate: real, employerRate: real): (r: Result<StatutoryContribution>)
    ensures r.Err? <==> grossPay < 0.0
    ensures r.Err? ==> r.error == ValueError
  {
    if grossPay < 0.0 then Err(ValueError)
    else
      var employee := Round2(grossPay * employeeRate);
      var employer := Round2(grossPay * employerRate);
      Ok(StatutoryContribution(employee, employer, Round2(employee + employer)))
  }

  /** The total of a split levy is the sum of its two shares, and each
      share is the rate's part of the gross to the cent. */
  lemma StatutoryTotal(grossPay: real, employeeRate: real, employerRate: real)
    requires grossPay >= 0.0
    ensures var s := Statutory(grossPay, employeeRate, employerRate).value;
      && s.total == s.employee + s.employer
      && grossPay * employeeRate - 0.005 <= s.employee <= grossPay * employeeRate + 0.005
      && grossPay * employerRate - 0.005 <= s.employer <= grossPay * employerRate + 0.005
  {
    var s := Statutory(grossPay, employeeRate, employerRate).value;
    Round2Facts(grossPay * employeeRate);
    Round2Facts(grossPay * employerRate);
    CentsArithmetic(s.employee, s.employer);
    Round2OfCents(s.employee + s.employer);
  }

  /** `calculate_nht`: 2% from the employee, 3% from the employer. */
  function Nht(grossPay: real): (r: Result<StatutoryContribution>)
    ensures r.Err? <==> grossPay < 0.0
  {
    Statutory(grossPay, NhtEmployeeRate, NhtEmployerRate)
  }

  /** `calculate_education_tax`: 2.25% from the employee, 3.5% from the
      employer. */
  function EducationTax(grossPay: real): (r: Result<StatutoryContribution>)
    ensures r.Err? <==> grossPay < 0.0
  {
    Statutory(grossPay, EducationTaxEmployeeRate, EducationTaxEmployerRate)
  }

  /** `calculate_heart`: the employer-only 3% HEART/NTA levy. */
  function Heart(grossPay: real): (r: Result<real>)
    ensures r.Err? <==> grossPay < 0.0
    ensures r.Err? ==> r.error == ValueError
  {
    if grossPay < 0.0 then Err(ValueError) else Ok(Round2(grossPay * HeartNtaRate))
  }

  // ---------------------------------------------------------------------
  // Payroll
  // ---------------------------------------------------------------------

  /** `_PERIODS_PER_YEAR`; any other period name is a missing key. */
  function PeriodsPerYear(period: string): (n: Option<int>)
    ensures n.Some? ==> n.value in {1, 12, 26, 52}
  {
    match period
    case "annual" => Some(1)
    case "monthly" => Some(12)
    case "fortnightly" => Some(26)
    case "weekly" => Some(52)
    case _ => None
  }

  datatype PayrollBreakdown = PayrollBreakdown(
    period: string,
    grossPay: real,
    annualized: real,
    incomeTax: real,
    nis: real,
    nht: real,
    educationTax: real,
    totalDeductions: real,
    netPay: real,
    employerNis: real,
    employerNht: real,
    employerEducationTax: real,
    employerHeart: real,
    totalEmployerContributions: real,
    totalCostToEmployer: real)

  /** `calculate_payroll` for one pay period: a ValueError for a negative
      gross, then a KeyError for an unknown period name. Income tax and
      NIS are computed on the annualised gross and divided back; NHT,
      education tax and HEART are charged on the period's gross. */
  function Payroll(grossPay: real, period: string): (r: Result<PayrollBreakdown>)
    ensures r.Err? <==> grossPay < 0.0 || PeriodsPerYear(period).None?
    ensures r.Err? ==> r.error == (if grossPay < 0.0 then ValueError else KeyError)
  {
    if grossPay < 0.0 then Err(ValueError)
    else match PeriodsPerYear(period)
      case None => Err(KeyError)
      case Some(n) =>
        var annualized := Round2(grossPay * n as real);
        AnnualizedNonNegative(grossPay, n);
        match (IncomeTax(annualized), Nis(annualized), Nht(grossPay), EducationTax(grossPay), Heart(grossPay))
        case (Ok(it), Ok(nisResult), Ok(nhtResult), Ok(edResult), Ok(employerHeart)) =>
          var incomeTax := PerPeriod(it.tax, n);
          var nis := PerPeriod(nisResult.employee, n);
          var employerNis := PerPeriod(nisResult.employer, n);
          var totalDeductions := Round2(incomeTax + nis + nhtResult.employee + edResult.employee);
          var totalEmployer := Round2(employerNis + nhtResult.employer + edResult.employer + employerHeart);
          Ok(PayrollBreakdown(period, Round2(grossPay), annualized, incomeTax, nis,
                              nhtResult.employee, edResult.employee, totalDeductions,
                              Round2(grossPay - totalDeductions),
                              employerNis, nhtResult.employer, edResult.employer, employerHeart,
                              totalEmployer, Round2(grossPay + totalEmployer)))
        case _ => Err(ValueError)
  }

  /** Payroll totals: the gross is annualised by the period count, the
      deductions and the employer contributions are the exact sums of their
      parts, and net pay and total cost are gross minus deductions and
      gross plus employer contributions, exactly when the gross is a whole
      number of cents and to within half a cent otherwise. */
  lemma PayrollTotals(grossPay: real, period: string)
    requires grossPay >= 0.0 && PeriodsPerYear(period).Some?
    ensures var p := Payroll(grossPay, period).value;
      && p.annualized == Round2(grossPay * PeriodsPerYear(period).value as real)
      && p.totalDeductions == p.incomeTax + p.nis + p.nht + p.educationTax
      && p.totalEmployerContributions == p.employerNis + p.employerNht + p.employerEducationTax + p.employerHeart
      && grossPay - p.totalDeductions - 0.005 <= p.netPay <= grossPay - p.totalDeductions + 0.005
      && grossPay + p.totalEmployerContributions - 0.005 <= p.totalCostToEmployer
      && p.totalCostToEmployer <= grossPay + p.totalEmployerContributions + 0.005
      && (IsCents(grossPay) ==> p.netPay == grossPay - p.totalDeductions
                                && p.totalCostToEmployer == grossPay + p.totalEmployerContributions)
  {
    var p := Payroll(grossPay, period).value;
    PayrollShape(grossPay, period, p);
    PayrollPartsInCents(grossPay, period, p);
    TotalsOfParts(grossPay, p);
  }

  /** The totals of a breakdown assembled from whole-cent parts. */
  lemma TotalsOfParts(grossPay: real, p: PayrollBreakdown)
    requires IsCents(p.incomeTax) && IsCents(p.nis) && IsCents(p.nht) && IsCents(p.educationTax)
    requires IsCents(p.employerNis) && IsCents(p.employerNht) && IsCents(p.employerEducationTax) && IsCents(p.employerHeart)
    requires p.totalDeductions == Round2(p.incomeTax + p.nis + p.nht + p.educationTax)
    requires p.totalEmployerContributions == Round2(p.employerNis + p.employerNht + p.employerEducationTax + p.employerHeart)
    requires p.netPay == Round2(grossPay - p.totalDeductions)
    requires p.totalCostToEmployer == Round2(grossPay + p.totalEmployerContributions)
    ensures p.totalDeductions == p.incomeTax + p.nis + p.nht + p.educationTax
    ensures p.totalEmployerContributions == p.employerNis + p.employerNht + p.employerEducationTax + p.employerHeart
    ensures grossPay - p.totalDeductions - 0.005 <= p.netPay <= grossPay - p.totalDeductions + 0.005
    ensures grossPay + p.totalEmployerContributions - 0.005 <= p.totalCostToEmployer
    ensures p.totalCostToEmployer <= grossPay + p.totalEmployerContributions + 0.005
    ensures IsCents(grossPay) ==> p.netPay == grossPay - p.totalDeductions
                                  && p.totalCostToEmployer == grossPay + p.totalEmployerContributions
  {
    SumOfFourCents(p.incomeTax, p.nis, p.nht, p.educationTax);
    SumOfFourCents(p.employerNis, p.employerNht, p.employerEducationTax, p.employerHeart);
    Round2Facts(grossPay - p.totalDeductions);
    Round2Facts(grossPay + p.totalEmployerContributions);
    if IsCents(grossPay) {
      CentsArithmetic(grossPay, p.totalDeductions);
      Round2OfCents(grossPay - p.totalDeductions);
      CentsArithmetic(grossPay, p.totalEmployerContributions);
      Round2OfCents(grossPay + p.totalEmployerContributions);
    }
  }

  /** How `calculate_payroll` assembles its totals from its parts. */
  lemma PayrollShape(grossPay: real, period: string, p: PayrollBreakdown)
    requires grossPay >= 0.0 && PeriodsPerYear(period).Some?
    requires p == Payroll(grossPay, period).value
    ensures p.annualized == Round2(grossPay * PeriodsPerYear(period).value as real)
    ensures p.totalDeductions == Round2(p.incomeTax + p.nis + p.nht + p.educationTax)
    ensures p.totalEmployerContributions == Round2(p.employerNis + p.employerNht + p.employerEducationTax + p.employerHeart)
    ensures p.netPay == Round2(grossPay - p.totalDeductions)
    ensures p.totalCostToEmployer == Round2(grossPay + p.totalEmployerContributions)
  {
  }

  /** Every part of a payroll is rounded to the cent. */
  lemma PayrollPartsInCents(grossPay: real, period: string, p: PayrollBreakdown)
    requires grossPay >= 0.0 && PeriodsPerYear(period).Some?
    requires p == Payroll(grossPay, period).value
    ensures IsCents(p.incomeTax) && IsCents(p.nis) && IsCents(p.nht) && IsCents(p.educationTax)
    ensures IsCents(p.employerNis) && IsCents(p.employerNht) && IsCents(p.employerEducationTax) && IsCents(p.employerHeart)
  {
    StatutoryPartsInCents(grossPay, p.nht, p.employerNht, p.educationTax, p.employerEducationTax, p.employerHeart);
  }

  /** An annual amount divided back to one of `periods` pay periods,
      rounded to the cent: within half a cent of the exact share. */
  function PerPeriod(annualAmount: real, periods: int): (r: real)
    requires periods >= 1
    ensures IsCents(r)
    ensures annualAmount / periods as real - 0.005 <= r <= annualAmount / periods as real + 0.005
  {
    Round2Facts(annualAmount / periods as real);
    Round2(annualAmount / periods as real)
  }

  /** The annualised gross of a non-negative gross is non-negative. */
  lemma AnnualizedNonNegative(grossPay: real, n: int)
    requires grossPay >= 0.0 && n >= 1
    ensures Round2(grossPay * n as real) >= 0.0
  {
    assert grossPay * n as real >= 0.0;
    Round2NonNegative(grossPay * n as real);
  }

  lemma RoundedInCents(x: real, r: real)
    requires r == Round2(x)
    ensures IsCents(r)
  {
    Round2Facts(x);
  }

  /** The levies charged on the period's gross are rounded to the cent. */
  lemma StatutoryPartsInCents(grossPay: real, nht: real, employerNht: real, ed: real, employerEd: real, heart: real)
    requires grossPay >= 0.0
    requires nht == Nht(grossPay).value.employee && employerNht == Nht(grossPay).value.employer
    requires ed == EducationTax(grossPay).value.employee && employerEd == EducationTax(grossPay).value.employer
    requires heart == Heart(grossPay).value
    ensures IsCents(nht) && IsCents(employerNht) && IsCents(ed) && IsCents(employerEd) && IsCents(heart)
  {
    RoundedInCents(grossPay * NhtEmployeeRate, nht);
    RoundedInCents(grossPay * NhtEmployerRate, employerNht);
    RoundedInCents(grossPay * EducationTaxEmployeeRate, ed);
    RoundedInCents(grossPay * EducationTaxEmployerRate, employerEd);
    RoundedInCents(grossPay * HeartNtaRate, heart);
  }

  /** Four whole-cent amounts add up to a whole-cent amount, which rounding
      leaves alone. */
  lemma SumOfFourCents(a: real, b: real, c: real, d: real)
    requires IsCents(a) && IsCents(b) && IsCents(c) && IsCents(d)
    ensures IsCents(a + b + c + d) && Round2(a + b + c + d) == a + b + c + d
  {
    CentsArithmetic(a, b);
    CentsArithmetic(a + b, c);
    CentsArithmetic(a + b + c, d);
    Round2OfCents(a + b + c + d);
  }
}

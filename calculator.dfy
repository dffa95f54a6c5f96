/**
  The fix-and-flip deal calculation: the arithmetic that `calculateDeal` and
  `calculateMortgage` perform, over exact reals. A quantity the source would
  compute as NaN or Infinity (a zero denominator) is `None` here, and an
  undefined monthly payment makes everything computed from it undefined too.
 */
module DealCalculator {
  import opened Wrappers

  /** The eight user-entered numbers. `monthsUntilFlip` and `loanTerm` go
      through `parseInt`, so they are whole numbers. */
  datatype DealInputs = DealInputs(
    purchasePrice: real,
    downPaymentPercent: real,
    closingCostsPercent: real,
    estimateRepairs: real,
    afterRepairValue: real,
    monthsUntilFlip: int,
    interestRate: real,
    loanTerm: int)

  /** The ten computed metrics, all written back together by one calculation. */
  datatype DealOutputs = DealOutputs(
    downPayment: real,
    mortgage: real,
    closingCosts: real,
    totalCapitalNeeded: real,
    monthlyMortgage: Option<real>,
    expensesDuringHolding: Option<real>,
    anticipatedProfit: Option<real>,
    seventyPercentARV: real,
    maxOffer: real,
    returnOnInvestment: Option<real>)

  /** The values the form starts with. */
  function DefaultInputs(): DealInputs {
    DealInputs(150000.0, 20.0, 2.0, 20000.0, 200000.0, 3, 6.0, 30)
  }

  // ---------------------------------------------------------------------
  // Powers and the amortized payment (calculateMortgage)
  // ---------------------------------------------------------------------

  /** b^n for a natural exponent. */
  function Pow(b: real, n: nat): real {
    if n == 0 then 1.0 else b * Pow(b, n - 1)
  }

  lemma {:induction false} PowOfOne(n: nat)
    ensures Pow(1.0, n) == 1.0
  {
    if n > 0 { PowOfOne(n - 1); }
  }

  lemma {:induction false} PowNonZero(b: real, n: nat)
    requires b != 0.0
    ensures Pow(b, n) != 0.0
  {
    if n > 0 { PowNonZero(b, n - 1); }
  }

  /** Bernoulli's inequality: compound growth is at least simple growth. */
  lemma {:induction false} Bernoulli(r: real, n: nat)
    requires r >= 0.0
    ensures Pow(1.0 + r, n) >= 1.0 + (n as real) * r
  {
    if n > 0 {
      Bernoulli(r, n - 1);
      var prev := Pow(1.0 + r, n - 1);
      var simple := 1.0 + ((n - 1) as real) * r;
      assert prev - simple >= 0.0;
      assert (1.0 + r) * (prev - simple) >= 0.0;
      assert (1.0 + r) * prev >= (1.0 + r) * simple;
      assert (1.0 + r) * (1.0 + ((n - 1) as real) * r)
          == 1.0 + (n as real) * r + ((n - 1) as real) * r * r;
      assert ((n - 1) as real) * r * r >= 0.0;
    }
  }

  /** The monthly rate of an annual percentage: twelve months at this rate,
      in percent, make up the annual rate, and it has the annual rate's sign. */
  function MonthlyRate(interestRate: real): (r: real)
    ensures r * 1200.0 == interestRate
    ensures r > 0.0 <==> interestRate > 0.0
    ensures r == 0.0 <==> interestRate == 0.0
  {
    interestRate / 100.0 / 12.0
  }

  /** Math.pow(b, n) for a whole exponent; undefined (Infinity) for 0 to a
      negative power. */
  function Growth(b: real, n: int): (g: Option<real>)
    ensures b != 0.0 ==> g.Some? && g.value != 0.0
    ensures n >= 0 ==> g == Some(Pow(b, n))
  {
    if n >= 0 then (if b != 0.0 then PowNonZero(b, n); Some(Pow(b, n)) else Some(Pow(b, n)))
    else if b == 0.0 then None
    else PowNonZero(b, -n); Some(1.0 / Pow(b, -n))
  }

  /** calculateMortgage: principal * r * (1+r)^n / ((1+r)^n - 1) with
      r = interestRate / 100 / 12 and n = years * 12; `None` where the source
      divides by zero. */
  function MonthlyPayment(principal: real, interestRate: real, years: int): Option<real> {
    var r := MonthlyRate(interestRate);
    match Growth(1.0 + r, years * 12)
    case None => None
    case Some(g) =>
      if g - 1.0 == 0.0 then None else Some(Annuity(principal, r, g))
  }

  /** The annuity formula principal * r * g / (g - 1), g standing for (1+r)^n. */
  function Annuity(principal: real, r: real, g: real): real
    requires g != 1.0
  {
    principal * r * g / (g - 1.0)
  }

  /** A zero interest rate makes the denominator (1+0)^n - 1 zero. */
  lemma ZeroRateHasNoPayment(principal: real, years: int)
    ensures MonthlyPayment(principal, 0.0, years) == None
  {
    var n := years * 12;
    if n >= 0 { PowOfOne(n); } else { PowOfOne(-n); }
  }

  /** A zero loan term makes the denominator (1+r)^0 - 1 zero. */
  lemma ZeroTermHasNoPayment(principal: real, interestRate: real)
    ensures MonthlyPayment(principal, interestRate, 0) == None
  {
  }

  /** For a positive rate and term the payment exists and satisfies the
      annuity equation P * ((1+r)^n - 1) == principal * r * (1+r)^n. */
  lemma PaymentSolvesAnnuityEquation(principal: real, interestRate: real, years: int)
    requires interestRate > 0.0 && years > 0
    ensures var r := MonthlyRate(interestRate);
            var g := Pow(1.0 + r, years * 12);
            MonthlyPayment(principal, interestRate, years).Some? &&
            MonthlyPayment(principal, interestRate, years).value * (g - 1.0) == principal * r * g
  {
    var r := MonthlyRate(interestRate);
    var n := years * 12;
    Bernoulli(r, n);
    var g := Pow(1.0 + r, n);
    assert g - 1.0 >= (n as real) * r > 0.0;
  }

  /** A positive principal at a positive rate and term has a positive payment. */
  lemma PositivePrincipalHasPositivePayment(principal: real, interestRate: real, years: int)
    requires principal > 0.0 && interestRate > 0.0 && years > 0
    ensures MonthlyPayment(principal, interestRate, years).Some?
    ensures MonthlyPayment(principal, interestRate, years).value > 0.0
  {
    var r := MonthlyRate(interestRate);
    var n := years * 12;
    Bernoulli(r, n);
    var g := Pow(1.0 + r, n);
    assert g - 1.0 > 0.0;
    assert principal * r * g > 0.0;
  }

  /** The payment lies between the interest-only payment principal * r and
      that plus an equal share principal / n of the principal. */
  lemma PaymentBounds(principal: real, interestRate: real, years: int)
    requires principal > 0.0 && interestRate > 0.0 && years > 0
    ensures var r := MonthlyRate(interestRate);
            var n := (years * 12) as real;
            var p := MonthlyPayment(principal, interestRate, years);
            p.Some? && principal * r < p.value <= principal * r + principal / n
  {
    var r := MonthlyRate(interestRate);
    var n := years * 12;
    Bernoulli(r, n);
    var g := Pow(1.0 + r, n);
    assert g - 1.0 >= (n as real) * r > 0.0;
    assert Growth(1.0 + r, n) == Some(g);
    assert g - 1.0 != 0.0;
    var pay := MonthlyPayment(principal, interestRate, years);
    assert pay.Some?;
    assert pay.value == Annuity(principal, r, g);
    AnnuityBounds(principal, r, n as real, g);
  }

  /** The bounds on the annuity formula, as facts about reals: g stands for
      (1+r)^n, which Bernoulli's inequality puts at least n * r above 1. */
  lemma AnnuityBounds(principal: real, r: real, n: real, g: real)
    requires principal > 0.0 && r > 0.0 && n > 0.0 && g - 1.0 >= n * r
    ensures principal * r < Annuity(principal, r, g) <= principal * r + principal / n
  {
    var d := g - 1.0;
    assert d > 0.0;
    var pay := principal * r * g / d;
    assert pay == principal * r + principal * r / d by {
      assert principal * r * g == principal * r * d + principal * r;
    }
    assert principal * r / d > 0.0;
    var x, y := principal * r / d, principal / n;
    assert x * d == principal * r;
    assert y * n == principal;
    assert (x - y) * (d * n) <= 0.0 by {
      assert (x - y) * (d * n) == (x * d) * n - (y * n) * d;
      assert principal * r * n <= principal * d;
    }
    NonPositiveFactor(x - y, d * n);
  }

  lemma NonPositiveFactor(a: real, b: real)
    requires b > 0.0 && a * b <= 0.0
    ensures a <= 0.0
  {
  }

  /** The balance left after k monthly payments of `payment` on a loan of
      `principal` at monthly rate r: interest accrues, then one payment. */
  function Balance(principal: real, r: real, payment: real, k: nat): real {
    if k == 0 then principal else Balance(principal, r, payment, k - 1) * (1.0 + r) - payment
  }

  /** One month of the closed form, as a ring identity. */
  lemma BalanceStep(b: real, b': real, principal: real, r: real, payment: real, g: real, g': real)
    requires b * r == principal * r * g - payment * (g - 1.0)
    requires b' == b * (1.0 + r) - payment && g' == (1.0 + r) * g
    ensures b' * r == principal * r * g' - payment * (g' - 1.0)
  {
  }

  lemma BalanceUnfold(principal: real, r: real, payment: real, k: nat)
    requires k > 0
    ensures Balance(principal, r, payment, k) == Balance(principal, r, payment, k - 1) * (1.0 + r) - payment
    ensures Pow(1.0 + r, k) == (1.0 + r) * Pow(1.0 + r, k - 1)
  {
  }

  /** The closed form carries over from k - 1 months to k months. */
  lemma BalanceClosedFormStep(principal: real, r: real, payment: real, k: nat)
    requires k > 0
    requires Balance(principal, r, payment, k - 1) * r
          == principal * r * Pow(1.0 + r, k - 1) - payment * (Pow(1.0 + r, k - 1) - 1.0)
    ensures Balance(principal, r, payment, k) * r
         == principal * r * Pow(1.0 + r, k) - payment * (Pow(1.0 + r, k) - 1.0)
  {
    var b, b' := Balance(principal, r, payment, k - 1), Balance(principal, r, payment, k);
    var g, g' := Pow(1.0 + r, k - 1), Pow(1.0 + r, k);
    BalanceUnfold(principal, r, payment, k);
    BalanceStep(b, b', principal, r, payment, g, g');
  }

  /** The balance after k months, times r, in closed form. */
  lemma {:induction false} BalanceClosedForm(principal: real, r: real, payment: real, k: nat)
    ensures Balance(principal, r, payment, k) * r
         == principal * r * Pow(1.0 + r, k) - payment * (Pow(1.0 + r, k) - 1.0)
  {
    if k > 0 {
      BalanceClosedForm(principal, r, payment, k - 1);
      BalanceClosedFormStep(principal, r, payment, k);
    }
  }

  /** The computed payment fully repays the loan: after n = 12 * years
      payments the balance is exactly zero. */
  lemma PaymentAmortizesLoan(principal: real, interestRate: real, years: int)
    requires interestRate > 0.0 && years > 0
    ensures MonthlyPayment(principal, interestRate, years).Some?
    ensures Balance(principal, MonthlyRate(interestRate),
                    MonthlyPayment(principal, interestRate, years).value, years * 12) == 0.0
  {
    PaymentSolvesAnnuityEquation(principal, interestRate, years);
    var r := MonthlyRate(interestRate);
    var pay := MonthlyPayment(principal, interestRate, years).value;
    BalanceClosedForm(principal, r, pay, years * 12);
    var b := Balance(principal, r, pay, years * 12);
    assert b * r == 0.0;
  }

  // ---------------------------------------------------------------------
  // The deal metrics (calculateDeal)
  // ---------------------------------------------------------------------

  /** The `reduce` sum over the expense amounts, folded from the left. */
  function Sum(amounts: seq<real>): real {
    if amounts == [] then 0.0 else Sum(amounts[..|amounts| - 1]) + amounts[|amounts| - 1]
  }

  lemma {:induction false} SumConcat(a: seq<real>, b: seq<real>)
    ensures Sum(a + b) == Sum(a) + Sum(b)
  {
    if b != [] {
      assert (a + b)[..|a + b| - 1] == a + b[..|b| - 1];
      SumConcat(a, b[..|b| - 1]);
    } else {
      assert a + b == a;
    }
  }

  lemma SumSingleton(x: real)
    ensures Sum([x]) == x
  {
    assert [x][..0] == [];
  }

  /** Taking out the amount at position i takes it out of the sum. */
  lemma SumRemove(a: seq<real>, i: nat)
    requires i < |a|
    ensures Sum(a) == Sum(a[..i] + a[i + 1..]) + a[i]
  {
    var pre, x, post := a[..i], a[i], a[i + 1..];
    assert a == pre + ([x] + post);
    assert Sum(a) == Sum(pre) + Sum([x] + post) by { SumConcat(pre, [x] + post); }
    assert Sum([x] + post) == x + Sum(post) by { SumConcat([x], post); SumSingleton(x); }
    assert Sum(pre + post) == Sum(pre) + Sum(post) by { SumConcat(pre, post); }
  }

  lemma MultisetRemove(a: seq<real>, i: nat)
    requires i < |a|
    ensures multiset(a) == multiset(a[..i] + a[i + 1..]) + multiset{a[i]}
  {
    assert a == a[..i] + [a[i]] + a[i + 1..];
  }

  /** Matching up the last amount of one list with an equal amount of
      another leaves two lists that are still permutations of each other. */
  lemma PermutationRemove(a: seq<real>, b: seq<real>, i: nat)
    requires multiset(a) == multiset(b) && a != []
    requires i < |b| && b[i] == a[|a| - 1]
    ensures multiset(a[..|a| - 1]) == multiset(b[..i] + b[i + 1..])
  {
    var x := b[i];
    var a', b' := a[..|a| - 1], b[..i] + b[i + 1..];
    assert a == a' + [x];
    MultisetRemove(b, i);
    assert multiset(a') + multiset{x} == multiset(b') + multiset{x};
    assert multiset(a') == multiset(a') + multiset{x} - multiset{x};
    assert multiset(b') == multiset(b') + multiset{x} - multiset{x};
  }

  /** The sum does not depend on the order of the amounts. */
  lemma {:induction false} SumPermutation(a: seq<real>, b: seq<real>)
    requires multiset(a) == multiset(b)
    ensures Sum(a) == Sum(b)
    decreases |a|
  {
    if a == [] {
      assert |b| == |multiset(b)| == 0;
    } else {
      var x := a[|a| - 1];
      assert x in multiset(b) by { assert x in multiset(a); }
      var i :| 0 <= i < |b| && b[i] == x;
      PermutationRemove(a, b, i);
      SumPermutation(a[..|a| - 1], b[..i] + b[i + 1..]);
      SumRemove(b, i);
    }
  }

  /** The body of `calculateDeal`, given the expense amounts in the order
      `Object.values` lists them. */
  function Compute(d: DealInputs, expenseAmounts: seq<real>): (o: DealOutputs)
    ensures o.downPayment + o.mortgage == d.purchasePrice
    ensures o.anticipatedProfit.Some? <==> o.monthlyMortgage.Some?
    ensures o.returnOnInvestment.Some? <==> o.anticipatedProfit.Some? && o.totalCapitalNeeded != 0.0
  {
    Metrics(d, Sum(expenseAmounts), MonthlyPayment(LoanAmount(d), d.interestRate, d.loanTerm))
  }

  function DownPayment(d: DealInputs): real {
    d.purchasePrice * (d.downPaymentPercent / 100.0)
  }

  /** What is borrowed: the price less the down payment. */
  function LoanAmount(d: DealInputs): real {
    d.purchasePrice - DownPayment(d)
  }

  function ClosingCosts(d: DealInputs): real {
    d.purchasePrice * (d.closingCostsPercent / 100.0)
  }

  /** The metrics of `calculateDeal` once the expense amounts have been
      added up and the monthly payment has been worked out. */
  function Metrics(d: DealInputs, monthlyExpenses: real, monthlyMortgage: Option<real>): DealOutputs {
    var totalCapitalNeeded := DownPayment(d) + ClosingCosts(d) + d.estimateRepairs;
    var expensesDuringHolding := HoldingExpenses(monthlyExpenses, monthlyMortgage, d.monthsUntilFlip);
    var anticipatedProfit := Profit(d, ClosingCosts(d), expensesDuringHolding);
    var seventyPercentARV := d.afterRepairValue * 0.7;
    DealOutputs(DownPayment(d), LoanAmount(d), ClosingCosts(d), totalCapitalNeeded, monthlyMortgage,
                expensesDuringHolding, anticipatedProfit, seventyPercentARV,
                seventyPercentARV - d.estimateRepairs, Roi(anticipatedProfit, totalCapitalNeeded))
  }

  /** The monthly outgoings (expenses plus mortgage payment) over the months
      of the flip; undefined with the payment. */
  function HoldingExpenses(monthlyExpenses: real, monthlyMortgage: Option<real>, months: int): (h: Option<real>)
    ensures h.Some? <==> monthlyMortgage.Some?
  {
    match monthlyMortgage
    case None => None
    case Some(m) => Some((monthlyExpenses + m) * (months as real))
  }

  lemma HoldingExpensesValue(monthlyExpenses: real, m: real, months: int)
    ensures HoldingExpenses(monthlyExpenses, Some(m), months).Some?
    ensures HoldingExpenses(monthlyExpenses, Some(m), months).value == (monthlyExpenses + m) * (months as real)
  {
  }

  /** ARV less price, repairs, closing costs and holding expenses. */
  function Profit(d: DealInputs, closingCosts: real, holding: Option<real>): (p: Option<real>)
    ensures p.Some? <==> holding.Some?
  {
    match holding
    case None => None
    case Some(h) => Some(d.afterRepairValue - d.purchasePrice - d.estimateRepairs - closingCosts - h)
  }

  lemma ProfitValue(d: DealInputs, closingCosts: real, h: real)
    ensures Profit(d, closingCosts, Some(h)).Some?
    ensures Profit(d, closingCosts, Some(h)).value + d.purchasePrice + d.estimateRepairs + closingCosts + h
         == d.afterRepairValue
  {
  }

  /** (profit / capital) * 100; undefined for zero capital. */
  function Roi(profit: Option<real>, capital: real): (roi: Option<real>)
    ensures roi.Some? <==> profit.Some? && capital != 0.0
  {
    match profit
    case None => None
    case Some(p) => if capital == 0.0 then None else Some((p / capital) * 100.0)
  }

  /** ROI is profit as a percentage of the total capital: multiplying it
      back by the capital gives 100 times the profit. */
  lemma RoiIsProfitPerCapital(d: DealInputs, expenseAmounts: seq<real>)
    requires Compute(d, expenseAmounts).returnOnInvestment.Some?
    ensures var o := Compute(d, expenseAmounts);
            o.returnOnInvestment.value * o.totalCapitalNeeded == o.anticipatedProfit.value * 100.0
  {
    var o := Compute(d, expenseAmounts);
    RoiTimesCapital(o.anticipatedProfit, o.totalCapitalNeeded);
  }

  lemma RoiTimesCapital(profit: Option<real>, capital: real)
    requires Roi(profit, capital).Some?
    ensures Roi(profit, capital).value * capital == profit.value * 100.0
  {
    var p := profit.value;
    assert (p / capital) * capital == p;
  }

  /** Total capital is the down payment, the closing costs and the repairs. */
  lemma CapitalBreakdown(d: DealInputs, expenseAmounts: seq<real>)
    ensures var o := Compute(d, expenseAmounts);
            o.totalCapitalNeeded == o.downPayment + o.closingCosts + d.estimateRepairs
            && o.downPayment == d.purchasePrice * d.downPaymentPercent / 100.0
            && o.closingCosts == d.purchasePrice * d.closingCostsPercent / 100.0
  {
  }

  /** The profit is what is left of the ARV after the price, the repairs, the
      closing costs and the monthly outgoings (expenses plus payment) over
      the holding period; it is undefined exactly when the payment is. */
  lemma ProfitBreakdown(d: DealInputs, monthlyExpenses: real, monthlyMortgage: Option<real>)
    ensures var o := Metrics(d, monthlyExpenses, monthlyMortgage);
            o.anticipatedProfit.Some? <==> monthlyMortgage.Some?
    ensures var o := Metrics(d, monthlyExpenses, monthlyMortgage);
            monthlyMortgage.Some? ==>
              var holding := (monthlyExpenses + monthlyMortgage.value) * (d.monthsUntilFlip as real);
              o.expensesDuringHolding.Some? && o.expensesDuringHolding.value == holding
              && o.anticipatedProfit.value + d.purchasePrice + d.estimateRepairs + o.closingCosts + holding
                 == d.afterRepairValue
  {
    if monthlyMortgage.Some? {
      HoldingExpensesValue(monthlyExpenses, monthlyMortgage.value, d.monthsUntilFlip);
      var holding := HoldingExpenses(monthlyExpenses, monthlyMortgage, d.monthsUntilFlip);
      ProfitValue(d, ClosingCosts(d), holding.value);
    }
  }

  /** The 70% rule: the max offer is 70% of the ARV less the repairs, and
      depends on nothing else (not price, financing, months or expenses). */
  lemma MaxOfferDependsOnlyOnArvAndRepairs(d1: DealInputs, a1: seq<real>, d2: DealInputs, a2: seq<real>)
    requires d1.afterRepairValue == d2.afterRepairValue
    requires d1.estimateRepairs == d2.estimateRepairs
    ensures Compute(d1, a1).seventyPercentARV == Compute(d2, a2).seventyPercentARV
    ensures Compute(d1, a1).maxOffer == Compute(d2, a2).maxOffer
    ensures Compute(d1, a1).maxOffer * 10.0 == d1.afterRepairValue * 7.0 - d1.estimateRepairs * 10.0
  {
  }

  /** The calculation sees the expenses only through their total. */
  lemma OnlyTheExpenseTotalMatters(d: DealInputs, a: seq<real>, b: seq<real>)
    requires Sum(a) == Sum(b)
    ensures Compute(d, a) == Compute(d, b)
  {
  }

  /** The order in which expenses were selected does not change any output. */
  lemma ExpenseOrderIsIrrelevant(d: DealInputs, a: seq<real>, b: seq<real>)
    requires multiset(a) == multiset(b)
    ensures Compute(d, a) == Compute(d, b)
  {
    SumPermutation(a, b);
  }

  /** An expense left at 0, wherever it sits in the list, changes nothing. */
  lemma ZeroExpenseIsNeutral(d: DealInputs, a: seq<real>, i: nat)
    requires i <= |a|
    ensures Compute(d, a[..i] + [0.0] + a[i..]) == Compute(d, a)
  {
    SumConcat(a[..i] + [0.0], a[i..]);
    SumConcat(a[..i], [0.0]);
    SumConcat(a[..i], a[i..]);
    SumSingleton(0.0);
    assert a[..i] + a[i..] == a;
  }

  /** A zero interest rate leaves the payment, the holding expenses, the
      profit and the ROI all undefined. */
  lemma ZeroRateLeavesResultsUndefined(d: DealInputs, expenseAmounts: seq<real>)
    requires d.interestRate == 0.0
    ensures var o := Compute(d, expenseAmounts);
            o.monthlyMortgage == None && o.expensesDuringHolding == None
            && o.anticipatedProfit == None && o.returnOnInvestment == None
  {
    var o := Compute(d, expenseAmounts);
    ZeroRateHasNoPayment(o.mortgage, d.loanTerm);
  }

  /** With a positive rate and term, ROI is defined exactly when the total
      capital is not zero. */
  lemma RoiDefinedIffCapitalNonZero(d: DealInputs, expenseAmounts: seq<real>)
    requires d.interestRate > 0.0 && d.loanTerm > 0
    ensures var o := Compute(d, expenseAmounts);
            o.returnOnInvestment.Some? <==> o.totalCapitalNeeded != 0.0
  {
    var o := Compute(d, expenseAmounts);
    PaymentSolvesAnnuityEquation(o.mortgage, d.interestRate, d.loanTerm);
  }

  // ---------------------------------------------------------------------
  // The favourable / unfavourable rule
  // ---------------------------------------------------------------------

  /** An ROI above this percentage is a great deal. */
  const FavourableRoiThreshold: real := 20.0

  datatype Verdict = Favourable | Unfavourable

  /** The result panel's verdict: favourable only for a defined ROI strictly
      above the threshold. */
  function Classify(roi: Option<real>): Verdict {
    if roi.Some? && roi.value > FavourableRoiThreshold then Favourable else Unfavourable
  }

  /** The boundary belongs to the unfavourable side: an ROI of exactly 20 is
      not a great deal, anything above it is, and an undefined ROI is not. */
  lemma ClassifyBoundary(roi: real)
    ensures Classify(Some(FavourableRoiThreshold)) == Unfavourable
    ensures Classify(None) == Unfavourable
    ensures Classify(Some(roi)) == Favourable <==> roi > FavourableRoiThreshold
  {
  }

  /** A higher ROI never turns a favourable verdict unfavourable. */
  lemma ClassifyMonotone(roi1: real, roi2: real)
    requires roi1 <= roi2
    ensures Classify(Some(roi1)) == Favourable ==> Classify(Some(roi2)) == Favourable
  {
  }

  /** With positive capital, a deal is favourable exactly when its profit
      exceeds a fifth of the capital it needs. */
  lemma FavourableIffProfitExceedsFifthOfCapital(d: DealInputs, monthlyExpenses: real, monthlyMortgage: Option<real>)
    requires Metrics(d, monthlyExpenses, monthlyMortgage).anticipatedProfit.Some?
    requires Metrics(d, monthlyExpenses, monthlyMortgage).totalCapitalNeeded > 0.0
    ensures var o := Metrics(d, monthlyExpenses, monthlyMortgage);
            (Classify(o.returnOnInvestment) == Favourable <==> o.anticipatedProfit.value * 5.0 > o.totalCapitalNeeded)
  {
    var o := Metrics(d, monthlyExpenses, monthlyMortgage);
    var p := o.anticipatedProfit.value;
    var c := o.totalCapitalNeeded;
    RoiTimesCapital(o.anticipatedProfit, c);
    var roi := o.returnOnInvestment.value;
    assert roi * c == p * 100.0;
    if roi > FavourableRoiThreshold {
      assert roi * c > FavourableRoiThreshold * c;
    } else {
      assert roi * c <= FavourableRoiThreshold * c;
    }
  }

  /** The default deal: the exact acquisition figures, a payment between
      $600 and $933.34, and a favourable verdict. */
  lemma DefaultDealIsFavourable()
    ensures var o := Compute(DefaultInputs(), []);
            o.downPayment == 30000.0 && o.mortgage == 120000.0 && o.closingCosts == 3000.0
            && o.totalCapitalNeeded == 53000.0 && o.seventyPercentARV == 140000.0
            && o.maxOffer == 120000.0
            && o.monthlyMortgage.Some? && 600.0 < o.monthlyMortgage.value < 933.34
            && Classify(o.returnOnInvestment) == Favourable
  {
    var d := DefaultInputs();
    assert LoanAmount(d) == 120000.0;
    PaymentBounds(120000.0, 6.0, 30);
    var pay := MonthlyPayment(120000.0, 6.0, 30);
    var m := pay.value;
    assert 600.0 < m < 933.34;
    assert Sum([]) == 0.0;
    assert Compute(d, []) == Metrics(d, 0.0, pay);
    ProfitBreakdown(d, 0.0, pay);
    var o := Metrics(d, 0.0, pay);
    assert o.totalCapitalNeeded == 53000.0;
    assert o.anticipatedProfit.value == 27000.0 - m * 3.0;
    FavourableIffProfitExceedsFifthOfCapital(d, 0.0, pay);
  }
}

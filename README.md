# Deal Chad AI — a verified model of the fix-and-flip deal analyser

Deal Chad AI is a single React component. It lets an investor enter a
property purchase and see what the deal is worth:

- price, down payment %, closing costs %, repairs and after-repair value (ARV);
- months until the flip, interest rate and loan term;
- a list of recurring monthly expenses chosen from a drop-down.

Pressing "Analyze Deal" computes the following, and shows a "great deal"
verdict when the ROI exceeds 20%:

- the down payment, the mortgage and the closing costs;
- the capital needed and the monthly mortgage payment (a standard amortized
  loan);
- the holding expenses, the anticipated profit and the 70%-of-ARV maximum offer;
- the return on investment (ROI).

This project models that core in Dafny and proves properties of it:

- `wrappers.dfy` — module `Wrappers`: the `Option` type.
- `calculator.dfy` — module `DealCalculator`:
  - the arithmetic of `calculateDeal` and `calculateMortgage`, over exact
    reals;
  - the ROI > 20 verdict.

  A value JavaScript would compute as NaN or Infinity (a division by zero in
  the payment formula or in the ROI) is `None`. It propagates the way NaN
  does: payment → holding expenses → profit → ROI. The payment formula gets
  a partner, the loan balance month by month; with the computed payment it
  reaches exactly zero after `12 * years` payments.
- `expenses.dfy` — module `ExpenseSelection`:
  - the drop-down categories;
  - the insertion-ordered selection list and the name → amount map;
  - the invariant tying them together (same names, no repeats, only
    drop-down values, hence at most 12 of them);
  - how the monthly total reacts to selecting an expense or typing an amount.
- `form.dfy` — module `DealChadForm`: the component state as a class
  `DealForm`.
  - Its fields are the inputs, the last outputs, the expense map and the
    selection list.
  - Its methods are the event handlers `handleInputChange`,
    `handleExpenseSelection`, `handleExpenseChange` and `calculateDeal`, plus
    the verdict shown in the result panel.
  - Each method states its whole new state and keeps the consistency
    invariant.

The expense amounts reach the calculation as `Object.values(expenses)`. No
category name is integer-like, so that is the order in which the names were
first inserted. This is exactly the selection list, so the model sums the
amounts in selection order (`ExpenseAmounts`). It then proves that the order
does not matter anyway (`ExpenseOrderIsIrrelevant`).

With the default inputs and no expenses the formulas give a monthly payment
of about 719.46, a profit of about 24841.62 (200000 − 150000 − 20000 − 3000 −
3 × 719.46) and an ROI of about 46.9%. `DefaultDealIsFavourable` proves the
exact acquisition figures, bounds the payment between 600 and 933.34 and
proves that the default deal is a great deal.

## Model

| member | source | states |
|---|---|---|
| DealCalculator.DefaultInputs | src/components/DealChadAI.tsx:31-41 | the form's starting values; `DefaultDealIsFavourable` states what they compute to |
| DealCalculator.MonthlyRate | src/components/DealChadAI.tsx:150 | the monthly rate `interestRate / 100 / 12`: twelve of them make the annual percentage (`r * 1200 == interestRate`), and it is positive, or zero, exactly when the annual rate is |
| DealCalculator.MonthlyPayment | src/components/DealChadAI.tsx:149-153 | `calculateMortgage`, undefined where the source divides by zero; its contract is carried by `PaymentSolvesAnnuityEquation`, `PositivePrincipalHasPositivePayment`, `PaymentBounds`, `PaymentAmortizesLoan`, `ZeroRateHasNoPayment` and `ZeroTermHasNoPayment` |
| DealCalculator.Growth | src/components/DealChadAI.tsx:152 | `Math.pow(1 + r, n)` for a whole `n`: defined and non-zero for a non-zero base, and the ordinary power for `n >= 0` |
| DealCalculator.Bernoulli | src/components/DealChadAI.tsx:152 | compound growth `(1+r)^n` is at least `1 + n*r` for `r >= 0`, the fact that keeps the payment's denominator positive |
| DealCalculator.ZeroRateHasNoPayment | src/components/DealChadAI.tsx:149-153 | at a 0% rate the denominator `(1+0)^n - 1` is zero, so there is no payment (NaN in the source) |
| DealCalculator.ZeroTermHasNoPayment | src/components/DealChadAI.tsx:149-153 | a loan term of 0 years makes the denominator zero, so there is no payment |
| DealCalculator.PaymentSolvesAnnuityEquation | src/components/DealChadAI.tsx:149-153 | for a positive rate and term the payment exists and solves `P * ((1+r)^n - 1) == principal * r * (1+r)^n`, with `r = rate/100/12` and `n = 12*years` |
| DealCalculator.PositivePrincipalHasPositivePayment | src/components/DealChadAI.tsx:149-153 | a positive loan at a positive rate and term has a positive monthly payment |
| DealCalculator.PaymentBounds | src/components/DealChadAI.tsx:149-153 | the payment is more than the interest-only payment `principal*r` and at most that plus `principal/n` |
| DealCalculator.AnnuityBounds | src/components/DealChadAI.tsx:152 | the same bounds on the formula `principal*r*g/(g-1)` for any `g` with `g - 1 >= n*r` |
| DealCalculator.BalanceClosedForm | src/components/DealChadAI.tsx:149-153 | the balance after k months of interest-then-payment satisfies `balance*r == principal*r*(1+r)^k - payment*((1+r)^k - 1)` |
| DealCalculator.PaymentAmortizesLoan | src/components/DealChadAI.tsx:149-153 | the computed payment repays the loan exactly: the balance after `12*years` payments is 0 |
| DealCalculator.Sum | src/components/DealChadAI.tsx:122 | the `reduce((sum, e) => sum + e, 0)` over the amounts, as a left fold; `SumConcat` and `SumPermutation` state its properties |
| DealCalculator.SumConcat | src/components/DealChadAI.tsx:122 | the `reduce` sum of two concatenated amount lists is the sum of their sums |
| DealCalculator.SumPermutation | src/components/DealChadAI.tsx:122 | the `reduce` sum does not depend on the order of the amounts (lists with equal multisets have equal sums) |
| DealCalculator.Compute | src/components/DealChadAI.tsx:113-147 | the body of `calculateDeal`: the down payment and the mortgage add up to the price; the profit is defined exactly when the payment is; the ROI is defined exactly when the profit is and the capital is non-zero |
| DealCalculator.Metrics | src/components/DealChadAI.tsx:116-128 | the ten metrics of `calculateDeal` once the expense total and the payment are known; `CapitalBreakdown`, `ProfitBreakdown`, `MaxOfferDependsOnlyOnArvAndRepairs` and `FavourableIffProfitExceedsFifthOfCapital` state their values |
| DealCalculator.DownPayment | src/components/DealChadAI.tsx:116 | the down payment, `price × percent / 100`, as `CapitalBreakdown` states |
| DealCalculator.LoanAmount | src/components/DealChadAI.tsx:117 | the mortgage principal, price less down payment; `Compute` states that the two add up to the price |
| DealCalculator.ClosingCosts | src/components/DealChadAI.tsx:118 | the closing costs, `price × percent / 100`, as `CapitalBreakdown` states |
| DealCalculator.HoldingExpenses | src/components/DealChadAI.tsx:122-124 | the holding expenses are defined exactly when the monthly payment is |
| DealCalculator.Profit | src/components/DealChadAI.tsx:125 | the profit is defined exactly when the holding expenses are |
| DealCalculator.Roi | src/components/DealChadAI.tsx:128 | the ROI is defined exactly when the profit is and the capital is non-zero |
| DealCalculator.RoiTimesCapital | src/components/DealChadAI.tsx:128 | a defined ROI times the capital is 100 times the profit |
| DealCalculator.RoiIsProfitPerCapital | src/components/DealChadAI.tsx:128 | in a computed deal, ROI × total capital == profit × 100 |
| DealCalculator.CapitalBreakdown | src/components/DealChadAI.tsx:116-119 | the capital needed is the down payment + closing costs + repairs, and the first two are the stated percentages of the price |
| DealCalculator.ProfitBreakdown | src/components/DealChadAI.tsx:122-125 | the holding expenses are (expenses + payment) × months, and the profit plus price, repairs, closing costs and holding expenses gives back the ARV; the profit is undefined exactly when the payment is |
| DealCalculator.MaxOfferDependsOnlyOnArvAndRepairs | src/components/DealChadAI.tsx:126-127 | the 70% rule: the max offer is 0.7 × ARV − repairs and two deals with equal ARV and repairs have equal max offers, whatever else differs |
| DealCalculator.OnlyTheExpenseTotalMatters | src/components/DealChadAI.tsx:122 | two expense lists with the same total give identical results |
| DealCalculator.ExpenseOrderIsIrrelevant | src/components/DealChadAI.tsx:122 | reordering the expense amounts changes no output |
| DealCalculator.ZeroExpenseIsNeutral | src/components/DealChadAI.tsx:122 | inserting an expense of 0 anywhere in the list changes no output |
| DealCalculator.ZeroRateLeavesResultsUndefined | src/components/DealChadAI.tsx:121-128 | at a 0% rate the payment, the holding expenses, the profit and the ROI are all undefined |
| DealCalculator.RoiDefinedIffCapitalNonZero | src/components/DealChadAI.tsx:121-128 | at a positive rate and term the ROI is defined exactly when the capital needed is non-zero |
| DealCalculator.Classify | src/components/DealChadAI.tsx:262 | the result panel's rule, `roi && roi > 20`, with 20 named `FavourableRoiThreshold`; `ClassifyBoundary`, `ClassifyMonotone` and `FavourableIffProfitExceedsFifthOfCapital` state its contract |
| DealCalculator.ClassifyBoundary | src/components/DealChadAI.tsx:262 | the verdict is "great" exactly when the ROI is defined and strictly above 20; exactly 20 and an undefined ROI are not great |
| DealCalculator.ClassifyMonotone | src/components/DealChadAI.tsx:262 | a higher ROI never turns a great verdict into a bad one |
| DealCalculator.FavourableIffProfitExceedsFifthOfCapital | src/components/DealChadAI.tsx:128 | with positive capital, the deal is great exactly when profit × 5 > capital |
| DealCalculator.DefaultDealIsFavourable | src/components/DealChadAI.tsx:31-41 | the default deal has a 30000 down payment, a 120000 mortgage, 3000 closing costs, 53000 capital, a 140000 70%-ARV, a 120000 max offer and a payment between 600 and 933.34, and it is a great deal |
| ExpenseSelection.AppendIfAbsent | src/components/DealChadAI.tsx:90-91 | after choosing a name it is in the list, nothing else was added, the old list is a prefix, and a list without repeats stays without repeats |
| ExpenseSelection.AppendIfAbsentIdempotent | src/components/DealChadAI.tsx:90 | choosing the same expense twice is the same as choosing it once |
| ExpenseSelection.ExpenseAmounts | src/components/DealChadAI.tsx:122 | `Object.values(expenses)`: one amount per selected name, the i-th being the amount stored under the i-th name |
| ExpenseSelection.SelectingPreservesConsistency | src/components/DealChadAI.tsx:88-100 | appending a new name and storing 0 under it keeps the list and the map naming the same expenses without repeats |
| ExpenseSelection.ChangingAmountPreservesConsistency | src/components/DealChadAI.tsx:102-111 | setting the amount of a selected expense keeps the list and the map consistent |
| ExpenseSelection.AmountsIgnoreUnlisted | src/components/DealChadAI.tsx:122 | an amount stored under a name not in the list does not change the listed amounts |
| ExpenseSelection.SelectingKeepsTotal | src/components/DealChadAI.tsx:88-100 | choosing a new expense leaves the monthly expense total unchanged (it enters at 0) |
| ExpenseSelection.SelectingKeepsDropDownList | src/components/DealChadAI.tsx:88-100 | choosing a new drop-down value keeps the list made of drop-down values and at most 12 long |
| ExpenseSelection.ChangingAmountShiftsTotal | src/components/DealChadAI.tsx:102-111 | setting one selected expense's amount moves the total by exactly (new − old) |
| ExpenseSelection.SelectionIsBounded | src/components/DealChadAI.tsx:195-203 | a repeat-free list of drop-down values (11 categories plus the empty placeholder) has at most 12 entries |
| DealChadForm.ParsedOrZero | src/components/DealChadAI.tsx:76 | a failed parse (NaN) is stored as 0, a successful one as the number parsed |
| DealChadForm.WithField | src/components/DealChadAI.tsx:74-77 | replacing one input field: that field takes the new value (its whole part for the two integer fields), every other field is unchanged |
| DealChadForm.RewritingAFieldIsNoChange | src/components/DealChadAI.tsx:74-77 | writing back the value a field already holds leaves the inputs as they were |
| DealChadForm.DealForm.constructor | src/components/DealChadAI.tsx:31-42 | the initial state: default inputs, no outputs, no expenses, empty selection |
| DealChadForm.DealForm.HandleInputChange | src/components/DealChadAI.tsx:64-78 | the edited field becomes the parsed number or 0; every other field, the outputs and the expenses are unchanged |
| DealChadForm.DealForm.HandleExpenseSelection | src/components/DealChadAI.tsx:88-100 | for a value the drop-down at :195-203 delivers, a new name is appended with amount 0 and a known name changes nothing; the state stays consistent (same names in list and map, no repeats, all drop-down values), the list holds at most 12 names, the monthly total is unchanged, and inputs and outputs are untouched |
| DealChadForm.DealForm.HandleExpenseChange | src/components/DealChadAI.tsx:102-111 | the named expense takes the parsed amount or 0; the total moves by (new − old); the selection list, inputs and outputs are unchanged |
| DealChadForm.DealForm.CalculateDeal | src/components/DealChadAI.tsx:113-147 | the outputs become `Compute` of the current inputs and the expense amounts in selection order; nothing else changes |
| DealChadForm.DealForm.IsGreatDeal | src/components/DealChadAI.tsx:262 | the result panel shows a great deal exactly when the classification is favourable, which implies an ROI above 20 |

## Left out

- Rendering is not modelled:
  - the JSX layout;
  - `formatCurrency`, `formatPercent` and `getInputValue`;
  - the `handleFocus`/`handleBlur` focus tracking;
  - the labels built from field names;
  - the meme images and texts.

  They only affect what is displayed.
- The text parsing is abstracted to `Option<real>`: `None` for NaN, otherwise
  the number.
  - `parseInt(value, 10)` for months and term, and `parseFloat` after stripping
    every character other than digits, `.` and `-`, are not modelled
    character by character. Examples are parsing a prefix and stopping at a
    second `.`.
  - For the two integer fields the parse yields a whole number;
    `HandleInputChange` requires that of its argument.
- IEEE-754 double arithmetic is replaced by exact reals: rounding, overflow,
  and NaN/Infinity as values. A zero denominator gives `None`.
  - `Infinity` results are not distinguished from `NaN`. In the source a
    positive profit over a total capital of exactly 0 gives an ROI of
    `Infinity`, which passes the `> 20` test and renders as a great deal.
    The model treats every undefined ROI as not great.
- The 1.5-second `setTimeout` delay and the `isAnalyzing`/`showResult` flags
  are left out. `IsGreatDeal` requires that a calculation has run, which is
  when the result panel is shown.
- DealChadForm.DealForm.HandleExpenseChange: requires the name to be already
  selected. Its only caller is the amount input rendered for each selected
  expense, so the source never calls it otherwise.
- Numeric keys in `Object.values` ordering: JavaScript lists integer-like
  keys first. No drop-down value is integer-like, so insertion order is the
  only case modelled.

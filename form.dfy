/**
  The form state of the deal component and its event handlers: typing into
  an input, choosing an expense category, typing an expense amount, and
  pressing "Analyze Deal". The state is one object whose fields the
  handlers update in place.
 */
module DealChadForm {
  import opened Wrappers
  import opened DealCalculator
  import opened ExpenseSelection

  /** The eight numeric inputs the form renders, by name. */
  datatype InputField =
    | PurchasePrice | DownPaymentPercent | ClosingCostsPercent | EstimateRepairs
    | AfterRepairValue | MonthsUntilFlip | InterestRate | LoanTerm

  /** The inputs read with `parseInt` rather than `parseFloat`. */
  predicate IsIntegerField(field: InputField) {
    field == MonthsUntilFlip || field == LoanTerm
  }

  predicate IsWhole(x: real) {
    x.Floor as real == x
  }

  /** A parse result as stored: a failed parse (NaN) becomes 0. */
  function ParsedOrZero(parsed: Option<real>): (v: real)
    ensures parsed.None? ==> v == 0.0
    ensures parsed.Some? ==> v == parsed.value
  {
    parsed.GetOr(0.0)
  }

  function FieldValue(d: DealInputs, field: InputField): real {
    match field
    case PurchasePrice => d.purchasePrice
    case DownPaymentPercent => d.downPaymentPercent
    case ClosingCostsPercent => d.closingCostsPercent
    case EstimateRepairs => d.estimateRepairs
    case AfterRepairValue => d.afterRepairValue
    case MonthsUntilFlip => d.monthsUntilFlip as real
    case InterestRate => d.interestRate
    case LoanTerm => d.loanTerm as real
  }

  /** The inputs with one field replaced; a whole-number field keeps the
      whole part of the value. */
  function WithField(d: DealInputs, field: InputField, v: real): (r: DealInputs)
    ensures FieldValue(r, field) == if IsIntegerField(field) then v.Floor as real else v
    ensures forall other :: other != field ==> FieldValue(r, other) == FieldValue(d, other)
  {
    match field
    case PurchasePrice => d.(purchasePrice := v)
    case DownPaymentPercent => d.(downPaymentPercent := v)
    case ClosingCostsPercent => d.(closingCostsPercent := v)
    case EstimateRepairs => d.(estimateRepairs := v)
    case AfterRepairValue => d.(afterRepairValue := v)
    case MonthsUntilFlip => d.(monthsUntilFlip := v.Floor)
    case InterestRate => d.(interestRate := v)
    case LoanTerm => d.(loanTerm := v.Floor)
  }

  /** Two input records that agree on every field are the same record. */
  lemma {:induction false} FieldsDetermineInputs(d1: DealInputs, d2: DealInputs)
    requires forall field :: FieldValue(d1, field) == FieldValue(d2, field)
    ensures d1 == d2
  {
    assert FieldValue(d1, PurchasePrice) == FieldValue(d2, PurchasePrice);
    assert FieldValue(d1, DownPaymentPercent) == FieldValue(d2, DownPaymentPercent);
    assert FieldValue(d1, ClosingCostsPercent) == FieldValue(d2, ClosingCostsPercent);
    assert FieldValue(d1, EstimateRepairs) == FieldValue(d2, EstimateRepairs);
    assert FieldValue(d1, AfterRepairValue) == FieldValue(d2, AfterRepairValue);
    assert FieldValue(d1, MonthsUntilFlip) == FieldValue(d2, MonthsUntilFlip);
    assert FieldValue(d1, InterestRate) == FieldValue(d2, InterestRate);
    assert FieldValue(d1, LoanTerm) == FieldValue(d2, LoanTerm);
  }

  /** Writing back the value a field already holds changes nothing. */
  lemma RewritingAFieldIsNoChange(d: DealInputs, field: InputField)
    ensures WithField(d, field, FieldValue(d, field)) == d
  {
    FieldsDetermineInputs(WithField(d, field, FieldValue(d, field)), d);
  }

  /** The component's state: the inputs, the last computed outputs (absent
      until the first calculation), the amount of each selected expense and
      the selected expense names in the order they were chosen. */
  class DealForm {
    var inputs: DealInputs
    var outputs: Option<DealOutputs>
    var expenses: map<string, real>
    var selectedExpenses: seq<string>

    /** The list and the map name the same expenses, each once, and every
        name came from the drop-down. */
    ghost predicate Valid()
      reads this
    {
      Consistent(expenses, selectedExpenses) && AllDropDownValues(selectedExpenses)
    }

    /** `Object.values(expenses)`: the amounts in the order the names were
        selected. */
    function ExpenseValues(): (a: seq<real>)
      reads this
      requires Valid()
      ensures |a| == |selectedExpenses|
    {
      ExpenseAmounts(expenses, selectedExpenses)
    }

    /** The initial state: default inputs, no outputs, no expenses. */
    constructor ()
      ensures Valid()
      ensures inputs == DefaultInputs() && outputs == None
      ensures expenses == map[] && selectedExpenses == []
    {
      inputs := DefaultInputs();
      outputs := None;
      expenses := map[];
      selectedExpenses := [];
    }

    /** handleInputChange: store the parsed number (0 when the parse fails)
        in the one field edited. The outputs are not recomputed and go stale. */
    method HandleInputChange(field: InputField, parsed: Option<real>)
      requires Valid()
      requires IsIntegerField(field) && parsed.Some? ==> IsWhole(parsed.value)
      modifies this
      ensures Valid()
      ensures inputs == WithField(old(inputs), field, ParsedOrZero(parsed))
      ensures FieldValue(inputs, field) == ParsedOrZero(parsed)
      ensures forall other :: other != field ==> FieldValue(inputs, other) == FieldValue(old(inputs), other)
      ensures outputs == old(outputs)
      ensures expenses == old(expenses) && selectedExpenses == old(selectedExpenses)
    {
      inputs := WithField(inputs, field, ParsedOrZero(parsed));
    }

    /** handleExpenseSelection: a name not yet selected is appended to the
        list with amount 0; a name already selected changes nothing. The
        name is what the drop-down delivers, its empty placeholder value
        included, which is treated like any other name. The list never grows
        beyond the drop-down's 12 values. */
    method HandleExpenseSelection(name: string)
      requires Valid()
      requires IsDropDownValue(name)
      modifies this
      ensures Valid()
      ensures |selectedExpenses| <= |ExpenseCategories| + 1
      ensures selectedExpenses == AppendIfAbsent(old(selectedExpenses), name)
      ensures expenses == if name in old(selectedExpenses) then old(expenses) else old(expenses)[name := 0.0]
      ensures Sum(ExpenseValues()) == Sum(old(ExpenseValues()))
      ensures inputs == old(inputs) && outputs == old(outputs)
    {
      if name !in selectedExpenses {
        var e, s := expenses, selectedExpenses;
        SelectingPreservesConsistency(e, s, name);
        SelectingKeepsTotal(e, s, name);
        SelectingKeepsDropDownList(e, s, name);
        selectedExpenses := s + [name];
        expenses := e[name := 0.0];
      } else {
        SelectionIsBounded(selectedExpenses);
      }
    }

    /** handleExpenseChange: store the parsed amount (0 when the parse fails)
        under one selected name. Only the rendered list of selected names
        calls it. */
    method HandleExpenseChange(name: string, parsed: Option<real>)
      requires Valid()
      requires name in selectedExpenses
      modifies this
      ensures Valid()
      ensures expenses == old(expenses)[name := ParsedOrZero(parsed)]
      ensures Sum(ExpenseValues()) == Sum(old(ExpenseValues())) - old(expenses[name]) + ParsedOrZero(parsed)
      ensures selectedExpenses == old(selectedExpenses)
      ensures inputs == old(inputs) && outputs == old(outputs)
    {
      ChangingAmountPreservesConsistency(expenses, selectedExpenses, name, ParsedOrZero(parsed));
      ChangingAmountShiftsTotal(expenses, selectedExpenses, name, ParsedOrZero(parsed));
      expenses := expenses[name := ParsedOrZero(parsed)];
    }

    /** calculateDeal: compute every metric from the current inputs and
        expenses and store them all together. */
    method CalculateDeal()
      requires Valid()
      modifies this
      ensures Valid()
      ensures outputs == Some(Compute(inputs, ExpenseValues()))
      ensures inputs == old(inputs) && expenses == old(expenses)
      ensures selectedExpenses == old(selectedExpenses)
    {
      outputs := Some(Compute(inputs, ExpenseValues()));
    }

    /** The result panel's verdict: a great deal exactly when a calculation
        has run and its ROI is defined and above 20%. */
    method IsGreatDeal() returns (great: bool)
      requires outputs.Some?
      ensures great <==> Classify(outputs.value.returnOnInvestment) == Favourable
      ensures great ==> outputs.value.returnOnInvestment.value > FavourableRoiThreshold
    {
      var roi := outputs.value.returnOnInvestment;
      great := roi.Some? && roi.value > FavourableRoiThreshold;
    }
  }

  /** A session: analyse the default deal, then edit the price. The outputs
      still describe the default deal until the next calculation. */
  method StaleOutputsScenario()
  {
    var form := new DealForm();
    form.CalculateDeal();
    assert form.ExpenseValues() == [];
    var before := form.outputs;
    assert before == Some(Compute(DefaultInputs(), []));
    assert IsDropDownValue("Taxes") by { assert ExpenseCategories[0] == "Taxes"; }
    form.HandleExpenseSelection("Taxes");
    form.HandleInputChange(PurchasePrice, Some(100000.0));
    assert form.outputs == before;
    assert form.inputs.purchasePrice == 100000.0;
    form.HandleInputChange(LoanTerm, None);
    assert form.inputs.loanTerm == 0;
    form.CalculateDeal();
    ZeroTermHasNoPayment(form.outputs.value.mortgage, form.inputs.interestRate);
    assert form.outputs.value.returnOnInvestment == None;
    var great := form.IsGreatDeal();
    assert !great;
  }
}

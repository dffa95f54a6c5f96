/**
  The recurring-expense part of the form: the insertion-ordered list of
  selected category names and the name-to-monthly-amount map behind it.
 */
module ExpenseSelection {
  import opened DealCalculator

  /** The categories the expense drop-down offers, after its empty
      placeholder option "". */
  const ExpenseCategories: seq<string> := [
    "Taxes", "Insurance", "Trash", "Gas/Electric", "Internet", "HOA",
    "Water/Sewer", "Heat", "Lawn/Snow", "Phone Bill", "Extra"]

  /** Every value the drop-down can deliver, the placeholder included. */
  predicate IsDropDownValue(name: string) {
    name == "" || name in ExpenseCategories
  }

  predicate AllDropDownValues(selected: seq<string>) {
    forall x :: x in selected ==> IsDropDownValue(x)
  }

  predicate NoDuplicates(s: seq<string>) {
    forall i, j :: 0 <= i < j < |s| ==> s[i] != s[j]
  }

  /** The selection list and the amount map name the same expenses, each
      once. */
  ghost predicate Consistent(expenses: map<string, real>, selected: seq<string>) {
    NoDuplicates(selected) && forall name :: name in expenses <==> name in selected
  }

  /** The selection list after choosing `name`: unchanged when it is already
      there, otherwise extended at the end. */
  function AppendIfAbsent(selected: seq<string>, name: string): (r: seq<string>)
    ensures name in r
    ensures forall x :: x in r <==> x in selected || x == name
    ensures |selected| <= |r| <= |selected| + 1 && r[..|selected|] == selected
    ensures NoDuplicates(selected) ==> NoDuplicates(r)
  {
    if name in selected then selected else selected + [name]
  }

  /** Choosing a name a second time changes nothing. */
  lemma AppendIfAbsentIdempotent(selected: seq<string>, name: string)
    ensures AppendIfAbsent(AppendIfAbsent(selected, name), name) == AppendIfAbsent(selected, name)
  {
  }

  /** The amounts of the selected expenses, in selection order: what
      `Object.values` lists for a map whose keys were inserted in that order. */
  function ExpenseAmounts(expenses: map<string, real>, selected: seq<string>): (a: seq<real>)
    requires forall name :: name in selected ==> name in expenses
    ensures |a| == |selected|
    ensures forall i :: 0 <= i < |selected| ==> a[i] == expenses[selected[i]]
  {
    if selected == [] then []
    else ExpenseAmounts(expenses, selected[..|selected| - 1]) + [expenses[selected[|selected| - 1]]]
  }

  /** Choosing a name that is not yet selected, appending it and storing 0
      under it, keeps the state consistent. (Choosing a selected name changes
      nothing.) */
  lemma SelectingPreservesConsistency(expenses: map<string, real>, selected: seq<string>, name: string)
    requires Consistent(expenses, selected) && name !in selected
    ensures Consistent(expenses[name := 0.0], selected + [name])
  {
  }

  /** Setting the amount of a selected expense keeps the state consistent. */
  lemma ChangingAmountPreservesConsistency(expenses: map<string, real>, selected: seq<string>,
                                           name: string, amount: real)
    requires Consistent(expenses, selected) && name in selected
    ensures Consistent(expenses[name := amount], selected)
  {
  }

  /** An amount stored under a name that is not in the list does not show up
      among the listed amounts. */
  lemma {:induction false} AmountsIgnoreUnlisted(expenses: map<string, real>, selected: seq<string>,
                                                 name: string, amount: real)
    requires forall x :: x in selected ==> x in expenses
    requires name !in selected
    ensures ExpenseAmounts(expenses[name := amount], selected) == ExpenseAmounts(expenses, selected)
  {
    if selected != [] {
      AmountsIgnoreUnlisted(expenses, selected[..|selected| - 1], name, amount);
    }
  }

  /** Choosing a new expense leaves the monthly expense total as it was: it
      enters the list at the end with the amount 0. */
  lemma SelectingKeepsTotal(expenses: map<string, real>, selected: seq<string>, name: string)
    requires Consistent(expenses, selected) && name !in selected
    ensures Sum(ExpenseAmounts(expenses[name := 0.0], selected + [name])) == Sum(ExpenseAmounts(expenses, selected))
  {
    var expenses' := expenses[name := 0.0];
    var selected' := selected + [name];
    AmountsIgnoreUnlisted(expenses, selected, name, 0.0);
    assert selected'[..|selected'| - 1] == selected;
    assert ExpenseAmounts(expenses', selected') == ExpenseAmounts(expenses, selected) + [0.0];
    SumConcat(ExpenseAmounts(expenses, selected), [0.0]);
    SumSingleton(0.0);
  }

  /** Choosing a new drop-down value keeps the list a repeat-free list of
      drop-down values, consistent with the map, and within the drop-down's
      12 values. */
  lemma SelectingKeepsDropDownList(expenses: map<string, real>, selected: seq<string>, name: string)
    requires Consistent(expenses, selected) && AllDropDownValues(selected)
    requires IsDropDownValue(name) && name !in selected
    ensures AllDropDownValues(selected + [name])
    ensures |selected + [name]| <= |ExpenseCategories| + 1
  {
    SelectingPreservesConsistency(expenses, selected, name);
    SelectionIsBounded(selected + [name]);
  }

  /** Setting a selected expense's amount moves the monthly total by exactly
      the change in that one amount. */
  lemma {:induction false} ChangingAmountShiftsTotal(expenses: map<string, real>, selected: seq<string>,
                                                     name: string, amount: real)
    requires forall x :: x in selected ==> x in expenses
    requires NoDuplicates(selected) && name in selected
    ensures Sum(ExpenseAmounts(expenses[name := amount], selected))
         == Sum(ExpenseAmounts(expenses, selected)) - expenses[name] + amount
  {
    var last := |selected| - 1;
    var init := selected[..last];
    assert NoDuplicates(init);
    if selected[last] == name {
      assert name !in init;
      AmountsIgnoreUnlisted(expenses, init, name, amount);
    } else {
      assert name in init;
      ChangingAmountShiftsTotal(expenses, init, name, amount);
    }
  }

  /** A list of drop-down values without repeats has at most 12 entries. */
  lemma {:induction false} SelectionIsBounded(selected: seq<string>)
    requires NoDuplicates(selected) && AllDropDownValues(selected)
    ensures |selected| <= |ExpenseCategories| + 1
  {
    var values := set x | x in [""] + ExpenseCategories;
    assert |values| <= |ExpenseCategories| + 1 by { SetOfSeqSize([""] + ExpenseCategories); }
    var chosen := set x | x in selected;
    assert chosen <= values;
    DistinctSetSize(selected);
    assert |chosen| <= |values| by { SubsetSize(chosen, values); }
  }

  lemma {:induction false} SetOfSeqSize(s: seq<string>)
    ensures |set x | x in s| <= |s|
  {
    if s != [] {
      SetOfSeqSize(s[1..]);
      assert (set x | x in s) == {s[0]} + (set x | x in s[1..]);
    }
  }

  lemma {:induction false} DistinctSetSize(s: seq<string>)
    requires NoDuplicates(s)
    ensures |set x | x in s| == |s|
  {
    if s != [] {
      DistinctSetSize(s[1..]);
      assert (set x | x in s) == {s[0]} + (set x | x in s[1..]);
      assert s[0] !in s[1..];
    }
  }

  lemma {:induction false} SubsetSize(a: set<string>, b: set<string>)
    requires a <= b
    ensures |a| <= |b|
    decreases |b|
  {
    if a != {} {
      var x :| x in a;
      SubsetSize(a - {x}, b - {x});
    }
  }
}

/** The "Spending by Category" chart data of the Analytics page. */
module Analytics {
  import opened Seqs
  import opened LedgerTypes
  import opened Aggregation

  /** The grouping key of the category chart. */
  function CategoryOf(e: Expense): string {
    e.category
  }

  /** `expenses.reduce(...)`: the accumulator list is searched with `find`; a found
      entry has its value increased in place, otherwise a new entry is pushed. */
  method CategoryData(expenses: seq<Expense>) returns (acc: seq<Bucket>)
    ensures acc == Totals(expenses, CategoryOf)
    ensures Distinct(Names(acc))
    ensures forall i :: 0 <= i < |expenses| ==> expenses[i].category in Names(acc)
    ensures forall i :: 0 <= i < |acc| ==> acc[i].value == KeyedSum(expenses, CategoryOf, acc[i].name)
    ensures SumValues(acc) == TotalAmount(expenses)
  {
    acc := [];
    for i := 0 to |expenses|
      invariant acc == Totals(expenses[..i], CategoryOf)
    {
      TotalsStep(expenses, CategoryOf, i);
      acc := AddCategory(acc, expenses[i].category, expenses[i].amount);
    }
    assert expenses[..|expenses|] == expenses;
    TotalsCharacterization(expenses, CategoryOf);
    forall i | 0 <= i < |expenses| ensures expenses[i].category in Names(acc) {
      assert CategoryOf(expenses[i]) in Names(acc);
    }
  }

  /** The body of the `reduce` callback: raise the entry found by name, or push a
      new one. */
  method AddCategory(acc: seq<Bucket>, category: string, amount: real) returns (acc': seq<Bucket>)
    ensures acc' == AddTo(acc, category, amount)
  {
    var existing := FindBucket(acc, category);
    if existing.Some? {
      var k := existing.value;
      AddToFound(acc, category, amount, k);
      acc' := acc[k := acc[k].(value := acc[k].value + amount)];
    } else {
      AddToMissing(acc, category, amount);
      acc' := acc + [Bucket(category, amount)];
    }
  }
}

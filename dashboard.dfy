/** The dashboard summary: what the current user is owed and owes over all expenses,
    the five most recent expenses, and the monthly spending chart. */
module Dashboard {
  import opened Seqs
  import opened LedgerTypes
  import opened Chronology
  import opened Aggregation
  import GroupDetails

  /** `participants.length || 1`: an empty participant list divides by 1. */
  function Divisor(e: Expense): real {
    if |e.participants| == 0 then 1.0 else |e.participants| as real
  }

  /** For an expense `u` paid: one share for every participant other than `u`. */
  function OwedPart(e: Expense, u: string): real {
    if e.paidBy == u then
      var others := |e.participants| - (if u in e.participants then 1 else 0);
      (e.amount / Divisor(e)) * (others as real)
    else 0.0
  }

  /** For an expense somebody else paid and `u` takes part in: `u`'s share. */
  function OwePart(e: Expense, u: string): real {
    if e.paidBy != u && u in e.participants then e.amount / Divisor(e) else 0.0
  }

  /** What the others owe `u`, added front to back. */
  function Owed(es: seq<Expense>, u: string): real {
    if es == [] then 0.0 else Owed(es[..|es| - 1], u) + OwedPart(es[|es| - 1], u)
  }

  /** What `u` owes the others, added front to back. */
  function Owe(es: seq<Expense>, u: string): real {
    if es == [] then 0.0 else Owe(es[..|es| - 1], u) + OwePart(es[|es| - 1], u)
  }

  /** The chart's grouping key: the month label of the expense's date. */
  function MonthKey(monthOf: int -> string): Expense -> string {
    (e: Expense) => monthOf(e.date)
  }

  /** `[...expenses].sort(newest first).slice(0, 5)`. */
  function RecentExpenses(es: seq<Expense>): (r: seq<Expense>)
    ensures |r| == if |es| <= 5 then |es| else 5
    ensures forall i :: 0 <= i < |r| ==> r[i] in es
  {
    var sorted := SortNewestFirst(es);
    assert forall i :: 0 <= i < |sorted| ==> sorted[i] in multiset(sorted);
    if |sorted| <= 5 then sorted else sorted[..5]
  }

  datatype Summary = Summary(
    totalOwed: real,
    totalOwe: real,
    totalBalance: real,
    recentExpenses: seq<Expense>,
    chartData: seq<Bucket>)

  /** `user?.id || user?._id` is falsy: no user, or an empty id. */
  predicate NoUser(currentUserId: Option<string>) {
    currentUserId.None? || currentUserId.value == ""
  }

  /** The chart entries of the dictionary `monthlyData`, in key insertion order. */
  function Entries(keys: seq<string>, monthly: map<string, real>): (bs: seq<Bucket>)
    requires forall i :: 0 <= i < |keys| ==> keys[i] in monthly
    ensures Names(bs) == keys
    ensures |bs| == |keys| && forall i :: 0 <= i < |keys| ==> bs[i] == Bucket(keys[i], monthly[keys[i]])
  {
    if keys == [] then [] else [Bucket(keys[0], monthly[keys[0]])] + Entries(keys[1..], monthly)
  }

  /** The first `forEach` of the `useMemo` body: what `u` is owed and owes. */
  method OwedAndOwe(expenses: seq<Expense>, u: string) returns (owed: real, owe: real)
    ensures owed == Owed(expenses, u)
    ensures owe == Owe(expenses, u)
  {
    owed := 0.0;
    owe := 0.0;
    for i := 0 to |expenses|
      invariant owed == Owed(expenses[..i], u)
      invariant owe == Owe(expenses[..i], u)
    {
      var expense := expenses[i];
      assert expenses[..i + 1][..i] == expenses[..i];
      if expense.paidBy == u {
        var share := expense.amount / Divisor(expense);
        var amIParticipant := u in expense.participants;
        var othersCount := |expense.participants| - (if amIParticipant then 1 else 0);
        owed := owed + share * (othersCount as real);
      } else if u in expense.participants {
        var share := expense.amount / Divisor(expense);
        owe := owe + share;
      }
    }
    assert expenses[..|expenses|] == expenses;
  }

  /** The second `forEach`: sums per month label in the dictionary `monthlyData`, whose
      entries are then listed in key insertion order. */
  method MonthlyChart(expenses: seq<Expense>, monthOf: int -> string) returns (chart: seq<Bucket>)
    ensures chart == Totals(expenses, MonthKey(monthOf))
    ensures Distinct(Names(chart))
    ensures forall i :: 0 <= i < |expenses| ==> monthOf(expenses[i].date) in Names(chart)
    ensures forall i :: 0 <= i < |chart| ==> chart[i].value == KeyedSum(expenses, MonthKey(monthOf), chart[i].name)
    ensures SumValues(chart) == TotalAmount(expenses)
  {
    var monthlyData: map<string, real> := map[];
    var keys: seq<string> := [];
    for i := 0 to |expenses|
      invariant Indexed(keys, monthlyData)
      invariant Entries(keys, monthlyData) == Totals(expenses[..i], MonthKey(monthOf))
    {
      var e := expenses[i];
      var month := monthOf(e.date);
      MonthlyStep(expenses, monthOf, i, Entries(keys, monthlyData));
      keys, monthlyData := AddMonth(keys, monthlyData, month, e.amount);
    }
    assert expenses[..|expenses|] == expenses;
    chart := Entries(keys, monthlyData);
    TotalsCharacterization(expenses, MonthKey(monthOf));
  }

  /** The `useMemo` body. `monthOf` is `format(new Date(date), 'MMM')`. */
  method Summarize(expenses: seq<Expense>, currentUserId: Option<string>, monthOf: int -> string)
    returns (s: Summary)
    ensures NoUser(currentUserId) ==> s == Summary(0.0, 0.0, 0.0, [], [])
    ensures !NoUser(currentUserId) ==>
      && s.totalOwed == Owed(expenses, currentUserId.value)
      && s.totalOwe == Owe(expenses, currentUserId.value)
      && s.totalBalance == s.totalOwed - s.totalOwe
      && s.recentExpenses == RecentExpenses(expenses)
      && s.chartData == Totals(expenses, MonthKey(monthOf))
  {
    if NoUser(currentUserId) {
      return Summary(0.0, 0.0, 0.0, [], []);
    }
    var owed, owe := OwedAndOwe(expenses, currentUserId.value);
    var balance := owed - owe;
    var chart := MonthlyChart(expenses, monthOf);
    s := Summary(owed, owe, balance, RecentExpenses(expenses), chart);
  }

  lemma MonthlyStep(expenses: seq<Expense>, monthOf: int -> string, i: nat, before: seq<Bucket>)
    requires i < |expenses| && before == Totals(expenses[..i], MonthKey(monthOf))
    ensures Totals(expenses[..i + 1], MonthKey(monthOf))
      == AddTo(before, monthOf(expenses[i].date), expenses[i].amount)
  {
    TotalsStep(expenses, MonthKey(monthOf), i);
  }

  /** `monthlyData[month] = (monthlyData[month] || 0) + amount`, with `keys` tracking
      the dictionary's insertion order. */
  method AddMonth(keys: seq<string>, monthly: map<string, real>, month: string, amount: real)
    returns (keys': seq<string>, monthly': map<string, real>)
    requires Indexed(keys, monthly)
    ensures Indexed(keys', monthly')
    ensures Entries(keys', monthly') == AddTo(Entries(keys, monthly), month, amount)
  {
    if month in monthly {
      StepUpdate(keys, monthly, month, amount);
      keys', monthly' := keys, monthly[month := monthly[month] + amount];
    } else {
      StepInsert(keys, monthly, month, amount);
      keys', monthly' := keys + [month], monthly[month := 0.0 + amount];
    }
  }

  /** `keys` lists the keys of `monthly` once each, in insertion order. */
  predicate Indexed(keys: seq<string>, monthly: map<string, real>) {
    && Distinct(keys)
    && (forall j :: 0 <= j < |keys| ==> keys[j] in monthly)
    && (forall k :: k in monthly ==> k in keys)
  }

  /** The loop step for a month already in the dictionary. */
  lemma StepUpdate(keys: seq<string>, monthly: map<string, real>, k: string, v: real)
    requires Indexed(keys, monthly) && k in monthly
    ensures Indexed(keys, monthly[k := monthly[k] + v])
    ensures Entries(keys, monthly[k := monthly[k] + v]) == AddTo(Entries(keys, monthly), k, v)
  {
    EntriesUpdate(keys, monthly, k, v);
  }

  /** The loop step for a month not yet in the dictionary. */
  lemma StepInsert(keys: seq<string>, monthly: map<string, real>, k: string, v: real)
    requires Indexed(keys, monthly) && k !in monthly
    ensures Indexed(keys + [k], monthly[k := 0.0 + v])
    ensures Entries(keys + [k], monthly[k := 0.0 + v]) == AddTo(Entries(keys, monthly), k, v)
  {
    EntriesInsert(keys, monthly, k, v);
    IndexedInsert(keys, monthly, k, 0.0 + v);
  }

  lemma IndexedInsert(keys: seq<string>, monthly: map<string, real>, k: string, v: real)
    requires Indexed(keys, monthly) && k !in monthly
    ensures Indexed(keys + [k], monthly[k := v])
  {
    var keys', monthly' := keys + [k], monthly[k := v];
    assert k !in keys;
    forall i, j | 0 <= i < j < |keys'| ensures keys'[i] != keys'[j] {
      if j < |keys| {
        assert keys'[i] == keys[i] && keys'[j] == keys[j];
      } else {
        assert keys'[i] == keys[i] && keys'[j] == k;
      }
    }
    forall j | 0 <= j < |keys'| ensures keys'[j] in monthly' {
      if j < |keys| {
        assert keys'[j] == keys[j];
      }
    }
    forall x | x in monthly' ensures x in keys' {
      if x != k {
        assert x in keys;
      }
    }
  }

  /** Updating a key that is present updates its entry in place. */
  lemma EntriesUpdate(keys: seq<string>, monthly: map<string, real>, k: string, v: real)
    requires Distinct(keys) && k in keys
    requires forall i :: 0 <= i < |keys| ==> keys[i] in monthly
    ensures Entries(keys, monthly[k := monthly[k] + v]) == AddTo(Entries(keys, monthly), k, v)
  {
    var m' := monthly[k := monthly[k] + v];
    var e, e' := Entries(keys, monthly), Entries(keys, m');
    var idx := IndexOf(keys, k);
    var r := FindBucket(e, k);
    assert e[idx].name == k;
    assert r.Some?;
    assert keys[r.value] == k;
    assert r.value == idx;
    AddToFound(e, k, v, idx);
    var want := e[idx := e[idx].(value := e[idx].value + v)];
    forall i | 0 <= i < |keys| ensures e'[i] == want[i] {
      if i != idx {
        assert keys[i] != k;
      }
    }
    assert e' == want;
  }

  /** Inserting a new key appends one entry at the end. */
  lemma EntriesInsert(keys: seq<string>, monthly: map<string, real>, k: string, v: real)
    requires k !in keys
    requires forall i :: 0 <= i < |keys| ==> keys[i] in monthly
    ensures Entries(keys + [k], monthly[k := 0.0 + v]) == AddTo(Entries(keys, monthly), k, v)
  {
    EntriesIgnoresOthers(keys, monthly, k, 0.0 + v);
    EntriesSnoc(keys, monthly[k := 0.0 + v], k);
    assert FindBucket(Entries(keys, monthly), k) == None;
    AddToMissing(Entries(keys, monthly), k, v);
  }

  lemma {:induction false} EntriesIgnoresOthers(keys: seq<string>, monthly: map<string, real>, k: string, v: real)
    requires k !in keys
    requires forall i :: 0 <= i < |keys| ==> keys[i] in monthly
    ensures Entries(keys, monthly[k := v]) == Entries(keys, monthly)
  {
    if keys != [] {
      EntriesIgnoresOthers(keys[1..], monthly, k, v);
    }
  }

  lemma {:induction false} EntriesSnoc(keys: seq<string>, monthly: map<string, real>, k: string)
    requires forall i :: 0 <= i < |keys| ==> keys[i] in monthly
    requires k in monthly
    ensures Entries(keys + [k], monthly) == Entries(keys, monthly) + [Bucket(k, monthly[k])]
  {
    if keys != [] {
      assert (keys + [k])[1..] == keys[1..] + [k];
      EntriesSnoc(keys[1..], monthly, k);
    }
  }

  // ---- Properties of the summary ----

  /** With non-negative amounts, neither total is negative. */
  lemma {:induction false} TotalsAreNonNegative(es: seq<Expense>, u: string)
    requires forall i :: 0 <= i < |es| ==> es[i].amount >= 0.0
    ensures Owed(es, u) >= 0.0 && Owe(es, u) >= 0.0
  {
    if es != [] {
      TotalsAreNonNegative(es[..|es| - 1], u);
      var e := es[|es| - 1];
      assert e.amount / Divisor(e) >= 0.0;
    }
  }

  /** Per expense with at least one participant, the dashboard's bookkeeping and the
      group page's net formula agree. */
  lemma PartsAgreeWithContribution(e: Expense, u: string)
    requires e.participants != []
    ensures OwedPart(e, u) - OwePart(e, u) == GroupDetails.Contribution(e, u)
  {
    var n := |e.participants| as real;
    assert Divisor(e) == n;
    if e.paidBy == u && u in e.participants {
      assert (e.amount / n) * (n - 1.0) == e.amount - e.amount / n;
    } else if e.paidBy == u {
      assert (e.amount / n) * n == e.amount;
    }
  }

  /** When every expense has participants, the dashboard balance is the group page's
      net balance of the user, taken over all expenses. */
  lemma {:induction false} BalanceIsNet(es: seq<Expense>, u: string)
    requires forall i :: 0 <= i < |es| ==> es[i].participants != []
    ensures Owed(es, u) - Owe(es, u) == GroupDetails.Net(es, u)
  {
    if es != [] {
      var p := es[..|es| - 1];
      var e := es[|es| - 1];
      BalanceIsNet(p, u);
      PartsAgreeWithContribution(e, u);
      assert es == p + [e];
      GroupDetails.NetSnoc(p, e, u);
    }
  }

  /** Where the two formulas part: an expense the user paid with no participants
      counts nothing on the dashboard but its whole amount on the group page. */
  lemma NoParticipantsDisagree(e: Expense, u: string)
    requires e.paidBy == u && e.participants == []
    ensures Owed([e], u) - Owe([e], u) == 0.0
    ensures GroupDetails.Net([e], u) == e.amount
  {
    assert [e][..0] == [];
    GroupDetails.NetSnoc([], e, u);
    assert [] + [e] == [e];
  }

  /** In a list ordered newest first, nothing after position `k` is newer than
      anything before it. */
  lemma SuffixIsNotNewer(s: seq<Expense>, k: nat, x: Expense, i: nat)
    requires NewestFirst(s) && k <= |s| && i < k
    requires x in multiset(s[k..])
    ensures x.date <= s[i].date
  {
    assert x in s[k..];
    var j :| 0 <= j < |s[k..]| && s[k..][j] == x;
    assert s[k + j] == x;
  }

  /** The first `k` of a list ordered newest first are ordered, and none of the rest
      is newer than any of them. */
  lemma TakeNewest(s: seq<Expense>, k: nat)
    requires NewestFirst(s) && k <= |s|
    ensures NewestFirst(s[..k])
    ensures multiset(s[..k]) <= multiset(s)
    ensures forall x, i :: x in multiset(s) - multiset(s[..k]) && 0 <= i < k ==> x.date <= s[..k][i].date
  {
    var r := s[..k];
    assert s == r + s[k..];
    assert multiset(s) == multiset(r) + multiset(s[k..]);
    forall x, i | x in multiset(s) - multiset(r) && 0 <= i < k
      ensures x.date <= r[i].date
    {
      SuffixIsNotNewer(s, k, x, i);
    }
  }

  /** The recent list: at most five expenses, newest first, taken from the expenses,
      and none left out is newer than one taken. */
  lemma RecentExpensesAreNewest(es: seq<Expense>)
    ensures |RecentExpenses(es)| == if |es| < 5 then |es| else 5
    ensures NewestFirst(RecentExpenses(es))
    ensures multiset(RecentExpenses(es)) <= multiset(es)
    ensures forall x, i ::
      (x in multiset(es) - multiset(RecentExpenses(es)) && 0 <= i < |RecentExpenses(es)|
       ==> x.date <= RecentExpenses(es)[i].date)
  {
    var sorted := SortNewestFirst(es);
    SortIsNewestFirst(es);
    var k := if |sorted| <= 5 then |sorted| else 5;
    var r := sorted[..k];
    assert RecentExpenses(es) == r;
    TakeNewest(sorted, k);
    assert multiset(sorted) == multiset(es);
  }
}

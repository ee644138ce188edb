/** The group page: the group's expenses newest first, each member's net balance
    (what they paid minus an equal share of every expense they take part in), the
    balance rows that are shown, and the total spending. */
module GroupDetails {
  import opened Seqs
  import opened LedgerTypes
  import opened Chronology

  // ---- The group and its expenses ----

  /** A group with this id. */
  function HasGroupId(id: string): Group -> bool {
    (g: Group) => g.id == id
  }

  /** `groups.find(g => g.id === id)`: the first group with the id. */
  function FindGroup(groups: seq<Group>, id: string): (r: Option<Group>)
    ensures r.None? <==> forall i :: 0 <= i < |groups| ==> groups[i].id != id
    ensures r.Some? ==> r.value.id == id
    ensures r.Some? ==> exists i :: (0 <= i < |groups| && groups[i] == r.value
      && forall j :: 0 <= j < i ==> groups[j].id != id)
  {
    Find(groups, HasGroupId(id))
  }

  function InGroup(id: string): Expense -> bool {
    (e: Expense) => e.groupId == id
  }

  /** `expenses.filter(e => e.groupId === id).sort(newest first)`. */
  function GroupExpenses(expenses: seq<Expense>, id: string): (r: seq<Expense>)
    ensures NewestFirst(r)
    ensures multiset(r) == multiset(Filter(expenses, InGroup(id)))
    ensures forall i :: 0 <= i < |r| ==> r[i].groupId == id && r[i] in expenses
    ensures forall i :: 0 <= i < |expenses| && expenses[i].groupId == id ==> expenses[i] in r
  {
    var kept := Filter(expenses, InGroup(id));
    SortIsNewestFirst(kept);
    forall i | 0 <= i < |expenses| && expenses[i].groupId == id
      ensures expenses[i] in SortNewestFirst(kept)
    {
      assert InGroup(id)(expenses[i]);
      SortMembership(kept, expenses[i]);
    }
    forall i | 0 <= i < |SortNewestFirst(kept)|
      ensures SortNewestFirst(kept)[i].groupId == id && SortNewestFirst(kept)[i] in expenses
    {
      SortMembership(kept, SortNewestFirst(kept)[i]);
    }
    SortNewestFirst(kept)
  }

  /** Expenses of the group with the same date are listed in the order they were added. */
  lemma GroupExpensesStable(expenses: seq<Expense>, id: string, d: int)
    ensures Filter(GroupExpenses(expenses, id), DatedAt(d)) == Filter(Filter(expenses, InGroup(id)), DatedAt(d))
  {
    SortIsStable(Filter(expenses, InGroup(id)), d);
  }

  // ---- Net balance of one member ----

  /** What `m` paid for expense `e`. */
  function PaidPart(e: Expense, m: string): real {
    if e.paidBy == m then e.amount else 0.0
  }

  /** `m`'s equal share of expense `e`: nothing unless `m` is a participant. */
  function SharePart(e: Expense, m: string): real {
    if m in e.participants then e.amount / (|e.participants| as real) else 0.0
  }

  /** What `m` paid over the list, added front to back. */
  function Paid(es: seq<Expense>, m: string): real {
    if es == [] then 0.0 else Paid(es[..|es| - 1], m) + PaidPart(es[|es| - 1], m)
  }

  /** `m`'s equal shares over the list, added front to back. */
  function Share(es: seq<Expense>, m: string): real {
    if es == [] then 0.0 else Share(es[..|es| - 1], m) + SharePart(es[|es| - 1], m)
  }

  /** The net balance the page shows for member `m`: positive means the group owes `m`. */
  /** The member's net balance: what they paid minus their shares. */
  function Net(es: seq<Expense>, m: string): real {
    Paid(es, m) - Share(es, m)
  }

  /** The `forEach` loop that accumulates `paid` and `share` for one member. */
  method MemberNet(groupExpenses: seq<Expense>, memberId: string) returns (net: real)
    ensures net == Net(groupExpenses, memberId)
  {
    var paid := 0.0;
    var share := 0.0;
    for i := 0 to |groupExpenses|
      invariant paid == Paid(groupExpenses[..i], memberId)
      invariant share == Share(groupExpenses[..i], memberId)
    {
      var e := groupExpenses[i];
      assert groupExpenses[..i + 1][..i] == groupExpenses[..i];
      if e.paidBy == memberId {
        paid := paid + e.amount;
      }
      if memberId in e.participants {
        share := share + e.amount / (|e.participants| as real);
      }
    }
    assert groupExpenses[..|groupExpenses|] == groupExpenses;
    net := paid - share;
  }

  /** What one expense adds to a member's net balance. */
  function Contribution(e: Expense, m: string): real {
    PaidPart(e, m) - SharePart(e, m)
  }

  lemma NetSnoc(es: seq<Expense>, e: Expense, m: string)
    ensures Net(es + [e], m) == Net(es, m) + Contribution(e, m)
  {
    assert (es + [e])[..|es|] == es;
  }

  lemma {:induction false} NetConcat(a: seq<Expense>, b: seq<Expense>, m: string)
    ensures Net(a + b, m) == Net(a, m) + Net(b, m)
  {
    if b == [] {
      assert a + b == a;
    } else {
      var p := b[..|b| - 1];
      assert a + b == (a + p) + [b[|b| - 1]];
      assert b == p + [b[|b| - 1]];
      NetConcat(a, p, m);
      NetSnoc(a + p, b[|b| - 1], m);
      NetSnoc(p, b[|b| - 1], m);
    }
  }

  /** A member who neither paid for nor takes part in any of the expenses has net 0,
      so the page hides their row. */
  lemma {:induction false} UninvolvedMemberIsSettled(es: seq<Expense>, m: string)
    requires forall i :: 0 <= i < |es| ==> es[i].paidBy != m && m !in es[i].participants
    ensures Net(es, m) == 0.0
    ensures BalanceLine(Net(es, m)).None?
  {
    if es != [] {
      UninvolvedMemberIsSettled(es[..|es| - 1], m);
    }
  }

  /** An expense whose only participant is its payer changes nobody's net balance,
      wherever it stands in the list. */
  lemma SelfPaidExpenseIsNeutral(a: seq<Expense>, e: Expense, b: seq<Expense>, m: string)
    requires e.participants == [e.paidBy]
    ensures Net(a + [e] + b, m) == Net(a + b, m)
  {
    NetConcat(a + [e], b, m);
    NetSnoc(a, e, m);
    NetConcat(a, b, m);
  }

  // ---- The nets of all members sum to zero ----

  function SumNets(ids: seq<string>, es: seq<Expense>): real {
    if ids == [] then 0.0 else Net(es, ids[0]) + SumNets(ids[1..], es)
  }

  function SumContributions(ids: seq<string>, e: Expense): real {
    if ids == [] then 0.0 else Contribution(e, ids[0]) + SumContributions(ids[1..], e)
  }

  function SumPaidParts(ids: seq<string>, e: Expense): real {
    if ids == [] then 0.0 else PaidPart(e, ids[0]) + SumPaidParts(ids[1..], e)
  }

  function SumShareParts(ids: seq<string>, e: Expense): real {
    if ids == [] then 0.0 else SharePart(e, ids[0]) + SumShareParts(ids[1..], e)
  }

  /** How many of `ids` are participants of `e`. */
  function CountParticipants(ids: seq<string>, e: Expense): nat {
    if ids == [] then 0 else (if ids[0] in e.participants then 1 else 0) + CountParticipants(ids[1..], e)
  }

  lemma {:induction false} SumNetsSnoc(ids: seq<string>, es: seq<Expense>, e: Expense)
    ensures SumNets(ids, es + [e]) == SumNets(ids, es) + SumContributions(ids, e)
  {
    if ids != [] {
      NetSnoc(es, e, ids[0]);
      SumNetsSnoc(ids[1..], es, e);
    }
  }

  lemma {:induction false} SumContributionsSplit(ids: seq<string>, e: Expense)
    ensures SumContributions(ids, e) == SumPaidParts(ids, e) - SumShareParts(ids, e)
  {
    if ids != [] {
      SumContributionsSplit(ids[1..], e);
    }
  }

  /** Among distinct members, exactly one is the payer and receives the amount. */
  lemma {:induction false} SumPaidPartsIsAmount(ids: seq<string>, e: Expense)
    requires Distinct(ids)
    ensures SumPaidParts(ids, e) == if e.paidBy in ids then e.amount else 0.0
  {
    if ids != [] {
      assert Distinct(ids[1..]);
      SumPaidPartsIsAmount(ids[1..], e);
      assert ids[0] == e.paidBy ==> e.paidBy !in ids[1..];
      assert e.paidBy in ids <==> ids[0] == e.paidBy || e.paidBy in ids[1..];
    }
  }

  lemma {:induction false} SumSharePartsIsCount(ids: seq<string>, e: Expense)
    requires e.participants != []
    ensures SumShareParts(ids, e)
      == (CountParticipants(ids, e) as real) * (e.amount / (|e.participants| as real))
  {
    if ids != [] {
      SumSharePartsIsCount(ids[1..], e);
    }
  }

  function Elements(s: seq<string>): set<string> {
    set x | x in s
  }

  lemma {:induction false} DistinctElements(s: seq<string>)
    requires Distinct(s)
    ensures |Elements(s)| == |s|
  {
    if s != [] {
      assert Distinct(s[1..]);
      DistinctElements(s[1..]);
      assert Elements(s) == {s[0]} + Elements(s[1..]);
      assert s[0] !in Elements(s[1..]);
    }
  }

  lemma ElementsCons(s: seq<string>)
    requires s != []
    ensures Elements(s) == {s[0]} + Elements(s[1..])
  {
    assert s == [s[0]] + s[1..];
  }

  lemma OverlapStep(h: string, t: set<string>, ps: set<string>)
    requires h !in t
    ensures |({h} + t) * ps| == (if h in ps then 1 else 0) + |t * ps|
  {
    if h in ps {
      assert ({h} + t) * ps == {h} + t * ps;
    } else {
      assert ({h} + t) * ps == t * ps;
    }
  }

  lemma {:induction false} CountParticipantsIsOverlap(ids: seq<string>, e: Expense)
    requires Distinct(ids)
    ensures CountParticipants(ids, e) == |Elements(ids) * Elements(e.participants)|
  {
    if ids == [] {
      assert Elements(ids) == {};
    } else {
      var h, t, ps := ids[0], ids[1..], Elements(e.participants);
      assert Distinct(t) by {
        forall i, j | 0 <= i < j < |t| ensures t[i] != t[j] {
          assert ids[i + 1] != ids[j + 1];
        }
      }
      CountParticipantsIsOverlap(t, e);
      assert h !in Elements(t) by {
        forall j | 0 <= j < |t| ensures t[j] != h {
          assert ids[0] != ids[j + 1];
        }
      }
      ElementsCons(ids);
      OverlapStep(h, Elements(t), ps);
      assert h in ps <==> h in e.participants;
    }
  }

  /** `c` shares of `amount / n` make up `amount` when `c` is `n`. */
  lemma SharesTimesCount(c: nat, n: nat, amount: real)
    requires c == n > 0
    ensures (c as real) * (amount / (n as real)) == amount
  {
  }

  /** The equal shares of one well-formed expense add up to its amount. */
  lemma SharesAddUpToAmount(ids: seq<string>, e: Expense)
    requires Distinct(ids) && Distinct(e.participants) && e.participants != []
    requires forall i :: 0 <= i < |e.participants| ==> e.participants[i] in ids
    ensures SumShareParts(ids, e) == e.amount
  {
    SumSharePartsIsCount(ids, e);
    EveryParticipantCounted(ids, e);
    SharesTimesCount(CountParticipants(ids, e), |e.participants|, e.amount);
  }

  /** When the participants are distinct members, every one of them is counted once. */
  lemma EveryParticipantCounted(ids: seq<string>, e: Expense)
    requires Distinct(ids) && Distinct(e.participants)
    requires forall i :: 0 <= i < |e.participants| ==> e.participants[i] in ids
    ensures CountParticipants(ids, e) == |e.participants|
  {
    var ps := e.participants;
    CountParticipantsIsOverlap(ids, e);
    assert Elements(ids) * Elements(ps) == Elements(ps);
    DistinctElements(ps);
  }

  /** The shape of expenses for which the group's balances reconcile: the payer is a
      member, and the participants are distinct members, at least one of them. */
  predicate WellFormedIn(e: Expense, ids: seq<string>) {
    && e.paidBy in ids
    && e.participants != []
    && Distinct(e.participants)
    && (forall i :: 0 <= i < |e.participants| ==> e.participants[i] in ids)
  }

  /** What one member gains, the others lose: over distinct members, the net balances
      sum to zero whenever every expense is well formed for them. */
  lemma {:induction false} NetsSumToZero(ids: seq<string>, es: seq<Expense>)
    requires Distinct(ids)
    requires forall i :: 0 <= i < |es| ==> WellFormedIn(es[i], ids)
    ensures SumNets(ids, es) == 0.0
  {
    if es == [] {
      SumNetsEmpty(ids);
    } else {
      var p := es[..|es| - 1];
      var e := es[|es| - 1];
      assert es == p + [e];
      NetsSumToZero(ids, p);
      SumNetsSnoc(ids, p, e);
      SumContributionsSplit(ids, e);
      SumPaidPartsIsAmount(ids, e);
      SharesAddUpToAmount(ids, e);
    }
  }

  lemma {:induction false} SumNetsEmpty(ids: seq<string>)
    ensures SumNets(ids, []) == 0.0
  {
    if ids != [] {
      SumNetsEmpty(ids[1..]);
    }
  }

  // ---- What the page shows ----

  datatype BalanceLabel = GetsBack(amount: real) | Owes(amount: real)

  /** A row is hidden when `|net| < 0.01`; a positive net reads "gets back", any other "owes |net|". */
  function BalanceLine(net: real): (r: Option<BalanceLabel>)
    ensures r.None? <==> -0.01 < net < 0.01
    ensures r.Some? ==> (r.value.GetsBack? <==> net > 0.0)
    ensures r.Some? ==> r.value.amount > 0.0 && (r.value.amount == net || r.value.amount == -net)
  {
    var magnitude := if net < 0.0 then -net else net;
    if magnitude < 0.01 then None
    else if net > 0.0 then Some(GetsBack(net))
    else Some(Owes(magnitude))
  }

  datatype BalanceRow = BalanceRow(member: User, shown: BalanceLabel)

  /** `group.members.map(...)` with the hidden rows (`null`) dropped, in member order. */
  function BalanceRows(members: seq<User>, es: seq<Expense>): (rows: seq<BalanceRow>)
    ensures |rows| <= |members|
  {
    if members == [] then []
    else MemberRow(members[0], Net(es, members[0].id)) + BalanceRows(members[1..], es)
  }

  /** One member's row, or none when the balance is hidden. */
  function MemberRow(m: User, net: real): (row: seq<BalanceRow>)
    ensures |row| <= 1
    ensures row == [] <==> BalanceLine(net).None?
    ensures row != [] ==> row[0].member == m && BalanceLine(net) == Some(row[0].shown)
  {
    match BalanceLine(net)
    case None => []
    case Some(shown) => [BalanceRow(m, shown)]
  }

  /** Every row shows a member with the label of their net balance, and every member
      whose balance is not hidden has a row. */
  lemma {:induction false} BalanceRowsShowVisible(members: seq<User>, es: seq<Expense>)
    ensures var rows := BalanceRows(members, es);
      forall i :: 0 <= i < |rows| ==>
        rows[i].member in members && BalanceLine(Net(es, rows[i].member.id)) == Some(rows[i].shown)
    ensures var rows := BalanceRows(members, es);
      forall i :: 0 <= i < |members| && BalanceLine(Net(es, members[i].id)).Some? ==>
        exists j :: 0 <= j < |rows| && rows[j].member == members[i]
  {
    if members != [] {
      var m, t := members[0], members[1..];
      var head, rest := MemberRow(m, Net(es, m.id)), BalanceRows(t, es);
      var rows := BalanceRows(members, es);
      assert rows == head + rest;
      BalanceRowsShowVisible(t, es);
      forall i | 0 <= i < |rows|
        ensures rows[i].member in members && BalanceLine(Net(es, rows[i].member.id)) == Some(rows[i].shown)
      {
        if i < |head| {
          assert rows[i] == head[0];
        } else {
          var k := i - |head|;
          assert 0 <= k < |rest| && rows[i] == rest[k];
          assert rest[k].member in t;
          assert members == [m] + t;
        }
      }
      forall i | 0 <= i < |members| && BalanceLine(Net(es, members[i].id)).Some?
        ensures exists j :: 0 <= j < |rows| && rows[j].member == members[i]
      {
        if i == 0 {
          assert rows[0] == head[0];
        } else {
          assert members[i] == t[i - 1];
          var j :| 0 <= j < |rest| && rest[j].member == t[i - 1];
          assert rows[j + |head|] == rest[j];
        }
      }
    }
  }

  /** The members a list of rows shows, in row order. */
  function RowMembers(rows: seq<BalanceRow>): (ms: seq<User>)
    ensures |ms| == |rows|
    ensures forall i :: 0 <= i < |rows| ==> ms[i] == rows[i].member
  {
    if rows == [] then [] else [rows[0].member] + RowMembers(rows[1..])
  }

  lemma {:induction false} RowMembersConcat(a: seq<BalanceRow>, b: seq<BalanceRow>)
    ensures RowMembers(a + b) == RowMembers(a) + RowMembers(b)
  {
    if a != [] {
      assert (a + b)[1..] == a[1..] + b;
      RowMembersConcat(a[1..], b);
    } else {
      assert a + b == b;
    }
  }

  /** A member whose balance on these expenses is not hidden. */
  function IsVisible(es: seq<Expense>): User -> bool {
    (m: User) => BalanceLine(Net(es, m.id)).Some?
  }

  /** The rows follow member order: they show exactly the visible members, each as
      often and in the place the member list has them. */
  lemma {:induction false} BalanceRowsFollowMembers(members: seq<User>, es: seq<Expense>)
    ensures RowMembers(BalanceRows(members, es)) == Filter(members, IsVisible(es))
  {
    if members != [] {
      var m := members[0];
      var head := MemberRow(m, Net(es, m.id));
      RowMembersConcat(head, BalanceRows(members[1..], es));
      BalanceRowsFollowMembers(members[1..], es);
      if head != [] {
        assert RowMembers(head) == [m];
      }
    }
  }

  datatype GroupView =
    | GroupNotFound
    | GroupView(group: Group, groupExpenses: seq<Expense>, balances: seq<BalanceRow>,
                totalSpending: real, expenseCount: nat)

  /** The whole page for route id `id`. */
  function GroupPage(groups: seq<Group>, expenses: seq<Expense>, id: string): (v: GroupView)
    ensures v.GroupNotFound? <==> forall i :: 0 <= i < |groups| ==> groups[i].id != id
    ensures v.GroupView? ==> FindGroup(groups, id) == Some(v.group)
    ensures v.GroupView? ==> v.groupExpenses == GroupExpenses(expenses, id)
    ensures v.GroupView? ==> v.balances == BalanceRows(v.group.members, v.groupExpenses)
    ensures v.GroupView? ==> v.totalSpending == TotalAmount(Filter(expenses, InGroup(id)))
    ensures v.GroupView? ==> v.expenseCount == |Filter(expenses, InGroup(id))|
  {
    var groupExpenses := GroupExpenses(expenses, id);
    match FindGroup(groups, id)
    case None => GroupNotFound
    case Some(group) =>
      SortKeepsTotal(Filter(expenses, InGroup(id)));
      GroupView(group, groupExpenses, BalanceRows(group.members, groupExpenses),
                TotalAmount(groupExpenses), |groupExpenses|)
  }
}

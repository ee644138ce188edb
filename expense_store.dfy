/** The client-side expense store (`useExpenseStore`): two lists, `groups` and
    `expenses`, rebuilt by each action with `map`, `filter` or a spread, and written
    both into the store's state and into the browser's local storage. */
module Store {
  import opened Seqs
  import opened LedgerTypes
  import opened GroupDetails

  /** The three local-storage keys the store uses. A key that is absent reads as None;
      a present key holds the list (or user) that was last written, as `JSON.parse`
      of `JSON.stringify` returns it. */
  datatype Storage = Storage(
    currentUser: Option<User>,
    groups: Option<seq<Group>>,
    expenses: Option<seq<Expense>>)

  /** The sample group written for a signed-in user whose storage has no groups yet. */
  function SeedGroup(user: User): (g: Group)
    ensures g.members == [user] && g.createdBy == user.id
  {
    Group("1", "Weekend Trip", Trip, [user], "₹", user.id)
  }

  /** Local storage after `initializeData`: with a user signed in, each missing list is
      seeded (one sample group, no expenses); a list that is present is never touched.
      Without a user nothing changes. */
  function Initialized(st: Storage): (r: Storage)
    ensures r.currentUser == st.currentUser
    ensures st.currentUser.None? ==> r == st
    ensures st.groups.Some? ==> r.groups == st.groups
    ensures st.expenses.Some? ==> r.expenses == st.expenses
    ensures st.currentUser.Some? && st.groups.None? ==> r.groups == Some([SeedGroup(st.currentUser.value)])
    ensures st.currentUser.Some? && st.expenses.None? ==> r.expenses == Some([])
  {
    match st.currentUser
    case None => st
    case Some(user) =>
      Storage(st.currentUser, Some(st.groups.GetOr([SeedGroup(user)])), Some(st.expenses.GetOr([])))
  }

  /** Seeding twice is seeding once. */
  lemma InitializeIsIdempotent(st: Storage)
    ensures Initialized(Initialized(st)) == Initialized(st)
  {
  }

  // ---- The predicates the actions' `filter` and `map` calls use ----

  function GroupIdIsNot(id: string): Group -> bool {
    (g: Group) => g.id != id
  }

  function GroupIdIs(id: string): Group -> bool {
    (g: Group) => g.id == id
  }

  function ExpenseIdIsNot(id: string): Expense -> bool {
    (e: Expense) => e.id != id
  }

  function ExpenseIdIs(id: string): Expense -> bool {
    (e: Expense) => e.id == id
  }

  function NotInGroup(id: string): Expense -> bool {
    (e: Expense) => e.groupId != id
  }

  function GroupPatcher(patch: GroupPatch): Group -> Group {
    (g: Group) => PatchGroup(g, patch)
  }

  function ExpensePatcher(patch: ExpensePatch): Expense -> Expense {
    (e: Expense) => PatchExpense(e, patch)
  }

  /** `{ ...groupData, id, createdBy: user.id }`. */
  function NewGroup(draft: GroupDraft, id: string, creator: string): (g: Group)
    ensures g.id == id && g.createdBy == creator
    ensures g.name == draft.name && g.gtype == draft.gtype
    ensures g.members == draft.members && g.currency == draft.currency
  {
    Group(id, draft.name, draft.gtype, draft.members, draft.currency, creator)
  }

  /** `{ ...expenseData, id, date }`. */
  function NewExpense(draft: ExpenseDraft, id: string, date: int): (e: Expense)
    ensures e.id == id && e.date == date
    ensures e.groupId == draft.groupId && e.title == draft.title && e.amount == draft.amount
    ensures e.paidBy == draft.paidBy && e.splitType == draft.splitType
    ensures e.category == draft.category && e.participants == draft.participants
  {
    Expense(id, draft.groupId, draft.title, draft.amount, draft.paidBy, draft.splitType,
            draft.category, date, draft.participants)
  }

  /** The record `settleUp` appends: `to` paid `amount` on behalf of `from` alone. */
  function Settlement(groupId: string, from: string, to: string, amount: real, id: string, date: int): (e: Expense)
    ensures e.title == "Settlement" && e.splitType == Exact && e.category == OtherCategory
    ensures e.paidBy == to && e.participants == [from] && e.amount == amount
    ensures e.groupId == groupId && e.id == id && e.date == date
  {
    Expense(id, groupId, "Settlement", amount, to, Exact, OtherCategory, date, [from])
  }

  class ExpenseStore {
    var groups: seq<Group>
    var expenses: seq<Expense>
    var activeGroupId: Option<string>
    var isLoading: bool
    /** The browser's local storage, which the actions write and the fetches read back. */
    var storage: Storage

    /** The store as `create` sets it up, over whatever local storage already holds. */
    constructor(st: Storage)
      ensures groups == [] && expenses == [] && activeGroupId == None && !isLoading
      ensures storage == st
    {
      groups := [];
      expenses := [];
      activeGroupId := None;
      isLoading := false;
      storage := st;
    }

    method SetActiveGroup(id: Option<string>)
      modifies this
      ensures activeGroupId == id
      ensures groups == old(groups) && expenses == old(expenses)
      ensures isLoading == old(isLoading) && storage == old(storage)
    {
      activeGroupId := id;
    }

    /** `initializeData`: seeds the missing lists of a signed-in user's storage. */
    method InitializeData()
      modifies this
      ensures storage == Initialized(old(storage))
      ensures groups == old(groups) && expenses == old(expenses)
      ensures activeGroupId == old(activeGroupId) && isLoading == old(isLoading)
    {
      if storage.currentUser.None? {
        return;
      }
      var user := storage.currentUser.value;
      if storage.groups.None? {
        storage := storage.(groups := Some([SeedGroup(user)]));
      }
      if storage.expenses.None? {
        storage := storage.(expenses := Some([]));
      }
    }

    /** `fetchGroups`: seed, then load the stored groups (none when the key is absent). */
    method FetchGroups()
      modifies this
      ensures storage == Initialized(old(storage))
      ensures groups == storage.groups.GetOr([])
      ensures expenses == old(expenses)
      ensures activeGroupId == old(activeGroupId) && isLoading == old(isLoading)
    {
      InitializeData();
      groups := storage.groups.GetOr([]);
    }

    /** `fetchExpenses`: seed, then load the stored expenses. */
    method FetchExpenses()
      modifies this
      ensures storage == Initialized(old(storage))
      ensures expenses == storage.expenses.GetOr([])
      ensures groups == old(groups)
      ensures activeGroupId == old(activeGroupId) && isLoading == old(isLoading)
    {
      InitializeData();
      expenses := storage.expenses.GetOr([]);
    }

    /** `createGroup`: nothing without a signed-in user; otherwise one new group, created
        by that user, goes to the end of the list and into storage. */
    method CreateGroup(draft: GroupDraft, id: string)
      modifies this
      ensures old(storage.currentUser).None? ==> unchanged(this)
      ensures old(storage.currentUser).Some? ==>
        && groups == old(groups) + [NewGroup(draft, id, old(storage.currentUser).value.id)]
        && storage == old(storage).(groups := Some(groups))
      ensures expenses == old(expenses)
      ensures activeGroupId == old(activeGroupId) && isLoading == old(isLoading)
    {
      if storage.currentUser.None? {
        return;
      }
      var user := storage.currentUser.value;
      groups := groups + [NewGroup(draft, id, user.id)];
      storage := storage.(groups := Some(groups));
    }

    /** `updateGroup`: every group with the id gets the supplied fields; no other group
        changes and the list keeps its length and order. */
    method UpdateGroup(id: string, patch: GroupPatch)
      modifies this
      ensures |groups| == |old(groups)|
      ensures forall i :: 0 <= i < |groups| ==>
        groups[i] == if old(groups)[i].id == id then PatchGroup(old(groups)[i], patch) else old(groups)[i]
      ensures storage == old(storage).(groups := Some(groups))
      ensures expenses == old(expenses)
      ensures activeGroupId == old(activeGroupId) && isLoading == old(isLoading)
    {
      groups := MapWhere(groups, GroupIdIs(id), GroupPatcher(patch));
      storage := storage.(groups := Some(groups));
    }

    /** `deleteGroup`: the group goes, and so does every expense recorded against it. */
    method DeleteGroup(id: string)
      modifies this
      ensures groups == Filter(old(groups), GroupIdIsNot(id))
      ensures expenses == Filter(old(expenses), NotInGroup(id))
      ensures storage == old(storage).(groups := Some(groups), expenses := Some(expenses))
      ensures activeGroupId == old(activeGroupId) && isLoading == old(isLoading)
    {
      groups := Filter(groups, GroupIdIsNot(id));
      expenses := Filter(expenses, NotInGroup(id));
      storage := storage.(groups := Some(groups));
      storage := storage.(expenses := Some(expenses));
    }

    /** `addExpense`: one expense, stamped with the given id and date, at the end. */
    method AddExpense(draft: ExpenseDraft, id: string, now: int)
      modifies this
      ensures expenses == old(expenses) + [NewExpense(draft, id, now)]
      ensures storage == old(storage).(expenses := Some(expenses))
      ensures groups == old(groups)
      ensures activeGroupId == old(activeGroupId) && isLoading == old(isLoading)
    {
      expenses := expenses + [NewExpense(draft, id, now)];
      storage := storage.(expenses := Some(expenses));
    }

    /** `updateExpense`: every expense with the id gets the supplied fields; nothing
        else changes. */
    method UpdateExpense(id: string, patch: ExpensePatch)
      modifies this
      ensures |expenses| == |old(expenses)|
      ensures forall i :: 0 <= i < |expenses| ==>
        expenses[i] == if old(expenses)[i].id == id then PatchExpense(old(expenses)[i], patch) else old(expenses)[i]
      ensures storage == old(storage).(expenses := Some(expenses))
      ensures groups == old(groups)
      ensures activeGroupId == old(activeGroupId) && isLoading == old(isLoading)
    {
      expenses := MapWhere(expenses, ExpenseIdIs(id), ExpensePatcher(patch));
      storage := storage.(expenses := Some(expenses));
    }

    /** `deleteExpense`: every expense with the id goes; the others stay, in order. */
    method DeleteExpense(id: string)
      modifies this
      ensures expenses == Filter(old(expenses), ExpenseIdIsNot(id))
      ensures storage == old(storage).(expenses := Some(expenses))
      ensures groups == old(groups)
      ensures activeGroupId == old(activeGroupId) && isLoading == old(isLoading)
    {
      expenses := Filter(expenses, ExpenseIdIsNot(id));
      storage := storage.(expenses := Some(expenses));
    }

    /** `settleUp`: records that `toUser` was paid back, as an expense `toUser` paid for
        `fromUser` alone. */
    method SettleUp(groupId: string, fromUser: string, toUser: string, amount: real, id: string, now: int)
      modifies this
      ensures expenses == old(expenses) + [Settlement(groupId, fromUser, toUser, amount, id, now)]
      ensures storage == old(storage).(expenses := Some(expenses))
      ensures groups == old(groups)
      ensures activeGroupId == old(activeGroupId) && isLoading == old(isLoading)
    {
      expenses := expenses + [Settlement(groupId, fromUser, toUser, amount, id, now)];
      storage := storage.(expenses := Some(expenses));
    }
  }

  // ---- What the actions promise about the lists ----

  /** A fetch right after any write reads back the list just written. */
  lemma FetchReadsBackWrites(st: Storage, gs: seq<Group>, es: seq<Expense>)
    ensures Initialized(st.(groups := Some(gs))).groups == Some(gs)
    ensures Initialized(st.(expenses := Some(es))).expenses == Some(es)
  {
  }

  /** Deleting an expense that was just added, under an id no other expense has, gives
      back the list from before. */
  lemma DeleteUndoesAdd(es: seq<Expense>, e: Expense)
    requires forall i :: 0 <= i < |es| ==> es[i].id != e.id
    ensures Filter(es + [e], ExpenseIdIsNot(e.id)) == es
  {
    FilterConcat(es, [e], ExpenseIdIsNot(e.id));
    FilterKeepsAll(es, ExpenseIdIsNot(e.id));
    assert [e][1..] == [];
  }

  /** Deleting twice is deleting once. */
  lemma DeleteIsIdempotent(es: seq<Expense>, id: string)
    ensures Filter(Filter(es, ExpenseIdIsNot(id)), ExpenseIdIsNot(id)) == Filter(es, ExpenseIdIsNot(id))
  {
    var r := Filter(es, ExpenseIdIsNot(id));
    FilterKeepsAll(r, ExpenseIdIsNot(id));
  }

  /** Deleting an expense removes exactly the expenses with that id, keeping the others
      in the same relative order: the kept part of a concatenation is the concatenation
      of the kept parts. */
  lemma DeleteKeepsOrder(a: seq<Expense>, b: seq<Expense>, id: string)
    ensures Filter(a + b, ExpenseIdIsNot(id)) == Filter(a, ExpenseIdIsNot(id)) + Filter(b, ExpenseIdIsNot(id))
    ensures (forall i :: 0 <= i < |a| ==> a[i].id != id) ==> Filter(a, ExpenseIdIsNot(id)) == a
  {
    FilterConcat(a, b, ExpenseIdIsNot(id));
    if forall i :: 0 <= i < |a| ==> a[i].id != id {
      FilterKeepsAll(a, ExpenseIdIsNot(id));
    }
  }

  /** The cascade of `deleteGroup` leaves every other group's expenses exactly as they
      were, in order, and nothing recorded against the deleted group. */
  lemma {:induction false} CascadeKeepsOtherGroups(es: seq<Expense>, id: string, g: string)
    requires g != id
    ensures Filter(Filter(es, NotInGroup(id)), InGroup(g)) == Filter(es, InGroup(g))
  {
    if es != [] {
      CascadeKeepsOtherGroups(es[1..], id, g);
      if es[0].groupId != id {
        assert Filter(es, NotInGroup(id)) == [es[0]] + Filter(es[1..], NotInGroup(id));
        assert ([es[0]] + Filter(es[1..], NotInGroup(id)))[1..] == Filter(es[1..], NotInGroup(id));
      }
    }
  }

  lemma {:induction false} CascadeLeavesNoOrphans(es: seq<Expense>, id: string)
    ensures Filter(Filter(es, NotInGroup(id)), InGroup(id)) == []
  {
    if es != [] {
      CascadeLeavesNoOrphans(es[1..], id);
      if es[0].groupId != id {
        assert ([es[0]] + Filter(es[1..], NotInGroup(id)))[1..] == Filter(es[1..], NotInGroup(id));
      }
    }
  }

  /** So the page of every other group looks the same after the cascade. */
  lemma CascadeKeepsOtherPages(es: seq<Expense>, id: string, g: string)
    requires g != id
    ensures GroupExpenses(Filter(es, NotInGroup(id)), g) == GroupExpenses(es, g)
    ensures TotalAmount(Filter(Filter(es, NotInGroup(id)), InGroup(g))) == TotalAmount(Filter(es, InGroup(g)))
  {
    CascadeKeepsOtherGroups(es, id, g);
  }

  /** An added expense shows up in its own group's list and in no other. */
  lemma AddedExpenseStaysInItsGroup(es: seq<Expense>, e: Expense, g: string)
    ensures Filter(es + [e], InGroup(g)) == if e.groupId == g then Filter(es, InGroup(g)) + [e] else Filter(es, InGroup(g))
  {
    FilterConcat(es, [e], InGroup(g));
    assert [e][1..] == [];
    assert Filter(es, InGroup(g)) + [] == Filter(es, InGroup(g));
  }

  /** Updating with an empty patch changes nothing. */
  lemma EmptyPatchIsIdentity(gs: seq<Group>, es: seq<Expense>, id: string)
    ensures MapWhere(gs, GroupIdIs(id), GroupPatcher(GroupPatch(None, None, None, None, None, None))) == gs
    ensures MapWhere(es, ExpenseIdIs(id),
                     ExpensePatcher(ExpensePatch(None, None, None, None, None, None, None, None, None))) == es
  {
  }

  /** Supplying the same fields twice is supplying them once, as long as the patch does
      not move the entries to another id. */
  lemma UpdateIsIdempotent(es: seq<Expense>, id: string, patch: ExpensePatch)
    requires patch.id.None? || patch.id == Some(id)
    ensures var once := MapWhere(es, ExpenseIdIs(id), ExpensePatcher(patch));
      MapWhere(once, ExpenseIdIs(id), ExpensePatcher(patch)) == once
  {
    var once := MapWhere(es, ExpenseIdIs(id), ExpensePatcher(patch));
    var twice := MapWhere(once, ExpenseIdIs(id), ExpensePatcher(patch));
    forall i | 0 <= i < |es| ensures twice[i] == once[i] {
      if es[i].id == id {
        assert once[i] == PatchExpense(es[i], patch);
      }
    }
  }

  /** The group page finds the updated group with its new fields. */
  lemma {:induction false} UpdatedGroupIsFound(gs: seq<Group>, id: string, patch: GroupPatch)
    requires patch.id.None? || patch.id == Some(id)
    ensures FindGroup(MapWhere(gs, GroupIdIs(id), GroupPatcher(patch)), id)
      == match FindGroup(gs, id) case None => None case Some(g) => Some(PatchGroup(g, patch))
  {
    if gs != [] {
      var r := MapWhere(gs, GroupIdIs(id), GroupPatcher(patch));
      assert r[1..] == MapWhere(gs[1..], GroupIdIs(id), GroupPatcher(patch));
      if gs[0].id != id {
        UpdatedGroupIsFound(gs[1..], id, patch);
      }
    }
  }

  /** The settlement as written, `settleUp(g, from, to, amount)`, raises `to`'s net
      balance by `amount`, lowers `from`'s by `amount` and leaves everyone else's alone. */
  lemma SettlementMovesBalance(es: seq<Expense>, groupId: string, from: string, to: string,
                               amount: real, id: string, now: int, m: string)
    requires from != to
    ensures var s := Settlement(groupId, from, to, amount, id, now);
      Net(es + [s], m) == Net(es, m) + (if m == to then amount else if m == from then -amount else 0.0)
  {
    var s := Settlement(groupId, from, to, amount, id, now);
    NetSnoc(es, s, m);
    assert |s.participants| == 1;
  }

  /** As written, settling a debt doubles it: a debtor `from` who owes `amount` (net
      balance `-amount`) owes twice as much after `settleUp(g, from, to, amount)`, and the
      creditor is owed twice as much. */
  lemma SettlementWidensDebt(es: seq<Expense>, groupId: string, from: string, to: string,
                             amount: real, id: string, now: int)
    requires from != to && amount > 0.0
    requires Net(es, from) == -amount && Net(es, to) == amount
    ensures var s := Settlement(groupId, from, to, amount, id, now);
      Net(es + [s], from) == -2.0 * amount && Net(es + [s], to) == 2.0 * amount
  {
    SettlementMovesBalance(es, groupId, from, to, amount, id, now, from);
    SettlementMovesBalance(es, groupId, from, to, amount, id, now, to);
  }

  /** The settlement the names `fromUser` and `toUser` evidently mean: `from` pays
      `amount` to `to`, recorded as an expense `from` paid on behalf of `to` alone. */
  function CorrectedSettlement(groupId: string, from: string, to: string, amount: real, id: string, date: int): (e: Expense)
    ensures e.title == "Settlement" && e.splitType == Exact && e.category == OtherCategory
    ensures e.paidBy == from && e.participants == [to] && e.amount == amount
    ensures e.groupId == groupId && e.id == id && e.date == date
  {
    Expense(id, groupId, "Settlement", amount, from, Exact, OtherCategory, date, [to])
  }

  /** The corrected settlement moves `amount` from the creditor's balance to the
      debtor's and leaves everyone else's alone; settling the whole debt clears it. */
  lemma CorrectedSettlementClearsDebt(es: seq<Expense>, groupId: string, from: string, to: string,
                                      amount: real, id: string, now: int, m: string)
    requires from != to
    ensures var s := CorrectedSettlement(groupId, from, to, amount, id, now);
      Net(es + [s], m) == Net(es, m) + (if m == from then amount else if m == to then -amount else 0.0)
    ensures var s := CorrectedSettlement(groupId, from, to, amount, id, now);
      Net(es, from) == -amount && Net(es, to) == amount ==> Net(es + [s], from) == 0.0 && Net(es + [s], to) == 0.0
  {
    var s := CorrectedSettlement(groupId, from, to, amount, id, now);
    NetSnoc(es, s, m);
    NetSnoc(es, s, from);
    NetSnoc(es, s, to);
    assert |s.participants| == 1;
  }
}

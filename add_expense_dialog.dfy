/** The add-expense dialog of a group page: its form state and the submit rule that
    turns a filled-in form into one `addExpense` call on the store. */
module ExpenseForm {
  import opened Seqs
  import opened LedgerTypes
  import opened GroupDetails
  import opened Store

  /** `if (!title || !amount) return;`: an empty title or amount text blocks the submit. */
  predicate CanSubmit(title: string, amount: string) {
    title != "" && amount != ""
  }

  /** The argument the dialog hands to `addExpense`: an equal split among every member
      of the group, in member order. `parseFloat` is a parameter; it is not part of
      this model. */
  function SubmittedDraft(group: Group, title: string, amount: string, category: string,
                          paidBy: string, parseFloat: string -> real): (d: ExpenseDraft)
    ensures d.groupId == group.id && d.title == title && d.amount == parseFloat(amount)
    ensures d.paidBy == paidBy && d.splitType == Equal && d.category == category
    ensures d.participants == MemberIds(group.members)
  {
    ExpenseDraft(group.id, title, parseFloat(amount), paidBy, Equal, category, MemberIds(group.members))
  }

  class AddExpenseDialog {
    const group: Group
    var open: bool
    /** The picked date; it is shown but never submitted. */
    var date: Option<int>
    var title: string
    var amount: string
    var category: string
    var paidBy: string

    /** The payer is always one of the group's members. */
    predicate Valid()
      reads this
    {
      paidBy in MemberIds(group.members)
    }

    /** The initial form state; `paidBy` starts as the first member, so the group must
        have one. */
    constructor(g: Group, today: int)
      requires g.members != []
      ensures group == g && !open && date == Some(today)
      ensures title == "" && amount == "" && category == OtherCategory
      ensures paidBy == g.members[0].id
      ensures Valid()
    {
      group := g;
      open := false;
      date := Some(today);
      title := "";
      amount := "";
      category := OtherCategory;
      paidBy := g.members[0].id;
    }

    /** The payer picker's `onValueChange`; it offers the group's members only. */
    method SetPaidBy(id: string)
      requires id in MemberIds(group.members)
      modifies this
      ensures paidBy == id && Valid()
      ensures open == old(open) && date == old(date) && title == old(title)
      ensures amount == old(amount) && category == old(category)
    {
      paidBy := id;
    }

    /** `handleSubmit`. A blocked submit changes nothing, neither the form nor the store.
        Otherwise exactly one expense is added, stamped by the store with `id` and the
        current time `now` (not with the picked date), and the dialog closes with title
        and amount cleared while category and payer keep their values. */
    method HandleSubmit(store: ExpenseStore, parseFloat: string -> real, id: string, now: int)
      requires Valid()
      modifies this, store
      ensures Valid()
      ensures !CanSubmit(old(title), old(amount)) ==> unchanged(this) && unchanged(store)
      ensures CanSubmit(old(title), old(amount)) ==>
        && store.expenses == old(store.expenses)
             + [NewExpense(SubmittedDraft(group, old(title), old(amount), old(category), old(paidBy), parseFloat), id, now)]
        && store.storage == old(store.storage).(expenses := Some(store.expenses))
        && store.groups == old(store.groups)
        && store.activeGroupId == old(store.activeGroupId) && store.isLoading == old(store.isLoading)
        && !open && title == "" && amount == ""
        && category == old(category) && paidBy == old(paidBy) && date == old(date)
    {
      if !CanSubmit(title, amount) {
        return;
      }
      store.AddExpense(SubmittedDraft(group, title, amount, category, paidBy, parseFloat), id, now);
      open := false;
      title := "";
      amount := "";
    }
  }

  /** A submitted expense is always one the group's balances reconcile over: its payer
      is a member and every member, each once, shares it. So the dialog alone can never
      make a group's net balances stop summing to zero. */
  lemma SubmittedExpenseIsWellFormed(group: Group, title: string, amount: string, category: string,
                                     paidBy: string, parseFloat: string -> real, id: string, now: int)
    requires group.members != [] && Distinct(MemberIds(group.members))
    requires paidBy in MemberIds(group.members)
    ensures WellFormedIn(NewExpense(SubmittedDraft(group, title, amount, category, paidBy, parseFloat), id, now),
                         MemberIds(group.members))
  {
  }

  /** Every member shares a submitted expense equally: `amount / |members|` each. */
  lemma SubmittedExpenseSplitsEqually(group: Group, title: string, amount: string, category: string,
                                      paidBy: string, parseFloat: string -> real, id: string, now: int, k: nat)
    requires k < |group.members|
    ensures var e := NewExpense(SubmittedDraft(group, title, amount, category, paidBy, parseFloat), id, now);
      SharePart(e, group.members[k].id) == parseFloat(amount) / (|group.members| as real)
  {
    var e := NewExpense(SubmittedDraft(group, title, amount, category, paidBy, parseFloat), id, now);
    assert e.participants[k] == group.members[k].id;
  }
}

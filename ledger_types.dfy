/** The client-side records of the expense store (`User`, `Group`, `Expense`), the
    argument shapes of its actions, and the partial-update ("spread") rules. */
module LedgerTypes {
  import opened Seqs

  datatype SplitType = Equal | Percentage | Exact

  datatype GroupType = Trip | Home | Couple | OtherType

  /** The category a new expense is given when none is chosen, and the one a settlement gets. */
  const OtherCategory: string := "Other"

  datatype User = User(id: string, name: string, avatar: Option<string>, email: Option<string>)

  datatype Group = Group(
    id: string,
    name: string,
    gtype: GroupType,
    members: seq<User>,
    currency: string,
    createdBy: string)

  /** `date` is the instant of the ISO timestamp, in milliseconds since the epoch. */
  datatype Expense = Expense(
    id: string,
    groupId: string,
    title: string,
    amount: real,
    paidBy: string,
    splitType: SplitType,
    category: string,
    date: int,
    participants: seq<string>)

  /** The argument of `createGroup`: a group without `id` and `createdBy`. */
  datatype GroupDraft = GroupDraft(name: string, gtype: GroupType, members: seq<User>, currency: string)

  /** The argument of `addExpense`: an expense without `id` and `date`. */
  datatype ExpenseDraft = ExpenseDraft(
    groupId: string,
    title: string,
    amount: real,
    paidBy: string,
    splitType: SplitType,
    category: string,
    participants: seq<string>)

  /** A `Partial<Group>`: each field is either supplied or absent. */
  datatype GroupPatch = GroupPatch(
    id: Option<string>,
    name: Option<string>,
    gtype: Option<GroupType>,
    members: Option<seq<User>>,
    currency: Option<string>,
    createdBy: Option<string>)

  /** A `Partial<Expense>`. */
  datatype ExpensePatch = ExpensePatch(
    id: Option<string>,
    groupId: Option<string>,
    title: Option<string>,
    amount: Option<real>,
    paidBy: Option<string>,
    splitType: Option<SplitType>,
    category: Option<string>,
    date: Option<int>,
    participants: Option<seq<string>>)

  /** `{ ...g, ...patch }`: the supplied fields win, the others are those of `g`. */
  function PatchGroup(g: Group, patch: GroupPatch): (r: Group)
    ensures patch == GroupPatch(None, None, None, None, None, None) ==> r == g
    ensures r.id == patch.id.GetOr(g.id) && r.name == patch.name.GetOr(g.name)
    ensures r.gtype == patch.gtype.GetOr(g.gtype) && r.members == patch.members.GetOr(g.members)
    ensures r.currency == patch.currency.GetOr(g.currency)
    ensures r.createdBy == patch.createdBy.GetOr(g.createdBy)
  {
    Group(patch.id.GetOr(g.id), patch.name.GetOr(g.name), patch.gtype.GetOr(g.gtype),
          patch.members.GetOr(g.members), patch.currency.GetOr(g.currency),
          patch.createdBy.GetOr(g.createdBy))
  }

  /** `{ ...e, ...patch }`. */
  function PatchExpense(e: Expense, patch: ExpensePatch): (r: Expense)
    ensures patch == ExpensePatch(None, None, None, None, None, None, None, None, None) ==> r == e
    ensures r.id == patch.id.GetOr(e.id) && r.groupId == patch.groupId.GetOr(e.groupId)
    ensures r.title == patch.title.GetOr(e.title) && r.amount == patch.amount.GetOr(e.amount)
    ensures r.paidBy == patch.paidBy.GetOr(e.paidBy) && r.splitType == patch.splitType.GetOr(e.splitType)
    ensures r.category == patch.category.GetOr(e.category) && r.date == patch.date.GetOr(e.date)
    ensures r.participants == patch.participants.GetOr(e.participants)
  {
    Expense(patch.id.GetOr(e.id), patch.groupId.GetOr(e.groupId), patch.title.GetOr(e.title),
            patch.amount.GetOr(e.amount), patch.paidBy.GetOr(e.paidBy),
            patch.splitType.GetOr(e.splitType), patch.category.GetOr(e.category),
            patch.date.GetOr(e.date), patch.participants.GetOr(e.participants))
  }

  /** Spreading the same patch a second time changes nothing: every supplied field
      already holds its value. */
  lemma PatchGroupIdempotent(g: Group, patch: GroupPatch)
    ensures PatchGroup(PatchGroup(g, patch), patch) == PatchGroup(g, patch)
  {
  }

  lemma PatchExpenseIdempotent(e: Expense, patch: ExpensePatch)
    ensures PatchExpense(PatchExpense(e, patch), patch) == PatchExpense(e, patch)
  {
  }

  /** The ids of a list of users, in order (`members.map(m => m.id)`). */
  function MemberIds(members: seq<User>): (ids: seq<string>)
    ensures |ids| == |members|
    ensures forall i :: 0 <= i < |members| ==> ids[i] == members[i].id
  {
    if members == [] then [] else [members[0].id] + MemberIds(members[1..])
  }

  /** The sum of the amounts, added front to back (`reduce((acc, e) => acc + e.amount, 0)`). */
  function TotalAmount(es: seq<Expense>): real {
    if es == [] then 0.0 else TotalAmount(es[..|es| - 1]) + es[|es| - 1].amount
  }

  lemma {:induction false} TotalAmountConcat(a: seq<Expense>, b: seq<Expense>)
    ensures TotalAmount(a + b) == TotalAmount(a) + TotalAmount(b)
  {
    if b != [] {
      assert (a + b)[..|a + b| - 1] == a + b[..|b| - 1];
      TotalAmountConcat(a, b[..|b| - 1]);
    } else {
      assert a + b == a;
    }
  }

  /** Total-amount of a list with one element in front. */
  lemma TotalAmountCons(e: Expense, es: seq<Expense>)
    ensures TotalAmount([e] + es) == e.amount + TotalAmount(es)
  {
    TotalAmountConcat([e], es);
    assert TotalAmount([e]) == TotalAmount([]) + e.amount;
  }

  /** With non-negative amounts the total is non-negative. */
  lemma {:induction false} TotalAmountNonNegative(es: seq<Expense>)
    requires forall i :: 0 <= i < |es| ==> es[i].amount >= 0.0
    ensures TotalAmount(es) >= 0.0
  {
    if es != [] {
      TotalAmountNonNegative(es[..|es| - 1]);
    }
  }
}

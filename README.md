# Smart-Splitter ledger, modelled in Dafny

Smart-Splitter is a shared-expense tracker. Users create groups, record what each
member paid, and see who owes whom. This project models its ledger core with
proofs:

- the client-side expense store (`useExpenseStore`): a state machine over the lists
  `groups` and `expenses`, mirrored into the browser's local storage;
- the group page's filter, sort and per-member net balances, plus its balance rows
  and total spending;
- the dashboard's owed / owe / balance totals, its five most recent expenses and its
  monthly chart;
- the analytics page's spending-by-category aggregation;
- the currency helpers for the amount field: the keystroke filter, the cleaning step
  of `parseCurrency`, and the zod schema behind `isValidCurrencyAmount`, down to
  JavaScript's `Number(string)`;
- the add-expense dialog's form state and submit rule;
- the server routes over an in-memory database: register, login, logout, me, the
  group routes and the expense routes.

Amounts are exact `real`s. Dates are integer milliseconds. Ids and the current time
are parameters. Local storage is a field of the store.

| file | module | models |
|---|---|---|
| `seqs.dfy` | `Seqs` | `filter`, `map` with a selector, `[...new Set(s)]`, `indexOf` |
| `ledger_types.dfy` | `LedgerTypes` | the `User`, `Group` and `Expense` records, drafts, partial updates, `reduce` of amounts |
| `expense_store.dfy` | `Store` | `initializeData` and every store action |
| `chronology.dfy` | `Chronology` | the stable newest-first sort |
| `group_details.dfy` | `GroupDetails` | the group page |
| `aggregation.dfy` | `Aggregation` | group-by-and-sum in first-appearance order |
| `analytics.dfy` | `Analytics` | the category chart |
| `dashboard.dfy` | `Dashboard` | the dashboard summary |
| `js_number.dfy` | `JsNumbers` | `Number(string)`, `trim`, decimal digits |
| `currency_validation.dfy` | `CurrencyValidation` | `restrictToCurrencyInput`, `parseCurrency`, `currencyAmountSchema`, `isValidCurrencyAmount` |
| `add_expense_dialog.dfy` | `ExpenseForm` | the add-expense dialog |
| `routes.dfy` | `Api` | the HTTP routes |

The model follows the code wherever the code and its design description disagree:

- There is no debt-simplification planner. The group page's "Settle Up" button has
  no handler (`client/src/pages/GroupDetails.tsx:37-39`).
- There is no percentage or exact share computation. `splitType` is stored, but every
  balance formula divides an expense equally among its participants.
- There is no integer minor-unit arithmetic or remainder distribution. Amounts are
  plain numbers.
- zod's `refine` keeps checking after a failed refinement. So `safeParse` reports every
  failing rule, in chain order, not just the first. The first issue is the first
  failing rule's message.
- The crore bound is inclusive (`Number(val) <= 10000000`), although its message and
  comment say "less than".

## Model

| member | source | states |
|---|---|---|
| LedgerTypes.PatchGroup | client/src/store/useExpenseStore.ts:113-115 | `{ ...g, ...patch }`: for each of the six fields, a supplied value replaces the group's and an absent one keeps it; the empty patch gives back the group |
| LedgerTypes.PatchExpense | client/src/store/useExpenseStore.ts:141-143 | the same spread on expenses, field by field for all nine fields; the empty patch is the identity |
| LedgerTypes.PatchGroupIdempotent | client/src/store/useExpenseStore.ts:113-115 | spreading the same patch over a group twice is spreading it once |
| LedgerTypes.PatchExpenseIdempotent | client/src/store/useExpenseStore.ts:141-143 | spreading the same patch over an expense twice is spreading it once |
| LedgerTypes.MemberIds | client/src/components/expenses/AddExpenseDialog.tsx:39 | the member ids, one per member, in member order |
| LedgerTypes.TotalAmountConcat | client/src/pages/GroupDetails.tsx:178 | the `reduce` total of two lists joined is the sum of their totals |
| LedgerTypes.TotalAmountNonNegative | client/src/pages/GroupDetails.tsx:178 | with non-negative amounts the total spending is non-negative |
| Store.SeedGroup | client/src/store/useExpenseStore.ts:56-65 | the sample group has the signed-in user as its only member and as creator |
| Store.Initialized | client/src/store/useExpenseStore.ts:49-72 | without a user nothing changes; with one, a missing `groups` key gets the sample group and a missing `expenses` key an empty list; present lists are untouched |
| Store.InitializeIsIdempotent | client/src/store/useExpenseStore.ts:49-72 | seeding twice is seeding once |
| Store.NewGroup | client/src/store/useExpenseStore.ts:101-105 | the new group carries the draft's name, type, members and currency, the given id and the creator's id |
| Store.NewExpense | client/src/store/useExpenseStore.ts:129-133 | the new expense carries every draft field plus the given id and date |
| Store.Settlement | client/src/store/useExpenseStore.ts:155-165 | the settlement record: title "Settlement", EXACT, category Other, paid by `to`, participants `[from]`, the amount and group given |
| Store.ExpenseStore.constructor | client/src/store/useExpenseStore.ts:74-78 | empty lists, no active group, not loading, over the storage as found |
| Store.ExpenseStore.SetActiveGroup | client/src/store/useExpenseStore.ts:80 | sets `activeGroupId` and nothing else |
| Store.ExpenseStore.InitializeData | client/src/store/useExpenseStore.ts:49-72 | storage becomes `Initialized(old storage)`; the state lists do not change |
| Store.ExpenseStore.FetchGroups | client/src/store/useExpenseStore.ts:82-87 | seeds storage, then loads its groups (none when the key is absent); expenses unchanged |
| Store.ExpenseStore.FetchExpenses | client/src/store/useExpenseStore.ts:89-94 | seeds storage, then loads its expenses; groups unchanged |
| Store.ExpenseStore.CreateGroup | client/src/store/useExpenseStore.ts:96-110 | a no-op without a current user; otherwise appends exactly one group created by that user, and storage holds the new list |
| Store.ExpenseStore.UpdateGroup | client/src/store/useExpenseStore.ts:112-118 | same length; entries with the id are patched, all others are unchanged; storage holds the new list |
| Store.ExpenseStore.DeleteGroup | client/src/store/useExpenseStore.ts:120-126 | removes the group and every expense of that group, keeping the rest in order; both lists are persisted |
| Store.ExpenseStore.AddExpense | client/src/store/useExpenseStore.ts:128-138 | appends exactly one expense at the end; earlier expenses, groups and the rest of storage are unchanged |
| Store.ExpenseStore.UpdateExpense | client/src/store/useExpenseStore.ts:140-146 | same length; entries with the id are patched, all others are unchanged; storage holds the new list |
| Store.ExpenseStore.DeleteExpense | client/src/store/useExpenseStore.ts:148-152 | keeps exactly the expenses with another id, in order; storage holds the new list |
| Store.ExpenseStore.SettleUp | client/src/store/useExpenseStore.ts:154-170 | appends exactly the settlement record; groups unchanged; storage holds the new list |
| Store.FetchReadsBackWrites | client/src/store/useExpenseStore.ts:82-94 | once an action has written a list, a later fetch loads back exactly that list |
| Store.DeleteUndoesAdd | client/src/store/useExpenseStore.ts:148-152 | deleting an expense just added under a fresh id gives back the list from before |
| Store.DeleteIsIdempotent | client/src/store/useExpenseStore.ts:149 | deleting twice is deleting once |
| Store.DeleteKeepsOrder | client/src/store/useExpenseStore.ts:149 | deletion works piecewise on a concatenation, and leaves a list without the id untouched |
| Store.CascadeKeepsOtherGroups | client/src/store/useExpenseStore.ts:122 | after the cascade, every other group's expenses are exactly as before, in order |
| Store.CascadeLeavesNoOrphans | client/src/store/useExpenseStore.ts:122 | after the cascade, no expense of the deleted group remains |
| Store.CascadeKeepsOtherPages | client/src/store/useExpenseStore.ts:120-126 | every other group's page shows the same expenses and the same total after the cascade |
| Store.AddedExpenseStaysInItsGroup | client/src/store/useExpenseStore.ts:135 | an added expense shows at the end of its own group's list and in no other |
| Store.EmptyPatchIsIdentity | client/src/store/useExpenseStore.ts:112-118 | updating with no fields changes neither list |
| Store.UpdateIsIdempotent | client/src/store/useExpenseStore.ts:140-146 | applying the same patch twice is applying it once, unless the patch moves the entries to another id |
| Store.UpdatedGroupIsFound | client/src/store/useExpenseStore.ts:112-118 | after the update, the group page finds the patched group, or still none |
| Store.SettlementMovesBalance | client/src/store/useExpenseStore.ts:154-170 | the settlement raises `to`'s net balance by the amount, lowers `from`'s by it, and leaves everyone else's |
| Store.SettlementWidensDebt | client/src/store/useExpenseStore.ts:154-170 | a debtor who owes `amount` owes twice as much after settling it, as written |
| Store.CorrectedSettlement | client/src/store/useExpenseStore.ts:154-170 | the intended record: `from` paid `amount` on behalf of `to` alone |
| Store.CorrectedSettlementClearsDebt | client/src/store/useExpenseStore.ts:154-170 | the intended record moves the amount from `to`'s balance to `from`'s; settling the whole debt brings both to zero |
| Chronology.InsertByDate | client/src/pages/GroupDetails.tsx:17 | one insertion step of the sort: a permutation of the list with the new expense added |
| Chronology.SortNewestFirst | client/src/pages/GroupDetails.tsx:17 | the sort is a permutation of its input |
| Chronology.SortIsNewestFirst | client/src/pages/GroupDetails.tsx:17 | the sorted list never goes up in date from front to back |
| Chronology.InsertIsStable | client/src/pages/GroupDetails.tsx:17 | the inserted expense ends up in front of the others with its date, whose order is kept |
| Chronology.SortIsStable | client/src/pages/GroupDetails.tsx:17 | for every date, the expenses with that date keep their input order, as `Array.prototype.sort` guarantees |
| Chronology.SortMembership | client/src/pages/GroupDetails.tsx:17 | an expense is in the sorted list exactly when it is in the input |
| Chronology.SortKeepsTotal | client/src/pages/GroupDetails.tsx:178 | sorting does not change the total amount |
| Seqs.Find | client/src/pages/GroupDetails.tsx:16 | `Array.prototype.find`: None exactly when no element satisfies the test; otherwise the first element that does |
| GroupDetails.FindGroup | client/src/pages/GroupDetails.tsx:16 | `find`: None when no group has the id; otherwise the first group with it |
| GroupDetails.GroupExpenses | client/src/pages/GroupDetails.tsx:17 | exactly the expenses with the route id, as a multiset, ordered newest first |
| GroupDetails.GroupExpensesStable | client/src/pages/GroupDetails.tsx:17 | a group's expenses with the same date are listed in the order they were added |
| GroupDetails.Paid | client/src/pages/GroupDetails.tsx:104-110 | the sum of the amounts of the expenses the member paid; a definition whose properties are `MemberNet`, `NetSnoc` and `NetConcat` |
| GroupDetails.Share | client/src/pages/GroupDetails.tsx:105-113 | the sum of `amount / participants.length` over the expenses the member takes part in; a definition, with the same lemmas as `GroupDetails.Paid` |
| GroupDetails.Net | client/src/pages/GroupDetails.tsx:116 | `paid - share`; a definition, proved to sum to 0 over the members by `NetsSumToZero` and to vanish for uninvolved members by `UninvolvedMemberIsSettled` |
| GroupDetails.MemberNet | client/src/pages/GroupDetails.tsx:104-116 | the `forEach` loop yields `Net`: the amounts the member paid minus `amount / |participants|` over the expenses they take part in |
| GroupDetails.NetSnoc | client/src/pages/GroupDetails.tsx:107-114 | one more expense changes a net balance by that expense's contribution |
| GroupDetails.NetConcat | client/src/pages/GroupDetails.tsx:107-114 | a net balance over two lists joined is the sum of the two |
| GroupDetails.UninvolvedMemberIsSettled | client/src/pages/GroupDetails.tsx:104-117 | a member who neither paid nor takes part has net 0, and their row is hidden |
| GroupDetails.SelfPaidExpenseIsNeutral | client/src/pages/GroupDetails.tsx:107-114 | an expense whose only participant is its payer changes nobody's net, wherever it stands |
| GroupDetails.SumPaidPartsIsAmount | client/src/pages/GroupDetails.tsx:108-110 | among distinct members, the paid amounts of one expense add up to its amount if the payer is a member, else 0 |
| GroupDetails.CountParticipantsIsOverlap | client/src/pages/GroupDetails.tsx:111 | the number of members who take part is the size of the overlap of the two id sets |
| GroupDetails.EveryParticipantCounted | client/src/pages/GroupDetails.tsx:111 | when the participants are distinct members, each of them is counted once |
| GroupDetails.SharesAddUpToAmount | client/src/pages/GroupDetails.tsx:111-113 | the equal shares of a well-formed expense add up to its amount |
| GroupDetails.NetsSumToZero | client/src/pages/GroupDetails.tsx:102-116 | over distinct members, the nets sum to 0 when every payer is a member and every participant list is non-empty, duplicate-free and drawn from the members |
| GroupDetails.BalanceLine | client/src/pages/GroupDetails.tsx:117-129 | a row is hidden exactly when `|net| < 0.01`; a positive net reads "gets back net", any other shown net "owes |net|" |
| GroupDetails.BalanceRows | client/src/pages/GroupDetails.tsx:102-133 | there are at most as many rows as members |
| GroupDetails.MemberRow | client/src/pages/GroupDetails.tsx:117-132 | a member gives no row exactly when their balance is hidden, otherwise one row with their label |
| GroupDetails.BalanceRowsShowVisible | client/src/pages/GroupDetails.tsx:102-133 | every row shows a member with the label of their own net; every member whose balance is not hidden has a row |
| GroupDetails.BalanceRowsFollowMembers | client/src/pages/GroupDetails.tsx:102-133 | the rows' members are exactly the visible members, in member order (`members.map` with the `null` rows dropped) |
| GroupDetails.GroupPage | client/src/pages/GroupDetails.tsx:16-181 | "not found" exactly when no group has the id; otherwise the first group with the id, as `find` returns it, its sorted expenses, its balance rows, the sum of its amounts as total spending and the number of its expenses |
| Aggregation.FindBucket | client/src/pages/Analytics.tsx:13 | `acc.find` by name: the first entry with that name, or none when no entry has it |
| Aggregation.AddToFound | client/src/pages/Analytics.tsx:14-15 | a category already present has its entry's value raised in place |
| Aggregation.AddToMissing | client/src/pages/Analytics.tsx:16-17 | a new category is pushed at the end |
| Aggregation.Totals | client/src/pages/Analytics.tsx:12-20 | the `reduce` over `find`/`push` buckets: no more buckets than expenses, and none exactly when there are no expenses; the full characterisation is `TotalsCharacterization` |
| Aggregation.TotalsNames | client/src/pages/Analytics.tsx:12-20 | the entry names are the distinct keys, in first-appearance order |
| Aggregation.TotalsValueOf | client/src/pages/Analytics.tsx:13-19 | looking up a key gives the sum of the amounts with that key |
| Aggregation.TotalsSumValues | client/src/pages/Analytics.tsx:12-20 | the entry values sum to the total amount |
| Aggregation.TotalsCharacterization | client/src/pages/Analytics.tsx:12-20 | one entry per distinct key and no other, no name twice, keys in order of first appearance, each value the sum for its key, values summing to the total, empty in gives empty out |
| Analytics.CategoryData | client/src/pages/Analytics.tsx:12-20 | the in-place `reduce` builds the buckets; one entry per category; each value is that category's sum; the values sum to the total |
| Analytics.AddCategory | client/src/pages/Analytics.tsx:13-18 | one callback step: the found entry is raised, or a new one is pushed |
| Dashboard.Entries | client/src/pages/Dashboard.tsx:49 | `Object.entries(monthlyData)`: one entry per key in insertion order, holding that key's value |
| Dashboard.Owed | client/src/pages/Dashboard.tsx:20-32 | the sum, over the expenses the user paid, of `amount / (participants.length || 1)` times the other participants; a definition whose properties are `OwedAndOwe`, `TotalsAreNonNegative` and `BalanceIsNet` |
| Dashboard.Owe | client/src/pages/Dashboard.tsx:33-37 | the sum, over the expenses somebody else paid with the user among the participants, of `amount / (participants.length || 1)`; a definition whose properties are the lemmas named for `Dashboard.Owed` |
| Dashboard.OwedAndOwe | client/src/pages/Dashboard.tsx:20-38 | the `forEach` yields `Owed` and `Owe`: a share per other participant of each expense the user paid, with `length || 1` as divisor, and the user's share of each expense paid by someone else |
| Dashboard.MonthlyChart | client/src/pages/Dashboard.tsx:43-49 | the dictionary loop gives one entry per month label, no label twice, each value that month's sum, all of them summing to the total |
| Dashboard.AddMonth | client/src/pages/Dashboard.tsx:46 | one dictionary update keeps the key list and the map in step |
| Dashboard.Summarize | client/src/pages/Dashboard.tsx:13-59 | with no user id (absent or empty) everything is 0 or empty; otherwise owed, owe, balance = owed - owe, the recent list and the monthly chart |
| Dashboard.TotalsAreNonNegative | client/src/pages/Dashboard.tsx:20-38 | with non-negative amounts, owed and owe are non-negative |
| Dashboard.PartsAgreeWithContribution | client/src/pages/Dashboard.tsx:20-37 | for an expense with participants, owed minus owe is the group page's contribution |
| Dashboard.BalanceIsNet | client/src/pages/Dashboard.tsx:20-40 | when every expense has participants, the dashboard balance equals the group page's net formula for the user |
| Dashboard.NoParticipantsDisagree | client/src/pages/Dashboard.tsx:24 | an expense the user paid with no participants is where the two differ: balance 0 against net `amount` |
| Dashboard.RecentExpenses | client/src/pages/Dashboard.tsx:55 | the copy sorted newest first and cut to five: five expenses, or all when there are fewer, each from the input |
| Dashboard.TakeNewest | client/src/pages/Dashboard.tsx:55 | the first `k` of a newest-first list are ordered, and nothing left behind is newer than them |
| Dashboard.RecentExpensesAreNewest | client/src/pages/Dashboard.tsx:55 | at most five expenses, `min(5, n)` of them, drawn from the input, newest first, none of the others newer |
| JsNumbers.ToNumber | client/src/lib/currencyValidation.ts:12 | `Number(val)`: trim, then the empty string is 0, a `0x`/`0o`/`0b` prefix reads an unsigned integer in that radix, and otherwise an optionally signed decimal or `Infinity`; a definition with no contract of its own, whose properties are the `JsNumbers` lemmas below |
| JsNumbers.DigitsAndPointsAreDecimal | client/src/lib/currencyValidation.ts:12 | text of digits and points is read as an unsigned decimal literal |
| JsNumbers.PointedDecimal | client/src/lib/currencyValidation.ts:12 | `Number("d1.d2")` is the integer `d1d2` divided by ten to the number of fraction digits |
| JsNumbers.WholeDecimal | client/src/lib/currencyValidation.ts:12 | `Number` of a digit string is its integer value |
| JsNumbers.EmptyIsZero | client/src/lib/currencyValidation.ts:12 | `Number("")` is 0 |
| JsNumbers.SameTrimSameNumber | client/src/lib/currencyValidation.ts:12 | only the trimmed text matters |
| JsNumbers.PaddingIgnored | client/src/lib/currencyValidation.ts:12 | white space around a number does not change it |
| JsNumbers.NonNumericStartIsNaN | client/src/lib/currencyValidation.ts:12 | text starting with anything but a digit, point, sign or `I` is NaN |
| JsNumbers.SignedText | client/src/lib/currencyValidation.ts:12 | for text of digits and points, `Number("-" + x)` is the negation of `Number(x)` and `Number("+" + x)` equals it |
| JsNumbers.DigitStartIsDecimal | client/src/lib/currencyValidation.ts:12 | text starting with a digit, with no radix prefix, is an unsigned decimal literal |
| JsNumbers.ExponentNotation | client/src/lib/currencyValidation.ts:12 | digits with an exponent part of value `e` are the digits times ten to the `e` |
| JsNumbers.DigitsThenJunkIsNaN | client/src/lib/currencyValidation.ts:12 | digits followed by anything that is not an exponent part are NaN |
| JsNumbers.RadixLiteral | client/src/lib/currencyValidation.ts:12 | `0x`, `0o` and `0b` followed by digits of that radix are the digits' value in it |
| JsNumbers.RadixNeedsDigitsAndNoSign | client/src/lib/currencyValidation.ts:12 | a bare radix prefix is NaN, and so is a radix literal with a sign in front |
| CurrencyValidation.RestrictToCurrencyInput | client/src/lib/currencyValidation.ts:69-71 | accepts exactly the language: digits, at most one point, then at most two digits (the empty text included) |
| CurrencyValidation.ScanMatchesLanguage | client/src/lib/currencyValidation.ts:70 | the greedy scan accepts exactly that language |
| CurrencyValidation.RestrictIsPrefixClosed | client/src/lib/currencyValidation.ts:65-71 | every prefix of accepted text is accepted, as the `onChange` use relies on |
| CurrencyValidation.RestrictAccepts | client/src/lib/currencyValidation.ts:70 | "", "12.34", "12.", "." and "5" are accepted |
| CurrencyValidation.RestrictRejects | client/src/lib/currencyValidation.ts:70 | "1.234", "1.2.3", "-1" and "1e5" are rejected |
| CurrencyValidation.CleanAmount | client/src/lib/currencyValidation.ts:50 | no rupee sign, comma or white space is left, and every other character survives |
| CurrencyValidation.ParseCurrency | client/src/lib/currencyValidation.ts:49-53 | `parseCurrency`: null exactly when `parseFloat` of the cleaned text is NaN; otherwise a number that is not NaN |
| CurrencyValidation.CleanConcat | client/src/lib/currencyValidation.ts:50 | cleaning works piecewise on a concatenation |
| CurrencyValidation.CleanChar | client/src/lib/currencyValidation.ts:50 | a single character is dropped exactly when it is stripped, so kept characters stay in order |
| CurrencyValidation.CleanIsIdempotent | client/src/lib/currencyValidation.ts:50 | cleaning twice is cleaning once |
| CurrencyValidation.ParseIgnoresStripped | client/src/lib/currencyValidation.ts:49-53 | whatever `parseFloat` does, a stripped character anywhere does not change `parseCurrency`'s result |
| CurrencyValidation.PassesOnNumber | client/src/lib/currencyValidation.ts:11-18 | whether text passes a rule depends only on its being non-empty and on `Number(val)` |
| CurrencyValidation.FailingMessages | client/src/lib/currencyValidation.ts:10-18 | no issues exactly when every rule in the chain holds |
| CurrencyValidation.FirstFailure | client/src/lib/currencyValidation.ts:10-18 | the position of the first rule that fails: every earlier rule holds |
| CurrencyValidation.FirstMessageAt | client/src/lib/currencyValidation.ts:10-18 | the first issue is the message of the first rule that fails |
| CurrencyValidation.FirstMessageIsFirstFailure | client/src/lib/currencyValidation.ts:10-18 | the same, as an existence statement |
| CurrencyValidation.MessageInjective | client/src/lib/currencyValidation.ts:11-18 | no two rules share a message |
| CurrencyValidation.ListedIffFails | client/src/lib/currencyValidation.ts:10-18 | a rule's message is listed exactly when the rule is in the chain and fails |
| CurrencyValidation.ChainPassesIff | client/src/lib/currencyValidation.ts:10-18 | the chain produces no issue exactly when every rule holds |
| CurrencyValidation.SafeParse | client/src/lib/currencyValidation.ts:10-18 | `currencyAmountSchema.safeParse`: a success carries the input text unchanged, and a failure carries at least one issue; which issues is stated by `ParsesIffEveryRulePasses`, `FirstIssueIsFirstFailingRule` and `FailingRulesAreReported` |
| CurrencyValidation.ParsesIffEveryRulePasses | client/src/lib/currencyValidation.ts:10-18 | `safeParse` succeeds exactly when the text passes every rule |
| CurrencyValidation.IsValidCurrencyAmount | client/src/lib/currencyValidation.ts:60-63 | true exactly when the text passes every rule |
| CurrencyValidation.FirstIssueIsFirstFailingRule | client/src/lib/currencyValidation.ts:10-18 | a failure reports, first, the message of the first rule in chain order that the text fails |
| CurrencyValidation.FailingRulesAreReported | client/src/lib/currencyValidation.ts:10-18 | a rule's message is among the issues exactly when the text fails that rule |
| CurrencyValidation.EmptyAmountIssues | client/src/lib/currencyValidation.ts:11-13 | "" yields exactly "Amount is required" and "Amount must be greater than ₹0" |
| CurrencyValidation.NaNFailsNumberRules | client/src/lib/currencyValidation.ts:12-18 | NaN fails the number, positive, crore and decimals rules and only those |
| CurrencyValidation.NotANumberIssues | client/src/lib/currencyValidation.ts:12-18 | non-empty text that is not a number gets exactly the four numeric issues |
| CurrencyValidation.HundredthsRule | client/src/lib/currencyValidation.ts:15-18 | `m / 10^q` has whole hundredths exactly when `q <= 2` or the digits past the second decimal are zero |
| CurrencyValidation.TwoDecimalRule | client/src/lib/currencyValidation.ts:15-18 | a plain decimal passes "maximum 2 decimal places" exactly when its digits past the second are zero |
| CurrencyValidation.InRangeNumberHolds | client/src/lib/currencyValidation.ts:11-18 | a number in (0, 1 crore] with whole hundredths passes every rule, the crore bound included |
| CurrencyValidation.TwoDecimalAmountIsValid | client/src/lib/currencyValidation.ts:10-18 | a plain decimal with at most two fraction digits and value in (0, 1 crore] is valid |
| CurrencyValidation.RestrictedInputIsNumeric | client/src/lib/currencyValidation.ts:65-71 | text the keystroke filter accepts, with at least one digit, passes the number and two-decimal rules |
| ExpenseForm.CanSubmit | client/src/components/expenses/AddExpenseDialog.tsx:30 | the guard at the top of `handleSubmit`: submission goes ahead only when the title and the amount text are both non-empty; a definition, used by `HandleSubmit`'s contract |
| ExpenseForm.SubmittedDraft | client/src/components/expenses/AddExpenseDialog.tsx:32-40 | the draft has the group id, the form fields, EQUAL and every member id in member order |
| ExpenseForm.AddExpenseDialog.constructor | client/src/components/expenses/AddExpenseDialog.tsx:21-26 | closed, today's date, empty title and amount, category Other, payer the first member (so the group must have one) |
| ExpenseForm.AddExpenseDialog.SetPaidBy | client/src/components/expenses/AddExpenseDialog.tsx:114-122 | the picker sets the payer to one of the group's members and nothing else |
| ExpenseForm.AddExpenseDialog.HandleSubmit | client/src/components/expenses/AddExpenseDialog.tsx:28-46 | an empty title or amount changes nothing; otherwise exactly one expense is added, stamped with the store's id and time (not the picked date), the dialog closes, title and amount clear, category and payer stay |
| ExpenseForm.SubmittedExpenseIsWellFormed | client/src/components/expenses/AddExpenseDialog.tsx:32-40 | a submitted expense has a member as payer and every member once as participant, so the group's nets still sum to 0 |
| ExpenseForm.SubmittedExpenseSplitsEqually | client/src/components/expenses/AddExpenseDialog.tsx:39 | every member's share of a submitted expense is `amount / |members|` |
| Api.FindByUsername | server/routes.ts:22 | `findOne({ username })`: None exactly when nobody has the name; otherwise the first stored user with it |
| Api.FindUserById | server/routes.ts:62 | `findById`: None exactly when no user has the id; otherwise the first stored user with it |
| Api.FindGroupById | server/routes.ts:104 | `findById`: None exactly when no group has the id; otherwise the first stored group with it |
| Api.ResolveMembers | server/routes.ts:72 | `populate('members')`: each stored id with a user is resolved to it, and nothing else is added |
| Api.ResolveMembersInOrder | server/routes.ts:72 | the resolved members' ids are exactly the resolvable stored ids, in stored order and with repetitions |
| Api.PopulateAll | server/routes.ts:72 | every listed group populated, in order |
| Api.CheckLogin | server/routes.ts:38-42 | a user is returned only with that name and that password; None exactly when nobody has the name or the password differs |
| Api.MemberIdsFor | server/routes.ts:84 | no duplicates; the creator and every requested member, and nothing else; missing `members` is none |
| Api.MemberIdsOrder | server/routes.ts:84 | requested members keep their first-occurrence order, and the creator is last unless already present |
| Api.MissingMembersAreNone | server/routes.ts:84 | without `members` the group has the creator alone |
| Api.VisibleExpenses | server/routes.ts:132-137 | exactly the expenses the user paid or takes part in |
| Api.UninvolvedExpenseIsHidden | server/routes.ts:132-137 | an expense the user neither paid nor shares is never listed |
| Api.CreatedExpense | server/routes.ts:116-119 | none exactly when the expense schema (`server/models/Expense.ts`, lines 4-10) refuses the document: empty group or title, no amount, or a `splitType` outside its enum; otherwise the payer is the session user whatever the body says, the other fields are the body's, and absent `splitType`, `category` and `date` default to EQUAL, "Other" and now |
| Api.ParseSplitType | server/models/Expense.ts:8 | the enum check admits exactly the three names `EQUAL`, `PERCENTAGE` and `EXACT`, each naming its split type |
| Api.ParseGroupType | server/models/Group.ts:5 | the enum check admits exactly `Trip`, `Home`, `Couple` and `Other`, each naming its group type |
| Api.PaidByIsOverridden | server/routes.ts:116-119 | a `paidBy` in the body has no effect |
| Api.CreatedGroup | server/routes.ts:86-92 | none exactly when the group schema refuses it: no name, or a `type` outside its enum; otherwise currency "$", creator the session user, members the deduped list with the creator, type defaulting to Other |
| Api.CreatorSeesNewGroup | server/routes.ts:72-92 | the creator of a newly created group finds it among their groups |
| Api.Server.constructor | server/routes.ts:13-16 | empty collections, no session |
| Api.Server.Register | server/routes.ts:19-33 | given a fresh non-empty id, a taken username gives 400 and changes nothing; a missing username or password gives 500; otherwise the user is stored and signed in, 201 |
| Api.Server.Login | server/routes.ts:35-49 | 401 when nobody has the name or the password differs, session unchanged; otherwise the session is that user's |
| Api.Server.Logout | server/routes.ts:51-56 | the session is destroyed, 200 |
| Api.Server.Me | server/routes.ts:58-65 | 401 without a session or when its user is gone; otherwise that user |
| Api.Server.ListGroups | server/routes.ts:68-77 | 401 without a session; otherwise exactly the groups listing the user as member, populated |
| Api.Server.CreateGroup | server/routes.ts:79-99 | 401 without a session; 500, with nothing stored, when the schema refuses the group (no name, or an unknown `type`); otherwise one group appended and sent back populated with 201 |
| Api.Server.GetGroup | server/routes.ts:101-110 | 401 without a session; 404 for an unknown id; otherwise the group populated, whoever asks |
| Api.Server.CreateExpense | server/routes.ts:113-124 | 401 without a session; 500, with nothing stored, when the schema refuses the expense (no group, title or amount, or an unknown `splitType`); otherwise one expense, paid by the session user, appended, 201 |
| Api.Server.ListExpenses | server/routes.ts:126-142 | 401 without a session; otherwise exactly the visible expenses |

## Left out

- Floating point. Amounts are exact reals, so `/`, `+` and `* 100` are exact here. JavaScript's binary doubles are not. For example, `Number.isInteger(0.07 * 100)` is false in JavaScript, so the schema rejects "0.07". The model accepts it (`TwoDecimalAmountIsValid`). The `0.01` hiding threshold is likewise exact.
- `Number(string)` is modelled for white space, the empty string, signed decimals with fraction and exponent, `Infinity`, and `0x`/`0o`/`0b` literals. Literal values are exact: rounding to a double and overflow to `Infinity` are not modelled.
- `parseFloat` (in `parseCurrency` and in the dialog's submit) is a function parameter. Its parsing rules are not part of this model.
- `ExpenseForm.AddExpenseDialog.HandleSubmit`: the amount is whatever `parseFloat` returns as a real. A NaN amount from unparseable text is not modelled.
- `formatCurrency`, `formatIndianCurrency`, `toFixed(2)` and `Intl.NumberFormat` are display formatting. Their output is not modelled.
- The `date-fns` month label `format(date, 'MMM')` is a function parameter of the monthly chart. `Dashboard.Entries` and `Dashboard.MonthlyChart` state insertion order, which `Object.entries` keeps only for keys that are not array indices such as "0". The 'MMM' labels ("Jan" to "Dec") never are, but the model does not constrain the parameter to such labels.
- Local storage is a plain field of the store (`Store.Storage`). The store's actions write it and the fetches read it back. The model assumes that `JSON.parse` of `JSON.stringify` returns each record unchanged. That is not true in general, for example for `undefined` fields.
- Date handling: `new Date(e.date).getTime()` is the integer `date`, and `Date.now()` and `new Date().toISOString()` are parameters. Invalid dates, which sort as NaN, are not modelled.
- On the server, MongoDB and mongoose are replaced by in-memory sequences:
  - queries return records in stored order;
  - `ObjectId` formats, cast errors and the resulting 500 replies are not modelled;
  - the `timestamps` fields are not modelled.
- A missing required string field of a body is modelled as the empty string, since mongoose's `required` check rejects both. A missing `amount` is modelled as an absent value.
- `Api.CreatedExpense`: the body's `amount` is a JSON number or absent. Mongoose's casting of a numeric string such as "12" to a number, and its refusal of other strings, are not modelled.
- Express plumbing, the session store and `async`/`await` are not modelled. A session is the requester's user id or none, and each handler runs atomically.
- `Api.Server.Logout`: the error branch of `session.destroy` (500) is not modelled. The model's session always destroys cleanly.
- The replies send user records with their passwords, as the source does. The model keeps that behaviour and does not flag it. `GET /api/groups/:id` does not check membership, and the model keeps that too.
- `isLoading` is never set by any action. The model carries it unchanged.
- The mock auth store that supplies the dashboard's user is a parameter: the current user id, or none.
- The static `spendingByUserData` and the insight text on the analytics page are constant display data, not logic.
- JSX rendering, dialogs, toasts, routing, and the dialog's other field setters (title, amount, category, date, open) are not modelled. Each of those setters assigns its field and nothing else.
- The other pages and wrappers (Login, Groups, CreateGroupDialog, the delete dialogs, App, AppLayout) only call the modelled store actions or render. They are not part of this model.
- Percentage and exact splits, a settlement planner and minor-unit arithmetic do not exist in the source, so they are not modelled.

## Findings

| source | as written | input that shows it | evidently intended | confidence | as-written member | corrected member |
|---|---|---|---|---|---|---|
| client/src/store/useExpenseStore.ts:154-170 | `settleUp(groupId, fromUser, toUser, amount)` records an expense paid by `toUser` with `[fromUser]` as participants. On the group page's net formula, that lowers `fromUser`'s balance by `amount` and raises `toUser`'s. | Take a debtor `a` with net -10 and a creditor `b` with net +10. After `settleUp(g, a, b, 10)`, `a` has net -20 and `b` +20. | `fromUser` pays `toUser`, so the record should be paid by `fromUser` for `[toUser]`. A full settlement then clears both balances. | medium, not executed | Store.SettlementWidensDebt | Store.CorrectedSettlementClearsDebt |

`Store.ExpenseStore.SettleUp` keeps the record as the source writes it (`Store.Settlement`). None of the modelled pages or dialogs calls `settleUp`, so no other member depends on either record.

# Expense ledger of the freelance tax guide, in Dafny

This project models the expense ledger of the `ExpenseTracker` page of a
browser bookkeeping app for Canadian freelancers. The page keeps a list of
expense records. Each record has an id, a date, a category, a description,
an amount, its HST (Harmonized Sales Tax) and a total. The page offers an add
form, a delete button per row, and an edit buffer with save and cancel. It
shows three summary figures: total deductions (the sum of the amounts), total
HST and total expenses.

- `money.dfy`, module `Money`. HST is 13% of a tax-exclusive amount, rounded
  to cents (`calculateHst`). The total is the amount plus the HST, rounded to
  cents (`calculateTotal`). A typed amount that does not parse is turned into 0.
  Money is an integer number of cents. A value finer than a cent is an integer
  number of hundredths of a cent. `toFixed(2)` is modelled as rounding to the
  nearest cent with ties away from zero, which is half-up for non-negative
  values.
- `ledger.dfy`, module `Ledger`. It defines the `Expense` record, the add form's
  draft and the seed records. It also defines the validation shared by add and
  save, the filter by id behind delete, the map by id behind save, and the three
  `reduce` sums with their balance lemma.
- `tracker.dfy`, module `Tracker`. The class `ExpenseTracker` holds the
  component's state: `expenses`, `newExpense`, `isAdding`, `editingExpenseId`
  and `editedExpense`. It has one method per handler. `Valid()` is the
  invariant that every handler keeps. The edit buffer is either empty, or it
  holds a copy whose id is the id being edited. Every stored record has the HST
  and total of its amount, and so does the draft's preview.

The code applies 13% to an amount that excludes tax (`amount * 0.13`). The
capital asset and HST tabs are "Coming Soon" placeholders, so no capital cost
allowance or input tax credit is modelled.

## Model

| member | source | states |
|---|---|---|
| Money.RoundToCents | src/pages/ExpenseTracker.tsx:76 | the result is within half a cent of the value, and a tie goes away from zero |
| Money.RoundToCentsUnique | src/pages/ExpenseTracker.tsx:76 | those properties determine the rounded value uniquely |
| Money.RoundToCentsMonotone | src/pages/ExpenseTracker.tsx:76 | rounding preserves order |
| Money.RoundToCentsOdd | src/pages/ExpenseTracker.tsx:76 | rounding a negated value gives the negated rounding |
| Money.CalculateHst | src/pages/ExpenseTracker.tsx:75-77 | the HST is within half a cent of 13% of the amount, ties away from zero |
| Money.HstBounds | src/pages/ExpenseTracker.tsx:75-77 | for a non-negative amount, 0 <= HST <= amount |
| Money.HstMonotone | src/pages/ExpenseTracker.tsx:75-77 | a larger amount never has a smaller HST |
| Money.HstOdd | src/pages/ExpenseTracker.tsx:75-77 | a negative amount has the negated HST of its magnitude |
| Money.CalculateTotal | src/pages/ExpenseTracker.tsx:79-81 | for amounts in whole cents, total - amount equals the HST exactly |
| Money.HstOf | src/pages/ExpenseTracker.tsx:75-85 | calculateHst of a possibly-NaN number is NaN exactly when the number is; otherwise it is within half a cent of 13% of the number, a tie going away from zero |
| Money.TotalOf | src/pages/ExpenseTracker.tsx:84-86 | calculateTotal is NaN exactly when the amount or the HST is, and otherwise exceeds the amount by exactly the HST |
| Money.OrZero | src/pages/ExpenseTracker.tsx:90-92 | the definition of `isNaN(x) ? 0 : x`; what it means for the stored fields is stated on Money.NormaliseAmount |
| Money.NormaliseAmount | src/pages/ExpenseTracker.tsx:83-94 | NaN input gives amount, HST and total all 0; a number is kept; in both cases HST = calculateHst(amount) and total = amount + HST |
| Ledger.SeedExpenses | src/pages/ExpenseTracker.tsx:26-45 | the two seed records in cents; the contract only fixes the shape (two records, distinct ids), and their tax consistency is Ledger.SeedTaxConsistent |
| Ledger.SeedTaxConsistent | src/pages/ExpenseTracker.tsx:26-45 | both seed records satisfy HST = 13% of the amount rounded and total = amount + HST |
| Ledger.FieldsFilled | src/pages/ExpenseTracker.tsx:97 | the definition of the add check: date, category and description non-empty and the amount not 0 |
| Ledger.DraftComplete | src/pages/ExpenseTracker.tsx:97 | the add form's validation; the reset draft never passes it, and a refund passes exactly when the purchase does |
| Ledger.ExpenseComplete | src/pages/ExpenseTracker.tsx:173 | the save check, written out on its own; it accepts a record exactly when the add check of :97 accepts a draft with the same fields |
| Ledger.FromDraft | src/pages/ExpenseTracker.tsx:103-108 | the added record takes the new id and the draft's fields, with HST and total recomputed from the amount |
| Ledger.FromDraftMatchesPreview | src/pages/ExpenseTracker.tsx:83-108 | if the draft's preview is consistent, the stored record shows the same HST and total |
| Ledger.Recomputed | src/pages/ExpenseTracker.tsx:180-184 | the saved record is the edited copy with only HST and total changed, they are consistent, and it passes validation exactly when the copy did |
| Ledger.RecomputedIdempotent | src/pages/ExpenseTracker.tsx:180-184 | recomputing a record that is already consistent changes nothing |
| Ledger.Deleted | src/pages/ExpenseTracker.tsx:124 | the filtered list is never longer than the original |
| Ledger.DeletedMembers | src/pages/ExpenseTracker.tsx:124 | a record survives iff it was in the list and its id differs, so no record with the id is left |
| Ledger.DeletedAbsent | src/pages/ExpenseTracker.tsx:124 | deleting an id that no record carries leaves the list unchanged |
| Ledger.DeletedCons | src/pages/ExpenseTracker.tsx:124 | the first record is dropped exactly when its id matches, and the rest is filtered in turn |
| Ledger.DeletedAppend | src/pages/ExpenseTracker.tsx:124 | filtering distributes over concatenation, so survivors keep their original order |
| Ledger.DeletedTaxConsistent | src/pages/ExpenseTracker.tsx:124 | deleting keeps every remaining record consistent |
| Ledger.Replaced | src/pages/ExpenseTracker.tsx:178-187 | the length is kept; position k holds the new record if its id matched, otherwise the old record |
| Ledger.ReplacedTaxConsistent | src/pages/ExpenseTracker.tsx:178-187 | replacing records with a consistent record keeps every record consistent |
| Ledger.SumAmounts | src/pages/ExpenseTracker.tsx:196 | the left fold of the amount column; non-negative when every amount is |
| Ledger.SumHst | src/pages/ExpenseTracker.tsx:200 | the left fold of the HST column; non-negative when every HST is |
| Ledger.SumTotals | src/pages/ExpenseTracker.tsx:204 | the left fold of the total column; non-negative when every total is |
| Ledger.SumsAppend | src/pages/ExpenseTracker.tsx:195-205 | appending a record adds its amount, HST and total to the three sums |
| Ledger.SummaryBalances | src/pages/ExpenseTracker.tsx:195-205 | if every record has total = amount + HST, then total expenses = total deductions + total HST |
| Ledger.ConsistentSummaryBalances | src/pages/ExpenseTracker.tsx:195-205 | the same holds when every record is tax-consistent |
| Ledger.HstWithinDeductions | src/pages/ExpenseTracker.tsx:195-201 | when every record is tax-consistent and no amount is negative, 0 <= total HST <= total deductions |
| Tracker.ExpenseTracker.TotalDeductions | src/pages/ExpenseTracker.tsx:195-197 | the sum of the amounts of the current list; never negative when no amount is |
| Tracker.ExpenseTracker.TotalHst | src/pages/ExpenseTracker.tsx:199-201 | the sum of the HST column; in a valid state with no negative amount, between 0 and the total deductions |
| Tracker.ExpenseTracker.TotalExpenses | src/pages/ExpenseTracker.tsx:203-205 | the sum of the total column; in every valid state, total expenses = total deductions + total HST |
| Tracker.ExpenseTracker.constructor | src/pages/ExpenseTracker.tsx:26-56 | initially: the seed records, an empty draft, the add form closed, nothing being edited, Valid() |
| Tracker.ExpenseTracker.SetDraftDate | src/pages/ExpenseTracker.tsx:60-66 | only the draft's date changes |
| Tracker.ExpenseTracker.SetDraftCategory | src/pages/ExpenseTracker.tsx:68-73 | only the draft's category changes |
| Tracker.ExpenseTracker.SetDraftDescription | src/pages/ExpenseTracker.tsx:60-66 | only the draft's description changes |
| Tracker.ExpenseTracker.ChangeAmount | src/pages/ExpenseTracker.tsx:83-94 | NaN gives 0, 0, 0; a number is stored with its HST and amount + HST; other draft fields are unchanged |
| Tracker.ExpenseTracker.OpenAddForm | src/pages/ExpenseTracker.tsx:262 | the add form opens |
| Tracker.ExpenseTracker.CloseAddForm | src/pages/ExpenseTracker.tsx:255 | the add form closes and the draft is kept |
| Tracker.ExpenseTracker.AddExpense | src/pages/ExpenseTracker.tsx:96-121 | accepted iff date, category and description are non-empty and the amount is not 0 (a negative amount passes); on acceptance the recomputed record is appended after the unchanged old list, the draft is reset, the form closes and the sums grow by its amount and HST; on rejection nothing changes |
| Tracker.ExpenseTracker.DeleteExpense | src/pages/ExpenseTracker.tsx:123-126 | the list becomes the old list filtered by id: it holds exactly the old records whose id differs, in their old order (Ledger.DeletedAppend) |
| Tracker.ExpenseTracker.StartEditing | src/pages/ExpenseTracker.tsx:128-131 | the buffer holds the record's id and a copy of it |
| Tracker.ExpenseTracker.CancelEditing | src/pages/ExpenseTracker.tsx:133-136 | the buffer is cleared and the list is untouched |
| Tracker.ExpenseTracker.SetEditedDate | src/pages/ExpenseTracker.tsx:138-146 | the copy's date changes if a copy is held; otherwise nothing changes |
| Tracker.ExpenseTracker.SetEditedCategory | src/pages/ExpenseTracker.tsx:148-155 | the copy's category changes if a copy is held |
| Tracker.ExpenseTracker.SetEditedDescription | src/pages/ExpenseTracker.tsx:138-146 | the copy's description changes if a copy is held |
| Tracker.ExpenseTracker.ChangeEditedAmount | src/pages/ExpenseTracker.tsx:157-170 | as ChangeAmount, applied to the copy, and only when a copy is held |
| Tracker.ExpenseTracker.SaveExpense | src/pages/ExpenseTracker.tsx:172-193 | accepted iff a copy is held and its fields pass validation; on acceptance every record with the edited id is replaced by the recomputed copy, all others and the length are kept, and the buffer is cleared; on rejection the list and the buffer are unchanged |

## Left out

- Rendering, tabs, the edit modal, the table layout and the toast notifications are not modelled. They are user interface only. `AddExpense` and `SaveExpense` return a boolean that says which toast would fire.
- `Math.random()` id generation is not modelled: `AddExpense` takes the new id as a parameter. Ids are not claimed to be unique. `DeleteExpense` and `SaveExpense` act on every record that carries the id.
- `parseFloat` on the typed text is not modelled. The handlers take its result as a `Num`, which is either NaN or a number of cents. Infinity and amounts finer than a cent (for example "10.005") are outside the model.
- IEEE floating point is not modelled. `amount * 0.13`, the sums in `reduce` and `toFixed` become exact integer arithmetic with an explicit rounding step. A product that lands exactly on half a cent is rounded away from zero. In binary floating point it may lie just above or below half a cent and round the other way.
- The string that `toFixed(2)` produces for the summary figures is display formatting and is not modelled. The summary figures are integers of cents.
- The generic `[name]: value` binding of the text inputs is modelled only as setting the date or the description, which are the only fields those inputs are wired to.
- The "Coming Soon" tabs for capital assets and HST, src/pages/Index.tsx and src/components/Navigation.tsx compute nothing and are not part of this model.

/** The state of the ExpenseTracker component and its event handlers: the
    list of expenses, the add form's draft, whether the add form is open, and
    the edit buffer (the id being edited and the edited copy). Each handler is
    a method that changes the fields its `modifies` clause names. */
module Tracker {
  import opened Money
  import opened Ledger

  class ExpenseTracker {
    var expenses: seq<Expense>
    var newExpense: Draft
    var isAdding: bool
    var editingExpenseId: Option<string>
    var editedExpense: Option<Expense>

    /** The edit buffer is either empty or holds a copy of the record being
        edited; every stored record, and the draft's preview fields, carry the
        HST and total of their amount. */
    ghost predicate Valid()
      reads this
    {
      (editingExpenseId.Some? <==> editedExpense.Some?) &&
      (editedExpense.Some? ==> editedExpense.value.id == editingExpenseId.value) &&
      AllTaxConsistent(expenses) &&
      newExpense.Figures().Consistent()
    }

    /** calculateTotalDeductions: the sum of the amounts; never negative when
        no amount is. */
    function TotalDeductions(): (r: int)
      reads this
      ensures (forall e :: e in expenses ==> e.amount >= 0) ==> r >= 0
    {
      SumAmounts(expenses)
    }

    /** calculateTotalHst: the sum of the HST column. In a valid state with no
        negative amount it lies between 0 and the total of the deductions. */
    function TotalHst(): (r: int)
      reads this
      ensures Valid() && (forall e :: e in expenses ==> e.amount >= 0) ==>
        0 <= r <= TotalDeductions()
    {
      HstWithinDeductions(expenses);
      SumHst(expenses)
    }

    /** calculateTotalExpenses: the sum of the total column. In a valid state
        it is the total of the deductions plus the total HST. */
    function TotalExpenses(): (r: int)
      reads this
      ensures Valid() ==> r == TotalDeductions() + TotalHst()
    {
      ConsistentSummaryBalances(expenses);
      SumTotals(expenses)
    }

    /** The component's initial state: the two seed records, an empty draft,
        the add form closed and nothing being edited. */
    constructor ()
      ensures Valid()
      ensures expenses == SeedExpenses() && newExpense == EmptyDraft && !isAdding
      ensures editingExpenseId == None && editedExpense == None
    {
      expenses := SeedExpenses();
      newExpense := EmptyDraft;
      isAdding := false;
      editingExpenseId := None;
      editedExpense := None;
      SeedTaxConsistent();
    }

    /** handleInputChange on the date field of the add form. */
    method SetDraftDate(date: string)
      requires Valid()
      modifies this`newExpense
      ensures Valid()
      ensures newExpense == old(newExpense).(date := date)
    {
      newExpense := newExpense.(date := date);
    }

    /** handleCategoryChange. */
    method SetDraftCategory(category: string)
      requires Valid()
      modifies this`newExpense
      ensures Valid()
      ensures newExpense == old(newExpense).(category := category)
    {
      newExpense := newExpense.(category := category);
    }

    /** handleInputChange on the description field of the add form. */
    method SetDraftDescription(description: string)
      requires Valid()
      modifies this`newExpense
      ensures Valid()
      ensures newExpense == old(newExpense).(description := description)
    {
      newExpense := newExpense.(description := description);
    }

    /** handleAmountChange, given what `parseFloat` made of the typed text:
        a number is kept with its HST and total, NaN sets all three to 0. */
    method ChangeAmount(parsed: Num)
      requires Valid()
      modifies this`newExpense
      ensures Valid()
      ensures parsed.NaN? ==> newExpense == old(newExpense).(amount := 0, hst := 0, total := 0)
      ensures parsed.Finite? ==> newExpense == old(newExpense).(amount := parsed.cents,
        hst := CalculateHst(parsed.cents), total := parsed.cents + CalculateHst(parsed.cents))
    {
      var fields := NormaliseAmount(parsed);
      newExpense := newExpense.(amount := fields.amount, hst := fields.hst, total := fields.total);
    }

    /** The "Add Expense" button that opens the add form. */
    method OpenAddForm()
      requires Valid()
      modifies this`isAdding
      ensures Valid() && isAdding
    {
      isAdding := true;
    }

    /** The add form's "Cancel" button: closes the form and keeps the draft. */
    method CloseAddForm()
      requires Valid()
      modifies this`isAdding
      ensures Valid() && !isAdding
    {
      isAdding := false;
    }

    /** addExpense, with `newId` standing for the random id. Returns whether
        the draft was accepted (the success toast) or rejected (the error
        toast). An accepted draft is appended with its HST and total
        recomputed, then the draft is reset and the form closed; a rejected
        one changes nothing. */
    method AddExpense(newId: string) returns (added: bool)
      requires Valid()
      modifies this`expenses, this`newExpense, this`isAdding
      ensures Valid()
      ensures added <==> DraftComplete(old(newExpense))
      ensures added ==> expenses == old(expenses) + [FromDraft(old(newExpense), newId)]
      ensures added ==> newExpense == EmptyDraft && !isAdding
      ensures added ==> TotalDeductions() == old(TotalDeductions()) + old(newExpense.amount)
      ensures added ==> TotalHst() == old(TotalHst()) + CalculateHst(old(newExpense.amount))
      ensures !added ==> expenses == old(expenses) && newExpense == old(newExpense)
      ensures !added ==> isAdding == old(isAdding)
    {
      if !DraftComplete(newExpense) {
        return false;
      }
      var expenseToAdd := FromDraft(newExpense, newId);
      SumsAppend(expenses, expenseToAdd);
      expenses := expenses + [expenseToAdd];
      newExpense := EmptyDraft;
      isAdding := false;
      added := true;
    }

    /** deleteExpense: every record with the id goes, the rest stay in order. */
    method DeleteExpense(id: string)
      requires Valid()
      modifies this`expenses
      ensures Valid()
      ensures expenses == Deleted(old(expenses), id)
      ensures forall e :: e in expenses <==> e in old(expenses) && e.id != id
    {
      forall e ensures e in Deleted(expenses, id) <==> e in expenses && e.id != id {
        DeletedMembers(expenses, id, e);
      }
      DeletedTaxConsistent(expenses, id);
      expenses := Deleted(expenses, id);
    }

    /** startEditing: the edit buffer takes the record's id and a copy of it. */
    method StartEditing(expense: Expense)
      requires Valid()
      modifies this`editingExpenseId, this`editedExpense
      ensures Valid()
      ensures editingExpenseId == Some(expense.id) && editedExpense == Some(expense)
    {
      editingExpenseId := Some(expense.id);
      editedExpense := Some(expense);
    }

    /** cancelEditing: the edit buffer is cleared; the list is not touched. */
    method CancelEditing()
      requires Valid()
      modifies this`editingExpenseId, this`editedExpense
      ensures Valid()
      ensures editingExpenseId == None && editedExpense == None
    {
      editingExpenseId := None;
      editedExpense := None;
    }

    /** handleEditInputChange on the date field: only when a copy is held. */
    method SetEditedDate(date: string)
      requires Valid()
      modifies this`editedExpense
      ensures Valid()
      ensures editedExpense == if old(editedExpense).Some?
        then Some(old(editedExpense).value.(date := date)) else None
    {
      if editedExpense.Some? {
        editedExpense := Some(editedExpense.value.(date := date));
      }
    }

    /** handleEditCategoryChange. */
    method SetEditedCategory(category: string)
      requires Valid()
      modifies this`editedExpense
      ensures Valid()
      ensures editedExpense == if old(editedExpense).Some?
        then Some(old(editedExpense).value.(category := category)) else None
    {
      if editedExpense.Some? {
        editedExpense := Some(editedExpense.value.(category := category));
      }
    }

    /** handleEditInputChange on the description field. */
    method SetEditedDescription(description: string)
      requires Valid()
      modifies this`editedExpense
      ensures Valid()
      ensures editedExpense == if old(editedExpense).Some?
        then Some(old(editedExpense).value.(description := description)) else None
    {
      if editedExpense.Some? {
        editedExpense := Some(editedExpense.value.(description := description));
      }
    }

    /** handleEditAmountChange: as ChangeAmount, on the edited copy. */
    method ChangeEditedAmount(parsed: Num)
      requires Valid()
      modifies this`editedExpense
      ensures Valid()
      ensures old(editedExpense).None? ==> editedExpense == None
      ensures old(editedExpense).Some? && parsed.NaN? ==>
        editedExpense == Some(old(editedExpense).value.(amount := 0, hst := 0, total := 0))
      ensures old(editedExpense).Some? && parsed.Finite? ==>
        editedExpense == Some(old(editedExpense).value.(amount := parsed.cents,
          hst := CalculateHst(parsed.cents), total := parsed.cents + CalculateHst(parsed.cents)))
    {
      var fields := NormaliseAmount(parsed);
      if editedExpense.Some? {
        editedExpense := Some(editedExpense.value.(amount := fields.amount, hst := fields.hst,
          total := fields.total));
      }
    }

    /** saveExpense. Returns whether the edited copy was accepted. An accepted
        copy, with its HST and total recomputed, replaces every record whose id
        is the one being edited, and the edit buffer is cleared; a rejected
        save (no copy held, or a field missing) changes nothing. */
    method SaveExpense() returns (saved: bool)
      requires Valid()
      modifies this`expenses, this`editingExpenseId, this`editedExpense
      ensures Valid()
      ensures saved <==> old(editedExpense).Some? && ExpenseComplete(old(editedExpense).value)
      ensures saved ==> expenses == Replaced(old(expenses), old(editingExpenseId).value,
        Recomputed(old(editedExpense).value))
      ensures saved ==> editingExpenseId == None && editedExpense == None
      ensures !saved ==> expenses == old(expenses) && editingExpenseId == old(editingExpenseId)
      ensures !saved ==> editedExpense == old(editedExpense)
    {
      if editedExpense.None? || !ExpenseComplete(editedExpense.value) {
        return false;
      }
      var updated := Recomputed(editedExpense.value);
      ReplacedTaxConsistent(expenses, editingExpenseId.value, updated);
      expenses := Replaced(expenses, editingExpenseId.value, updated);
      editingExpenseId := None;
      editedExpense := None;
      saved := true;
    }
  }
}

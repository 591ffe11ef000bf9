/** The expense records of the tracker and the list operations and summary
    figures defined on them: filtering a record out by id, replacing a record
    by id, and summing the amount, HST and total columns. */
module Ledger {
  import opened Money

  datatype Option<T> = None | Some(value: T)

  /** One expense row. `amount`, `hst` and `total` are in cents. */
  datatype Expense = Expense(
    id: string,
    date: string,
    category: string,
    description: string,
    amount: int,
    hst: int,
    total: int)
  {
    function Figures(): Amounts { Amounts(amount, hst, total) }
  }

  /** The add form's draft: an expense without an id. */
  datatype Draft = Draft(
    date: string,
    category: string,
    description: string,
    amount: int,
    hst: int,
    total: int)
  {
    function Figures(): Amounts { Amounts(amount, hst, total) }
  }

  /** The draft the form starts with and is reset to after an add. */
  const EmptyDraft: Draft := Draft("", "", "", 0, 0, 0)

  /** The two records the tracker starts with, under distinct ids. */
  function SeedExpenses(): (r: seq<Expense>)
    ensures |r| == 2 && r[0].id != r[1].id
  {
    [ Expense("1", "2024-01-15", "Software", "Adobe Creative Cloud Subscription", 5999, 780, 6779),
      Expense("2", "2024-02-01", "Home Office", "New office chair", 25000, 3250, 28250) ]
  }

  /** The add handler's check of the draft's fields: date, category and
      description are non-empty and the amount is not 0 (a negative amount
      passes). */
  predicate FieldsFilled(date: string, category: string, description: string, amount: int)
  {
    date != "" && category != "" && description != "" && amount != 0
  }

  /** The reset draft never passes validation, and the sign of the amount does
      not matter: a refund passes exactly when the purchase does. */
  predicate DraftComplete(d: Draft)
    ensures DraftComplete(d) ==> d != EmptyDraft
    ensures DraftComplete(d) <==> FieldsFilled(d.date, d.category, d.description, -d.amount)
  {
    FieldsFilled(d.date, d.category, d.description, d.amount)
  }

  /** The save handler's own check of the edited copy: date, category and
      description non-empty and the amount not 0. It accepts a record exactly
      when the add handler's check accepts a draft holding the same fields. */
  predicate ExpenseComplete(e: Expense)
    ensures ExpenseComplete(e) <==>
      DraftComplete(Draft(e.date, e.category, e.description, e.amount, e.hst, e.total))
  {
    e.date != "" && e.category != "" && e.description != "" && e.amount != 0
  }

  /** Every record carries the HST and total of its amount. */
  predicate AllTaxConsistent(s: seq<Expense>)
  {
    forall e :: e in s ==> e.Figures().Consistent()
  }

  /** The seed records already satisfy the tax invariant. */
  lemma SeedTaxConsistent()
    ensures AllTaxConsistent(SeedExpenses())
  {
    assert CalculateHst(5999) == 780;
    assert CalculateHst(25000) == 3250;
  }

  /** The record an add stores: the draft's fields under the new id, with the
      HST and total recomputed from the amount. */
  function FromDraft(d: Draft, id: string): (e: Expense)
    ensures e.id == id && e.date == d.date && e.category == d.category
    ensures e.description == d.description && e.amount == d.amount
    ensures e.Figures().Consistent()
  {
    var hst := CalculateHst(d.amount);
    Expense(id, d.date, d.category, d.description, d.amount, hst, CalculateTotal(d.amount, hst))
  }

  /** The record a save stores: the edited copy with the HST and total
      recomputed from its amount. Only those two fields change, so the result
      passes validation exactly when the copy did. */
  function Recomputed(e: Expense): (r: Expense)
    ensures r.Figures().Consistent()
    ensures r == e.(hst := r.hst, total := r.total)
    ensures ExpenseComplete(r) <==> ExpenseComplete(e)
  {
    var hst := CalculateHst(e.amount);
    e.(hst := hst, total := CalculateTotal(e.amount, hst))
  }

  /** Recomputing a record that is already consistent changes nothing. */
  lemma RecomputedIdempotent(e: Expense)
    requires e.Figures().Consistent()
    ensures Recomputed(e) == e
  {
  }

  /** When the draft's preview fields were kept consistent by the amount
      handler, the stored record shows the same HST and total as the form. */
  lemma FromDraftMatchesPreview(d: Draft, id: string)
    requires d.Figures().Consistent()
    ensures FromDraft(d, id).hst == d.hst && FromDraft(d, id).total == d.total
  {
  }

  /** `expenses.filter(e => e.id !== id)`. */
  function Deleted(s: seq<Expense>, id: string): (r: seq<Expense>)
    ensures |r| <= |s|
  {
    if s == [] then []
    else (if s[0].id == id then [] else [s[0]]) + Deleted(s[1..], id)
  }

  /** A record survives the filter exactly when it was in the list and does
      not carry the id; so no record with the id is left. */
  lemma {:induction false} DeletedMembers(s: seq<Expense>, id: string, e: Expense)
    ensures e in Deleted(s, id) <==> e in s && e.id != id
  {
    if s != [] {
      DeletedMembers(s[1..], id, e);
      assert s == [s[0]] + s[1..];
    }
  }

  /** Filtering keeps every record consistent. */
  lemma DeletedTaxConsistent(s: seq<Expense>, id: string)
    requires AllTaxConsistent(s)
    ensures AllTaxConsistent(Deleted(s, id))
  {
    forall e | e in Deleted(s, id) ensures e.Figures().Consistent() {
      DeletedMembers(s, id, e);
    }
  }

  /** Deleting an id that no record carries leaves the list as it was. */
  lemma {:induction false} DeletedAbsent(s: seq<Expense>, id: string)
    requires forall e :: e in s ==> e.id != id
    ensures Deleted(s, id) == s
  {
    if s != [] {
      assert s[0] in s;
      assert forall e :: e in s[1..] ==> e in s;
      DeletedAbsent(s[1..], id);
      assert s == [s[0]] + s[1..];
    }
  }

  /** Filtering a list that starts with `x`: `x` stays unless it has the id. */
  lemma DeletedCons(x: Expense, s: seq<Expense>, id: string)
    ensures Deleted([x] + s, id) == (if x.id == id then [] else [x]) + Deleted(s, id)
  {
    assert ([x] + s)[1..] == s;
  }

  /** Filtering distributes over concatenation, so the records that stay keep
      their original order. */
  lemma {:induction false} DeletedAppend(s: seq<Expense>, t: seq<Expense>, id: string)
    ensures Deleted(s + t, id) == Deleted(s, id) + Deleted(t, id)
  {
    if s == [] {
      assert s + t == t;
    } else {
      var head := if s[0].id == id then [] else [s[0]];
      assert s == [s[0]] + s[1..];
      assert s + t == [s[0]] + (s[1..] + t);
      DeletedAppend(s[1..], t, id);
      assert Deleted(s + t, id) == head + Deleted(s[1..] + t, id) by {
        DeletedCons(s[0], s[1..] + t, id);
      }
      assert Deleted(s, id) == head + Deleted(s[1..], id) by {
        DeletedCons(s[0], s[1..], id);
      }
    }
  }

  /** `expenses.map(e => e.id === id ? rec : e)`. */
  function Replaced(s: seq<Expense>, id: string, rec: Expense): (r: seq<Expense>)
    ensures |r| == |s|
    ensures forall k :: 0 <= k < |s| ==> r[k] == if s[k].id == id then rec else s[k]
  {
    if s == [] then []
    else [if s[0].id == id then rec else s[0]] + Replaced(s[1..], id, rec)
  }

  /** Replacing records by a consistent one keeps every record consistent. */
  lemma ReplacedTaxConsistent(s: seq<Expense>, id: string, rec: Expense)
    requires AllTaxConsistent(s) && rec.Figures().Consistent()
    ensures AllTaxConsistent(Replaced(s, id, rec))
  {
    var r := Replaced(s, id, rec);
    forall e | e in r ensures e.Figures().Consistent() {
      var k :| 0 <= k < |r| && r[k] == e;
      assert s[k] in s;
    }
  }

  /** `reduce((acc, e) => acc + e.amount, 0)`, folding from the left; it is
      non-negative when every amount is. */
  function SumAmounts(s: seq<Expense>): (r: int)
    ensures (forall e :: e in s ==> e.amount >= 0) ==> r >= 0
  {
    if s == [] then 0 else SumAmounts(s[..|s| - 1]) + s[|s| - 1].amount
  }

  /** `reduce((acc, e) => acc + e.hst, 0)`. */
  function SumHst(s: seq<Expense>): (r: int)
    ensures (forall e :: e in s ==> e.hst >= 0) ==> r >= 0
  {
    if s == [] then 0 else SumHst(s[..|s| - 1]) + s[|s| - 1].hst
  }

  /** `reduce((acc, e) => acc + e.total, 0)`. */
  function SumTotals(s: seq<Expense>): (r: int)
    ensures (forall e :: e in s ==> e.total >= 0) ==> r >= 0
  {
    if s == [] then 0 else SumTotals(s[..|s| - 1]) + s[|s| - 1].total
  }

  /** Appending a record adds its amount, HST and total to the three sums. */
  lemma SumsAppend(s: seq<Expense>, e: Expense)
    ensures SumAmounts(s + [e]) == SumAmounts(s) + e.amount
    ensures SumHst(s + [e]) == SumHst(s) + e.hst
    ensures SumTotals(s + [e]) == SumTotals(s) + e.total
  {
    assert (s + [e])[..|s|] == s;
  }

  /** When every record's total is its amount plus its HST, the total of the
      expenses is the total of the deductions plus the total HST. */
  lemma {:induction false} SummaryBalances(s: seq<Expense>)
    requires forall e :: e in s ==> e.total == e.amount + e.hst
    ensures SumTotals(s) == SumAmounts(s) + SumHst(s)
  {
    if s != [] {
      var p := s[..|s| - 1];
      assert forall e :: e in p ==> e in s;
      SummaryBalances(p);
      assert s[|s| - 1] in s;
    }
  }

  /** In particular it holds whenever every record is tax-consistent. */
  lemma ConsistentSummaryBalances(s: seq<Expense>)
    ensures AllTaxConsistent(s) ==> SumTotals(s) == SumAmounts(s) + SumHst(s)
  {
    if AllTaxConsistent(s) {
      SummaryBalances(s);
    }
  }

  /** When every record is tax-consistent and no amount is negative, the total
      HST lies between 0 and the total of the deductions. */
  lemma {:induction false} HstWithinDeductions(s: seq<Expense>)
    ensures AllTaxConsistent(s) && (forall e :: e in s ==> e.amount >= 0) ==>
      0 <= SumHst(s) <= SumAmounts(s)
  {
    if s != [] && AllTaxConsistent(s) && (forall e :: e in s ==> e.amount >= 0) {
      var p := s[..|s| - 1];
      assert forall e :: e in p ==> e in s;
      HstWithinDeductions(p);
      assert s[|s| - 1] in s;
      HstBounds(s[|s| - 1].amount);
    }
  }
}

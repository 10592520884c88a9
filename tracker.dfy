/** The personal finance tracker: an append-only transaction list whose ids
    are the list length plus one, and a summary folded over it. Every
    operation reloads the backing file, as the script does. Amounts are whole
    cents. */
module Tracker {
  import opened Store

  const Income := "income"
  const Expense := "expense"

  /** One transaction; `date` is the timestamp supplied by the caller. */
  datatype Transaction = Transaction(id: int, date: string, kind: string, amount: int, description: string)

  /** The persisted document `{"transactions": [...]}`. */
  datatype TrackerData = TrackerData(transactions: seq<Transaction>)

  /** The document `_load_data` gives: the decoded one, or an empty
      transaction list when the file is absent, empty or corrupted. */
  function LoadData(f: StoredFile<TrackerData>): (d: TrackerData)
    ensures f.Parsed? ==> d == f.doc
    ensures !f.Parsed? ==> d.transactions == []
  {
    Load(f, TrackerData([]))
  }

  // ---------------------------------------------------------------------
  // The summary

  /** The sum of the amounts of the transactions of one kind. */
  function SumOfKind(ts: seq<Transaction>, kind: string): int
  {
    if ts == [] then 0
    else SumOfKind(ts[..|ts| - 1], kind) + (if ts[|ts| - 1].kind == kind then ts[|ts| - 1].amount else 0)
  }

  /** The sum of all amounts, whatever their kind. */
  function TotalAmount(ts: seq<Transaction>): int
  {
    if ts == [] then 0 else TotalAmount(ts[..|ts| - 1]) + ts[|ts| - 1].amount
  }

  datatype Summary = Summary(totalIncome: int, totalExpenses: int, netBalance: int, totalTransactions: int)

  /** The summary `get_summary` computes, stated as sums: the net balance is
      income less expenses over every transaction counted; with positive
      amounts neither total is negative, and when every transaction is income
      or expense the two totals together are all the money recorded. */
  function SummaryOf(ts: seq<Transaction>): (s: Summary)
    ensures s.totalTransactions == |ts| && s.netBalance == s.totalIncome - s.totalExpenses
    ensures (forall i :: 0 <= i < |ts| ==> ts[i].amount > 0) ==> s.totalIncome >= 0 && s.totalExpenses >= 0
    ensures (forall i :: 0 <= i < |ts| ==> ts[i].kind == Income || ts[i].kind == Expense) ==>
      s.totalIncome + s.totalExpenses == TotalAmount(ts)
  {
    SummaryBounds(ts);
    var income := SumOfKind(ts, Income);
    var expenses := SumOfKind(ts, Expense);
    Summary(income, expenses, income - expenses, |ts|)
  }

  /** The facts `SummaryOf` states, proved on the sums. */
  lemma SummaryBounds(ts: seq<Transaction>)
    ensures (forall i :: 0 <= i < |ts| ==> ts[i].amount > 0) ==>
      SumOfKind(ts, Income) >= 0 && SumOfKind(ts, Expense) >= 0
    ensures (forall i :: 0 <= i < |ts| ==> ts[i].kind == Income || ts[i].kind == Expense) ==>
      SumOfKind(ts, Income) + SumOfKind(ts, Expense) == TotalAmount(ts)
  {
    if forall i :: 0 <= i < |ts| ==> ts[i].amount > 0 {
      SumOfKindNonNegative(ts, Income);
      SumOfKindNonNegative(ts, Expense);
    }
    if forall i :: 0 <= i < |ts| ==> ts[i].kind == Income || ts[i].kind == Expense {
      IncomeAndExpensesCoverTotal(ts);
    }
  }

  /** Appending a transaction adds its amount to the sum of its own kind and
      to no other. */
  lemma SumOfKindAppend(ts: seq<Transaction>, t: Transaction, kind: string)
    ensures SumOfKind(ts + [t], kind) == SumOfKind(ts, kind) + (if t.kind == kind then t.amount else 0)
  {
    assert (ts + [t])[..|ts|] == ts;
  }

  /** Recording one transaction moves the summary by its amount: into income
      for "income", into expenses for "expense", into neither otherwise; the
      count grows by one. */
  lemma SummaryAppend(ts: seq<Transaction>, t: Transaction)
    ensures var s, s' := SummaryOf(ts), SummaryOf(ts + [t]);
      && s'.totalIncome == s.totalIncome + (if t.kind == "income" then t.amount else 0)
      && s'.totalExpenses == s.totalExpenses + (if t.kind == "expense" then t.amount else 0)
      && s'.netBalance == s'.totalIncome - s'.totalExpenses
      && s'.totalTransactions == s.totalTransactions + 1
  {
    SumOfKindAppend(ts, t, Income);
    SumOfKindAppend(ts, t, Expense);
  }

  /** With positive amounts, no sum of a kind is negative. */
  lemma {:induction false} SumOfKindNonNegative(ts: seq<Transaction>, kind: string)
    requires forall i :: 0 <= i < |ts| ==> ts[i].amount > 0
    ensures SumOfKind(ts, kind) >= 0
  {
    if ts != [] {
      SumOfKindNonNegative(ts[..|ts| - 1], kind);
    }
  }

  /** Income and expenses together are the total amount less the amounts of
      transactions of any other kind; when every transaction is income or
      expense they account for the whole total. */
  lemma {:induction false} IncomeAndExpensesCoverTotal(ts: seq<Transaction>)
    requires forall i :: 0 <= i < |ts| ==> ts[i].kind == "income" || ts[i].kind == "expense"
    ensures SumOfKind(ts, "income") + SumOfKind(ts, "expense") == TotalAmount(ts)
  {
    if ts != [] {
      IncomeAndExpensesCoverTotal(ts[..|ts| - 1]);
    }
  }

  /** One "expense" of 50.00 on an empty list. */
  lemma GroceriesSummary(date: string)
    ensures SummaryOf([Transaction(1, date, "expense", 5000, "Groceries")]) == Summary(0, 5000, -5000, 1)
  {
    SummaryAppend([], Transaction(1, date, "expense", 5000, "Groceries"));
  }

  // ---------------------------------------------------------------------
  // The invariant

  /** The transaction at position `i` has id `i + 1`, and every amount is
      positive. */
  ghost predicate ValidData(d: TrackerData)
  {
    forall i :: 0 <= i < |d.transactions| ==> d.transactions[i].id == i + 1 && d.transactions[i].amount > 0
  }

  // ---------------------------------------------------------------------
  // The tracker

  /** The tracker's only state is its backing file. */
  class FinanceTracker {
    var file: StoredFile<TrackerData>

    ghost predicate Valid()
      reads this
    {
      ValidData(LoadData(file))
    }

    constructor (f: StoredFile<TrackerData>)
      ensures file == f
      ensures !f.Parsed? ==> Valid()
    {
      file := f;
    }

    /** `add_transaction`: a non-positive amount is refused before the file is
        read; otherwise the loaded list (empty if the file was absent, empty or
        corrupted) gets one record whose id is its old length plus one, and is
        written back. */
    method AddTransaction(kind: string, amount: int, description: string, date: string) returns (ok: bool)
      modifies this
      ensures ok <==> amount > 0
      ensures !ok ==> file == old(file)
      ensures ok ==> var ts := LoadData(old(file)).transactions;
        file == Parsed(TrackerData(ts + [Transaction(|ts| + 1, date, kind, amount, description)]))
      ensures old(Valid()) ==> Valid()
    {
      if amount <= 0 {
        return false;
      }
      var data := LoadData(file);
      var t := Transaction(|data.transactions| + 1, date, kind, amount, description);
      file := Parsed(TrackerData(data.transactions + [t]));
      ok := true;
    }

    /** `get_summary`: one pass over the loaded list, adding "income" amounts
        to the income total and "expense" amounts to the expense total. */
    method GetSummary() returns (s: Summary)
      ensures s == SummaryOf(LoadData(file).transactions)
      ensures Valid() ==> s.totalIncome >= 0 && s.totalExpenses >= 0
    {
      var ts := LoadData(file).transactions;
      var totalIncome, totalExpenses := 0, 0;
      for i := 0 to |ts|
        invariant totalIncome == SumOfKind(ts[..i], Income)
        invariant totalExpenses == SumOfKind(ts[..i], Expense)
      {
        var t := ts[i];
        assert ts[..i + 1] == ts[..i] + [t];
        SumOfKindAppend(ts[..i], t, Income);
        SumOfKindAppend(ts[..i], t, Expense);
        if t.kind == Income {
          totalIncome := totalIncome + t.amount;
        } else if t.kind == Expense {
          totalExpenses := totalExpenses + t.amount;
        }
      }
      assert ts[..|ts|] == ts;
      s := Summary(totalIncome, totalExpenses, totalIncome - totalExpenses, |ts|);
    }
  }

  /** A refused amount leaves the file alone; an expense on a fresh tracker
      gives the expected summary. */
  method GroceriesScenario(date: string)
  {
    var tracker := new FinanceTracker(Missing);
    var refused := tracker.AddTransaction(Income, 0, "Nothing", date);
    assert !refused && tracker.file == Missing;
    var ok := tracker.AddTransaction(Expense, 5000, "Groceries", date);
    assert ok;
    var s := tracker.GetSummary();
    GroceriesSummary(date);
    assert s == Summary(0, 5000, -5000, 1);
  }
}

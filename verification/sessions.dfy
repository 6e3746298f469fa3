/**
  Both storage variants driven by the same script of user operations, from
  a fresh store: where their observable results agree and where they differ.
 */
module Sessions {
  import opened Wrappers
  import opened Ledger
  import JsonStore
  import SqlStore

  /** A state-changing menu action: add an expense, or set the budget. */
  datatype Op =
    | AddExpenseOp(amount: real, category: string, description: string, day: int)
    | SetBudgetOp(budget: real)

  /** The records the script adds, in order. */
  function Recorded(ops: seq<Op>): seq<Expense>
  {
    if |ops| == 0 then []
    else match ops[|ops| - 1]
      case AddExpenseOp(a, c, d, day) => Recorded(ops[..|ops| - 1]) + [Expense(a, c, d, day)]
      case SetBudgetOp(_) => Recorded(ops[..|ops| - 1])
  }

  /** The value of the script's last budget setting, if any. */
  function LastBudget(ops: seq<Op>): Option<real>
  {
    if |ops| == 0 then None
    else match ops[|ops| - 1]
      case AddExpenseOp(_, _, _, _) => LastBudget(ops[..|ops| - 1])
      case SetBudgetOp(b) => Some(b)
  }

  /** The JSON files after running the script from no files at all. */
  function RunJson(ops: seq<Op>): (fs: JsonStore.Files)
    ensures JsonStore.Valid(fs)
  {
    if |ops| == 0 then map[]
    else
      var fs := RunJson(ops[..|ops| - 1]);
      match ops[|ops| - 1]
      case AddExpenseOp(a, c, d, day) => JsonStore.AddExpense(fs, a, c, d, day)
      case SetBudgetOp(b) => JsonStore.SetBudget(fs, b)
  }

  /** The database after running the script from freshly created tables. */
  function RunSql(ops: seq<Op>): SqlStore.Db
  {
    if |ops| == 0 then SqlStore.Empty
    else
      var db := RunSql(ops[..|ops| - 1]);
      match ops[|ops| - 1]
      case AddExpenseOp(a, c, d, day) => SqlStore.AddExpense(db, a, c, d, day)
      case SetBudgetOp(b) => SqlStore.SetBudget(db, b)
  }

  /** Both stores hold exactly the records the script added, in order. */
  lemma {:induction false} LedgersAgree(ops: seq<Op>)
    ensures JsonStore.Expenses(RunJson(ops)) == Recorded(ops)
    ensures SqlStore.Expenses(RunSql(ops)) == Recorded(ops)
    decreases |ops|
  {
    if |ops| > 0 {
      LedgersAgree(ops[..|ops| - 1]);
    }
  }

  /** There is no budget iff the script never set one. */
  lemma {:induction false} NoLastBudgetIffNeverSet(ops: seq<Op>)
    ensures LastBudget(ops).None? <==> forall i :: 0 <= i < |ops| ==> !ops[i].SetBudgetOp?
    decreases |ops|
  {
    if |ops| > 0 {
      var front := ops[..|ops| - 1];
      NoLastBudgetIffNeverSet(front);
      assert forall i :: 0 <= i < |front| ==> front[i] == ops[i];
    }
  }

  /** The budget table holds the last budget set, and nothing when none was. */
  lemma {:induction false} SqlBudgetIsLastSet(ops: seq<Op>)
    ensures SqlStore.BudgetRow(RunSql(ops)) == LastBudget(ops)
    ensures |RunSql(ops).budget.rows| <= 1
    decreases |ops|
  {
    if |ops| > 0 {
      SqlBudgetIsLastSet(ops[..|ops| - 1]);
    }
  }

  /** Both tables keep their rows in strictly increasing key order, so the
      stored order the model reports is also the key order. */
  lemma {:induction false} ScriptedKeysAscending(ops: seq<Op>)
    ensures SqlStore.KeysAscending(RunSql(ops).expenses)
    ensures SqlStore.KeysAscending(RunSql(ops).budget)
    decreases |ops|
  {
    if |ops| > 0 {
      var db := RunSql(ops[..|ops| - 1]);
      ScriptedKeysAscending(ops[..|ops| - 1]);
      match ops[|ops| - 1]
      case AddExpenseOp(a, c, d, day) =>
        SqlStore.InsertKeepsKeysAscending(db.expenses, Expense(a, c, d, day));
      case SetBudgetOp(b) =>
        SqlStore.InsertKeepsKeysAscending(SqlStore.DeleteAll(db.budget), b);
    }
  }

  /** In the SQLite variant, "no budget" is reported iff the script never set
      a budget, whatever value was set. */
  lemma SqlNoBudgetIffNeverSet(ops: seq<Op>)
    ensures SqlStore.CheckBudget(RunSql(ops)).NoBudget? <==> forall i :: 0 <= i < |ops| ==> !ops[i].SetBudgetOp?
  {
    SqlBudgetIsLastSet(ops);
    NoLastBudgetIffNeverSet(ops);
  }

  /** Every budget document the JSON variant writes holds only the key
      "monthly budget". */
  lemma {:induction false} JsonBudgetDocumentShape(ops: seq<Op>)
    ensures var fs := RunJson(ops);
            JsonStore.BudgetFile in fs <==> LastBudget(ops).Some?
    ensures var fs := RunJson(ops);
            JsonStore.BudgetFile in fs ==> fs[JsonStore.BudgetFile].fields == map[JsonStore.WrittenBudgetKey := LastBudget(ops).value]
    decreases |ops|
  {
    if |ops| > 0 {
      JsonBudgetDocumentShape(ops[..|ops| - 1]);
      assert JsonStore.ExpenseFile != JsonStore.BudgetFile by {
        assert JsonStore.ExpenseFile[0] != JsonStore.BudgetFile[0];
      }
    }
  }

  /** As written, the JSON variant reports "no budget" after every script,
      budget set or not. */
  lemma JsonNeverSeesBudget(ops: seq<Op>)
    ensures JsonStore.GetBudget(RunJson(ops)) == 0.0
    ensures JsonStore.CheckBudget(RunJson(ops)) == NoBudget
  {
    JsonBudgetDocumentShape(ops);
    assert JsonStore.WrittenBudgetKey != JsonStore.ReadBudgetKey by {
      assert JsonStore.WrittenBudgetKey[7] != JsonStore.ReadBudgetKey[7];
    }
  }

  /** With the corrected lookup, the JSON budget is the last one set, or 0. */
  lemma JsonCorrectedBudgetIsLastSet(ops: seq<Op>)
    ensures JsonStore.GetBudgetCorrected(RunJson(ops)) == LastBudget(ops).GetOr(0.0)
  {
    JsonBudgetDocumentShape(ops);
  }

  /**
    With the corrected lookup the two variants report the same budget status,
    except after a budget of 0 was last set: the JSON variant then says no
    budget is set, while the SQLite variant checks spending against 0.
   */
  lemma BudgetChecksAgreeUnlessZero(ops: seq<Op>)
    ensures LastBudget(ops) != Some(0.0) ==>
              JsonStore.CheckBudgetCorrected(RunJson(ops)) == SqlStore.CheckBudget(RunSql(ops))
    ensures LastBudget(ops) == Some(0.0) ==>
              JsonStore.CheckBudgetCorrected(RunJson(ops)) == NoBudget
              && SqlStore.CheckBudget(RunSql(ops)) == Compare(0.0, Total(Recorded(ops)))
  {
    LedgersAgree(ops);
    JsonCorrectedBudgetIsLastSet(ops);
    SqlBudgetIsLastSet(ops);
  }

  /** The listing does not depend on the storage variant: both list the
      records the script added, with their total. */
  method ListingsAgree(ops: seq<Op>) returns (jsonList: Listing, sqlList: Listing)
    ensures jsonList == sqlList
    ensures jsonList.NoExpensesYet? <==> |Recorded(ops)| == 0
    ensures jsonList.History? ==> jsonList.rows == Recorded(ops) && jsonList.total == Total(Recorded(ops))
  {
    var fs := RunJson(ops);
    var db := RunSql(ops);
    LedgersAgree(ops);
    jsonList := JsonStore.ShowExpenses(fs);
    sqlList := SqlStore.ShowExpenses(db);
  }

  /** The category summary does not depend on the storage variant: the JSON
      breakdown holds exactly the SQLite groups, with the same sums. */
  method SummariesAgree(ops: seq<Op>) returns (jsonSummary: JsonStore.Summary, sqlSummary: SqlStore.Summary)
    ensures jsonSummary.NothingRecorded? <==> sqlSummary.NothingRecorded?
    ensures jsonSummary.Breakdown? && sqlSummary.Grouped? ==>
              (forall c :: JsonStore.HasKey(jsonSummary.entries, c) <==> c in sqlSummary.totals)
              && forall i :: 0 <= i < |jsonSummary.entries| ==>
                   sqlSummary.totals[jsonSummary.entries[i].category] == jsonSummary.entries[i].total
  {
    var fs := RunJson(ops);
    var db := RunSql(ops);
    LedgersAgree(ops);
    jsonSummary := JsonStore.ShowCategorySummary(fs);
    sqlSummary := SqlStore.ShowCategorySummary(db);
  }
}

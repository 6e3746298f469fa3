/**
  The SQLite variant of the assistant (model2.py). The database is an abstract
  relational state: an `expenses` table and a `budget` table, each with an
  AUTOINCREMENT integer key.
 */
module SqlStore {
  import opened Wrappers
  import opened Ledger

  /** A table row: its integer primary key and its other columns. */
  datatype Row<T> = Row(id: nat, value: T)

  /** A table with an AUTOINCREMENT key. `lastId` is the largest key the table
      has ever handed out; deleting rows does not lower it. */
  datatype Table<T> = Table(rows: seq<Row<T>>, lastId: nat)

  /** The two tables `create_tables` creates. */
  datatype Db = Db(expenses: Table<Expense>, budget: Table<real>)

  /** Both tables as `create_tables` leaves a fresh database. */
  const Empty: Db := Db(Table([], 0), Table([], 0))

  /** The largest key currently present, 0 for an empty table. */
  function MaxId<T>(rows: seq<Row<T>>): (m: nat)
    ensures forall i :: 0 <= i < |rows| ==> rows[i].id <= m
    ensures |rows| > 0 ==> exists i :: 0 <= i < |rows| && rows[i].id == m
    ensures |rows| == 0 ==> m == 0
  {
    if |rows| == 0 then 0
    else
      var m := MaxId(rows[..|rows| - 1]);
      assert forall i :: 0 <= i < |rows| - 1 ==> rows[..|rows| - 1][i] == rows[i];
      if rows[|rows| - 1].id > m then rows[|rows| - 1].id else m
  }

  /** The column values in key order. */
  function Values<T>(t: Table<T>): (vs: seq<T>)
    ensures |vs| == |t.rows|
    ensures forall i :: 0 <= i < |vs| ==> vs[i] == t.rows[i].value
  {
    seq(|t.rows|, i requires 0 <= i < |t.rows| => t.rows[i].value)
  }

  /**
    INSERT into an AUTOINCREMENT table: the new key is one more than the
    largest key ever handed out or currently present, so it is larger than
    every existing key; the existing rows are untouched.
   */
  function Insert<T>(t: Table<T>, v: T): (r: Table<T>)
    ensures |r.rows| == |t.rows| + 1
    ensures r.rows[..|t.rows|] == t.rows
    ensures r.rows[|t.rows|].value == v
    ensures forall i :: 0 <= i < |t.rows| ==> t.rows[i].id < r.rows[|t.rows|].id
    ensures t.lastId < r.rows[|t.rows|].id == r.lastId
  {
    var id := (if t.lastId > MaxId(t.rows) then t.lastId else MaxId(t.rows)) + 1;
    Table(t.rows + [Row(id, v)], id)
  }

  /** True when the rows are stored in strictly increasing key order, which
      is the order a table scan without ORDER BY returns them in. */
  predicate KeysAscending<T>(t: Table<T>)
  {
    forall i, j :: 0 <= i < j < |t.rows| ==> t.rows[i].id < t.rows[j].id
  }

  /** INSERT keeps the rows in key order, since the new key exceeds every
      existing one. */
  lemma InsertKeepsKeysAscending<T>(t: Table<T>, v: T)
    requires KeysAscending(t)
    ensures KeysAscending(Insert(t, v))
  {
  }

  /** DELETE without a WHERE clause: no rows remain, the key counter stays. */
  function DeleteAll<T>(t: Table<T>): Table<T>
  {
    Table([], t.lastId)
  }

  /** The ledger as `SELECT * FROM expenses` returns it. */
  function Expenses(db: Db): seq<Expense>
  {
    Values(db.expenses)
  }

  /** SQL `SUM(amount)`: NULL over no rows, otherwise the sum. */
  function SqlSum(l: seq<Expense>): Option<real>
  {
    if |l| == 0 then None else Some(Total(l))
  }

  /** Python's `x or 0` applied to a fetched aggregate: NULL becomes 0. */
  function OrZero(s: Option<real>): real
  {
    s.GetOr(0.0)
  }

  /** `SUM(amount)` followed by `or 0` is the plain sum of all amounts, the
      empty ledger included: the NULL of an empty sum and the sum's 0 agree. */
  lemma OrZeroSqlSum(l: seq<Expense>)
    ensures OrZero(SqlSum(l)) == Total(l)
    ensures SqlSum(l).None? <==> |l| == 0
  {
  }

  // ---------------------------------------------------------------- expenses

  /** `add_expense`: inserts exactly one row, stamped with `today`, under a
      fresh key larger than every existing key. */
  function AddExpense(db: Db, amount: real, category: string, description: string, today: int): (r: Db)
    ensures |r.expenses.rows| == |db.expenses.rows| + 1
    ensures r.expenses.rows[..|db.expenses.rows|] == db.expenses.rows
    ensures r.expenses.rows[|db.expenses.rows|].value == Expense(amount, category, description, today)
    ensures forall i :: 0 <= i < |db.expenses.rows| ==> db.expenses.rows[i].id < r.expenses.rows[|db.expenses.rows|].id
    ensures Expenses(r) == Expenses(db) + [Expense(amount, category, description, today)]
    ensures r.budget == db.budget
  {
    var r := db.(expenses := Insert(db.expenses, Expense(amount, category, description, today)));
    assert Expenses(r) == Expenses(db) + [Expense(amount, category, description, today)];
    r
  }

  /** `show_expenses`: the sentinel exactly when the table is empty, otherwise
      every row in stored order and the sum of all amounts. */
  method ShowExpenses(db: Db) returns (r: Listing)
    ensures r.NoExpensesYet? <==> |db.expenses.rows| == 0
    ensures r.History? ==> r.rows == Expenses(db) && r.total == Total(Expenses(db))
  {
    r := ShowLedger(Expenses(db));
  }

  // ------------------------------------------------------ category summary

  /** What `show_category_summary` reports. */
  datatype Summary = NothingRecorded | Grouped(totals: map<string, real>)

  /**
    `SELECT category, SUM(amount) FROM expenses GROUP BY category`: one group
    per distinct category, holding the sum of that category's amounts. The
    order SQL returns groups in is unspecified, so the result is a map.
   */
  method GroupByCategory(l: seq<Expense>) returns (m: map<string, real>)
    ensures m.Keys == Categories(l)
    ensures forall c :: c in m ==> m[c] == CategoryTotal(l, c)
  {
    m := map[];
    var i := 0;
    while i < |l|
      invariant 0 <= i <= |l|
      invariant m.Keys == Categories(l[..i])
      invariant forall c :: c in m ==> m[c] == CategoryTotal(l[..i], c)
    {
      var e := l[i];
      assert l[..i + 1] == l[..i] + [e];
      CategoryTotalSnoc(l[..i], e, e.category);
      if e.category !in m {
        CategoryTotalAbsent(l[..i], e.category);
      }
      var prior := if e.category in m then m[e.category] else 0.0;
      forall c | c in m && c != e.category
        ensures m[c] == CategoryTotal(l[..i + 1], c)
      {
        CategoryTotalSnoc(l[..i], e, c);
      }
      m := m[e.category := prior + e.amount];
      i := i + 1;
    }
    assert l[..|l|] == l;
  }

  /**
    `show_category_summary`: the sentinel when there are no groups, which is
    exactly when the table is empty; otherwise one entry per distinct
    category holding that category's sum.
   */
  method ShowCategorySummary(db: Db) returns (r: Summary)
    ensures r.NothingRecorded? <==> |db.expenses.rows| == 0
    ensures r.Grouped? ==> r.totals.Keys == Categories(Expenses(db))
    ensures r.Grouped? ==> forall c :: c in r.totals ==> r.totals[c] == CategoryTotal(Expenses(db), c)
  {
    var l := Expenses(db);
    var groups := GroupByCategory(l);
    if |groups| == 0 {
      return NothingRecorded;
    }
    r := Grouped(groups);
  }

  /** Sum of the map's values, taken in the order `ks` lists the keys. */
  function SumInOrder(m: map<string, real>, ks: seq<string>): real
    requires forall k :: k in ks ==> k in m
  {
    if |ks| == 0 then 0.0 else m[ks[0]] + SumInOrder(m, ks[1..])
  }

  /**
    The grouped sums add up to the grand total, whichever order the groups
    come back in: for every listing of the groups without repeats, the sum of
    their values is the sum of all amounts.
   */
  lemma {:induction false} GroupedSumsToTotal(l: seq<Expense>, m: map<string, real>, ks: seq<string>)
    requires m.Keys == Categories(l)
    requires forall c :: c in m ==> m[c] == CategoryTotal(l, c)
    requires Distinct(ks) && (forall k :: k in ks <==> k in m)
    ensures SumInOrder(m, ks) == Total(l)
  {
    SumInOrderIsSumOverKeys(l, m, ks);
    CategoryTotalsPartitionTotal(l, ks);
  }

  /** Summing grouped values equals summing category totals key by key. */
  lemma {:induction false} SumInOrderIsSumOverKeys(l: seq<Expense>, m: map<string, real>, ks: seq<string>)
    requires forall c :: c in m ==> m[c] == CategoryTotal(l, c)
    requires forall k :: k in ks ==> k in m
    ensures SumInOrder(m, ks) == SumOverKeys(l, ks)
    decreases |ks|
  {
    if |ks| > 0 {
      SumInOrderIsSumOverKeys(l, m, ks[1..]);
    }
  }

  // ------------------------------------------------------------------ budget

  /** `set_budget`: deletes every budget row, then inserts one. Afterwards the
      table holds exactly that one row, and the expenses are untouched. */
  function SetBudget(db: Db, amount: real): (r: Db)
    ensures |r.budget.rows| == 1 && r.budget.rows[0].value == amount
    ensures r.budget.rows[0].id > db.budget.lastId
    ensures r.expenses == db.expenses
  {
    db.(budget := Insert(DeleteAll(db.budget), amount))
  }

  /** `SELECT monthly_budget FROM budget` followed by `fetchone()`. */
  function BudgetRow(db: Db): Option<real>
  {
    if |db.budget.rows| == 0 then None else Some(db.budget.rows[0].value)
  }

  /** `get_budget`: the stored budget, or 0 when the table is empty. */
  function GetBudget(db: Db): (b: real)
    ensures |db.budget.rows| == 0 ==> b == 0.0
    ensures |db.budget.rows| > 0 ==> b == db.budget.rows[0].value
  {
    BudgetRow(db).GetOr(0.0)
  }

  /**
    `check_budget`: "no budget" exactly when the budget table is empty, so a
    stored budget of 0 is still checked. The amount spent is `SUM(amount)`,
    or 0 over an empty table; the result warns exactly when it exceeds the
    budget and otherwise reports the non-negative remainder.
   */
  function CheckBudget(db: Db): (s: BudgetStatus)
    ensures s.NoBudget? <==> |db.budget.rows| == 0
    ensures !s.NoBudget? ==> s.budget == db.budget.rows[0].value && s.spent == Total(Expenses(db))
    ensures s.Exceeded? <==> |db.budget.rows| > 0 && Total(Expenses(db)) > db.budget.rows[0].value
    ensures s.Remaining? ==> s.left == s.budget - s.spent && s.left >= 0.0
  {
    match BudgetRow(db)
    case None => NoBudget
    case Some(budget) => Compare(budget, OrZero(SqlSum(Expenses(db))))
  }

  /** Setting a budget replaces the previous one: after `set(first)` and then
      `set(second)` the budget is `second`, and setting the same value twice
      leaves the same observable budget and check result as setting it once. */
  lemma SetBudgetOverwrites(db: Db, first: real, second: real)
    ensures GetBudget(SetBudget(SetBudget(db, first), second)) == second
    ensures Values(SetBudget(SetBudget(db, first), second).budget) == [second]
    ensures Values(SetBudget(SetBudget(db, first), first).budget) == Values(SetBudget(db, first).budget)
    ensures CheckBudget(SetBudget(SetBudget(db, first), first)) == CheckBudget(SetBudget(db, first))
  {
  }

  /** Expenses [10, 20, 30] against a budget of 50: the check warns, and the
      overspend is exactly 10. */
  lemma OverBudgetExample(c: string, d: string)
    ensures var db := SetBudget(AddExpense(AddExpense(AddExpense(Empty, 10.0, c, d, 0), 20.0, c, d, 0), 30.0, c, d, 0), 50.0);
            var s := CheckBudget(db);
            s.Exceeded? && s.spent - s.budget == 10.0
  {
    var e1, e2, e3 := Expense(10.0, c, d, 0), Expense(20.0, c, d, 0), Expense(30.0, c, d, 0);
    var db := SetBudget(AddExpense(AddExpense(AddExpense(Empty, 10.0, c, d, 0), 20.0, c, d, 0), 30.0, c, d, 0), 50.0);
    assert Expenses(db) == [e1, e2, e3];
    TotalSnoc([], e1);
    assert [e1, e2] == [e1] + [e2];
    TotalSnoc([e1], e2);
    assert [e1, e2, e3] == [e1, e2] + [e3];
    TotalSnoc([e1, e2], e3);
  }

  // ------------------------------------------------------------------ trend

  /** The records whose day falls in `[lo, hi)`; `hi == None` leaves the
      window open above, as a bare `date >= ...` condition does. */
  function InWindow(l: seq<Expense>, lo: int, hi: Option<int>): seq<Expense>
  {
    if |l| == 0 then []
    else
      var e := l[|l| - 1];
      var rest := InWindow(l[..|l| - 1], lo, hi);
      if lo <= e.day && (hi.None? || e.day < hi.value) then rest + [e] else rest
  }

  /** `WHERE date >= date('now', '-7 days')`. */
  function LastWeekSpending(l: seq<Expense>, today: int): real
  {
    OrZero(SqlSum(InWindow(l, today - 7, None)))
  }

  /** `WHERE date >= date('now', '-14 days') AND date < date('now', '-7 days')`. */
  function PreviousWeekSpending(l: seq<Expense>, today: int): real
  {
    OrZero(SqlSum(InWindow(l, today - 14, Some(today - 7))))
  }

  /** Splitting an open window at `mid` splits its sum. */
  lemma {:induction false} WindowSplit(l: seq<Expense>, lo: int, mid: int)
    requires lo <= mid
    ensures Total(InWindow(l, mid, None)) + Total(InWindow(l, lo, Some(mid))) == Total(InWindow(l, lo, None))
    decreases |l|
  {
    if |l| > 0 {
      var front := l[..|l| - 1];
      var e := l[|l| - 1];
      WindowSplit(front, lo, mid);
      if e.day >= mid {
        TotalSnoc(InWindow(front, mid, None), e);
        TotalSnoc(InWindow(front, lo, None), e);
      } else if e.day >= lo {
        TotalSnoc(InWindow(front, lo, Some(mid)), e);
        TotalSnoc(InWindow(front, lo, None), e);
      }
    }
  }

  /**
    The two windows split the open window from `today - 14` on: every record
    counted is counted in exactly one of them, so their sums add up to that
    window's sum.
   */
  lemma WindowsPartition(l: seq<Expense>, today: int)
    ensures LastWeekSpending(l, today) + PreviousWeekSpending(l, today)
            == Total(InWindow(l, today - 14, None))
  {
    WindowSplit(l, today - 14, today - 7);
  }

  /** What the week-over-week comparison hands to the advisor. */
  datatype WeekTrend =
    | NotEnoughData
    | Change(lastWeek: real, previousWeek: real, percent: real)

  /**
    The percentage rule of `detect_spending_pattern`: no data when both weeks
    are 0; a fixed 100 when only the previous week is 0; otherwise the change
    relative to the previous week.
   */
  function WeekOverWeek(last: real, prev: real): (r: WeekTrend)
    ensures r.NotEnoughData? <==> last == 0.0 && prev == 0.0
    ensures r.Change? ==> r.lastWeek == last && r.previousWeek == prev
    ensures r.Change? && prev == 0.0 ==> r.percent == 100.0
    ensures r.Change? && prev != 0.0 ==> r.percent * prev == (last - prev) * 100.0
    ensures r.Change? && prev > 0.0 ==> (r.percent > 0.0 <==> last > prev) && (r.percent < 0.0 <==> last < prev)
    ensures r.Change? && prev < 0.0 ==> (r.percent > 0.0 <==> last < prev) && (r.percent < 0.0 <==> last > prev)
  {
    if last == 0.0 && prev == 0.0 then NotEnoughData
    else if prev == 0.0 then Change(last, prev, 100.0)
    else
      var percent := (last - prev) / prev * 100.0;
      assert percent * prev == (last - prev) * 100.0;
      Change(last, prev, percent)
  }

  /** `detect_spending_pattern`: the two weekly sums fed to the percentage rule. */
  function DetectSpendingPattern(db: Db, today: int): (r: WeekTrend)
    ensures r.NotEnoughData? <==> LastWeekSpending(Expenses(db), today) == 0.0
                                  && PreviousWeekSpending(Expenses(db), today) == 0.0
    ensures r.Change? ==> r.lastWeek == LastWeekSpending(Expenses(db), today)
                          && r.previousWeek == PreviousWeekSpending(Expenses(db), today)
    ensures r.Change? && r.previousWeek == 0.0 ==> r.percent == 100.0
    ensures r.Change? && r.previousWeek != 0.0 ==> r.percent * r.previousWeek == (r.lastWeek - r.previousWeek) * 100.0
  {
    var l := Expenses(db);
    WeekOverWeek(LastWeekSpending(l, today), PreviousWeekSpending(l, today))
  }

  /** Every record of a window is a record of the ledger. */
  lemma {:induction false} InWindowPositive(l: seq<Expense>, lo: int, hi: Option<int>)
    requires AllPositive(l)
    ensures AllPositive(InWindow(l, lo, hi))
    decreases |l|
  {
    if |l| > 0 {
      assert AllPositive(l[..|l| - 1]);
      InWindowPositive(l[..|l| - 1], lo, hi);
    }
  }

  /** With only positive amounts, the reported change always has the sign of
      the difference between the two weeks. */
  lemma ChangeFollowsDifference(db: Db, today: int)
    requires AllPositive(Expenses(db))
    ensures var r := DetectSpendingPattern(db, today);
            r.Change? ==> (r.percent > 0.0 <==> r.lastWeek > r.previousWeek)
                          && (r.percent < 0.0 <==> r.lastWeek < r.previousWeek)
  {
    var l := Expenses(db);
    InWindowPositive(l, today - 7, None);
    InWindowPositive(l, today - 14, Some(today - 7));
    TotalNonNegative(InWindow(l, today - 7, None));
    TotalNonNegative(InWindow(l, today - 14, Some(today - 7)));
  }

  /** Last week 50 and previous week 0: the change is reported as 100. */
  lemma FirstWeekExample()
    ensures WeekOverWeek(50.0, 0.0) == Change(50.0, 0.0, 100.0)
    ensures WeekOverWeek(0.0, 0.0) == NotEnoughData
  {
  }
}

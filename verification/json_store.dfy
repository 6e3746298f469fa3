/**
  The JSON-file variant of the assistant (model.py). The files on disk are an
  abstract map from file name to document; loading a missing file yields the
  empty list and saving overwrites the whole document.
 */
module JsonStore {
  import opened Ledger

  const ExpenseFile: string := "expenses.json"
  const BudgetFile: string := "budget.json"
  /** The key `set_budget` writes the budget under. */
  const WrittenBudgetKey: string := "monthly budget"
  /** The key `get_budget` looks the budget up under. */
  const ReadBudgetKey: string := "monthly_budget"

  /** A JSON document as this program writes it: the expense list, or the
      budget object. */
  datatype Doc = List(records: seq<Expense>) | Object(fields: map<string, real>)

  type Files = map<string, Doc>

  /** Python truthiness of a loaded document: an empty list or object is false. */
  predicate Truthy(d: Doc)
  {
    match d
    case List(rs) => |rs| > 0
    case Object(m) => |m| > 0
  }

  /** The shapes the program relies on: the expense file, when present, holds
      a list and the budget file, when present, holds an object. */
  predicate Valid(fs: Files)
  {
    && (ExpenseFile in fs ==> fs[ExpenseFile].List?)
    && (BudgetFile in fs ==> fs[BudgetFile].Object?)
  }

  /** `load_data`: the stored document, or the empty list when the file is missing. */
  function LoadData(fs: Files, path: string): Doc
  {
    if path in fs then fs[path] else List([])
  }

  /** `save_data`: replaces the whole document stored under `path`. */
  function SaveData(fs: Files, path: string, d: Doc): Files
  {
    fs[path := d]
  }

  /** Loading a file returns what was last saved to it, and saving one file
      leaves what every other file loads unchanged. */
  lemma SaveLoadRoundTrip(fs: Files, path: string, d: Doc, other: string)
    requires other != path
    ensures LoadData(SaveData(fs, path, d), path) == d
    ensures LoadData(SaveData(fs, path, d), other) == LoadData(fs, other)
  {
  }

  /** The ledger as `load_data(expense_file)` returns it. */
  function Expenses(fs: Files): seq<Expense>
    requires Valid(fs)
  {
    LoadData(fs, ExpenseFile).records
  }

  /** True when the two stores hold the same documents everywhere except
      under `path`. */
  predicate SameExcept(fs: Files, fs': Files, path: string)
  {
    fs - {path} == fs' - {path}
  }

  // ---------------------------------------------------------------- expenses

  /** `add_expense`: loads the list, appends one record stamped with `today`,
      and writes the list back. */
  function AddExpense(fs: Files, amount: real, category: string, description: string, today: int): (r: Files)
    requires Valid(fs)
    ensures Valid(r)
    ensures |Expenses(r)| == |Expenses(fs)| + 1
    ensures Expenses(r)[|Expenses(fs)|] == Expense(amount, category, description, today)
    ensures forall i :: 0 <= i < |Expenses(fs)| ==> Expenses(r)[i] == Expenses(fs)[i]
    ensures SameExcept(fs, r, ExpenseFile)
  {
    var expenses := LoadData(fs, ExpenseFile).records;
    SaveData(fs, ExpenseFile, List(expenses + [Expense(amount, category, description, today)]))
  }

  /** `show_expenses`: the sentinel exactly when the ledger is empty, otherwise
      every record in insertion order and the sum of all amounts. */
  method ShowExpenses(fs: Files) returns (r: Listing)
    requires Valid(fs)
    ensures r.NoExpensesYet? <==> |Expenses(fs)| == 0
    ensures r.History? ==> r.rows == Expenses(fs) && r.total == Total(Expenses(fs))
  {
    r := ShowLedger(Expenses(fs));
  }

  // ------------------------------------------------------ category summary

  /** One entry of the `category_totals` dictionary. */
  datatype Entry = Entry(category: string, total: real)

  /** What `show_category_summary` reports. */
  datatype Summary = NothingRecorded | Breakdown(entries: seq<Entry>)

  /** The dictionary's keys in insertion order. */
  function Keys(acc: seq<Entry>): seq<string>
  {
    seq(|acc|, i requires 0 <= i < |acc| => acc[i].category)
  }

  /** True when `c` is a key of the dictionary. */
  predicate HasKey(acc: seq<Entry>, c: string)
  {
    exists i :: 0 <= i < |acc| && acc[i].category == c
  }

  /** The dictionary invariant: no key occurs twice. */
  predicate UniqueKeys(acc: seq<Entry>)
  {
    forall i, j :: 0 <= i < j < |acc| ==> acc[i].category != acc[j].category
  }

  /** Sum of the dictionary's values. */
  function ValuesSum(acc: seq<Entry>): real
  {
    if |acc| == 0 then 0.0 else acc[0].total + ValuesSum(acc[1..])
  }

  /**
    `category_totals[c] = category_totals.get(c, 0) + a`: an existing key
    keeps its position and grows by `a`; a new key is appended with value `a`;
    no other value changes and no key is duplicated.
   */
  function Bump(acc: seq<Entry>, c: string, a: real): (r: seq<Entry>)
    requires UniqueKeys(acc)
    ensures |r| == if HasKey(acc, c) then |acc| else |acc| + 1
    ensures forall i :: 0 <= i < |acc| ==> r[i].category == acc[i].category
    ensures forall i :: 0 <= i < |acc| ==> r[i].total == acc[i].total + (if acc[i].category == c then a else 0.0)
    ensures !HasKey(acc, c) ==> r[|acc|] == Entry(c, a)
    ensures UniqueKeys(r)
    decreases |acc|
  {
    if |acc| == 0 then [Entry(c, a)]
    else if acc[0].category == c then
      assert HasKey(acc, c) by { assert acc[0].category == c; }
      [Entry(c, acc[0].total + a)] + acc[1..]
    else
      var rest := Bump(acc[1..], c, a);
      assert HasKey(acc, c) <==> HasKey(acc[1..], c) by {
        if HasKey(acc, c) {
          var i :| 0 <= i < |acc| && acc[i].category == c;
          assert acc[1..][i - 1].category == c;
        }
        if HasKey(acc[1..], c) {
          var i :| 0 <= i < |acc[1..]| && acc[1..][i].category == c;
          assert acc[i + 1].category == c;
        }
      }
      [acc[0]] + rest
  }

  /**
    The dictionary after the loop of `show_category_summary` has folded in
    every record, in order.
   */
  function Fold(l: seq<Expense>): (r: seq<Entry>)
    ensures UniqueKeys(r)
    ensures |r| == 0 <==> |l| == 0
    decreases |l|
  {
    if |l| == 0 then []
    else Bump(Fold(l[..|l| - 1]), l[|l| - 1].category, l[|l| - 1].amount)
  }

  /** Appending one record moves each category total by that record's share. */
  lemma CategoryTotalsSnoc(l: seq<Expense>, e: Expense)
    ensures forall c :: CategoryTotal(l + [e], c) == CategoryTotal(l, c) + (if e.category == c then e.amount else 0.0)
    ensures Categories(l + [e]) == Categories(l) + {e.category}
  {
    forall c
      ensures CategoryTotal(l + [e], c) == CategoryTotal(l, c) + (if e.category == c then e.amount else 0.0)
    {
      CategoryTotalSnoc(l, e, c);
    }
    CategoryTotalSnoc(l, e, "");
  }

  /** The folded dictionary has exactly the ledger's categories as keys, and
      each key maps to the sum of that category's amounts. */
  lemma {:induction false} FoldIsCategoryTotals(l: seq<Expense>)
    ensures forall c :: HasKey(Fold(l), c) <==> c in Categories(l)
    ensures forall i :: 0 <= i < |Fold(l)| ==> Fold(l)[i].total == CategoryTotal(l, Fold(l)[i].category)
    decreases |l|
  {
    if |l| > 0 {
      var front := l[..|l| - 1];
      var e := l[|l| - 1];
      assert l == front + [e];
      var acc := Fold(front);
      var r := Fold(l);
      FoldIsCategoryTotals(front);
      CategoryTotalsSnoc(front, e);
      forall c
        ensures HasKey(r, c) <==> c in Categories(l)
      {
        if HasKey(r, c) {
          var i :| 0 <= i < |r| && r[i].category == c;
          if i < |acc| {
            assert HasKey(acc, c);
          }
        }
        if c in Categories(front) {
          var i :| 0 <= i < |acc| && acc[i].category == c;
          assert r[i].category == c;
        }
        if c == e.category && !HasKey(acc, c) {
          assert r[|acc|].category == c;
        }
      }
      forall i | 0 <= i < |r|
        ensures r[i].total == CategoryTotal(l, r[i].category)
      {
        if i == |acc| {
          assert !HasKey(acc, e.category);
          CategoryTotalAbsent(front, e.category);
        }
      }
    }
  }

  /** Distinct dictionary keys make a duplicate-free label list. */
  lemma UniqueKeysDistinct(acc: seq<Entry>)
    requires UniqueKeys(acc)
    ensures Distinct(Keys(acc))
    ensures forall c :: HasKey(acc, c) ==> c in Keys(acc)
  {
    forall c | HasKey(acc, c)
      ensures c in Keys(acc)
    {
      var i :| 0 <= i < |acc| && acc[i].category == c;
      assert Keys(acc)[i] == c;
    }
  }

  /** When every value is its key's category total, the values add up to the
      sum of those category totals. */
  lemma {:induction false} ValuesSumOverKeys(l: seq<Expense>, acc: seq<Entry>)
    requires forall i :: 0 <= i < |acc| ==> acc[i].total == CategoryTotal(l, acc[i].category)
    ensures ValuesSum(acc) == SumOverKeys(l, Keys(acc))
    decreases |acc|
  {
    if |acc| > 0 {
      assert Keys(acc[1..]) == Keys(acc)[1..];
      ValuesSumOverKeys(l, acc[1..]);
    }
  }

  /** The breakdown's values add up to the ledger's total. */
  lemma FoldSumsToTotal(l: seq<Expense>)
    ensures ValuesSum(Fold(l)) == Total(l)
  {
    var r := Fold(l);
    FoldIsCategoryTotals(l);
    UniqueKeysDistinct(r);
    ValuesSumOverKeys(l, r);
    CategoryTotalsPartitionTotal(l, Keys(r));
  }

  /**
    `show_category_summary`: folds the ledger into the dictionary and reports
    the sentinel when the dictionary is empty, which is exactly when the
    ledger is. Otherwise each category appears once, with the sum of its
    amounts, and the values add up to the `show_expenses` total.
   */
  method ShowCategorySummary(fs: Files) returns (r: Summary)
    requires Valid(fs)
    ensures r.NothingRecorded? <==> |Expenses(fs)| == 0
    ensures r.Breakdown? ==> UniqueKeys(r.entries)
    ensures r.Breakdown? ==> forall c :: HasKey(r.entries, c) <==> c in Categories(Expenses(fs))
    ensures r.Breakdown? ==> forall i :: 0 <= i < |r.entries| ==>
      r.entries[i].total == CategoryTotal(Expenses(fs), r.entries[i].category)
    ensures r.Breakdown? ==> ValuesSum(r.entries) == Total(Expenses(fs))
  {
    var expenses := Expenses(fs);
    var totals: seq<Entry> := [];
    var i := 0;
    while i < |expenses|
      invariant 0 <= i <= |expenses|
      invariant totals == Fold(expenses[..i])
    {
      assert expenses[..i + 1][..i] == expenses[..i];
      totals := Bump(totals, expenses[i].category, expenses[i].amount);
      i := i + 1;
    }
    assert expenses[..|expenses|] == expenses;
    if |totals| == 0 {
      return NothingRecorded;
    }
    FoldIsCategoryTotals(expenses);
    FoldSumsToTotal(expenses);
    r := Breakdown(totals);
  }

  // ------------------------------------------------------------------ budget

  /** `set_budget`: overwrites the budget file with a one-key object. */
  function SetBudget(fs: Files, amount: real): (r: Files)
    requires Valid(fs)
    ensures Valid(r)
    ensures Expenses(r) == Expenses(fs)
    ensures SameExcept(fs, r, BudgetFile)
    ensures BudgetFile in r && r[BudgetFile].fields.Keys == {WrittenBudgetKey}
    ensures r[BudgetFile].fields[WrittenBudgetKey] == amount
  {
    SaveData(fs, BudgetFile, Object(map[WrittenBudgetKey := amount]))
  }

  /** The value stored under `key` in the budget document, 0 when the file is
      missing, empty or lacks the key. */
  function BudgetUnder(fs: Files, key: string): real
    requires Valid(fs)
  {
    var d := LoadData(fs, BudgetFile);
    if !Truthy(d) then 0.0
    else match d
      case Object(m) => if key in m then m[key] else 0.0
      case List(_) => 0.0
  }

  /** `get_budget` as written: looks the budget up under "monthly_budget". */
  function GetBudget(fs: Files): (b: real)
    requires Valid(fs)
    ensures BudgetFile !in fs ==> b == 0.0
    ensures BudgetFile in fs && ReadBudgetKey in fs[BudgetFile].fields ==> b == fs[BudgetFile].fields[ReadBudgetKey]
    ensures b != 0.0 ==> BudgetFile in fs && ReadBudgetKey in fs[BudgetFile].fields
                         && fs[BudgetFile].fields[ReadBudgetKey] == b
  {
    BudgetUnder(fs, ReadBudgetKey)
  }

  /** `get_budget` reading the key `set_budget` writes. */
  function GetBudgetCorrected(fs: Files): (b: real)
    requires Valid(fs)
    ensures BudgetFile !in fs ==> b == 0.0
    ensures BudgetFile in fs && WrittenBudgetKey in fs[BudgetFile].fields ==> b == fs[BudgetFile].fields[WrittenBudgetKey]
    ensures b != 0.0 ==> BudgetFile in fs && WrittenBudgetKey in fs[BudgetFile].fields
                         && fs[BudgetFile].fields[WrittenBudgetKey] == b
  {
    BudgetUnder(fs, WrittenBudgetKey)
  }

  /** `check_budget` as written: a budget of 0 counts as no budget; otherwise
      the sum of all amounts is compared with it. */
  function CheckBudget(fs: Files): (s: BudgetStatus)
    requires Valid(fs)
    ensures s.NoBudget? <==> GetBudget(fs) == 0.0
    ensures !s.NoBudget? ==> s.budget == GetBudget(fs) && s.spent == Total(Expenses(fs))
    ensures s.Exceeded? <==> GetBudget(fs) != 0.0 && Total(Expenses(fs)) > GetBudget(fs)
    ensures s.Remaining? ==> s.left == s.budget - s.spent && s.left >= 0.0
  {
    var budget := GetBudget(fs);
    if budget == 0.0 then NoBudget else Compare(budget, Total(Expenses(fs)))
  }

  /** `check_budget` over the corrected lookup. */
  function CheckBudgetCorrected(fs: Files): (s: BudgetStatus)
    requires Valid(fs)
    ensures s.NoBudget? <==> GetBudgetCorrected(fs) == 0.0
    ensures !s.NoBudget? ==> s.budget == GetBudgetCorrected(fs) && s.spent == Total(Expenses(fs))
    ensures s.Exceeded? <==> GetBudgetCorrected(fs) != 0.0 && Total(Expenses(fs)) > GetBudgetCorrected(fs)
    ensures s.Remaining? ==> s.left == s.budget - s.spent && s.left >= 0.0
  {
    var budget := GetBudgetCorrected(fs);
    if budget == 0.0 then NoBudget else Compare(budget, Total(Expenses(fs)))
  }

  /** As written, a budget that has been set is never read back: `get_budget`
      returns 0 and `check_budget` keeps reporting that no budget is set. */
  lemma SetBudgetIsNeverRead(fs: Files, amount: real)
    requires Valid(fs)
    ensures GetBudget(SetBudget(fs, amount)) == 0.0
    ensures CheckBudget(SetBudget(fs, amount)) == NoBudget
  {
    assert WrittenBudgetKey != ReadBudgetKey by {
      assert WrittenBudgetKey[7] != ReadBudgetKey[7];
    }
  }

  /** With the corrected lookup the budget reads back as set, a later
      `set_budget` overwrites an earlier one, and repeating one is idempotent. */
  lemma SetBudgetRoundTrip(fs: Files, first: real, second: real)
    requires Valid(fs)
    ensures GetBudgetCorrected(SetBudget(fs, first)) == first
    ensures SetBudget(SetBudget(fs, first), second) == SetBudget(fs, second)
    ensures GetBudgetCorrected(SetBudget(SetBudget(fs, first), second)) == second
  {
  }

  // ------------------------------------------------------------------ trend

  /** What the recent-average check computes. Only `recent`, `average` and
      `last` reach the advisor's prompt; `threshold` and `unusual` are
      computed and never read. */
  datatype Anomaly =
    | TooFewRecords
    | Assessed(recent: seq<Expense>, average: real, threshold: real, last: real, unusual: bool)

  /**
    `detect_spending_pattern` over the loaded ledger: with at least five
    records, the newest one is unusual when it exceeds 1.5 times the mean of
    the newest five.
   */
  function DetectSpendingPattern(l: seq<Expense>): (r: Anomaly)
    ensures r.TooFewRecords? <==> |l| < 5
    ensures r.Assessed? ==> |r.recent| == 5 && r.recent == l[|l| - 5..]
    ensures r.Assessed? ==> r.last == l[|l| - 1].amount && r.average * 5.0 == Total(r.recent)
    ensures r.Assessed? ==> r.threshold == r.average * 1.5
    ensures r.Assessed? ==> (r.unusual <==> 10.0 * r.last > 3.0 * Total(r.recent))
  {
    if |l| < 5 then TooFewRecords
    else
      var recent := l[|l| - 5..];
      var average := Total(recent) / 5.0;
      var threshold := average * 1.5;
      var last := l[|l| - 1];
      Assessed(recent, average, threshold, last.amount, last.amount > threshold)
  }

  /** The newest record is unusual exactly when seven times its amount exceeds
      three times the sum of the four records before it. */
  lemma UnusualAgainstPreviousFour(l: seq<Expense>)
    requires |l| >= 5
    ensures DetectSpendingPattern(l).unusual <==> 7.0 * l[|l| - 1].amount > 3.0 * Total(l[|l| - 5..|l| - 1])
  {
    var recent := l[|l| - 5..];
    assert recent == l[|l| - 5..|l| - 1] + [l[|l| - 1]];
    TotalSnoc(l[|l| - 5..|l| - 1], l[|l| - 1]);
  }

  /** Only the newest five records matter: older history changes nothing. */
  lemma OnlyLastFiveMatter(older: seq<Expense>, l: seq<Expense>)
    requires |l| >= 5
    ensures DetectSpendingPattern(older + l) == DetectSpendingPattern(l)
  {
    assert (older + l)[|older + l| - 5..] == l[|l| - 5..];
  }

  /** Four records of 10 followed by one of 100: the mean is 28, the threshold 42,
      and the newest record is flagged. */
  lemma SpikeIsFlagged(c: string, d: string)
    ensures var l := [Expense(10.0, c, d, 0), Expense(10.0, c, d, 1), Expense(10.0, c, d, 2),
                      Expense(10.0, c, d, 3), Expense(100.0, c, d, 4)];
            var r := DetectSpendingPattern(l);
            r.Assessed? && r.average == 28.0 && r.threshold == 42.0 && r.unusual
  {
    var l := [Expense(10.0, c, d, 0), Expense(10.0, c, d, 1), Expense(10.0, c, d, 2),
              Expense(10.0, c, d, 3), Expense(100.0, c, d, 4)];
    var e0, e1, e2, e3, e4 := l[0], l[1], l[2], l[3], l[4];
    assert l[..0] == [];
    assert l[..1] == l[..0] + [e0];
    assert l[..2] == l[..1] + [e1];
    assert l[..3] == l[..2] + [e2];
    assert l[..4] == l[..3] + [e3];
    assert l == l[..4] + [e4];
    TotalSnoc(l[..0], e0);
    TotalSnoc(l[..1], e1);
    TotalSnoc(l[..2], e2);
    TotalSnoc(l[..3], e3);
    TotalSnoc(l[..4], e4);
    assert l[|l| - 5..] == l;
  }
}

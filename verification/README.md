# financeGPT ledger and budget core, in Dafny

This project models the expense ledger, the monthly budget and the spending-trend
arithmetic of the financeGPT command-line assistant. It covers both storage
variants:

- `model.py` keeps the ledger as a JSON list of expense records in one file and
  the budget as a one-key JSON object in another.
- `model2.py` keeps the same data in two SQLite tables. `expenses` has an
  AUTOINCREMENT key. `budget` is kept at zero or one row by deleting every row
  before each insert.

Storage is abstracted as a value, and every operation is a pure function or a
short method over that value:

- `ledger.dfy` (module `Ledger`) holds what both variants share. That is the
  expense record, the total (`Total`), the per-category total (`CategoryTotal`),
  the set of categories, the running-total loop of "show expenses" and the
  budget comparison (`Compare`). It also proves that category totals always add
  up to the grand total, whatever order the categories are listed in.
- `json_store.dfy` (module `JsonStore`) covers `model.py`. The files are a map
  from file name to document. `LoadData` returns the empty list for a missing
  file, and `SaveData` overwrites a whole document. The `category_totals`
  dictionary is an association list in insertion order (`Bump`, `Fold`). The
  recent-average anomaly check is `DetectSpendingPattern`.
- `sql_store.dfy` (module `SqlStore`) covers `model2.py`. Tables are sequences
  of keyed rows plus the AUTOINCREMENT counter, and a fresh database is the
  constant `Empty`. `GROUP BY` is a map, because SQL leaves the order of the
  groups unspecified. `SUM` returns NULL over no rows, and `x or 0` turns that
  into 0. The week-over-week comparison is `DetectSpendingPattern`.
- `sessions.dfy` (module `Sessions`) runs both variants on the same script of
  "add expense" and "set budget" actions. It shows what they report alike (the
  ledger, the listing, the category sums) and where they differ (the budget).
- `wrappers.dfy` holds the `Option` datatype.

Amounts are exact `real`s. Timestamps are abstract day numbers: `today` is
passed in wherever the source calls `datetime.now()` or SQLite's
`date('now', …)`. In `model2.py` the stored date text has the form
"YYYY-MM-DD HH:MM:SS" and is compared as a string with "YYYY-MM-DD".
`date >= date('now','-7 days')` therefore holds exactly when the record's day is
at least `today - 7`. `date < date('now','-7 days')` holds exactly when the
day is before `today - 7`.

The model follows the code as written:

- The code never checks that amounts or budgets are positive; it only parses
  them with `float()`. Any real amount is accepted. Properties that need
  positive amounts say so (`Ledger.AllPositive`).
- In `model.py` the budget is never read back (see Findings below). Also, a
  budget of 0 counts as "not set" there, while `model2.py` checks whether a
  budget row exists.
- In `model2.py` the "last 7 days" window has no upper bound, so records dated
  after `today` count too.

## Model

| member | source | states |
|---|---|---|
| `JsonStore.SaveLoadRoundTrip` | model.py:19-30 | loading a file returns the document last saved to it; saving one file does not change what any other file loads |
| `JsonStore.AddExpense` | model.py:33-43 | the ledger grows by exactly one record, stamped with the given day and placed last; every earlier record is unchanged; no other file changes |
| `JsonStore.ShowExpenses` | model.py:45-56 | returns the "no expenses yet" sentinel exactly when the ledger is empty; otherwise lists every record in insertion order with the sum of all amounts |
| `Ledger.RunningTotal` | model.py:50-55 | the amount accumulated record by record equals the sum of the ledger |
| `Ledger.ShowLedger` | model2.py:56-66 | sentinel exactly for the empty ledger; otherwise all rows in order and their sum |
| `JsonStore.Bump` | model.py:63 | updating the dictionary keeps an existing key in its place and adds the amount to it, or appends a new key with the amount; no other value changes and no key is repeated |
| `JsonStore.Fold` | model.py:60-63 | the dictionary built by the loop never repeats a key, and it is empty exactly when the ledger is |
| `JsonStore.FoldIsCategoryTotals` | model.py:60-63 | the dictionary's keys are exactly the ledger's categories, and each maps to the sum of that category's amounts |
| `JsonStore.FoldSumsToTotal` | model.py:58-64 | the dictionary's values add up to the total that `show_expenses` reports |
| `JsonStore.ShowCategorySummary` | model.py:58-66 | the sentinel exactly when the ledger is empty (not an empty breakdown); otherwise each category once, with its sum, and the values add up to the grand total |
| `Ledger.CategoryTotalsPartitionTotal` | model.py:62-63 | for any repeat-free list of labels that covers every category, the category totals add up to the grand total |
| `JsonStore.SetBudget` | model.py:75-76 | the budget file is replaced by a one-key object holding the amount; expenses and other files are unchanged |
| `JsonStore.GetBudget` | model.py:79-81 | 0 when the budget file is missing; the value stored under "monthly_budget" whenever that key is present; a nonzero result always comes from that key |
| `JsonStore.GetBudgetCorrected` | model.py:79-81 | the same lookup under "monthly budget", the key `set_budget` writes: 0 without a budget file, the stored value whenever the key is present, and a nonzero result only from that key |
| `JsonStore.CheckBudget` | model.py:83-98 | "no budget" exactly when the budget reads as 0; otherwise it compares the sum of all amounts with it, warns exactly when the sum is larger, and otherwise reports remaining = budget − spent ≥ 0 |
| `JsonStore.CheckBudgetCorrected` | model.py:83-98 | the same check over the corrected lookup |
| `Ledger.Compare` | model.py:92-96 | a warning exactly when spent > budget; otherwise the remainder, which is non-negative and adds to spent to give the budget |
| `JsonStore.SetBudgetIsNeverRead` | model.py:75-86 | after any `set_budget`, `get_budget` returns 0 and `check_budget` reports that no budget is set |
| `JsonStore.SetBudgetRoundTrip` | model.py:75-81 | with the corrected lookup the budget reads back as set, and a later set overwrites an earlier one |
| `JsonStore.DetectSpendingPattern` | model.py:126-137 | "not enough data" exactly when there are fewer than 5 records; otherwise it takes the newest five, their mean, and flags the newest record exactly when 10 × its amount > 3 × the sum of the five (that is, amount > 1.5 × mean), with the threshold equal to 1.5 × the mean |
| `JsonStore.UnusualAgainstPreviousFour` | model.py:131-137 | the newest record is flagged exactly when 7 × its amount > 3 × the sum of the four records before it |
| `JsonStore.OnlyLastFiveMatter` | model.py:131-137 | putting any records in front of a ledger of at least five leaves the result unchanged |
| `JsonStore.SpikeIsFlagged` | model.py:126-137 | for amounts [10,10,10,10,100] the mean is 28, the threshold 42, and the last record is flagged |
| `SqlStore.Insert` | model2.py:22-27 | an AUTOINCREMENT insert adds one row last, with a key larger than every key present and every key handed out before; existing rows are unchanged |
| `SqlStore.InsertKeepsKeysAscending` | model2.py:22-27 | an AUTOINCREMENT insert keeps a table's rows in strictly increasing key order |
| `SqlStore.OrZeroSqlSum` | model2.py:120 | `SUM(amount)` followed by `or 0` equals the sum of all amounts; the aggregate is NULL exactly over no rows |
| `SqlStore.AddExpense` | model2.py:37-46 | exactly one row is added, holding the record stamped with the given day, under a fresh key larger than all existing keys; existing rows and the budget table are unchanged |
| `SqlStore.ShowExpenses` | model2.py:48-66 | the sentinel exactly when the expenses table is empty; otherwise every row's record in stored order and the sum of all amounts |
| `SqlStore.GroupByCategory` | model2.py:71-72 | one group per distinct category, holding the sum of that category's amounts |
| `SqlStore.ShowCategorySummary` | model2.py:67-83 | the sentinel exactly when the table is empty; otherwise exactly the distinct categories, each with its sum |
| `SqlStore.GroupedSumsToTotal` | model2.py:71-81 | however the groups are ordered, their sums add up to the sum of all amounts |
| `SqlStore.SetBudget` | model2.py:86-95 | afterwards the budget table holds exactly one row, with the new value and a key never used before; the expenses table is unchanged |
| `SqlStore.GetBudget` | model2.py:96-105 | 0 when the budget table is empty, otherwise the stored value |
| `SqlStore.CheckBudget` | model2.py:107-132 | "no budget" exactly when no budget row exists, so a stored 0 is still checked; spent is the sum of all amounts (0 for an empty table); it warns exactly when spent > budget and otherwise reports remaining = budget − spent ≥ 0 |
| `SqlStore.SetBudgetOverwrites` | model2.py:86-105 | after set(first) then set(second) the budget is second and the table holds only that value; setting the same value twice gives the same values and the same check as setting it once |
| `SqlStore.OverBudgetExample` | model2.py:119-130 | with expenses [10,20,30] and budget 50 the check warns, and spending exceeds the budget by exactly 10 |
| `SqlStore.WindowSplit` | model2.py:171-182 | splitting an open date window at a day splits its sum into the part at or after that day and the part before it |
| `SqlStore.WindowsPartition` | model2.py:171-182 | the last-week window [today−7, ∞) and the previous-week window [today−14, today−7) never count a record twice, and their sums add up to the sum from today−14 on |
| `SqlStore.WeekOverWeek` | model2.py:186-194 | "not enough data" exactly when both weekly sums are 0; a previous sum of 0 gives exactly 100; otherwise change × previous = (last − previous) × 100, so the change has the sign of last − previous when previous > 0 and the opposite sign when previous < 0 |
| `SqlStore.DetectSpendingPattern` | model2.py:166-194 | "not enough data" exactly when both weekly sums of the ledger are 0; otherwise it reports those two sums, a change of exactly 100 when the previous week is 0, and otherwise a change with change × previous = (last − previous) × 100 |
| `SqlStore.ChangeFollowsDifference` | model2.py:186-194 | when all amounts are positive, the reported change is positive exactly when the last week exceeds the previous one, and negative exactly when it falls short |
| `SqlStore.FirstWeekExample` | model2.py:187-192 | last week 50 and previous week 0 give a change of 100; both 0 give "not enough data" |
| `Sessions.LedgersAgree` | model2.py:37-46 | after any script of actions, both variants hold exactly the records the script added, in order |
| `Sessions.ListingsAgree` | model2.py:48-66 | both variants list the same records with the same total, equal to the sum of the added amounts |
| `Sessions.SummariesAgree` | model2.py:67-83 | the JSON breakdown and the SQLite groups have the same categories with the same sums, and both report the sentinel in the same cases |
| `Sessions.ScriptedKeysAscending` | model2.py:37-46 | after any script of actions, both tables hold their rows in strictly increasing key order |
| `Sessions.SqlBudgetIsLastSet` | model2.py:86-105 | the budget table holds at most one row, and it holds the last budget set, if any |
| `Sessions.SqlNoBudgetIffNeverSet` | model2.py:111-115 | the SQLite check reports "no budget" exactly when the script never set a budget |
| `Sessions.JsonBudgetDocumentShape` | model.py:75-76 | the budget file exists exactly when a budget was set, and then holds only the key "monthly budget" with the last value set |
| `Sessions.JsonNeverSeesBudget` | model.py:79-86 | as written, the JSON variant reports "no budget" after every script |
| `Sessions.JsonCorrectedBudgetIsLastSet` | model.py:75-81 | with the corrected lookup, the JSON budget is the last value set, or 0 if none |
| `Sessions.BudgetChecksAgreeUnlessZero` | model.py:83-86 | with the corrected lookup both variants report the same budget status, unless the last budget set was 0: JSON then reports no budget, while SQLite compares spending with 0 |

## Left out

- LLM advisor calls: `spending_insights` and the prompt-building part of both `detect_spending_pattern` functions hand text to a hosted model. That is an opaque network service, so the model stops at the numbers handed over.
- The interactive menu loops, `input()` parsing and the `ValueError` handling around `float()`: this is console glue, and a Dafny `real` is always numeric.
- Real file and SQLite I/O, including `IOError` on save: saving to the abstract store always succeeds.
- JSON documents the program never writes (a budget file holding a list, an expense file holding an object): these would crash the script, and `JsonStore.Valid` excludes them.
- `create_tables` on an existing database: the model starts from the fresh database `SqlStore.Empty`.
- The AUTOINCREMENT key limit of 2^63 − 1 (SQLITE_FULL).
- Time of day, and the difference between SQLite's UTC `'now'` and Python's local `datetime.now()`: dates are whole day numbers passed in as `today`.
- Float rounding and the `:.2f` formatting of reports: results are structured values over exact reals, with no output strings. This includes the confirmation strings of `add_expense` and `set_budget`.
- The `bills.json` and `debt.json` file names, which no function uses, and the loading of the `.env` API key.
- SqlStore.ShowExpenses: `SELECT *` has no ORDER BY, so SQL promises no row order; the model returns rows in stored order, which is the key order SQLite's table scan uses (`Sessions.ScriptedKeysAscending`), and does not model any other order.
- JsonStore.DetectSpendingPattern: the 1.5 × mean threshold and the "unusual" flag are computed and never read; only the five records, their mean and the newest amount reach the advisor's prompt, and the function itself returns nothing, so the menu prints "None". The flag has no observable effect in the program.
- Non-finite amounts and budgets: `float()` accepts "nan", "inf" and "-inf", which exact reals cannot represent. For example, amounts inf then −inf make the Python total nan, and every comparison with nan is false; the model covers finite values only.
- SqlStore.ShowCategorySummary: does not fix the order of the groups, because SQL does not specify one without ORDER BY.

## Findings

| source | as written | input that shows it | evidently intended | confidence | as-written member | corrected member |
|---|---|---|---|---|---|---|
| model.py:75-81 | `set_budget` writes the budget under the key "monthly budget", but `get_budget` reads "monthly_budget", so `get_budget` always returns 0 and `check_budget` always says no budget is set | `set_budget(500)` then `check_budget()` | `get_budget` returns the budget last set, so `check_budget` compares spending with it | high, not executed | `JsonStore.SetBudgetIsNeverRead` | `JsonStore.GetBudgetCorrected` |

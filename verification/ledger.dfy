/**
  The ledger logic both storage variants share: the expense record, the sums
  taken over a ledger, the per-category breakdown and the budget comparison.

  A ledger is the sequence of expense records in insertion order. Amounts are
  exact reals; a record's timestamp is an abstract day number.
 */
module Ledger {

  /** One expense record. `day` stands for the record's creation timestamp. */
  datatype Expense = Expense(amount: real, category: string, description: string, day: int)

  /** What "show expenses" reports: a sentinel for an empty ledger, otherwise
      every record in insertion order together with the running total. */
  datatype Listing = NoExpensesYet | History(rows: seq<Expense>, total: real)

  /** What "check budget" reports. */
  datatype BudgetStatus =
    | NoBudget
    | Exceeded(budget: real, spent: real)
    | Remaining(budget: real, spent: real, left: real)

  /** Sum of all amounts, folded left to right in insertion order. */
  function Total(l: seq<Expense>): real
  {
    if |l| == 0 then 0.0 else Total(l[..|l| - 1]) + l[|l| - 1].amount
  }

  /** Sum of the amounts of the records filed under category `c`. */
  function CategoryTotal(l: seq<Expense>, c: string): real
  {
    if |l| == 0 then 0.0
    else CategoryTotal(l[..|l| - 1], c) + (if l[|l| - 1].category == c then l[|l| - 1].amount else 0.0)
  }

  /** The categories that occur in the ledger. */
  function Categories(l: seq<Expense>): set<string>
  {
    if |l| == 0 then {} else Categories(l[..|l| - 1]) + {l[|l| - 1].category}
  }

  /** True when no label occurs twice. */
  predicate Distinct(ks: seq<string>)
  {
    forall i, j :: 0 <= i < j < |ks| ==> ks[i] != ks[j]
  }

  /** Sum of the category totals of the labels `ks`, in the order given. */
  function SumOverKeys(l: seq<Expense>, ks: seq<string>): real
  {
    if |ks| == 0 then 0.0 else CategoryTotal(l, ks[0]) + SumOverKeys(l, ks[1..])
  }

  /** True when every amount is strictly positive. The application never
      checks this: amounts are only parsed with `float()`. */
  predicate AllPositive(l: seq<Expense>)
  {
    forall i :: 0 <= i < |l| ==> l[i].amount > 0.0
  }

  /** Appending one record adds its amount to the total. */
  lemma TotalSnoc(l: seq<Expense>, e: Expense)
    ensures Total(l + [e]) == Total(l) + e.amount
  {
    assert (l + [e])[..|l|] == l;
  }

  /** A ledger of positive amounts has a non-negative total. */
  lemma {:induction false} TotalNonNegative(l: seq<Expense>)
    requires AllPositive(l)
    ensures Total(l) >= 0.0
    ensures |l| > 0 ==> Total(l) > 0.0
    decreases |l|
  {
    if |l| > 0 {
      assert AllPositive(l[..|l| - 1]);
      TotalNonNegative(l[..|l| - 1]);
    }
  }

  /** A label that never occurs contributes nothing. */
  lemma {:induction false} CategoryTotalAbsent(l: seq<Expense>, c: string)
    requires c !in Categories(l)
    ensures CategoryTotal(l, c) == 0.0
    decreases |l|
  {
    if |l| > 0 {
      CategoryTotalAbsent(l[..|l| - 1], c);
    }
  }

  /** Appending one record changes only its own category's total. */
  lemma CategoryTotalSnoc(l: seq<Expense>, e: Expense, c: string)
    ensures CategoryTotal(l + [e], c) == CategoryTotal(l, c) + (if e.category == c then e.amount else 0.0)
    ensures Categories(l + [e]) == Categories(l) + {e.category}
  {
    assert (l + [e])[..|l|] == l;
  }

  /** A ledger with no labels listed contributes nothing. */
  lemma {:induction false} SumOverKeysEmptyLedger(ks: seq<string>)
    ensures SumOverKeys([], ks) == 0.0
    decreases |ks|
  {
    if |ks| > 0 {
      SumOverKeysEmptyLedger(ks[1..]);
    }
  }

  /** Appending one record to the ledger adds its amount to a sum over
      duplicate-free labels exactly when its label is among them. */
  lemma {:induction false} SumOverKeysSnoc(l: seq<Expense>, e: Expense, ks: seq<string>)
    requires Distinct(ks)
    ensures SumOverKeys(l + [e], ks) == SumOverKeys(l, ks) + (if e.category in ks then e.amount else 0.0)
    decreases |ks|
  {
    if |ks| > 0 {
      assert Distinct(ks[1..]) by {
        forall i, j | 0 <= i < j < |ks[1..]|
          ensures ks[1..][i] != ks[1..][j]
        {
          assert ks[1..][i] == ks[i + 1] && ks[1..][j] == ks[j + 1];
        }
      }
      SumOverKeysSnoc(l, e, ks[1..]);
      CategoryTotalSnoc(l, e, ks[0]);
      assert ks == [ks[0]] + ks[1..];
      if ks[0] == e.category {
        assert e.category !in ks[1..] by {
          forall j | 0 <= j < |ks[1..]|
            ensures ks[1..][j] != e.category
          {
            assert ks[1..][j] == ks[j + 1];
          }
        }
      }
    }
  }

  /**
    The category totals partition the grand total: summing the totals of any
    duplicate-free list of labels that covers every category of the ledger,
    in any order, gives the sum of all amounts. Labels that do not occur add 0.
   */
  lemma {:induction false} CategoryTotalsPartitionTotal(l: seq<Expense>, ks: seq<string>)
    requires Distinct(ks)
    requires forall c :: c in Categories(l) ==> c in ks
    ensures SumOverKeys(l, ks) == Total(l)
    decreases |l|
  {
    if |l| == 0 {
      SumOverKeysEmptyLedger(ks);
    } else {
      var front := l[..|l| - 1];
      var e := l[|l| - 1];
      assert l == front + [e];
      CategoryTotalsPartitionTotal(front, ks);
      SumOverKeysSnoc(front, e, ks);
      assert e.category in Categories(l);
    }
  }

  /** The budget comparison both variants perform once a budget is known:
      a warning exactly when spending exceeds the budget, otherwise the
      non-negative amount left. */
  function Compare(budget: real, spent: real): (s: BudgetStatus)
    ensures !s.NoBudget? && s.budget == budget && s.spent == spent
    ensures s.Exceeded? <==> spent > budget
    ensures s.Remaining? ==> s.left >= 0.0 && s.spent + s.left == s.budget
  {
    if spent > budget then Exceeded(budget, spent)
    else Remaining(budget, spent, budget - spent)
  }

  /** The running total accumulated record by record, as both "show expenses"
      loops compute it. */
  method RunningTotal(l: seq<Expense>) returns (total: real)
    ensures total == Total(l)
  {
    total := 0.0;
    var i := 0;
    while i < |l|
      invariant 0 <= i <= |l|
      invariant total == Total(l[..i])
    {
      assert l[..i + 1] == l[..i] + [l[i]];
      TotalSnoc(l[..i], l[i]);
      total := total + l[i].amount;
      i := i + 1;
    }
    assert l[..|l|] == l;
  }

  /** "show expenses" over a ledger: the sentinel exactly when it is empty,
      otherwise every record in order with the sum of all amounts. */
  method ShowLedger(l: seq<Expense>) returns (r: Listing)
    ensures r.NoExpensesYet? <==> |l| == 0
    ensures r.History? ==> r.rows == l && r.total == Total(l)
  {
    if |l| == 0 {
      return NoExpensesYet;
    }
    var total := RunningTotal(l);
    r := History(l, total);
  }
}

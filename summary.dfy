/** The summary engine behind GET /transactions/summary/ (main.py, `transactions_summary`):
    one query for the caller's rows in a date range, then totals, a per-category expense
    breakdown, per-month trends and the largest transactions. */
module Summary {
  import opened Records
  import opened OrderedDict
  import opened Ranking

  // ---------------------------------------------------------------------------
  // The query

  /** The filter of the summary query: the caller's rows, with `start <= date` and
      `date <= end` for whichever bounds are given. */
  predicate InQuery(t: Transaction, user: string, start: Option<CalendarDate>, end: Option<CalendarDate>)
  {
    && t.user == user
    && (start.Some? ==> DateLe(start.value, t.date))
    && (end.Some? ==> DateLe(t.date, end.value))
  }

  /** The rows the summary query returns. The query has no `ORDER BY`; the rows are taken in
      table (rowid) order, the order SQLite's scan of the table yields. */
  function Query(rows: seq<Transaction>, user: string, start: Option<CalendarDate>, end: Option<CalendarDate>)
    : (r: seq<Transaction>)
    ensures forall t :: t in r <==> t in rows && InQuery(t, user, start, end)
    ensures forall t :: multiset(r)[t] == if InQuery(t, user, start, end) then multiset(rows)[t] else 0
    ensures |r| <= |rows|
  {
    if rows == [] then []
    else
      var init, t := rows[..|rows| - 1], rows[|rows| - 1];
      assert rows == init + [t];
      Query(init, user, start, end) + (if InQuery(t, user, start, end) then [t] else [])
  }

  /** A start date after the end date selects nothing; this is not an error. */
  lemma {:induction false} CrossedRangeSelectsNothing(rows: seq<Transaction>, user: string, start: CalendarDate, end: CalendarDate)
    requires !DateLe(start, end)
    ensures Query(rows, user, Some(start), Some(end)) == []
  {
    if rows != [] {
      CrossedRangeSelectsNothing(rows[..|rows| - 1], user, start, end);
    }
  }

  // ---------------------------------------------------------------------------
  // Totals

  /** Which rows a sum takes in. The monthly loop books every row that is not a
      "Credit" as expense, so its expense buckets sum `NonCredits`, not `Debits`. */
  datatype Selector =
    | Credits
    | Debits
    | NonCredits
    | DebitsIn(category: string)
    | CreditsIn(month: int)
    | NonCreditsIn(month: int)

  /** Month bucket of a row: the month (1..12) of its date, whatever the year.
      main.py keys the bucket by `strftime("%B")`, the month's name, which names each of the
      twelve months differently, so the buckets are the same. */
  function MonthOf(t: Transaction): int
  {
    t.date.month
  }

  predicate Selects(sel: Selector, t: Transaction)
  {
    match sel
    case Credits => t.kind == Credit
    case Debits => t.kind == Debit
    case NonCredits => t.kind != Credit
    case DebitsIn(c) => t.kind == Debit && t.category == c
    case CreditsIn(m) => t.kind == Credit && MonthOf(t) == m
    case NonCreditsIn(m) => t.kind != Credit && MonthOf(t) == m
  }

  /** What one row adds to a sum. */
  function Share(sel: Selector, t: Transaction): int
  {
    if Selects(sel, t) then t.amount else 0
  }

  /** `sum(t.amount for t in rows if <selected>)`, added up left to right. */
  function Total(rows: seq<Transaction>, sel: Selector): (sum: int)
    ensures (forall t :: t in rows ==> !Selects(sel, t)) ==> sum == 0
  {
    if rows == [] then 0
    else Total(rows[..|rows| - 1], sel) + Share(sel, rows[|rows| - 1])
  }

  /** A sum over two runs of rows is the sum of the two sums. */
  lemma {:induction false} TotalAppend(a: seq<Transaction>, b: seq<Transaction>, sel: Selector)
    ensures Total(a + b, sel) == Total(a, sel) + Total(b, sel)
  {
    if b != [] {
      assert (a + b)[..|a + b| - 1] == a + b[..|b| - 1];
      TotalAppend(a, b[..|b| - 1], sel);
    } else {
      assert a + b == a;
    }
  }

  /** Taking the row at `k` out of a run takes its share out of the sum. */
  lemma TotalWithout(b: seq<Transaction>, k: nat, sel: Selector)
    requires k < |b|
    ensures Total(b, sel) == Total(b[..k] + b[k + 1..], sel) + Share(sel, b[k])
  {
    assert b == b[..k] + [b[k]] + b[k + 1..];
    TotalAppend(b[..k] + [b[k]], b[k + 1..], sel);
    TotalAppend(b[..k], [b[k]], sel);
    TotalAppend(b[..k], b[k + 1..], sel);
    assert [b[k]][..0] == [];
  }

  /** Taking the element at `k` out of a sequence takes one copy of it out of its multiset. */
  lemma MultisetWithout<T>(b: seq<T>, k: nat)
    requires k < |b|
    ensures multiset(b[..k] + b[k + 1..]) == multiset(b) - multiset{b[k]}
  {
    assert b == b[..k] + [b[k]] + b[k + 1..];
  }

  /** The sums depend only on which rows the query returns, not on the order it returns them in. */
  lemma {:induction false} TotalPermutation(a: seq<Transaction>, b: seq<Transaction>, sel: Selector)
    requires multiset(a) == multiset(b)
    ensures Total(a, sel) == Total(b, sel)
    decreases |a|
  {
    if a == [] {
      assert |b| == |multiset(b)| == 0;
    } else {
      assert a[|a| - 1] in multiset(b);
      var k :| 0 <= k < |b| && b[k] == a[|a| - 1];
      SameWithout(a, b, k);
      TotalPermutation(a[..|a| - 1], b[..k] + b[k + 1..], sel);
      TotalWithout(b, k, sel);
    }
  }

  /** Two runs with the same rows still have the same rows once the last row of one and a
      matching row of the other are taken out. */
  lemma SameWithout<T>(a: seq<T>, b: seq<T>, k: nat)
    requires multiset(a) == multiset(b) && a != [] && k < |b| && b[k] == a[|a| - 1]
    ensures multiset(a[..|a| - 1]) == multiset(b[..k] + b[k + 1..])
  {
    MultisetWithout(a, |a| - 1);
    MultisetWithout(b, k);
    assert a[..|a| - 1] + a[|a|..] == a[..|a| - 1];
  }

  /** When every row is typed "Credit" or "Debit" (as the client sends them), what the monthly
      loop books as expense is exactly the total expense. */
  lemma {:induction false} NonCreditsAreDebits(rows: seq<Transaction>)
    requires forall t :: t in rows ==> t.kind == Credit || t.kind == Debit
    ensures Total(rows, NonCredits) == Total(rows, Debits)
  {
    if rows != [] {
      NonCreditsAreDebits(rows[..|rows| - 1]);
    }
  }

  /** Categories of the Debit rows, in row order (repeats kept). */
  function DebitCategories(rows: seq<Transaction>): seq<string>
  {
    if rows == [] then []
    else
      var t := rows[|rows| - 1];
      DebitCategories(rows[..|rows| - 1]) + (if t.kind == Debit then [t.category] else [])
  }

  /** Months of the rows, in row order (repeats kept). */
  function Months(rows: seq<Transaction>): seq<int>
  {
    if rows == [] then [] else Months(rows[..|rows| - 1]) + [MonthOf(rows[|rows| - 1])]
  }

  lemma {:induction false} MonthsCoverRows(rows: seq<Transaction>)
    ensures |Months(rows)| == |rows|
    ensures forall i :: 0 <= i < |rows| ==> Months(rows)[i] == MonthOf(rows[i])
  {
    if rows != [] {
      MonthsCoverRows(rows[..|rows| - 1]);
    }
  }

  // ---------------------------------------------------------------------------
  // Category breakdown: `category_summary`, a dict from category to amount

  /** One turn of the category loop: a Debit row adds its amount to its category. */
  function CategoryStep(d: Dict<string, int>, t: Transaction): (r: Dict<string, int>)
    requires Valid(d)
    ensures Valid(r)
  {
    if t.kind == Debit then Put(d, t.category, Get(d, t.category, 0) + t.amount) else d
  }

  /** `category_summary` after the loop has run over `rows`. */
  function CategorySummary(rows: seq<Transaction>): (d: Dict<string, int>)
    ensures Valid(d)
  {
    if rows == [] then Empty() else CategoryStep(CategorySummary(rows[..|rows| - 1]), rows[|rows| - 1])
  }

  function AmountOf(v: int): int
  {
    v
  }

  /** One turn of the category loop keeps the dictionary's keys in first-seen order. */
  lemma CategoryStepFirstSeen(d: Dict<string, int>, stream: seq<string>, t: Transaction)
    requires Valid(d) && InFirstSeenOrder(d.keys, stream)
    ensures InFirstSeenOrder(CategoryStep(d, t).keys, stream + (if t.kind == Debit then [t.category] else []))
  {
    if t.kind == Debit {
      PutKeepsFirstSeenOrder(d, stream, t.category, Get(d, t.category, 0) + t.amount);
    } else {
      assert stream + [] == stream;
    }
  }

  /** The category dictionary lists each Debit category once, in first-seen order. */
  lemma {:induction false} CategoryKeysFirstSeen(rows: seq<Transaction>)
    ensures InFirstSeenOrder(CategorySummary(rows).keys, DebitCategories(rows))
  {
    if rows != [] {
      var init, t := rows[..|rows| - 1], rows[|rows| - 1];
      CategoryKeysFirstSeen(init);
      CategoryStepFirstSeen(CategorySummary(init), DebitCategories(init), t);
    }
  }

  /** Each category of the dictionary holds the sum of the Debit rows in that category. */
  lemma {:induction false} CategoryAmountsCorrect(rows: seq<Transaction>)
    ensures forall c :: c in CategorySummary(rows).entries ==>
              CategorySummary(rows).entries[c] == Total(rows, DebitsIn(c))
  {
    if rows != [] {
      var init, t := rows[..|rows| - 1], rows[|rows| - 1];
      CategoryAmountsCorrect(init);
      if t.kind == Debit && t.category !in CategorySummary(init).entries {
        CategoryKeysFirstSeen(init);
        NoDebitsOutsideCategories(init, t.category);
      }
    }
  }

  /** One turn of the category loop adds a Debit row's amount to the dictionary's sum. */
  lemma CategoryStepSum(d: Dict<string, int>, t: Transaction)
    requires Valid(d)
    ensures SumOf(CategoryStep(d, t).keys, CategoryStep(d, t).entries, AmountOf)
         == SumOf(d.keys, d.entries, AmountOf) + (if t.kind == Debit then t.amount else 0)
  {
    if t.kind == Debit {
      var v := Get(d, t.category, 0) + t.amount;
      assert CategoryStep(d, t) == Put(d, t.category, v);
      SumOfPut(d, t.category, v, AmountOf);
    }
  }

  /** Summed over the categories, the dictionary holds the total expense. */
  lemma {:induction false} CategorySumIsTotalExpense(rows: seq<Transaction>)
    ensures SumOf(CategorySummary(rows).keys, CategorySummary(rows).entries, AmountOf) == Total(rows, Debits)
  {
    if rows != [] {
      var init, t := rows[..|rows| - 1], rows[|rows| - 1];
      CategorySumIsTotalExpense(init);
      CategoryStepSum(CategorySummary(init), t);
    }
  }

  /** A category that never occurs on a Debit row has a Debit sum of zero. */
  lemma {:induction false} NoDebitsOutsideCategories(rows: seq<Transaction>, c: string)
    requires c !in DebitCategories(rows)
    ensures Total(rows, DebitsIn(c)) == 0
  {
    if rows != [] {
      var init := rows[..|rows| - 1];
      assert DebitCategories(init) <= DebitCategories(rows);
      NoDebitsOutsideCategories(init, c);
    }
  }

  /** One more row of the loop is one more step of the dictionary. */
  lemma CategorySummaryExtends(rows: seq<Transaction>, i: nat)
    requires i < |rows|
    ensures CategorySummary(rows[..i + 1]) == CategoryStep(CategorySummary(rows[..i]), rows[i])
  {
    assert rows[..i + 1][..i] == rows[..i];
  }

  /** The category loop of main.py: one pass over the rows, updating the dictionary in place. */
  method BuildCategorySummary(rows: seq<Transaction>) returns (d: Dict<string, int>)
    ensures d == CategorySummary(rows)
  {
    d := Empty();
    assert rows[..0] == [];
    for i := 0 to |rows|
      invariant d == CategorySummary(rows[..i])
    {
      var t := rows[i];
      ghost var before := d;
      if t.kind == Debit {
        d := Put(d, t.category, Get(d, t.category, 0) + t.amount);
        assert d == CategoryStep(before, t);
      } else {
        assert d == CategoryStep(before, t);
      }
      CategorySummaryExtends(rows, i);
    }
    assert rows[..|rows|] == rows;
  }

  // ---------------------------------------------------------------------------
  // Monthly trends: `monthly_summary`, a dict from month to income and expense

  datatype Flow = Flow(income: int, expense: int)

  function IncomeOf(f: Flow): int
  {
    f.income
  }

  function ExpenseOf(f: Flow): int
  {
    f.expense
  }

  /** One turn of the monthly loop: a "Credit" row adds to its month's income, any other row
      to its month's expense. */
  function MonthStep(d: Dict<int, Flow>, t: Transaction): (r: Dict<int, Flow>)
    requires Valid(d)
    ensures Valid(r)
  {
    Put(d, MonthOf(t), Book(Get(d, MonthOf(t), Flow(0, 0)), t))
  }

  /** Books a row into its month's bucket. */
  function Book(f: Flow, t: Transaction): Flow
  {
    if t.kind == Credit then f.(income := f.income + t.amount) else f.(expense := f.expense + t.amount)
  }

  /** `monthly_summary` after the loop has run over `rows`. */
  function MonthlySummary(rows: seq<Transaction>): (d: Dict<int, Flow>)
    ensures Valid(d)
  {
    if rows == [] then Empty() else MonthStep(MonthlySummary(rows[..|rows| - 1]), rows[|rows| - 1])
  }

  /** A month in which no row falls has empty sums. */
  lemma {:induction false} NoRowsOutsideMonths(rows: seq<Transaction>, m: int)
    requires m !in Months(rows)
    ensures Total(rows, CreditsIn(m)) == 0 && Total(rows, NonCreditsIn(m)) == 0
  {
    if rows != [] {
      var init := rows[..|rows| - 1];
      assert Months(init) <= Months(rows);
      NoRowsOutsideMonths(init, m);
    }
  }

  /** One turn of the monthly loop keeps the dictionary's keys in first-seen order. */
  lemma MonthStepFirstSeen(d: Dict<int, Flow>, stream: seq<int>, t: Transaction)
    requires Valid(d) && InFirstSeenOrder(d.keys, stream)
    ensures InFirstSeenOrder(MonthStep(d, t).keys, stream + [MonthOf(t)])
  {
    PutKeepsFirstSeenOrder(d, stream, MonthOf(t), Book(Get(d, MonthOf(t), Flow(0, 0)), t));
  }

  /** The monthly dictionary lists each month of the rows once, in first-seen order. */
  lemma {:induction false} MonthKeysFirstSeen(rows: seq<Transaction>)
    ensures InFirstSeenOrder(MonthlySummary(rows).keys, Months(rows))
  {
    if rows != [] {
      var init, t := rows[..|rows| - 1], rows[|rows| - 1];
      MonthKeysFirstSeen(init);
      MonthStepFirstSeen(MonthlySummary(init), Months(init), t);
    }
  }

  /** Each month of the dictionary holds the Credit sum and the non-Credit sum of its rows. */
  lemma {:induction false} MonthFlowsCorrect(rows: seq<Transaction>)
    ensures forall m :: m in MonthlySummary(rows).entries ==>
              MonthlySummary(rows).entries[m] == Flow(Total(rows, CreditsIn(m)), Total(rows, NonCreditsIn(m)))
  {
    if rows != [] {
      var init, t := rows[..|rows| - 1], rows[|rows| - 1];
      MonthFlowsCorrect(init);
      if MonthOf(t) !in MonthlySummary(init).entries {
        MonthKeysFirstSeen(init);
        NoRowsOutsideMonths(init, MonthOf(t));
      }
    }
  }

  /** One turn of the monthly loop adds the row's amount to the income sum if it is a Credit,
      and to the expense sum otherwise. */
  lemma MonthStepSums(d: Dict<int, Flow>, t: Transaction)
    requires Valid(d)
    ensures SumOf(MonthStep(d, t).keys, MonthStep(d, t).entries, IncomeOf)
         == SumOf(d.keys, d.entries, IncomeOf) + (if t.kind == Credit then t.amount else 0)
    ensures SumOf(MonthStep(d, t).keys, MonthStep(d, t).entries, ExpenseOf)
         == SumOf(d.keys, d.entries, ExpenseOf) + (if t.kind != Credit then t.amount else 0)
  {
    var f := Get(d, MonthOf(t), Flow(0, 0));
    var v := Book(f, t);
    assert IncomeOf(v) == IncomeOf(f) + (if t.kind == Credit then t.amount else 0);
    assert ExpenseOf(v) == ExpenseOf(f) + (if t.kind != Credit then t.amount else 0);
    SumOfPut(d, MonthOf(t), v, IncomeOf);
    SumOfPut(d, MonthOf(t), v, ExpenseOf);
  }

  /** Summed over the months, the dictionary holds the total income and the total of the
      non-Credit rows. */
  lemma {:induction false} MonthSumsAreTotals(rows: seq<Transaction>)
    ensures SumOf(MonthlySummary(rows).keys, MonthlySummary(rows).entries, IncomeOf) == Total(rows, Credits)
    ensures SumOf(MonthlySummary(rows).keys, MonthlySummary(rows).entries, ExpenseOf) == Total(rows, NonCredits)
  {
    if rows != [] {
      var init, t := rows[..|rows| - 1], rows[|rows| - 1];
      var d := MonthlySummary(init);
      assert MonthlySummary(rows) == MonthStep(d, t);
      assert Total(rows, Credits) == Total(init, Credits) + (if t.kind == Credit then t.amount else 0);
      assert Total(rows, NonCredits) == Total(init, NonCredits) + (if t.kind != Credit then t.amount else 0);
      MonthSumsAreTotals(init);
      MonthStepSums(d, t);
    }
  }

  /** Opening a month at zero when it is new and then booking the row into it is one step. */
  lemma NewMonthThenBook(d: Dict<int, Flow>, started: Dict<int, Flow>, t: Transaction)
    requires Valid(d)
    requires started == if MonthOf(t) in d.entries then d else Put(d, MonthOf(t), Flow(0, 0))
    ensures Valid(started) && MonthOf(t) in started.entries
    ensures Put(started, MonthOf(t), Book(started.entries[MonthOf(t)], t)) == MonthStep(d, t)
  {
    if MonthOf(t) !in d.entries {
      PutTwice(d, MonthOf(t), Flow(0, 0), Book(Flow(0, 0), t));
    }
  }

  /** One more row of the loop is one more step of the dictionary. */
  lemma MonthlySummaryExtends(rows: seq<Transaction>, i: nat)
    requires i < |rows|
    ensures MonthlySummary(rows[..i + 1]) == MonthStep(MonthlySummary(rows[..i]), rows[i])
  {
    assert rows[..i + 1][..i] == rows[..i];
  }

  /** The monthly loop of main.py: a new month starts at zero income and expense, then the row
      is booked into it. */
  method BuildMonthlySummary(rows: seq<Transaction>) returns (d: Dict<int, Flow>)
    ensures d == MonthlySummary(rows)
  {
    d := Empty();
    for i := 0 to |rows|
      invariant d == MonthlySummary(rows[..i])
    {
      var t := rows[i];
      var month := MonthOf(t);
      ghost var before := d;
      if month !in d.entries {
        d := Put(d, month, Flow(0, 0));
      }
      NewMonthThenBook(before, d, t);
      ghost var started := d;
      var f := d.entries[month];
      if t.kind == Credit {
        assert f.(income := f.income + t.amount) == Book(f, t);
        d := Put(d, month, f.(income := f.income + t.amount));
      } else {
        assert f.(expense := f.expense + t.amount) == Book(f, t);
        d := Put(d, month, f.(expense := f.expense + t.amount));
      }
      MonthlySummaryExtends(rows, i);
    }
    assert rows[..|rows|] == rows;
  }

  // ---------------------------------------------------------------------------
  // Top transactions

  function AmountKey(t: Transaction): int
  {
    t.amount
  }

  /** `query.order_by(amount.desc()).limit(top_count)`. */
  function TopRows(rows: seq<Transaction>, topCount: int): (top: seq<Transaction>)
    ensures |top| == (if topCount < 0 || topCount >= |rows| then |rows| else topCount)
    ensures NonIncreasing(top, AmountKey)
    ensures multiset(top) <= multiset(rows)
  {
    LimitOfSortKeepsLargest(rows, AmountKey, topCount);
    Limit(SortDesc(rows, AmountKey), topCount)
  }

  /** `top_count` when the request does not give one. */
  const DefaultTopCount: int := 5

  // ---------------------------------------------------------------------------
  // The response

  datatype CategoryAmount = CategoryAmount(category: string, amount: int)

  datatype MonthTrend = MonthTrend(month: int, income: int, expense: int)

  datatype SummaryResponse = SummaryResponse(
    totalIncome: int,
    totalExpense: int,
    netBalance: int,
    categoryBreakdown: seq<CategoryAmount>,
    monthlyTrends: seq<MonthTrend>,
    topTransactions: seq<TransactionView>)

  function BreakdownAmount(c: CategoryAmount): int
  {
    c.amount
  }

  function TrendIncome(m: MonthTrend): int
  {
    m.income
  }

  function TrendExpense(m: MonthTrend): int
  {
    m.expense
  }

  function ViewAmount(v: TransactionView): int
  {
    v.amount
  }

  function Categories(items: seq<CategoryAmount>): seq<string>
  {
    seq(|items|, i requires 0 <= i < |items| => items[i].category)
  }

  function TrendMonths(items: seq<MonthTrend>): seq<int>
  {
    seq(|items|, i requires 0 <= i < |items| => items[i].month)
  }

  /** `[{"category": k, "amount": v} for k, v in category_summary.items()]`. */
  function Breakdown(d: Dict<string, int>): (items: seq<CategoryAmount>)
    requires Valid(d)
    ensures Categories(items) == d.keys
  {
    seq(|d.keys|, i requires 0 <= i < |d.keys| => CategoryAmount(d.keys[i], d.entries[d.keys[i]]))
  }

  /** `[{"month": k, "income": v["income"], "expense": v["expense"]} for k, v in monthly_summary.items()]`. */
  function Trends(d: Dict<int, Flow>): (items: seq<MonthTrend>)
    requires Valid(d)
    ensures TrendMonths(items) == d.keys
  {
    seq(|d.keys|, i requires 0 <= i < |d.keys| =>
      MonthTrend(d.keys[i], d.entries[d.keys[i]].income, d.entries[d.keys[i]].expense))
  }

  /** The trend list carries the dictionary's sums. */
  lemma TrendsSums(d: Dict<int, Flow>)
    requires Valid(d)
    ensures SumBy(Trends(d), TrendIncome) == SumOf(d.keys, d.entries, IncomeOf)
    ensures SumBy(Trends(d), TrendExpense) == SumOf(d.keys, d.entries, ExpenseOf)
  {
    var items := Trends(d);
    forall i | 0 <= i < |items|
      ensures TrendIncome(items[i]) == IncomeOf(d.entries[d.keys[i]])
      ensures TrendExpense(items[i]) == ExpenseOf(d.entries[d.keys[i]])
    {
    }
    SumByListsSumOf(items, TrendIncome, d.keys, d.entries, IncomeOf);
    SumByListsSumOf(items, TrendExpense, d.keys, d.entries, ExpenseOf);
  }

  /** `top_transactions`: each selected row reduced to the fields the response shows. */
  function Views(top: seq<Transaction>): (views: seq<TransactionView>)
    ensures |views| == |top|
    ensures forall i :: 0 <= i < |top| ==>
      && views[i].name == top[i].name && views[i].amount == top[i].amount && views[i].kind == top[i].kind
      && views[i].category == top[i].category && views[i].date == top[i].date
  {
    seq(|top|, i requires 0 <= i < |top| => View(top[i]))
  }

  /** The views of rows in descending amount order are in descending amount order. */
  lemma ViewsKeepOrder(top: seq<Transaction>)
    requires NonIncreasing(top, AmountKey)
    ensures NonIncreasing(Views(top), ViewAmount)
  {
    assert forall i :: 0 <= i < |top| ==> ViewAmount(Views(top)[i]) == AmountKey(top[i]);
  }

  /** What `category_breakdown` means for the rows `txns`: one entry per category that has a
      debit, in the order the categories first appear among the debits, each carrying that
      category's debit total, the whole adding up to the total expense. */
  ghost predicate IsCategoryBreakdown(items: seq<CategoryAmount>, txns: seq<Transaction>)
  {
    && InFirstSeenOrder(Categories(items), DebitCategories(txns))
    && (forall i :: 0 <= i < |items| ==> items[i].amount == Total(txns, DebitsIn(items[i].category)))
    && SumBy(items, BreakdownAmount) == Total(txns, Debits)
  }

  /** What `monthly_trends` means for the rows `txns`: one entry per month in which a row
      falls, in the order the months first appear, with that month's credits as income and
      every other row as expense; the incomes add up to the total income. */
  ghost predicate IsMonthlyTrends(items: seq<MonthTrend>, txns: seq<Transaction>)
  {
    && InFirstSeenOrder(TrendMonths(items), Months(txns))
    && (forall t :: t in txns ==> MonthOf(t) in TrendMonths(items))
    && (forall i :: 0 <= i < |items| ==>
          && items[i].income == Total(txns, CreditsIn(items[i].month))
          && items[i].expense == Total(txns, NonCreditsIn(items[i].month)))
    && SumBy(items, TrendIncome) == Total(txns, Credits)
    && SumBy(items, TrendExpense) == Total(txns, NonCredits)
  }

  lemma {:induction false} CategoryBreakdownCorrect(txns: seq<Transaction>)
    ensures IsCategoryBreakdown(Breakdown(CategorySummary(txns)), txns)
  {
    var d := CategorySummary(txns);
    var items := Breakdown(d);
    CategoryKeysFirstSeen(txns);
    CategoryAmountsCorrect(txns);
    CategorySumIsTotalExpense(txns);
    SumByListsSumOf(items, BreakdownAmount, d.keys, d.entries, AmountOf);
  }

  /** The trend list names each month of the rows once, in first-seen order. */
  lemma {:induction false} TrendMonthsFirstSeen(txns: seq<Transaction>)
    ensures InFirstSeenOrder(TrendMonths(Trends(MonthlySummary(txns))), Months(txns))
    ensures forall t :: t in txns ==> MonthOf(t) in TrendMonths(Trends(MonthlySummary(txns)))
  {
    var d := MonthlySummary(txns);
    MonthKeysFirstSeen(txns);
    MonthsCoverRows(txns);
    forall t | t in txns ensures MonthOf(t) in d.keys {
      var i :| 0 <= i < |txns| && txns[i] == t;
      assert Months(txns)[i] == MonthOf(t);
    }
  }

  /** Each trend entry carries its month's credit and non-credit sums. */
  lemma {:induction false} TrendFlowsCorrect(txns: seq<Transaction>)
    ensures var items := Trends(MonthlySummary(txns));
      forall i :: 0 <= i < |items| ==>
        && items[i].income == Total(txns, CreditsIn(items[i].month))
        && items[i].expense == Total(txns, NonCreditsIn(items[i].month))
  {
    MonthFlowsCorrect(txns);
  }

  lemma {:induction false} MonthlyTrendsCorrect(txns: seq<Transaction>)
    ensures IsMonthlyTrends(Trends(MonthlySummary(txns)), txns)
  {
    TrendMonthsFirstSeen(txns);
    TrendFlowsCorrect(txns);
    MonthSumsAreTotals(txns);
    TrendsSums(MonthlySummary(txns));
  }

  /** The top list holds the `topCount` largest amounts among the rows in the query (all of
      them when the count is negative or large), largest first, each a row of the query. */
  lemma {:induction false} TopTransactionsCorrect(
    rows: seq<Transaction>, caller: string,
    startDate: Option<CalendarDate>, endDate: Option<CalendarDate>, topCount: int)
    ensures var txns := Query(rows, caller, startDate, endDate);
      var top := TopRows(txns, topCount);
      && |top| == (if topCount < 0 || topCount >= |txns| then |txns| else topCount)
      && NonIncreasing(Views(top), ViewAmount)
      && multiset(top) <= multiset(txns)
      && (forall t :: t in top ==> InQuery(t, caller, startDate, endDate))
      && (forall x, y :: x in multiset(txns) - multiset(top) && y in top ==> y.amount >= x.amount)
  {
    var txns := Query(rows, caller, startDate, endDate);
    var top := TopRows(txns, topCount);
    LimitOfSortKeepsLargest(txns, AmountKey, topCount);
    ViewsKeepOrder(top);
    forall t | t in top ensures InQuery(t, caller, startDate, endDate) {
      assert t in multiset(top);
    }
  }

  /** A request without `top_count` shows the five largest rows of its query (all of them when
      there are fewer), largest first. */
  lemma {:induction false} DefaultTopTransactions(
    rows: seq<Transaction>, caller: string, startDate: Option<CalendarDate>, endDate: Option<CalendarDate>)
    ensures var txns := Query(rows, caller, startDate, endDate);
      var shown := SummaryOf(txns, DefaultTopCount).topTransactions;
      && |shown| == (if |txns| <= 5 then |txns| else 5)
      && NonIncreasing(shown, ViewAmount)
  {
    TopTransactionsCorrect(rows, caller, startDate, endDate, DefaultTopCount);
  }

  /** The response `transactions_summary` builds from the rows `txns` of its query. */
  function SummaryOf(txns: seq<Transaction>, topCount: int): (s: SummaryResponse)
    ensures s.netBalance == s.totalIncome - s.totalExpense
    ensures |s.topTransactions| == (if topCount < 0 || topCount >= |txns| then |txns| else topCount)
  {
    SummaryResponse(
      Total(txns, Credits), Total(txns, Debits), Total(txns, Credits) - Total(txns, Debits),
      Breakdown(CategorySummary(txns)), Trends(MonthlySummary(txns)), Views(TopRows(txns, topCount)))
  }

  /** What the response says about its rows: the net balance is income less expense, and the
      breakdown and the trends mean what `IsCategoryBreakdown` and `IsMonthlyTrends` say.
      When every row is a "Credit" or a "Debit", the monthly expenses add up to the total
      expense. */
  lemma {:induction false} SummaryMeaning(txns: seq<Transaction>, topCount: int)
    ensures var s := SummaryOf(txns, topCount);
      && s.totalIncome == Total(txns, Credits)
      && s.totalExpense == Total(txns, Debits)
      && s.netBalance == s.totalIncome - s.totalExpense
      && IsCategoryBreakdown(s.categoryBreakdown, txns)
      && IsMonthlyTrends(s.monthlyTrends, txns)
      && ((forall t :: t in txns ==> t.kind == Credit || t.kind == Debit) ==>
            SumBy(s.monthlyTrends, TrendExpense) == s.totalExpense)
  {
    CategoryBreakdownCorrect(txns);
    MonthlyTrendsCorrect(txns);
    if forall t :: t in txns ==> t.kind == Credit || t.kind == Debit {
      NonCreditsAreDebits(txns);
    }
  }

  /** A start date after the end date gives zero totals and empty lists, not an error. */
  lemma {:induction false} CrossedRangeIsEmptySummary(
    rows: seq<Transaction>, caller: string, startDate: CalendarDate, endDate: CalendarDate, topCount: int)
    requires !DateLe(startDate, endDate)
    ensures SummaryOf(Query(rows, caller, Some(startDate), Some(endDate)), topCount) == SummaryResponse(0, 0, 0, [], [], [])
  {
    CrossedRangeSelectsNothing(rows, caller, startDate, endDate);
    assert SortDesc([], AmountKey) == [];
  }

  /** `transactions_summary`: the caller's rows in the range, reduced to the response. */
  method TransactionsSummary(
    rows: seq<Transaction>, caller: string,
    startDate: Option<CalendarDate>, endDate: Option<CalendarDate>, topCount: int)
    returns (s: SummaryResponse)
    ensures s == SummaryOf(Query(rows, caller, startDate, endDate), topCount)
  {
    var txns := Query(rows, caller, startDate, endDate);

    var totalIncome := Total(txns, Credits);
    var totalExpense := Total(txns, Debits);
    var netBalance := totalIncome - totalExpense;

    var categorySummary := BuildCategorySummary(txns);
    var monthlySummary := BuildMonthlySummary(txns);
    var top := TopRows(txns, topCount);

    s := SummaryResponse(totalIncome, totalExpense, netBalance,
      Breakdown(categorySummary), Trends(monthlySummary), Views(top));
  }
}

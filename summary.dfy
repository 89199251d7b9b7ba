/**
 * The account summary (`TransactionManager.account_summary`): a read-only
 * aggregation over the transaction rows of one account whose day lies in an
 * inclusive window.
 *
 * The rows are given as the sequence the database scans; the aggregates do
 * not depend on its order, except that categories whose raw spend ties keep
 * the order in which they first appear.
 */
module Summary {
  import opened Wrappers
  import opened Models

  /** An inclusive range of days. */
  datatype DateRange = DateRange(start: Day, end: Day)

  // ---------------------------------------------------------------------------
  // Scoping

  /** The row belongs to the account and its day is within [start, end]. */
  predicate Applicable(t: Transaction, accountId: Id, start: Day, end: Day) {
    t.accountId == accountId && start <= t.date <= end
  }

  /** The rows the summary reads, in scan order. */
  function ApplicableRows(rows: seq<Transaction>, accountId: Id, start: Day, end: Day): seq<Transaction>
    decreases |rows|
  {
    if rows == [] then []
    else
      var last := rows[|rows| - 1];
      ApplicableRows(rows[..|rows| - 1], accountId, start, end)
        + (if Applicable(last, accountId, start, end) then [last] else [])
  }

  /** Exactly the rows of the account inside the window are read, each as often as it occurs. */
  lemma {:induction false} ApplicableRowsScope(rows: seq<Transaction>, accountId: Id, start: Day, end: Day)
    ensures forall t :: t in ApplicableRows(rows, accountId, start, end) <==>
                        t in rows && Applicable(t, accountId, start, end)
    ensures forall t :: Applicable(t, accountId, start, end) ==>
                        multiset(ApplicableRows(rows, accountId, start, end))[t] == multiset(rows)[t]
    ensures forall t :: !Applicable(t, accountId, start, end) ==>
                        multiset(ApplicableRows(rows, accountId, start, end))[t] == 0
    decreases |rows|
  {
    if rows != [] {
      var init := rows[..|rows| - 1];
      ApplicableRowsScope(init, accountId, start, end);
      assert rows == init + [rows[|rows| - 1]];
    }
  }

  /** A row one day before the window or one day after it is not counted. */
  lemma BoundaryDaysExcluded(rows: seq<Transaction>, t: Transaction, accountId: Id, start: Day, end: Day)
    requires t.date == start - 1 || t.date == end + 1
    ensures ApplicableRows(rows + [t], accountId, start, end) == ApplicableRows(rows, accountId, start, end)
  {
    assert (rows + [t])[..|rows|] == rows;
  }

  /** A row of the account dated on the first or the last day of the window is counted. */
  lemma WindowIsInclusive(rows: seq<Transaction>, t: Transaction, accountId: Id, start: Day, end: Day)
    requires start <= end
    requires t.accountId == accountId && (t.date == start || t.date == end)
    ensures ApplicableRows(rows + [t], accountId, start, end) == ApplicableRows(rows, accountId, start, end) + [t]
  {
    assert (rows + [t])[..|rows|] == rows;
  }

  // ---------------------------------------------------------------------------
  // Metrics

  /** `Sum("amount", filter=amount < 0)`, with the NULL of an empty sum read as 0. */
  function SpendSum(rows: seq<Transaction>): (s: int)
    ensures s <= 0
    ensures (forall i :: 0 <= i < |rows| ==> rows[i].amount >= 0) ==> s == 0
    decreases |rows|
  {
    if rows == [] then 0
    else
      var last := rows[|rows| - 1];
      SpendSum(rows[..|rows| - 1]) + (if last.amount < 0 then last.amount else 0)
  }

  /** `Sum("amount", filter=amount > 0)`, with the NULL of an empty sum read as 0. */
  function IncomeSum(rows: seq<Transaction>): (s: int)
    ensures s >= 0
    ensures (forall i :: 0 <= i < |rows| ==> rows[i].amount <= 0) ==> s == 0
    decreases |rows|
  {
    if rows == [] then 0
    else
      var last := rows[|rows| - 1];
      IncomeSum(rows[..|rows| - 1]) + (if last.amount > 0 then last.amount else 0)
  }

  /** The plain sum of all amounts. */
  function AmountSum(rows: seq<Transaction>): int
    decreases |rows|
  {
    if rows == [] then 0 else AmountSum(rows[..|rows| - 1]) + rows[|rows| - 1].amount
  }

  function Abs(x: int): nat {
    if x < 0 then -x else x
  }

  /** The `metrics` part of the summary. */
  datatype Metrics = Metrics(totalTransactions: nat, totalSpend: nat, totalIncome: nat, net: int)

  function ComputeMetrics(rows: seq<Transaction>): Metrics {
    var totalSpend := Abs(SpendSum(rows));
    var totalIncome := IncomeSum(rows);
    Metrics(|rows|, totalSpend, totalIncome, totalIncome - totalSpend)
  }

  /** Income plus raw spend is the plain sum: every amount is on one side or is zero. */
  lemma {:induction false} SpendAndIncomeSplitSum(rows: seq<Transaction>)
    ensures IncomeSum(rows) + SpendSum(rows) == AmountSum(rows)
    decreases |rows|
  {
    if rows != [] {
      SpendAndIncomeSplitSum(rows[..|rows| - 1]);
    }
  }

  /**
   * The metrics count the rows, report spend as the magnitude of the negative
   * amounts and income as the sum of the positive ones, and their net is the
   * plain sum of all amounts.
   */
  lemma MetricsMeaning(rows: seq<Transaction>)
    ensures var m := ComputeMetrics(rows);
      && m.totalTransactions == |rows|
      && m.totalSpend == -SpendSum(rows)
      && m.totalIncome == IncomeSum(rows)
      && m.net == m.totalIncome - m.totalSpend == AmountSum(rows)
  {
    SpendAndIncomeSplitSum(rows);
  }

  /** The example of an expense of 12.34 and an income of 100.00. */
  lemma MetricsExample(a: Transaction, b: Transaction)
    requires a.amount == -1234 && b.amount == 10000
    ensures ComputeMetrics([a, b]) == Metrics(2, 1234, 10000, 8766)
  {
    assert [a, b][..1] == [a];
    assert [a][..0] == [];
    assert SpendSum([a]) == -1234 && IncomeSum([a]) == 0;
  }

  // ---------------------------------------------------------------------------
  // Top categories

  /** One row of `.values("category").annotate(...)`: a category's raw spend sum and row count. */
  datatype CategoryGroup = CategoryGroup(category: string, rawSpend: int, transactionCount: nat)

  /** One entry of `top_categories`, with the spend made positive. */
  datatype TopCategory = TopCategory(category: string, totalSpend: nat, transactionCount: nat)

  /** How many categories are reported. */
  const TopLimit: nat := 5

  /** The rows whose category is `c`. */
  function RowsOfCategory(rows: seq<Transaction>, c: string): seq<Transaction>
    decreases |rows|
  {
    if rows == [] then []
    else
      var last := rows[|rows| - 1];
      RowsOfCategory(rows[..|rows| - 1], c) + (if last.category == Some(c) then [last] else [])
  }

  /** The distinct non-null categories of the rows, in order of first appearance. */
  function CategoriesOf(rows: seq<Transaction>): seq<string>
    decreases |rows|
  {
    if rows == [] then []
    else
      var earlier := CategoriesOf(rows[..|rows| - 1]);
      var last := rows[|rows| - 1];
      if last.category.Some? && last.category.value !in earlier then earlier + [last.category.value]
      else earlier
  }

  predicate DistinctStrings(s: seq<string>) {
    forall i, j :: 0 <= i < j < |s| ==> s[i] != s[j]
  }

  /** The categories of the rows are the non-null ones that occur, each once. */
  lemma {:induction false} CategoriesOfContents(rows: seq<Transaction>)
    ensures forall c :: c in CategoriesOf(rows) <==> exists i :: 0 <= i < |rows| && rows[i].category == Some(c)
    ensures DistinctStrings(CategoriesOf(rows))
    decreases |rows|
  {
    if rows != [] {
      var init := rows[..|rows| - 1];
      CategoriesOfContents(init);
      forall c ensures c in CategoriesOf(rows) <==> exists i :: 0 <= i < |rows| && rows[i].category == Some(c) {
        if exists i :: 0 <= i < |init| && init[i].category == Some(c) {
          var i :| 0 <= i < |init| && init[i].category == Some(c);
          assert rows[i] == init[i];
        }
        if exists i :: 0 <= i < |rows| && rows[i].category == Some(c) {
          var i :| 0 <= i < |rows| && rows[i].category == Some(c);
          if i < |rows| - 1 { assert init[i] == rows[i]; }
        }
      }
    }
  }

  /** The category groups, one per category in order of first appearance. */
  function Groups(rows: seq<Transaction>): (gs: seq<CategoryGroup>)
    ensures |gs| == |CategoriesOf(rows)|
  {
    var cs := CategoriesOf(rows);
    seq(|cs|, i requires 0 <= i < |cs| => GroupOf(rows, cs[i]))
  }

  /** Insert `g` into a list ordered by raw spend, descending, before the first group it does not follow. */
  function InsertBySpend(g: CategoryGroup, sorted: seq<CategoryGroup>): seq<CategoryGroup>
    decreases |sorted|
  {
    if sorted == [] then [g]
    else if g.rawSpend >= sorted[0].rawSpend then [g] + sorted
    else [sorted[0]] + InsertBySpend(g, sorted[1..])
  }

  /** `order_by("-total_spend")`: raw spend descending; ties keep their first-appearance order. */
  function SortBySpend(gs: seq<CategoryGroup>): seq<CategoryGroup>
    decreases |gs|
  {
    if gs == [] then [] else InsertBySpend(gs[0], SortBySpend(gs[1..]))
  }

  predicate SpendDescending(s: seq<CategoryGroup>) {
    forall i, j :: 0 <= i < j < |s| ==> s[i].rawSpend >= s[j].rawSpend
  }

  predicate DistinctCategories(s: seq<CategoryGroup>) {
    forall i, j :: 0 <= i < j < |s| ==> s[i].category != s[j].category
  }

  /** Inserting adds exactly `g`. */
  lemma {:induction false} InsertBySpendElements(g: CategoryGroup, sorted: seq<CategoryGroup>)
    ensures multiset(InsertBySpend(g, sorted)) == multiset(sorted) + multiset{g}
    decreases |sorted|
  {
    if sorted != [] && g.rawSpend < sorted[0].rawSpend {
      InsertBySpendElements(g, sorted[1..]);
      assert sorted == [sorted[0]] + sorted[1..];
    }
  }

  /** Inserting into a list ordered by raw spend keeps it ordered. */
  lemma {:induction false} InsertBySpendOrdered(g: CategoryGroup, sorted: seq<CategoryGroup>)
    requires SpendDescending(sorted)
    ensures SpendDescending(InsertBySpend(g, sorted))
    decreases |sorted|
  {
    if sorted != [] && g.rawSpend < sorted[0].rawSpend {
      var rest := sorted[1..];
      InsertBySpendOrdered(g, rest);
      InsertBySpendElements(g, rest);
      var r := InsertBySpend(g, rest);
      forall x | x in r ensures sorted[0].rawSpend >= x.rawSpend {
        assert x in multiset(r);
      }
    }
  }

  /** Inserting a group of a new category keeps categories distinct. */
  lemma {:induction false} InsertBySpendDistinct(g: CategoryGroup, sorted: seq<CategoryGroup>)
    requires DistinctCategories(sorted)
    requires forall x :: x in sorted ==> x.category != g.category
    ensures DistinctCategories(InsertBySpend(g, sorted))
    decreases |sorted|
  {
    if sorted != [] && g.rawSpend < sorted[0].rawSpend {
      var rest := sorted[1..];
      assert DistinctCategories(rest) by {
        forall i, j | 0 <= i < j < |rest| ensures rest[i].category != rest[j].category {
          assert rest[i] == sorted[i + 1] && rest[j] == sorted[j + 1];
        }
      }
      InsertBySpendDistinct(g, rest);
      InsertBySpendElements(g, rest);
      var r := InsertBySpend(g, rest);
      forall x | x in r ensures x.category != sorted[0].category {
        assert x in multiset(r);
        if x != g {
          var k :| 0 <= k < |rest| && rest[k] == x;
          assert sorted[k + 1] == x;
        }
      }
    }
  }

  /** Sorting permutes the groups and orders them by raw spend, descending. */
  lemma {:induction false} SortBySpendOrdered(gs: seq<CategoryGroup>)
    ensures SpendDescending(SortBySpend(gs))
    ensures multiset(SortBySpend(gs)) == multiset(gs)
    decreases |gs|
  {
    if gs != [] {
      var rest := SortBySpend(gs[1..]);
      SortBySpendOrdered(gs[1..]);
      InsertBySpendElements(gs[0], rest);
      InsertBySpendOrdered(gs[0], rest);
      assert gs == [gs[0]] + gs[1..];
    }
  }

  /** Sorting groups of distinct categories leaves them distinct. */
  lemma {:induction false} SortBySpendDistinct(gs: seq<CategoryGroup>)
    requires DistinctCategories(gs)
    ensures DistinctCategories(SortBySpend(gs))
    decreases |gs|
  {
    if gs != [] {
      var tail := gs[1..];
      var rest := SortBySpend(tail);
      assert DistinctCategories(tail) by {
        forall i, j | 0 <= i < j < |tail| ensures tail[i].category != tail[j].category {
          assert tail[i] == gs[i + 1] && tail[j] == gs[j + 1];
        }
      }
      SortBySpendDistinct(tail);
      SortBySpendOrdered(tail);
      forall x | x in rest ensures x.category != gs[0].category {
        assert x in multiset(tail);
        var k :| 0 <= k < |tail| && tail[k] == x;
        assert gs[k + 1] == x;
      }
      InsertBySpendDistinct(gs[0], rest);
    }
  }

  /** `g` is the group of one of the rows' categories, with that category's raw spend and count. */
  predicate IsGroupOf(rows: seq<Transaction>, g: CategoryGroup) {
    && g.category in CategoriesOf(rows)
    && g.rawSpend == SpendSum(RowsOfCategory(rows, g.category))
    && g.transactionCount == |RowsOfCategory(rows, g.category)|
  }

  function GroupOf(rows: seq<Transaction>, c: string): CategoryGroup {
    CategoryGroup(c, SpendSum(RowsOfCategory(rows, c)), |RowsOfCategory(rows, c)|)
  }

  /** The groups are those of the rows' categories, one per category. */
  lemma GroupsFacts(rows: seq<Transaction>)
    ensures DistinctCategories(Groups(rows))
    ensures forall g :: g in Groups(rows) ==> IsGroupOf(rows, g)
    ensures forall c :: c in CategoriesOf(rows) ==> GroupOf(rows, c) in Groups(rows)
  {
    CategoriesOfContents(rows);
    var cs := CategoriesOf(rows);
    forall c | c in cs ensures GroupOf(rows, c) in Groups(rows) {
      var k :| 0 <= k < |cs| && cs[k] == c;
      assert Groups(rows)[k] == GroupOf(rows, c);
    }
  }

  /** The categories ranked: one group per category, raw spend descending. */
  function Ranked(rows: seq<Transaction>): seq<CategoryGroup> {
    SortBySpend(Groups(rows))
  }

  /** The ranking holds every category's group once, in raw-spend order. */
  lemma RankedFacts(rows: seq<Transaction>)
    ensures |Ranked(rows)| == |CategoriesOf(rows)|
    ensures SpendDescending(Ranked(rows))
    ensures DistinctCategories(Ranked(rows))
    ensures forall i :: 0 <= i < |Ranked(rows)| ==> IsGroupOf(rows, Ranked(rows)[i])
    ensures forall c :: c in CategoriesOf(rows) ==> GroupOf(rows, c) in Ranked(rows)
  {
    var gs := Groups(rows);
    var sorted := SortBySpend(gs);
    GroupsFacts(rows);
    SortBySpendOrdered(gs);
    SortBySpendDistinct(gs);
    assert |sorted| == |gs| by {
      assert |multiset(sorted)| == |multiset(gs)|;
    }
    forall i | 0 <= i < |sorted| ensures IsGroupOf(rows, sorted[i]) {
      assert sorted[i] in multiset(sorted);
    }
    forall c | c in CategoriesOf(rows) ensures GroupOf(rows, c) in sorted {
      assert GroupOf(rows, c) in multiset(gs);
    }
  }

  /** The first `TopLimit` groups of a ranking, with `abs` applied to the spend. */
  function TopEntries(ranked: seq<CategoryGroup>): (top: seq<TopCategory>)
    ensures |top| == if |ranked| < TopLimit then |ranked| else TopLimit
  {
    var n := if |ranked| < TopLimit then |ranked| else TopLimit;
    seq(n, i requires 0 <= i < n => TopCategory(ranked[i].category, Abs(ranked[i].rawSpend), ranked[i].transactionCount))
  }

  /** The `top_categories` list. */
  function TopCategories(rows: seq<Transaction>): seq<TopCategory> {
    TopEntries(Ranked(rows))
  }

  /**
   * The top categories: at most five entries with distinct categories that
   * occur in the rows, each with its category's spend magnitude and its count
   * of all rows of that category, negative or not.
   */
  lemma TopCategoriesContents(rows: seq<Transaction>)
    ensures var top := TopCategories(rows);
      && |top| == (if |CategoriesOf(rows)| < TopLimit then |CategoriesOf(rows)| else TopLimit)
      && (forall i, j :: 0 <= i < j < |top| ==> top[i].category != top[j].category)
      && forall i :: 0 <= i < |top| ==>
           && (exists k :: 0 <= k < |rows| && rows[k].category == Some(top[i].category))
           && top[i].totalSpend == Abs(SpendSum(RowsOfCategory(rows, top[i].category)))
           && top[i].transactionCount == |RowsOfCategory(rows, top[i].category)|
  {
    var ranked := Ranked(rows);
    RankedFacts(rows);
    CategoriesOfContents(rows);
    var top := TopCategories(rows);
    forall i | 0 <= i < |top|
      ensures exists k :: 0 <= k < |rows| && rows[k].category == Some(top[i].category)
    {
      assert IsGroupOf(rows, ranked[i]);
    }
    forall i, j | 0 <= i < j < |top| ensures top[i].category != top[j].category {
      assert top[i].category == ranked[i].category && top[j].category == ranked[j].category;
    }
  }

  /**
   * `order_by("-total_spend")` sorts the raw, non-positive sums descending, so
   * the entries come in ascending order of spend magnitude.
   */
  lemma TopCategoriesOrder(rows: seq<Transaction>)
    ensures var top := TopCategories(rows);
      forall i, j :: 0 <= i < j < |top| ==> top[i].totalSpend <= top[j].totalSpend
  {
    var ranked := Ranked(rows);
    RankedFacts(rows);
    var top := TopCategories(rows);
    forall i, j | 0 <= i < j < |top| ensures top[i].totalSpend <= top[j].totalSpend {
      assert IsGroupOf(rows, ranked[i]) && IsGroupOf(rows, ranked[j]);
      assert ranked[j].rawSpend <= ranked[i].rawSpend <= 0;
    }
  }

  /**
   * A category left out of the list (there are then five entries) spends at
   * least as much as every category shown: the list holds the five smallest
   * spends.
   */
  lemma TopCategoriesSelection(rows: seq<Transaction>, c: string)
    requires c in CategoriesOf(rows)
    requires forall i :: 0 <= i < |TopCategories(rows)| ==> TopCategories(rows)[i].category != c
    ensures var top := TopCategories(rows);
      && |top| == TopLimit
      && forall i :: 0 <= i < |top| ==> Abs(SpendSum(RowsOfCategory(rows, c))) >= top[i].totalSpend
  {
    var ranked := Ranked(rows);
    RankedFacts(rows);
    var top := TopCategories(rows);
    var p :| 0 <= p < |ranked| && ranked[p] == GroupOf(rows, c);
    assert |top| == (if |ranked| < TopLimit then |ranked| else TopLimit);
    forall i | 0 <= i < |top| ensures ranked[i].category != c {
      assert top[i].category == ranked[i].category;
    }
    assert ranked[p].category == c;
    assert p >= |top|;
    forall i | 0 <= i < |top| ensures Abs(SpendSum(RowsOfCategory(rows, c))) >= top[i].totalSpend {
      assert IsGroupOf(rows, ranked[i]);
      assert ranked[p].rawSpend <= ranked[i].rawSpend <= 0;
    }
  }

  // ---------------------------------------------------------------------------
  // Processing-status breakdown

  /** How many rows have status `st`. */
  function CountStatus(rows: seq<Transaction>, st: IngestionStatus): nat
    decreases |rows|
  {
    if rows == [] then 0
    else CountStatus(rows[..|rows| - 1], st) + (if rows[|rows| - 1].ingestionStatus == st then 1 else 0)
  }

  /** The distinct statuses of the rows, in order of first appearance. */
  function StatusesOf(rows: seq<Transaction>): seq<IngestionStatus>
    decreases |rows|
  {
    if rows == [] then []
    else
      var earlier := StatusesOf(rows[..|rows| - 1]);
      var st := rows[|rows| - 1].ingestionStatus;
      if st in earlier then earlier else earlier + [st]
  }

  /** `.values("ingestion_status").annotate(count=...)`: each status that occurs with its count. */
  function StatusBreakdown(rows: seq<Transaction>): seq<(IngestionStatus, nat)> {
    var sts := StatusesOf(rows);
    seq(|sts|, i requires 0 <= i < |sts| => (sts[i], CountStatus(rows, sts[i])))
  }

  /** A status that is not among the statuses of the rows has no rows. */
  lemma {:induction false} StatusesOfComplete(rows: seq<Transaction>, st: IngestionStatus)
    requires st !in StatusesOf(rows)
    ensures CountStatus(rows, st) == 0
    decreases |rows|
  {
    if rows != [] {
      StatusesOfComplete(rows[..|rows| - 1], st);
    }
  }

  /**
   * The `processing_status` dictionary: the four known statuses, initialised
   * to zero, each overwritten by its count from the breakdown. Statuses other
   * than the four are skipped.
   */
  method ProcessingStatus(rows: seq<Transaction>) returns (counts: map<IngestionStatus, nat>)
    ensures counts.Keys == KnownStatuses
    ensures forall st :: st in counts ==> counts[st] == CountStatus(rows, st)
  {
    var breakdown := StatusBreakdown(rows);
    ghost var sts := StatusesOf(rows);
    counts := map[Pending := 0, Processing := 0, Completed := 0, Failed := 0];
    for i := 0 to |breakdown|
      invariant counts.Keys == KnownStatuses
      invariant forall st :: st in counts ==> counts[st] == if st in sts[..i] then CountStatus(rows, st) else 0
    {
      var (key, count) := breakdown[i];
      if key in counts {
        counts := counts[key := count];
      }
      assert sts[..i + 1] == sts[..i] + [key];
    }
    assert sts[..|breakdown|] == sts;
    forall st | st in counts && st !in sts ensures CountStatus(rows, st) == 0 {
      StatusesOfComplete(rows, st);
    }
  }

  /**
   * The four counts add up to at most the number of rows, and to exactly that
   * number when every row has one of the four known statuses.
   */
  lemma {:induction false} StatusCountsBound(rows: seq<Transaction>)
    ensures var total := CountStatus(rows, Pending) + CountStatus(rows, Processing)
                       + CountStatus(rows, Completed) + CountStatus(rows, Failed);
      && total <= |rows|
      && ((forall i :: 0 <= i < |rows| ==> rows[i].ingestionStatus in KnownStatuses) ==> total == |rows|)
    decreases |rows|
  {
    if rows != [] {
      StatusCountsBound(rows[..|rows| - 1]);
    }
  }

  // ---------------------------------------------------------------------------
  // The whole summary

  /** The summary dictionary returned by `account_summary`. */
  datatype AccountSummary = AccountSummary(
    accountId: Id,
    dateRange: DateRange,
    metrics: Metrics,
    topCategories: seq<TopCategory>,
    processingStatus: map<IngestionStatus, nat>)

  /** `s` is the summary of the rows of `accountId` within [start, end]. */
  ghost predicate Summarises(s: AccountSummary, rows: seq<Transaction>, accountId: Id, start: Day, end: Day) {
    var applicable := ApplicableRows(rows, accountId, start, end);
    && s.accountId == accountId
    && s.dateRange == DateRange(start, end)
    && s.metrics == ComputeMetrics(applicable)
    && s.topCategories == TopCategories(applicable)
    && s.processingStatus.Keys == KnownStatuses
    && forall st :: st in s.processingStatus ==> s.processingStatus[st] == CountStatus(applicable, st)
  }

  /** `account_summary`: filter the rows, aggregate the metrics, rank the categories, count the statuses. */
  method ComputeAccountSummary(rows: seq<Transaction>, accountId: Id, start: Day, end: Day)
    returns (s: AccountSummary)
    ensures Summarises(s, rows, accountId, start, end)
  {
    var applicable := ApplicableRows(rows, accountId, start, end);
    var metrics := ComputeMetrics(applicable);
    var top := TopCategories(applicable);
    var processingStatus := ProcessingStatus(applicable);
    s := AccountSummary(accountId, DateRange(start, end), metrics, top, processingStatus);
  }
}

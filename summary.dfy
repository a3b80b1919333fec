/**
 * `get_category_summary(start_date, end_date)` of database.py: the totals of
 * the expenses grouped by main category and subcategory name, largest
 * first, followed by a grand-total row.
 */
module Summary {
  import opened Wrappers
  import opened Calendar
  import opened Periods
  import opened Categories
  import opened Sql
  import opened Ledger

  /** One row of the summary: `category`, `subcategory`, `total_amount`. */
  datatype SummaryRow = SummaryRow(category: string, subcategory: Option<string>, totalAmount: int)

  /** The `GROUP BY c1.name, c2.name` key of a row. */
  function Key(x: SummaryRow): (string, Option<string>) {
    (x.category, x.subcategory)
  }

  /** The rows of one group. */
  function HasKey(k: (string, Option<string>)): SummaryRow -> bool {
    (x: SummaryRow) => Key(x) == k
  }

  /** `SUM(total_amount)` over a sequence of rows. */
  function SumTotals(s: seq<SummaryRow>): int {
    if s == [] then 0 else s[0].totalAmount + SumTotals(s[1..])
  }

  /** The sum over two sequences is the sum of the sums. */
  lemma {:induction false} SumTotalsAppend(a: seq<SummaryRow>, b: seq<SummaryRow>)
    ensures SumTotals(a + b) == SumTotals(a) + SumTotals(b)
  {
    if a == [] {
      assert a + b == b;
    } else {
      assert (a + b)[1..] == a[1..] + b;
      SumTotalsAppend(a[1..], b);
    }
  }

  /** Taking one row out of a sequence takes its amount out of the sum. */
  lemma SumTotalsRemove(b: seq<SummaryRow>, i: int)
    requires 0 <= i < |b|
    ensures SumTotals(b) == b[i].totalAmount + SumTotals(b[..i] + b[i + 1..])
  {
    assert b == b[..i] + ([b[i]] + b[i + 1..]);
    SumTotalsAppend(b[..i], [b[i]] + b[i + 1..]);
    SumTotalsAppend(b[..i], b[i + 1..]);
    assert ([b[i]] + b[i + 1..])[1..] == b[i + 1..];
  }

  /** The sum does not depend on the order of the rows. */
  lemma {:induction false} SumTotalsPermutation(a: seq<SummaryRow>, b: seq<SummaryRow>)
    requires multiset(a) == multiset(b)
    ensures SumTotals(a) == SumTotals(b)
    decreases |a|
  {
    if a == [] {
      assert |b| == |multiset(b)| == 0;
    } else {
      assert a[0] in multiset(b);
      var i :| 0 <= i < |b| && b[i] == a[0];
      var rest := b[..i] + b[i + 1..];
      SumTotalsRemove(b, i);
      assert b == b[..i] + [b[i]] + b[i + 1..];
      assert a == [a[0]] + a[1..];
      assert multiset(b) == multiset(b[..i]) + multiset([b[i]]) + multiset(b[i + 1..]);
      assert multiset(rest) == multiset(b[..i]) + multiset(b[i + 1..]);
      assert multiset(a) == multiset([a[0]]) + multiset(a[1..]);
      assert multiset(a[1..]) == multiset(a) - multiset{a[0]};
      assert multiset(rest) == multiset(b) - multiset{b[i]};
      SumTotalsPermutation(a[1..], rest);
    }
  }

  /** The total of group `k` in `s`. */
  function TotalOf(s: seq<SummaryRow>, k: (string, Option<string>)): int {
    SumTotals(Where(s, HasKey(k)))
  }

  /** The number of rows of `s` with key `k`. */
  function CountKey(s: seq<SummaryRow>, k: (string, Option<string>)): nat {
    |Where(s, HasKey(k))|
  }

  /** Two orderings of the same rows have the same groups, with the same totals. */
  lemma GroupsOfPermutation(a: seq<SummaryRow>, b: seq<SummaryRow>, k: (string, Option<string>))
    requires multiset(a) == multiset(b)
    ensures TotalOf(a, k) == TotalOf(b, k) && CountKey(a, k) == CountKey(b, k)
  {
    var wa := Where(a, HasKey(k));
    var wb := Where(b, HasKey(k));
    assert multiset(wa) == multiset(wb) by {
      WhereMultiset(a, HasKey(k));
      WhereMultiset(b, HasKey(k));
      forall x ensures multiset(wa)[x] == multiset(wb)[x] {
      }
    }
    SumTotalsPermutation(wa, wb);
    assert |wa| == |multiset(wa)| == |multiset(wb)| == |wb|;
  }

  // ---------------------------------------------------------------------
  // GROUP BY c1.name, c2.name

  /** Adds one joined row to the groups built so far: into its group, or as a new last group. */
  function AddToGroup(groups: seq<SummaryRow>, x: SummaryRow): (r: seq<SummaryRow>)
    decreases |groups|
  {
    if groups == [] then [x]
    else if Key(groups[0]) == Key(x) then
      [groups[0].(totalAmount := groups[0].totalAmount + x.totalAmount)] + groups[1..]
    else
      [groups[0]] + AddToGroup(groups[1..], x)
  }

  /** Adding a row adds its amount to its own group's total and leaves the other totals. */
  lemma {:induction false} AddToGroupTotals(groups: seq<SummaryRow>, x: SummaryRow, k: (string, Option<string>))
    ensures TotalOf(AddToGroup(groups, x), k) == TotalOf(groups, k) + (if k == Key(x) then x.totalAmount else 0)
    ensures CountKey(AddToGroup(groups, x), k)
      == if k == Key(x) && CountKey(groups, k) == 0 then 1 else CountKey(groups, k)
    decreases |groups|
  {
    var r := AddToGroup(groups, x);
    if groups == [] {
      assert Where([x], HasKey(k)) == if k == Key(x) then [x] else [];
    } else {
      var g := groups[0];
      assert groups == [g] + groups[1..];
      WhereAppend([g], groups[1..], HasKey(k));
      if Key(g) == Key(x) {
        var g' := g.(totalAmount := g.totalAmount + x.totalAmount);
        WhereAppend([g'], groups[1..], HasKey(k));
        assert Where([g'], HasKey(k)) == if k == Key(x) then [g'] else [];
        assert Where([g], HasKey(k)) == if k == Key(x) then [g] else [];
        SumTotalsAppend(Where([g'], HasKey(k)), Where(groups[1..], HasKey(k)));
        SumTotalsAppend(Where([g], HasKey(k)), Where(groups[1..], HasKey(k)));
      } else {
        AddToGroupTotals(groups[1..], x, k);
        WhereAppend([g], AddToGroup(groups[1..], x), HasKey(k));
        SumTotalsAppend(Where([g], HasKey(k)), Where(groups[1..], HasKey(k)));
        SumTotalsAppend(Where([g], HasKey(k)), Where(AddToGroup(groups[1..], x), HasKey(k)));
      }
    }
  }

  /** Grouping one more row keeps the groups' totals and counts in step with the rows'. */
  lemma AddToGroupStep(init: seq<SummaryRow>, x: SummaryRow, prev: seq<SummaryRow>, k: (string, Option<string>))
    requires TotalOf(prev, k) == TotalOf(init, k)
    requires CountKey(prev, k) == if CountKey(init, k) == 0 then 0 else 1
    ensures TotalOf(AddToGroup(prev, x), k) == TotalOf(init + [x], k)
    ensures CountKey(AddToGroup(prev, x), k) == if CountKey(init + [x], k) == 0 then 0 else 1
  {
    AddToGroupTotals(prev, x, k);
    var wi := Where(init, HasKey(k));
    var wx := Where([x], HasKey(k));
    WhereAppend(init, [x], HasKey(k));
    assert wx == if k == Key(x) then [x] else [];
    assert SumTotals([x]) == x.totalAmount by {
      assert [x][1..] == [];
    }
    SumTotalsAppend(wi, wx);
    assert TotalOf(init + [x], k) == TotalOf(init, k) + (if k == Key(x) then x.totalAmount else 0);
    assert CountKey(init + [x], k) == CountKey(init, k) + (if k == Key(x) then 1 else 0);
  }

  /** Rows grouped by key in order of first appearance, each group with the sum of its rows. */
  function GroupTotals(items: seq<SummaryRow>): (groups: seq<SummaryRow>)
    ensures forall k :: TotalOf(groups, k) == TotalOf(items, k)
    ensures forall k :: CountKey(groups, k) == if CountKey(items, k) == 0 then 0 else 1
    decreases |items|
  {
    if items == [] then []
    else
      var init := items[..|items| - 1];
      var x := items[|items| - 1];
      var prev := GroupTotals(init);
      assert items == init + [x];
      forall k
        ensures TotalOf(AddToGroup(prev, x), k) == TotalOf(items, k)
        ensures CountKey(AddToGroup(prev, x), k) == if CountKey(items, k) == 0 then 0 else 1
      {
        AddToGroupStep(init, x, prev, k);
      }
      AddToGroup(prev, x)
  }

  /** Each group total is the sum of all the rows, so the grand total is unchanged by grouping. */
  lemma {:induction false} GroupTotalsSum(items: seq<SummaryRow>)
    ensures SumTotals(GroupTotals(items)) == SumTotals(items)
    decreases |items|
  {
    if items != [] {
      var init := items[..|items| - 1];
      var x := items[|items| - 1];
      assert items == init + [x];
      GroupTotalsSum(init);
      AddToGroupSum(GroupTotals(init), x);
      SumTotalsAppend(init, [x]);
    }
  }

  /** Adding a row to the groups adds its amount to their sum. */
  lemma {:induction false} AddToGroupSum(groups: seq<SummaryRow>, x: SummaryRow)
    ensures SumTotals(AddToGroup(groups, x)) == SumTotals(groups) + x.totalAmount
    decreases |groups|
  {
    if groups != [] {
      var g := groups[0];
      if Key(g) == Key(x) {
        var g' := g.(totalAmount := g.totalAmount + x.totalAmount);
        assert ([g'] + groups[1..])[1..] == groups[1..];
      } else {
        AddToGroupSum(groups[1..], x);
        assert ([g] + AddToGroup(groups[1..], x))[1..] == AddToGroup(groups[1..], x);
      }
    }
  }

  // ---------------------------------------------------------------------
  // The joined rows and the whole query

  /**
   * `FROM expenses e JOIN categories c1 ... LEFT JOIN categories c2`: an
   * expense whose main category has no row drops out; a missing
   * subcategory gives a NULL name.
   */
  function JoinedRow(cats: seq<Category>, e: Expense): seq<SummaryRow> {
    match NameOfId(cats, e.categoryId)
    case None => []
    case Some(name) => [SummaryRow(name, CategoryName(cats, e.subcategoryId), e.totalAmount)]
  }

  /** The joined rows of a table, in table order. */
  function JoinedRows(cats: seq<Category>, es: seq<Expense>): (items: seq<SummaryRow>)
    ensures |items| <= |es|
  {
    if es == [] then [] else JoinedRow(cats, es[0]) + JoinedRows(cats, es[1..])
  }

  /** The sum of `total_amount` over a table. */
  function TotalSpent(es: seq<Expense>): int {
    if es == [] then 0 else es[0].totalAmount + TotalSpent(es[1..])
  }

  /** When every main category resolves, the join keeps every expense and its amount. */
  lemma {:induction false} JoinedRowsKeepAll(cats: seq<Category>, es: seq<Expense>)
    requires forall i :: 0 <= i < |es| ==> NameOfId(cats, es[i].categoryId).Some?
    ensures |JoinedRows(cats, es)| == |es|
    ensures SumTotals(JoinedRows(cats, es)) == TotalSpent(es)
  {
    if es != [] {
      assert forall i :: 0 <= i < |es[1..]| ==> es[1..][i] == es[i + 1];
      JoinedRowsKeepAll(cats, es[1..]);
      SumTotalsAppend(JoinedRow(cats, es[0]), JoinedRows(cats, es[1..]));
    }
  }

  /** `WHERE date BETWEEN ? AND ?`, applied only when both bounds are given. */
  function InWindow(startDate: Option<Date>, endDate: Option<Date>): Expense -> bool {
    (e: Expense) => startDate.Some? && endDate.Some? ==> InRange(e.date, DateRange(startDate.value, endDate.value))
  }

  /** `ORDER BY total_amount DESC`. */
  predicate LargerFirst(x: SummaryRow, y: SummaryRow) {
    y.totalAmount <= x.totalAmount
  }

  /** The grand-total row pandas appends: category "TOTAL", an empty subcategory. */
  function TotalRow(sum: int): SummaryRow {
    SummaryRow("TOTAL", Some(""), sum)
  }

  /**
   * `get_category_summary(start_date, end_date)`: the groups largest
   * first, then the grand-total row of their sum; nothing at all when no
   * expense is left after the join and the filter.
   */
  function CategorySummary(cats: seq<Category>, es: seq<Expense>,
                           startDate: Option<Date>, endDate: Option<Date>): (r: seq<SummaryRow>)
    ensures var items := JoinedRows(cats, Where(es, InWindow(startDate, endDate)));
      && (r == [] <==> items == [])
      && (r != [] ==>
            && r[|r| - 1] == TotalRow(SumTotals(items))
            && var groups := r[..|r| - 1];
            && r[|r| - 1].totalAmount == SumTotals(groups)
            && SortedBy(groups, LargerFirst)
            && (forall k :: CountKey(groups, k) == if CountKey(items, k) == 0 then 0 else 1)
            && (forall k :: TotalOf(groups, k) == TotalOf(items, k)))
  {
    var items := JoinedRows(cats, Where(es, InWindow(startDate, endDate)));
    var grouped := GroupTotals(items);
    assert TotalPreorder(LargerFirst);
    var groups := SortBy(grouped, LargerFirst);
    NonEmptyHasKey(items);
    NonEmptyHasKey(grouped);
    if groups == [] then
      []
    else
      var r := groups + [TotalRow(SumTotals(groups))];
      assert r[..|r| - 1] == groups;
      forall k ensures CountKey(groups, k) == CountKey(grouped, k) && TotalOf(groups, k) == TotalOf(grouped, k) {
        GroupsOfPermutation(grouped, groups, k);
      }
      SumTotalsPermutation(grouped, groups);
      GroupTotalsSum(items);
      r
  }

  /** A sequence is non-empty exactly when some key has a row in it. */
  lemma NonEmptyHasKey(s: seq<SummaryRow>)
    ensures s != [] <==> exists k :: CountKey(s, k) > 0
  {
    if s != [] {
      assert s == [s[0]] + s[1..];
      WhereAppend([s[0]], s[1..], HasKey(Key(s[0])));
      assert CountKey(s, Key(s[0])) > 0;
    }
  }

  /**
   * With no date window and every main category resolving, the grand total
   * is the sum of `total_amount` over the whole table.
   */
  lemma GrandTotalIsTotalSpent(cats: seq<Category>, es: seq<Expense>)
    requires es != []
    requires forall i :: 0 <= i < |es| ==> NameOfId(cats, es[i].categoryId).Some?
    ensures var r := CategorySummary(cats, es, None, None);
      r != [] && r[|r| - 1] == TotalRow(TotalSpent(es))
  {
    var all := Where(es, InWindow(None, None));
    assert all == es by {
      WhereAll(es, InWindow(None, None));
    }
    JoinedRowsKeepAll(cats, es);
  }

  /** A filter that every row passes keeps the table. */
  lemma {:induction false} WhereAll(s: seq<Expense>, p: Expense -> bool)
    requires forall e :: p(e)
    ensures Where(s, p) == s
  {
    if s != [] {
      WhereAll(s[1..], p);
      assert s == [s[0]] + s[1..];
    }
  }
}

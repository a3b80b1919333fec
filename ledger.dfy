/**
 * The `expenses` table of database.py and the pure part of its operations:
 * the joined views the read queries return, the queries themselves, and the
 * row that `save_expense` inserts and `update_expense` writes.
 */
module Ledger {
  import opened Wrappers
  import opened Calendar
  import opened Periods
  import opened Categories
  import opened Sql

  /**
   * A row of `expenses`. `category_id` is NOT NULL, so it is an `int`; the
   * other references and the text columns may be NULL. Amounts are whole
   * numbers of the smallest unit (see README).
   */
  datatype Expense = Expense(
    id: int,
    date: Date,
    categoryId: int,
    subcategoryId: Option<int>,
    subsubcategoryId: Option<int>,
    subsubsubcategoryId: Option<int>,
    description: Option<string>,
    amountBeforeVat: int,
    vatAmount: int,
    totalAmount: int,
    enteredBy: Option<string>)

  /** Rowids grow in table order, as SQLite assigns them to appended rows. */
  ghost predicate ExpenseIdsIncreasing(es: seq<Expense>) {
    forall i, j :: 0 <= i < j < |es| ==> es[i].id < es[j].id
  }

  /** The rowid SQLite gives the next inserted row: one past the largest, 1 in an empty table. */
  function NextExpenseId(es: seq<Expense>): (id: int)
    ensures es == [] ==> id == 1
    ensures es != [] ==> id == es[|es| - 1].id + 1
  {
    NextRowid(es, (e: Expense) => e.id)
  }

  /** With increasing rowids, the next rowid is larger than every rowid in the table. */
  lemma NextExpenseIdIsFresh(es: seq<Expense>)
    requires ExpenseIdsIncreasing(es)
    ensures forall e :: e in es ==> e.id < NextExpenseId(es)
  {
    forall e | e in es ensures e.id < NextExpenseId(es) {
      var i :| 0 <= i < |es| && es[i] == e;
      if i < |es| - 1 {
        assert es[i].id < es[|es| - 1].id;
      }
    }
  }

  /** Appending a row with the next rowid keeps rowids increasing. */
  lemma AppendNextKeepsExpenseIdsIncreasing(es: seq<Expense>, e: Expense)
    requires ExpenseIdsIncreasing(es) && e.id == NextExpenseId(es)
    ensures ExpenseIdsIncreasing(es + [e])
  {
    NextExpenseIdIsFresh(es);
    assert forall x :: x in es ==> x.id < e.id;
  }

  // ---------------------------------------------------------------------
  // The joined listing of get_expenses, get_expenses_by_user, get_all_expenses

  /**
   * One row of the listing queries: the expense with the names that the
   * three `LEFT JOIN categories` bring for its first three levels.
   */
  datatype ExpenseView = ExpenseView(
    id: int,
    date: Date,
    category: Option<string>,
    subcategory: Option<string>,
    subsubcategory: Option<string>,
    description: Option<string>,
    amountBeforeVat: int,
    vatAmount: int,
    totalAmount: int,
    enteredBy: Option<string>)

  /** The listing row of one expense. */
  function View(cats: seq<Category>, e: Expense): (v: ExpenseView)
    ensures v.id == e.id && v.date == e.date && v.description == e.description && v.enteredBy == e.enteredBy
    ensures v.amountBeforeVat == e.amountBeforeVat && v.vatAmount == e.vatAmount && v.totalAmount == e.totalAmount
    ensures v.category.None? <==> e.categoryId !in Ids(cats)
    ensures v.subcategory.None? <==> e.subcategoryId.None? || e.subcategoryId.value !in Ids(cats)
    ensures v.subsubcategory.None? <==> e.subsubcategoryId.None? || e.subsubcategoryId.value !in Ids(cats)
    ensures v.category.Some? ==> FirstNamed(cats, e.categoryId, v.category.value)
    ensures v.subcategory.Some? ==> FirstNamed(cats, e.subcategoryId.value, v.subcategory.value)
    ensures v.subsubcategory.Some? ==> FirstNamed(cats, e.subsubcategoryId.value, v.subsubcategory.value)
  {
    NameOfIdFirstMatch(cats, e.categoryId);
    CategoryNameFirstMatch(cats, e.subcategoryId);
    CategoryNameFirstMatch(cats, e.subsubcategoryId);
    ExpenseView(e.id, e.date,
                NameOfId(cats, e.categoryId),
                CategoryName(cats, e.subcategoryId),
                CategoryName(cats, e.subsubcategoryId),
                e.description, e.amountBeforeVat, e.vatAmount, e.totalAmount, e.enteredBy)
  }

  /** The listing rows of a table, in table order. */
  function Views(cats: seq<Category>, es: seq<Expense>): (vs: seq<ExpenseView>)
    ensures |vs| == |es| && forall i :: 0 <= i < |es| ==> vs[i] == View(cats, es[i])
  {
    seq(|es|, i requires 0 <= i < |es| => View(cats, es[i]))
  }

  /** A listing row is in the views of a table exactly when some row of the table gives it. */
  lemma ViewsMembers(cats: seq<Category>, es: seq<Expense>)
    ensures forall v :: v in Views(cats, es) <==> exists e :: e in es && View(cats, e) == v
  {
    forall v | v in Views(cats, es) ensures exists e :: e in es && View(cats, e) == v {
      var i :| 0 <= i < |es| && Views(cats, es)[i] == v;
      assert es[i] in es;
    }
    forall v | exists e :: e in es && View(cats, e) == v ensures v in Views(cats, es) {
      var e :| e in es && View(cats, e) == v;
      var i :| 0 <= i < |es| && es[i] == e;
      assert Views(cats, es)[i] == v;
    }
  }

  /** `ORDER BY date DESC`: `x` may come before `y` when it is no older. */
  predicate NewerFirst(x: ExpenseView, y: ExpenseView) {
    DateLe(y.date, x.date)
  }

  /** Dates compare totally and transitively, so the order is a total preorder. */
  lemma NewerFirstTotal()
    ensures TotalPreorder(NewerFirst)
  {
  }

  /** The views of a table sorted newest first. */
  function Listing(cats: seq<Category>, es: seq<Expense>): (r: seq<ExpenseView>)
    ensures SortedBy(r, NewerFirst)
    ensures multiset(r) == multiset(Views(cats, es))
  {
    NewerFirstTotal();
    SortBy(Views(cats, es), NewerFirst)
  }

  /** A listing holds exactly the views of the listed rows. */
  lemma ListingMembers(cats: seq<Category>, es: seq<Expense>, v: ExpenseView)
    ensures v in Listing(cats, es) <==> exists e :: e in es && View(cats, e) == v
  {
    ViewsMembers(cats, es);
    assert v in Listing(cats, es) <==> v in multiset(Listing(cats, es));
    assert v in Views(cats, es) <==> v in multiset(Views(cats, es));
  }

  /** `get_all_expenses()`: every expense, joined and newest first. */
  function AllExpenses(cats: seq<Category>, es: seq<Expense>): (r: seq<ExpenseView>)
    ensures |r| == |es|
    ensures multiset(r) == multiset(Views(cats, es))
    ensures SortedBy(r, NewerFirst)
    ensures forall v :: v in r <==> exists e :: e in es && View(cats, e) == v
  {
    var r := Listing(cats, es);
    assert |r| == |multiset(r)| == |multiset(Views(cats, es))| == |es|;
    forall v ensures v in r <==> exists e :: e in es && View(cats, e) == v {
      ListingMembers(cats, es, v);
    }
    r
  }

  /** A newly appended expense adds exactly its own row to the listing. */
  lemma AllExpensesAppend(cats: seq<Category>, es: seq<Expense>, e: Expense)
    ensures multiset(Listing(cats, es + [e])) == multiset(Listing(cats, es)) + multiset{View(cats, e)}
  {
    assert Views(cats, es + [e]) == Views(cats, es) + [View(cats, e)];
  }

  /** The row filter `date BETWEEN start AND end`. */
  function DatedIn(range: DateRange): Expense -> bool {
    (e: Expense) => InRange(e.date, range)
  }

  /** The listing of the expenses dated within `range`. */
  function ExpensesInRange(cats: seq<Category>, es: seq<Expense>, range: DateRange): (r: seq<ExpenseView>)
    ensures SortedBy(r, NewerFirst)
    ensures multiset(r) == multiset(Views(cats, Where(es, DatedIn(range))))
    ensures |r| == |Where(es, DatedIn(range))|
    ensures forall v :: v in r <==> exists e :: e in es && InRange(e.date, range) && View(cats, e) == v
  {
    var kept := Where(es, DatedIn(range));
    var r := Listing(cats, kept);
    assert |r| == |multiset(r)| == |multiset(Views(cats, kept))| == |kept|;
    forall v ensures v in r <==> exists e :: e in es && InRange(e.date, range) && View(cats, e) == v {
      ListingMembers(cats, kept, v);
      WhereMultiset(es, DatedIn(range));
      forall e ensures e in kept <==> e in es && InRange(e.date, range) {
        assert e in kept <==> e in multiset(kept);
        assert e in es <==> e in multiset(es);
      }
    }
    r
  }

  // ---------------------------------------------------------------------
  // get_expenses(period=None, custom_dates=None)

  /** The one period label that `get_expenses` knows and `get_period_dates` does not. */
  const CurrentMonth: string := "Current Month"

  /** The label for which `get_expenses` adds no date filter. */
  const AllLabel: string := "All"

  /**
   * The date range that `get_expenses` computes inline for a label; None
   * when no branch of its `if` chain assigns `start_date`.
   */
  function InlinePeriod(p: string, today: Date): (r: Option<DateRange>)
    requires ValidDate(today)
    ensures r.Some? <==> p in {FirstDecade, SecondDecade, LastDecade, CurrentMonth}
  {
    if p == FirstDecade then
      Some(DateRange(ReplaceDay(today, 1), ReplaceDay(today, 10)))
    else if p == SecondDecade then
      Some(DateRange(ReplaceDay(today, 11), ReplaceDay(today, 20)))
    else if p == LastDecade then
      Some(DateRange(ReplaceDay(today, 21), MonthEndByDay28(today)))
    else if p == CurrentMonth then
      Some(DateRange(ReplaceDay(today, 1), MonthEndByDay28(today)))
    else
      None
  }

  /** For the three labels both know, the inline ranges agree with `get_period_dates`. */
  lemma InlinePeriodAgrees(p: string, today: Date)
    requires ValidDate(today) && p != CurrentMonth
    ensures InlinePeriod(p, today) == PeriodDates(p, today)
  {
  }

  /** "Current Month" covers today's month from its first to its last day. */
  lemma InlineCurrentMonth(today: Date)
    requires ValidDate(today)
    ensures InlinePeriod(CurrentMonth, today)
      == Some(DateRange(Date(today.year, today.month, 1),
                        Date(today.year, today.month, DaysInMonth(today.year, today.month))))
  {
    MonthEndIsLastDay(today);
  }

  /** Why `get_expenses` fails: a label none of its branches handles leaves `start_date` unbound. */
  datatype QueryError = UnboundStartDate

  /**
   * `get_expenses(period, custom_dates)` with `datetime.today().date()`
   * passed in as `today`. Custom dates win; an empty or missing period and
   * "All" list everything; a label with no branch is an error.
   */
  function Expenses(cats: seq<Category>, es: seq<Expense>, period: Option<string>,
                    customDates: Option<DateRange>, today: Date): (r: Result<seq<ExpenseView>, QueryError>)
    requires ValidDate(today)
    ensures r.Failure? <==>
      && customDates.None? && period.Some? && period.value != "" && period.value != AllLabel
      && period.value !in {FirstDecade, SecondDecade, LastDecade, CurrentMonth}
    ensures r.Success? ==> SortedBy(r.value, NewerFirst)
    ensures customDates.Some? ==> r == Success(ExpensesInRange(cats, es, customDates.value))
  {
    if customDates.Some? then
      Success(ExpensesInRange(cats, es, customDates.value))
    else if period.Some? && period.value != "" then
      if period.value == AllLabel then
        Success(AllExpenses(cats, es))
      else
        match InlinePeriod(period.value, today)
        case None => Failure(UnboundStartDate)
        case Some(range) => Success(ExpensesInRange(cats, es, range))
    else
      Success(AllExpenses(cats, es))
  }

  /** A decade label lists the expenses in the range `get_period_dates` gives for it. */
  lemma ExpensesForDecade(cats: seq<Category>, es: seq<Expense>, p: string, today: Date)
    requires ValidDate(today) && p in {FirstDecade, SecondDecade, LastDecade}
    ensures Expenses(cats, es, Some(p), None, today)
      == Success(ExpensesInRange(cats, es, PeriodDates(p, today).value))
  {
    InlinePeriodAgrees(p, today);
  }

  /** The whole of today's month, from its first to its last day. */
  function MonthRange(today: Date): (r: DateRange)
    requires ValidDate(today)
    ensures ValidDate(r.start) && ValidDate(r.end) && DateLe(r.start, r.end)
    ensures forall d :: InRange(d, r) <==> d.year == today.year && d.month == today.month && 1 <= d.day <= DaysInMonth(today.year, today.month)
  {
    DateRange(Date(today.year, today.month, 1), Date(today.year, today.month, DaysInMonth(today.year, today.month)))
  }

  /** "Current Month" is the listing of the expenses dated in today's year and month. */
  lemma ExpensesForCurrentMonth(cats: seq<Category>, es: seq<Expense>, today: Date)
    requires ValidDate(today)
    ensures Expenses(cats, es, Some(CurrentMonth), None, today) == Success(ExpensesInRange(cats, es, MonthRange(today)))
  {
    InlineCurrentMonth(today);
  }

  /** Without custom dates, no period, an empty one and "All" list every expense. */
  lemma ExpensesUnfiltered(cats: seq<Category>, es: seq<Expense>, period: Option<string>, today: Date)
    requires ValidDate(today)
    requires period.None? || period.value == "" || period.value == AllLabel
    ensures Expenses(cats, es, period, None, today) == Success(AllExpenses(cats, es))
  {
  }

  // ---------------------------------------------------------------------
  // get_expenses_by_user(username, start_date=None, end_date=None)

  /** `e.entered_by = ?`, and `date BETWEEN ? AND ?` when both bounds are given. */
  function ByUser(username: string, startDate: Option<Date>, endDate: Option<Date>): Expense -> bool {
    (e: Expense) => e.enteredBy == Some(username)
         && (startDate.Some? && endDate.Some? ==> InRange(e.date, DateRange(startDate.value, endDate.value)))
  }

  /** `get_expenses_by_user(username, start_date, end_date)`: that user's expenses, newest first. */
  function ExpensesByUser(cats: seq<Category>, es: seq<Expense>, username: string,
                          startDate: Option<Date>, endDate: Option<Date>): (r: seq<ExpenseView>)
    ensures SortedBy(r, NewerFirst)
    ensures multiset(r) == multiset(Views(cats, Where(es, ByUser(username, startDate, endDate))))
    ensures |r| == |Where(es, ByUser(username, startDate, endDate))|
    ensures forall v :: v in r <==>
      exists e :: (e in es && e.enteredBy == Some(username) && View(cats, e) == v
                   && (startDate.Some? && endDate.Some? ==> InRange(e.date, DateRange(startDate.value, endDate.value))))
    ensures forall v :: v in r ==> v.enteredBy == Some(username)
  {
    var kept := Where(es, ByUser(username, startDate, endDate));
    var r := Listing(cats, kept);
    assert |r| == |multiset(r)| == |multiset(Views(cats, kept))| == |kept|;
    forall v ensures v in r <==>
      exists e :: (e in es && e.enteredBy == Some(username) && View(cats, e) == v
                   && (startDate.Some? && endDate.Some? ==> InRange(e.date, DateRange(startDate.value, endDate.value))))
    {
      ListingMembers(cats, kept, v);
      WhereMultiset(es, ByUser(username, startDate, endDate));
      forall e ensures e in kept <==> e in es && ByUser(username, startDate, endDate)(e) {
        assert e in kept <==> e in multiset(kept);
        assert e in es <==> e in multiset(es);
      }
    }
    r
  }

  // ---------------------------------------------------------------------
  // get_expense_by_id(expense_id)

  /** `e.*` with the names of the first three category levels. */
  datatype ExpenseDetail = ExpenseDetail(
    expense: Expense,
    categoryName: Option<string>,
    subcategoryName: Option<string>,
    subsubcategoryName: Option<string>)

  /** The detail record of one expense. */
  function Detail(cats: seq<Category>, e: Expense): ExpenseDetail {
    ExpenseDetail(e, NameOfId(cats, e.categoryId),
                  CategoryName(cats, e.subcategoryId), CategoryName(cats, e.subsubcategoryId))
  }

  /** `get_expense_by_id(expense_id)`: the first row with that id, joined; None when there is none. */
  function ExpenseById(cats: seq<Category>, es: seq<Expense>, id: int): (r: Option<ExpenseDetail>)
    ensures r.None? <==> forall i :: 0 <= i < |es| ==> es[i].id != id
    ensures r.Some? ==>
      exists i :: (0 <= i < |es| && es[i].id == id && r.value == Detail(cats, es[i])
                   && forall j :: 0 <= j < i ==> es[j].id != id)
  {
    if es == [] then None
    else if es[0].id == id then Some(Detail(cats, es[0]))
    else
      var r := ExpenseById(cats, es[1..], id);
      assert forall i :: 0 <= i < |es[1..]| ==> es[1..][i] == es[i + 1];
      r
  }

  /** With increasing rowids, the row found is the only one with that id. */
  lemma ExpenseByIdUnique(cats: seq<Category>, es: seq<Expense>, i: int)
    requires ExpenseIdsIncreasing(es) && 0 <= i < |es|
    ensures ExpenseById(cats, es, es[i].id) == Some(Detail(cats, es[i]))
  {
    var r := ExpenseById(cats, es, es[i].id);
    var k :| 0 <= k < |es| && es[k].id == es[i].id && r.value == Detail(cats, es[k]);
    assert k == i;
  }

  // ---------------------------------------------------------------------
  // save_expense(...)

  /** The SQLite errors the writes can raise. */
  datatype DbError = NotNullViolation | SyntaxError

  /** The arguments of `save_expense`: category names, not ids. */
  datatype Submission = Submission(
    date: Date,
    category: string,
    subcategory: Option<string>,
    subsubcategory: Option<string>,
    subsubsubcategory: Option<string>,
    description: Option<string>,
    amountBeforeVat: int,
    vatAmount: int,
    totalAmount: int,
    enteredBy: Option<string>)

  /** `get_category_id(name) if name else None`: a missing or empty name gives NULL. */
  function ResolveOptional(cats: seq<Category>, name: Option<string>): (r: Option<int>)
    ensures name.None? || name.value == "" ==> r.None?
    ensures name.Some? && name.value != "" ==> r == CategoryId(cats, name.value, None)
  {
    if name.None? || name.value == "" then None else CategoryId(cats, name.value, None)
  }

  /**
   * The row `save_expense` inserts, or the NOT NULL failure when the main
   * category name resolves to no row (the insert is rolled back).
   */
  function NewExpense(cats: seq<Category>, es: seq<Expense>, s: Submission): (r: Result<Expense, DbError>)
    ensures r.Failure? <==> CategoryId(cats, s.category, None).None?
    ensures r.Failure? ==> r.error == NotNullViolation
    ensures r.Success? ==>
      && r.value.id == NextExpenseId(es)
      && r.value.categoryId == CategoryId(cats, s.category, None).value
      && r.value.subcategoryId == ResolveOptional(cats, s.subcategory)
      && r.value.subsubcategoryId == ResolveOptional(cats, s.subsubcategory)
      && r.value.subsubsubcategoryId == ResolveOptional(cats, s.subsubsubcategory)
      && r.value.date == s.date && r.value.description == s.description
      && r.value.amountBeforeVat == s.amountBeforeVat && r.value.vatAmount == s.vatAmount
      && r.value.totalAmount == s.totalAmount && r.value.enteredBy == s.enteredBy
  {
    match CategoryId(cats, s.category, None)
    case None => Failure(NotNullViolation)
    case Some(categoryId) =>
      Success(Expense(NextExpenseId(es), s.date, categoryId,
                      ResolveOptional(cats, s.subcategory),
                      ResolveOptional(cats, s.subsubcategory),
                      ResolveOptional(cats, s.subsubsubcategory),
                      s.description, s.amountBeforeVat, s.vatAmount, s.totalAmount, s.enteredBy))
  }

  /** The name a submitted optional name reads back as: itself when it resolves, otherwise NULL. */
  function ReadBack(cats: seq<Category>, name: Option<string>): Option<string> {
    if ResolveOptional(cats, name).Some? then name else None
  }

  /**
   * Saving and then fetching by the returned id gives back the submitted
   * values and names: the main category always, the lower levels when
   * they resolve.
   */
  lemma SavedExpenseReadsBack(cats: seq<Category>, es: seq<Expense>, s: Submission)
    requires IdsIncreasing(cats) && ExpenseIdsIncreasing(es)
    requires NewExpense(cats, es, s).Success?
    ensures var e := NewExpense(cats, es, s).value;
      && ExpenseById(cats, es + [e], e.id)
         == Some(ExpenseDetail(e, Some(s.category), ReadBack(cats, s.subcategory), ReadBack(cats, s.subsubcategory)))
      && e.date == s.date && e.description == s.description && e.enteredBy == s.enteredBy
      && e.amountBeforeVat == s.amountBeforeVat && e.vatAmount == s.vatAmount && e.totalAmount == s.totalAmount
  {
    var e := NewExpense(cats, es, s).value;
    AppendNextKeepsExpenseIdsIncreasing(es, e);
    ExpenseByIdUnique(cats, es + [e], |es|);
    NameOfResolvedId(cats, s.category, None);
    if ResolveOptional(cats, s.subcategory).Some? {
      NameOfResolvedId(cats, s.subcategory.value, None);
    }
    if ResolveOptional(cats, s.subsubcategory).Some? {
      NameOfResolvedId(cats, s.subsubcategory.value, None);
    }
  }

  // ---------------------------------------------------------------------
  // update_expense(expense_id, updates)

  /** The columns `update_expense` may set (every column but `id`). */
  datatype Column =
    | DateColumn | CategoryColumn | SubcategoryColumn | SubsubcategoryColumn | SubsubsubcategoryColumn
    | DescriptionColumn | AmountBeforeVatColumn | VatAmountColumn | TotalAmountColumn | EnteredByColumn

  /** One `field: value` entry of the `updates` dictionary. */
  datatype FieldUpdate =
    | SetDate(date: Date)
    | SetCategoryId(categoryId: Option<int>)
    | SetSubcategoryId(subcategoryId: Option<int>)
    | SetSubsubcategoryId(subsubcategoryId: Option<int>)
    | SetSubsubsubcategoryId(subsubsubcategoryId: Option<int>)
    | SetDescription(description: Option<string>)
    | SetAmountBeforeVat(amountBeforeVat: int)
    | SetVatAmount(vatAmount: int)
    | SetTotalAmount(totalAmount: int)
    | SetEnteredBy(enteredBy: Option<string>)

  /** A column's value, whatever its type. */
  datatype Value = DateValue(d: Date) | RefValue(r: Option<int>) | TextValue(t: Option<string>) | AmountValue(a: int)

  /** The column an update entry names. */
  function ColumnOf(u: FieldUpdate): Column {
    match u
    case SetDate(_) => DateColumn
    case SetCategoryId(_) => CategoryColumn
    case SetSubcategoryId(_) => SubcategoryColumn
    case SetSubsubcategoryId(_) => SubsubcategoryColumn
    case SetSubsubsubcategoryId(_) => SubsubsubcategoryColumn
    case SetDescription(_) => DescriptionColumn
    case SetAmountBeforeVat(_) => AmountBeforeVatColumn
    case SetVatAmount(_) => VatAmountColumn
    case SetTotalAmount(_) => TotalAmountColumn
    case SetEnteredBy(_) => EnteredByColumn
  }

  /** The value an update entry assigns. */
  function ValueOf(u: FieldUpdate): Value {
    match u
    case SetDate(d) => DateValue(d)
    case SetCategoryId(r) => RefValue(r)
    case SetSubcategoryId(r) => RefValue(r)
    case SetSubsubcategoryId(r) => RefValue(r)
    case SetSubsubsubcategoryId(r) => RefValue(r)
    case SetDescription(t) => TextValue(t)
    case SetAmountBeforeVat(a) => AmountValue(a)
    case SetVatAmount(a) => AmountValue(a)
    case SetTotalAmount(a) => AmountValue(a)
    case SetEnteredBy(t) => TextValue(t)
  }

  /** The value of a column of a row. */
  function Get(e: Expense, c: Column): Value {
    match c
    case DateColumn => DateValue(e.date)
    case CategoryColumn => RefValue(Some(e.categoryId))
    case SubcategoryColumn => RefValue(e.subcategoryId)
    case SubsubcategoryColumn => RefValue(e.subsubcategoryId)
    case SubsubsubcategoryColumn => RefValue(e.subsubsubcategoryId)
    case DescriptionColumn => TextValue(e.description)
    case AmountBeforeVatColumn => AmountValue(e.amountBeforeVat)
    case VatAmountColumn => AmountValue(e.vatAmount)
    case TotalAmountColumn => AmountValue(e.totalAmount)
    case EnteredByColumn => TextValue(e.enteredBy)
  }

  /** An entry that sets the NOT NULL `category_id` to NULL. */
  predicate ClearsCategory(u: FieldUpdate) {
    u == SetCategoryId(None)
  }

  /** One `field = ?` assignment; NULL into `category_id` is refused elsewhere, so it keeps the row. */
  function Assign(e: Expense, u: FieldUpdate): (r: Expense)
    ensures r.id == e.id
    ensures !ClearsCategory(u) ==> Get(r, ColumnOf(u)) == ValueOf(u)
    ensures forall c :: c != ColumnOf(u) ==> Get(r, c) == Get(e, c)
  {
    match u
    case SetDate(d) => e.(date := d)
    case SetCategoryId(r) => if r.Some? then e.(categoryId := r.value) else e
    case SetSubcategoryId(r) => e.(subcategoryId := r)
    case SetSubsubcategoryId(r) => e.(subsubcategoryId := r)
    case SetSubsubsubcategoryId(r) => e.(subsubsubcategoryId := r)
    case SetDescription(t) => e.(description := t)
    case SetAmountBeforeVat(a) => e.(amountBeforeVat := a)
    case SetVatAmount(a) => e.(vatAmount := a)
    case SetTotalAmount(a) => e.(totalAmount := a)
    case SetEnteredBy(t) => e.(enteredBy := t)
  }

  /** The assignments of `SET ...`, in dictionary order. */
  function ApplyUpdates(e: Expense, us: seq<FieldUpdate>): (r: Expense)
    ensures r.id == e.id
    decreases |us|
  {
    if us == [] then e else Assign(ApplyUpdates(e, us[..|us| - 1]), us[|us| - 1])
  }

  /** A dictionary names each column at most once. */
  predicate DistinctColumns(us: seq<FieldUpdate>) {
    forall i, j :: 0 <= i < j < |us| ==> ColumnOf(us[i]) != ColumnOf(us[j])
  }

  /** The update keeps the rowid and every column no entry names. */
  lemma {:induction false} UnlistedColumnsUnchanged(e: Expense, us: seq<FieldUpdate>, c: Column)
    requires forall i :: 0 <= i < |us| ==> ColumnOf(us[i]) != c
    ensures Get(ApplyUpdates(e, us), c) == Get(e, c)
    decreases |us|
  {
    if us != [] {
      UnlistedColumnsUnchanged(e, us[..|us| - 1], c);
    }
  }

  /** Every named column, except a refused NULL `category_id`, ends up with its entry's value. */
  lemma {:induction false} ListedColumnsAssigned(e: Expense, us: seq<FieldUpdate>, k: int)
    requires DistinctColumns(us) && 0 <= k < |us| && !ClearsCategory(us[k])
    ensures Get(ApplyUpdates(e, us), ColumnOf(us[k])) == ValueOf(us[k])
    decreases |us|
  {
    if k < |us| - 1 {
      ListedColumnsAssigned(e, us[..|us| - 1], k);
    }
  }

  /** The row with that id exists in the table. */
  predicate HasId(es: seq<Expense>, id: int) {
    exists i :: 0 <= i < |es| && es[i].id == id
  }

  /** The position of the first row that `WHERE id = ?` matches. */
  function IndexOfId(es: seq<Expense>, id: int): (r: Option<int>)
    ensures r.None? <==> !HasId(es, id)
    ensures r.Some? ==> 0 <= r.value < |es| && es[r.value].id == id
  {
    if es == [] then None
    else if es[0].id == id then Some(0)
    else
      var r := IndexOfId(es[1..], id);
      assert forall i :: 0 <= i < |es[1..]| ==> es[1..][i] == es[i + 1];
      if r.Some? then Some(r.value + 1) else None
  }

  /**
   * `UPDATE expenses SET ... WHERE id = ?` on the table, for the entries of
   * a dictionary, which names each column at most once. An empty dictionary
   * builds `SET  WHERE`, a syntax error; NULL into `category_id` of a
   * matched row violates NOT NULL; both roll back. An id no row has
   * updates nothing.
   */
  function UpdatedTable(es: seq<Expense>, id: int, us: seq<FieldUpdate>): (r: Result<seq<Expense>, DbError>)
    requires DistinctColumns(us)
    ensures r.Failure? <==> us == [] || (HasId(es, id) && exists k :: 0 <= k < |us| && ClearsCategory(us[k]))
    ensures r.Success? ==> |r.value| == |es|
    ensures r.Success? ==> forall i :: 0 <= i < |es| && es[i].id != id ==> r.value[i] == es[i]
    ensures r.Success? ==> forall i :: 0 <= i < |es| ==> r.value[i].id == es[i].id
  {
    if us == [] then Failure(SyntaxError)
    else if HasId(es, id) && exists k :: 0 <= k < |us| && ClearsCategory(us[k]) then Failure(NotNullViolation)
    else
      Success(seq(|es|, i requires 0 <= i < |es| =>
        if es[i].id == id then ApplyUpdates(es[i], us) else es[i]))
  }

  /** A successful update keeps rowids increasing. */
  lemma UpdateKeepsIds(es: seq<Expense>, id: int, us: seq<FieldUpdate>)
    requires ExpenseIdsIncreasing(es) && DistinctColumns(us) && UpdatedTable(es, id, us).Success?
    ensures ExpenseIdsIncreasing(UpdatedTable(es, id, us).value)
  {
  }

  /**
   * After a successful update, fetching the row by its id shows every named
   * column with its new value and every other column as before.
   */
  lemma UpdateReadsBack(cats: seq<Category>, es: seq<Expense>, i: int, us: seq<FieldUpdate>, c: Column)
    requires ExpenseIdsIncreasing(es) && 0 <= i < |es| && DistinctColumns(us)
    requires UpdatedTable(es, es[i].id, us).Success?
    ensures var after := UpdatedTable(es, es[i].id, us).value;
      && ExpenseById(cats, after, es[i].id).Some?
      && var row := ExpenseById(cats, after, es[i].id).value.expense;
      && (forall k :: 0 <= k < |us| ==> Get(row, ColumnOf(us[k])) == ValueOf(us[k]))
      && ((forall k :: 0 <= k < |us| ==> ColumnOf(us[k]) != c) ==> Get(row, c) == Get(es[i], c))
  {
    var after := UpdatedTable(es, es[i].id, us).value;
    UpdateKeepsIds(es, es[i].id, us);
    ExpenseByIdUnique(cats, after, i);
    assert after[i] == ApplyUpdates(es[i], us);
    forall k | 0 <= k < |us| ensures Get(after[i], ColumnOf(us[k])) == ValueOf(us[k]) {
      ListedColumnsAssigned(es[i], us, k);
    }
    if forall k :: 0 <= k < |us| ==> ColumnOf(us[k]) != c {
      UnlistedColumnsUnchanged(es[i], us, c);
    }
  }
}

# Expense tracker core in Dafny

A model of the storage core of a small expense tracker for a workshop, with proofs about it. The tracker keeps a
four-level category forest and a ledger of expenses in a SQLite file, and it answers period, user and summary
queries over them. The model covers:

- the `categories` table;
- the `expenses` table;
- every operation of `database.py` that reads or writes those tables;
- the bulk `DELETE FROM expenses` of `app.py`;
- the period arithmetic of `utils.py`.

Both tables are ordered sequences of rows, in rowid order. The class `Database.ExpenseDb` holds them as `seq`
fields.

- **Writes** are methods on that class. Each is proved against a function of the old state:
  - table set-up and seeding (`Initialize`, `InsertDefaultCategories`);
  - `SaveExpense`;
  - `UpdateExpense`;
  - `ClearExpenses`.
- **Read-only queries** are pure functions over the rows: `get_categories`, `get_category_id`,
  `get_category_name`, `get_expenses`, `get_expenses_by_user`, `get_all_expenses`, `get_expense_by_id` and
  `get_category_summary`.

Modules:

- `Wrappers`: `Option` and `Result`.
- `Calendar`: proleptic Gregorian dates. Covers `replace(day=…)` and adding or subtracting whole days, as Python's
  `datetime.date` and `timedelta` do.
- `Periods`: `get_period_dates`.
- `Sql`: the row filter (`WHERE`) and a stable insertion sort standing for `ORDER BY`.
- `Categories`: category rows, `get_categories`, `get_category_id` and `get_category_name`.
- `Seed`: the default forest of `insert_default_categories`, row by row, with its seeding invariants.
- `Ledger`: expense rows, the joined listing rows, the listing queries, and the rows that `save_expense` and
  `update_expense` write.
- `Summary`: `GROUP BY`, `SUM`, `ORDER BY total DESC` and the appended `TOTAL` row.
- `Database`: the class with both tables and the methods that change them.

Modelling choices:

- **Today's date.** It is a parameter (`today`) of `PeriodDates` and `Expenses`, in place of
  `datetime.today()`.
- **Rowids.**
  - SQLite gives a new row one more than the largest rowid, or 1 in an empty table.
  - `ExpenseDb.Valid()` keeps rowids increasing in table order, so that number is the last row's id plus one.
  - Every write is proved to keep `Valid()`.
- **Amounts.** They are integers in the smallest money unit, and `round(float(x), 4)` is the identity.
- **Dates.** They are `Date(year, month, day)` values compared chronologically. For the four-digit ISO text that
  the SQL compares, this order and the text order are the same.
- **Errors.** They are results, never exceptions:
  - `save_expense` becomes `Failure(NotNullViolation)` when the main category name does not resolve (the
    `category_id NOT NULL` constraint). Nothing is written in that case.
  - `update_expense` becomes `Failure(SyntaxError)` for an empty dictionary, which builds `SET  WHERE`.
  - `update_expense` becomes `Failure(NotNullViolation)` when it would set `category_id` to NULL on an existing
    row.
  - Both failures leave the table as it was, like the rollback.
  - `get_expenses` fails with an `UnboundStartDate` result for a period label that no branch of its `if` chain
    handles. That is what Python's `UnboundLocalError` would be.
- **Lookups.** `save_expense` resolves every category name with the unscoped `get_category_id(name)`.
  - In the seeded forest, "Pickup" therefore always resolves to Diesel's level-3 Pickup (id 19), even when the
    chosen main category is Spare Parts. `Database.SparePickupResolvesToDiesel` proves this.
  - Names still read back unchanged, because both rows are called "Pickup".

## Model

| member | source | states |
|---|---|---|
| Calendar.DaysInMonth | utils.py:17-18 | Month lengths: 28 or 29 in February by the Gregorian leap-year rule, 30 in April, June, September and November, 31 otherwise |
| Calendar.Day28PlusFourInFollowingMonth | utils.py:17 | `replace(day=28) + 4 days` always lands on day 1 to 4 of the following month, whatever the month and year |
| Calendar.AddDays | utils.py:17-18 | `d + timedelta(days=n)` is a valid date no earlier than `d` |
| Calendar.SubDays | utils.py:18 | `d - timedelta(days=n)` is a valid date no later than `d` |
| Calendar.SubDaysUndoesAddDays | utils.py:17-18 | Subtracting `n` days undoes adding `n` days, for every valid date and every `n` |
| Calendar.MonthEndByDay28 | utils.py:17-18 | The day-28-plus-4 computation yields a valid date (its exact value is `Calendar.MonthEndIsLastDay`) |
| Calendar.MonthEndIsLastDay | utils.py:15-18 | The day-28-plus-4 computation, minus the day of the date it reaches, is the last day (28/29/30/31) of the month it started in |
| Periods.PeriodDates | utils.py:9-20 | A range is returned exactly for the labels "1st-10th", "11th-20th" and "21st-end"; every other label gives `(None, None)`. The range is days 1–10, 11–20, or 21 to the month's last day. Start and end are valid, in order, and in today's year and month |
| Periods.PeriodDatesIgnoreDay | utils.py:9-20 | The range depends only on today's year and month, not on its day |
| Periods.DecadesPartitionMonth | utils.py:11-19 | The three ranges cover exactly the dates of today's month, and no date lies in two of them |
| Categories.NextIdIsFresh | database.py:17-18 | With increasing rowids, the rowid SQLite gives the next row is larger than every rowid in the table |
| Categories.CategoryNames | database.py:138-159 | `get_categories` lists at most one name per row of the table |
| Categories.CategoryNamesMembers | database.py:138-159 | `get_categories(level, parent_id)` lists a name exactly when some row with that name passes the given filters (level equal, parent equal) |
| Categories.CategoryNamesAppend | database.py:138-159 | The listing keeps table order: over two tables it is the first table's listing followed by the second's |
| Categories.CategoryNamesUnfiltered | database.py:138-159 | With neither filter, every name of the table is listed, in table order |
| Categories.CategoryId | database.py:161-170 | Any id `get_category_id` returns is the rowid of a row of the table |
| Categories.CategoryIdFirstMatch | database.py:161-170 | `get_category_id` returns None exactly when no row matches. Otherwise it returns the id of the first matching row. A row matches when it has the name and, only when `parent_id` is truthy, that parent |
| Categories.CategoryIdAppend | database.py:161-170 | The first match over two tables: a match in the first table wins |
| Categories.NameOfId | database.py:421-430 | `get_category_name` finds nothing exactly when no row has the id |
| Categories.NameOfIdFirstMatch | database.py:421-430 | The name found is that of the first row with the id |
| Categories.CategoryName | database.py:423-424 | `get_category_name(None)` is None |
| Categories.NameOfResolvedId | database.py:161-170 | With increasing rowids, looking up the name of a resolved id gives back the name that was resolved |
| Categories.ResolvedIdExists | database.py:161-170 | The unscoped lookup of a name succeeds exactly when `get_categories()` lists that name |
| Seed.Rows | database.py:59-60 | A `for name in names: INSERT` loop appends one row per name, in order, with consecutive rowids, the given parent and the given level |
| Seed.BranchRowsIds | database.py:90-100 | A loop that inserts each subcategory and then its items under that row's `lastrowid` appends rows with consecutive rowids |
| Seed.SeedRows | database.py:49-136 | The default forest has 41 rows |
| Seed.SeedRowsAt | database.py:49-136 | The seed in insertion order has 41 rows, and row `k` is the row at offset `k` of the laid-out forest |
| Seed.SeedIds | database.py:49-136 | The 41 seeded rows have the consecutive rowids `b` to `b + 40`, increasing |
| Seed.SeedRoots | database.py:54-60 | The level-1 listing of the seed is the seven main categories in their listed order. A row has level 1 exactly when it has no parent, and exactly when it is one of the first seven |
| Seed.SeedParentLevels | database.py:67-136 | Every non-root row's parent is an earlier row whose level is one less |
| Seed.SeedLevelsBounded | database.py:54-136 | Every level is between 1 and 4 |
| Seed.SeedChildLists | database.py:67-136 | `get_categories(parent_id=p)` on the seed lists exactly the seed's children of `p`, in insertion order, for every `p` |
| Seed.SeedSiblingsDistinct | database.py:54-136 | No root name and no child name under any parent occurs twice |
| Seed.SeedOtherChildless | database.py:115-122 | Utilities' "Other" row exists and has no children, because only the items of "Phone Bills" are inserted |
| Seed.SeedSparePartsLookup | database.py:187 | In the seed, the unscoped lookup of "Spare Parts" returns the fifth root (offset 4) |
| Seed.SeedPickupLookup | database.py:161-170 | In the seed, the unscoped lookup of "Pickup" returns Diesel's Pickup (offset 18), not the Spare Parts Pickup |
| Seed.SeedPickupRows | database.py:89-100 | Offset 18 is the level-3 Pickup under Diesel, and offset 33 is the level-2 Pickup under Spare Parts |
| Seed.DieselBranch | database.py:89-100 | The Diesel loop lays out Pickup, its three numbered items, Workshop and Crane, with consecutive rowids |
| Seed.UtilityBranch | database.py:115-122 | The Utilities loop lays out Phone Bills, its two items, then Other with no items |
| Seed.SpareBranch | database.py:127-136 | The Spare Parts loop lays out Pickup and Cranes, each followed by the same three items under it |
| Database.MainCategoryIdsLastWins | database.py:63-64 | The `{name: id}` dictionary of level-1 rows has an entry exactly for each level-1 name, holding the rowid of the last level-1 row with that name |
| Database.MainCategoryIdsAppend | database.py:63-64 | The `{name: id}` dictionary over two tables is the first's overwritten by the second's level-1 names |
| Database.MainCategoryIdsOfRoots | database.py:59-64 | After the seven roots are appended, the dictionary maps Food, Fuel, Lubricants, Utilities and Spare Parts to the new roots' rowids |
| Database.ExpenseDb.constructor | database.py:17-39 | A new database: both tables empty, valid |
| Database.ExpenseDb.InsertCategory | database.py:60 | Appends one row with the next rowid, returns that rowid as `lastrowid`, leaves expenses unchanged and keeps rowids increasing |
| Database.ExpenseDb.InsertCategories | database.py:69-71 | The loop appends exactly the rows of `Rows` from the next rowid |
| Database.ExpenseDb.InsertChildCategories | database.py:66-136 | Appends exactly the 34 child rows of the seed under the five roots, leaves expenses unchanged and keeps rowids increasing |
| Database.ExpenseDb.InsertBranch | database.py:90-100 | One pass of a branch loop: the subcategory row, then its items under the returned `lastrowid` |
| Database.ExpenseDb.InsertBranches | database.py:90-100 | The branch loop appends exactly `BranchRows` from the next rowid |
| Database.ExpenseDb.InsertFoodCategories | database.py:67-71 | Appends the six Food subcategories under Food |
| Database.ExpenseDb.InsertFuelCategories | database.py:73-100 | Appends Petrol with its items, then Diesel with its loop, all under Fuel |
| Database.ExpenseDb.InsertLubricantCategories | database.py:102-106 | Appends the five lubricant rows under Lubricants |
| Database.ExpenseDb.InsertUtilityCategories | database.py:108-122 | Appends the two Utilities subcategories and the Phone Bills items |
| Database.ExpenseDb.InsertSpareCategories | database.py:124-136 | Appends the two Spare Parts subcategories, each with its three items |
| Database.ExpenseDb.InsertDefaultCategories | database.py:49-136 | Appends exactly the 41-row seed starting at the next rowid, leaves expenses unchanged and keeps rowids increasing |
| Database.ExpenseDb.Initialize | database.py:41-44 | Seeds only when the category table is empty; otherwise nothing changes |
| Database.Initialized | database.py:41-44 | A non-empty category table is left exactly as it is |
| Database.InitializeIdempotent | database.py:42-44 | Initialising twice equals initialising once (no duplicate roots). A seeded empty table has 41 rows with increasing rowids |
| Database.InitializedCatalogue | database.py:54-136 | In the seeded database, the root list is the main categories and no sibling list has repeats. "Pickup" resolves to id 19: Diesel's level-3 row, not the level-2 row 34 under Spare Parts |
| Database.SparePickupResolvesToDiesel | database.py:186-188 | In the freshly seeded database, every save under Spare Parts / Pickup succeeds and stores main category 5 (Spare Parts) but subcategory id 19, whose parent is not Spare Parts |
| Ledger.NextExpenseIdIsFresh | database.py:25 | With increasing rowids, the next expense rowid is larger than every rowid in the table |
| Ledger.View | database.py:224-236 | One `LEFT JOIN` row: the expense's own columns unchanged; each category name is NULL exactly when its id is NULL or names no row, and otherwise is the name of the first row with that id |
| Ledger.Views | database.py:224-236 | The listing has one joined row per expense, in table order, with the names of the first three category levels |
| Ledger.Listing | database.py:264 | `ORDER BY date DESC` of the joined rows: newest first, and the same rows with the same multiplicities |
| Ledger.ListingMembers | database.py:264 | The sorted listing contains a row exactly when some expense gives it |
| Ledger.AllExpenses | database.py:395-413 | `get_all_expenses` has one row per expense, newest first, and is a permutation of the joined rows of the table (same rows, same multiplicities) |
| Ledger.AllExpensesAppend | database.py:395-413 | Appending an expense adds exactly its own joined row to the listing |
| Ledger.ExpensesInRange | database.py:240-242 | Newest first, one row per expense dated within the inclusive range, and a permutation of those expenses' joined rows (same multiplicities) |
| Ledger.InlinePeriod | database.py:243-258 | The inline ranges exist exactly for the four labels it handles |
| Ledger.InlinePeriodAgrees | database.py:245-254 | For the three decade labels, the inline ranges equal those of `get_period_dates` |
| Ledger.InlineCurrentMonth | database.py:255-258 | "Current Month" runs from day 1 to the last day of today's month |
| Ledger.Expenses | database.py:221-268 | `get_expenses` fails exactly when no custom dates are given and the period is a non-empty label other than "All" and the four handled labels. Custom dates filter by their inclusive range. Any successful result is newest first |
| Ledger.ExpensesForDecade | database.py:243-262 | A decade label lists exactly the expenses in the range `get_period_dates` gives for it |
| Ledger.MonthRange | database.py:255-258 | The "Current Month" range is valid and ordered, and contains exactly the dates of today's year and month |
| Ledger.ExpensesForCurrentMonth | database.py:255-264 | "Current Month" succeeds with exactly the listing `ExpensesInRange` gives for today's month range |
| Ledger.ExpensesUnfiltered | database.py:240-264 | No period, an empty period or "All" lists every expense |
| Ledger.ExpensesByUser | database.py:270-297 | Newest first, one row per expense of that user (in the range only when both bounds are given), and a permutation of those expenses' joined rows (same multiplicities). Every row carries that user |
| Ledger.ExpenseById | database.py:336-359 | Returns None exactly when no row has the id; otherwise the first row with that id, joined with its names |
| Ledger.ExpenseByIdUnique | database.py:336-359 | With increasing rowids, the row found for an id is the one row with that id |
| Ledger.ResolveOptional | database.py:188-190 | A missing or empty optional name gives NULL; otherwise it gives the unscoped lookup |
| Ledger.NewExpense | database.py:172-208 | The save fails with a NOT NULL violation exactly when the main category does not resolve. Otherwise the new row has the next rowid, the resolved main category id, for each lower level the id its optional name resolves to (NULL when missing or empty), and the submitted date, description, amounts and author |
| Ledger.SavedExpenseReadsBack | database.py:172-208 | Saving then fetching by the returned id gives back the stored row itself (all its ids included) with the date, description, author, amounts and main category name. Lower levels read back when they resolve, and are NULL otherwise |
| Ledger.ApplyUpdates | database.py:370-378 | Applying the `SET` assignments never changes the row's id |
| Ledger.Assign | database.py:374-378 | One `field = ?` assignment sets that column and keeps every other column and the id |
| Ledger.UnlistedColumnsUnchanged | database.py:361-393 | The update keeps every column the dictionary does not name |
| Ledger.ListedColumnsAssigned | database.py:370-378 | Every named column ends with its entry's value |
| Ledger.IndexOfId | database.py:378 | `WHERE id = ?` finds nothing exactly when no row has the id; otherwise it finds a position of a row with that id |
| Ledger.UpdatedTable | database.py:361-393 | Columns named at most once, as dictionary keys are. An empty dictionary fails. NULL into the category of an existing row fails. Otherwise the table keeps its length and its ids, and every row with another id is unchanged |
| Ledger.UpdateKeepsIds | database.py:361-393 | A successful update keeps rowids increasing |
| Ledger.UpdateReadsBack | database.py:361-393 | After a successful update, fetching the row shows each named column's new value and every other column as before |
| Database.UpdateRowOnly | database.py:361-393 | With increasing rowids, the update rewrites the one matched row and nothing else |
| Database.ExpenseDb.SaveExpense | database.py:172-219 | Fails with nothing written exactly when the main category does not resolve. Otherwise it appends exactly the new row and returns its rowid. Categories are unchanged and rowids keep increasing |
| Database.ExpenseDb.UpdateExpense | database.py:361-393 | Columns named at most once, as dictionary keys are. On success the expense table becomes `UpdatedTable` of the old one. On failure it returns the error and the table stays as it was. Categories are unchanged |
| Database.ExpenseDb.ClearExpenses | app.py:339 | The expense table becomes empty and the categories stay; the next rowid is 1 again |
| Sql.Where | database.py:241 | The filter yields no more rows than it is given |
| Sql.WhereMultiset | database.py:241 | The filter keeps every row that satisfies the condition, as often as it occurs, and no other row |
| Sql.WhereAppend | database.py:241 | The filter keeps table order: over two tables it is the first's result followed by the second's |
| Sql.SortBy | database.py:264 | `ORDER BY` yields the same rows, as a permutation, sorted by the given total preorder |
| Summary.SumTotalsPermutation | database.py:309 | `SUM` does not depend on row order |
| Summary.GroupTotals | database.py:322 | `GROUP BY` yields one row per key that occurs among the rows, carrying the sum of that key's amounts |
| Summary.GroupTotalsSum | database.py:322-332 | Grouping keeps the overall sum |
| Summary.JoinedRows | database.py:310-312 | The inner join yields at most one row per expense |
| Summary.JoinedRowsKeepAll | database.py:310-312 | When every main category resolves, the inner join keeps every expense and its amount |
| Summary.CategorySummary | database.py:299-334 | Empty exactly when no expense survives the join and the date filter. Otherwise the rows are the groups, largest total first, one per (category, subcategory) key with that key's sum, followed by a `TOTAL` row with subcategory `''` whose amount is both the sum of all joined amounts and the sum of the group totals |
| Summary.GrandTotalIsTotalSpent | database.py:327-332 | With no date window and every main category resolving, the `TOTAL` row carries the sum of `total_amount` over the whole table |

## Left out

- `calculate_vat` and the VAT step in the UI are not modelled: they use floating-point rounding.
- `round(float(x), 4)` in `save_expense` and `update_expense` is not modelled: amounts are integers and the
  rounding is the identity.
- The `ValueError` from `float()` on non-numeric input is not modelled, because amounts are already integers.
- The dates each query runs on are parameters:
  - `datetime.today()` becomes the `today` parameter;
  - `strftime` and `str(date)` are not modelled: dates are `Date` values.
- The `OverflowError` Python raises in December of year 9999 is not modelled, because years are unbounded. Every
  use of `replace(day=28) + timedelta(days=4)` would raise it in that month: `get_period_dates` for "21st-end",
  and the "21st-end" and "Current Month" branches of `get_expenses`. The model returns a range for each.
- Connections, commits, `print` debugging, the module-level file-existence check and the pandas DataFrame layout
  are not modelled. Queries return sequences of rows, and `get_expense_by_id` returns a record in place of a
  dictionary.
- `get_all_expenses_pdf` and pdf_generator.py are not modelled: they render through an unseen library.
- The Streamlit UI of app.py is not modelled, apart from its `DELETE FROM expenses`.
- Database.ExpenseDb.ClearExpenses: the clear is modelled on the same database as every other operation. In
  app.py it opens `expense_tracker.db` relative to the working directory, while database.py uses the file beside
  the module. When the two paths differ, the clear acts on another file, or on a new one that has no `expenses`
  table, so the error that would raise is not modelled either.
- Sql.SortBy: SQL leaves the order of equal dates or equal totals unspecified. The model fixes one stable order,
  and the contracts promise only sortedness and permutation.
- `get_categories` is modelled in table order, which is the order SQLite returns rows of a plain table scan.
- Ledger.ExpensesByUser: `get_expenses_by_user` selects no `entered_by` column. The model's listing row keeps it,
  because every row of the result has the queried user there.
- Ledger.UpdatedTable: updates can set only the known columns. Setting `id` and naming unknown columns (an
  SQLite error) are not modelled.
- Ledger.UpdatedTable: an update that sets `date` or an amount to NULL is not modelled. Those columns are typed
  `Date` and `int`, so the `NOT NULL` failure on `date` and the `TypeError` from `float(None)` have no counterpart.
- Ledger.UpdatedTable: the update takes distinct column names. A Python dictionary cannot name a column twice, so
  a repeated column has no counterpart in the source.
- Rowids come from "largest rowid plus one". SQLite's fallback to a random rowid after the maximum 64-bit rowid
  is not modelled.

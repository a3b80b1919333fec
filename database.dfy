/**
 * The SQLite file of database.py as one object holding its two tables, with
 * the operations that write to them: table set-up and seeding, saving,
 * updating and clearing expenses.
 */
module Database {
  import opened Wrappers
  import opened Categories
  import opened Seed
  import opened Ledger

  /**
   * `{name: id for id, name in rows}` over the level-1 rows in table order:
   * a later row with the same name overwrites an earlier one.
   */
  function MainCategoryIds(rows: seq<Category>): map<string, int>
    decreases |rows|
  {
    if rows == [] then map[]
    else
      var m := MainCategoryIds(rows[..|rows| - 1]);
      var last := rows[|rows| - 1];
      if last.level == 1 then m[last.name := last.id] else m
  }

  /** Row `i` is a level-1 row named `n`. */
  ghost predicate MainAt(rows: seq<Category>, i: int, n: string) {
    0 <= i < |rows| && rows[i].level == 1 && rows[i].name == n
  }

  /** Row `i` is the last level-1 row named `n`. */
  ghost predicate LastMainAt(rows: seq<Category>, i: int, n: string) {
    MainAt(rows, i, n) && forall j :: i < j < |rows| ==> !MainAt(rows, j, n)
  }

  /**
   * The dictionary has an entry for `n` exactly when some level-1 row is
   * named `n`, and that entry holds the id of the last such row.
   */
  lemma {:induction false} MainCategoryIdsLastWins(rows: seq<Category>, n: string)
    ensures n in MainCategoryIds(rows) <==> exists i :: MainAt(rows, i, n)
    ensures n in MainCategoryIds(rows) ==> exists i :: LastMainAt(rows, i, n) && rows[i].id == MainCategoryIds(rows)[n]
    decreases |rows|
  {
    if rows != [] {
      var init := rows[..|rows| - 1];
      var last := rows[|rows| - 1];
      MainCategoryIdsLastWins(init, n);
      assert forall i :: MainAt(init, i, n) ==> MainAt(rows, i, n);
      if last.level == 1 && last.name == n {
        assert LastMainAt(rows, |rows| - 1, n);
      } else {
        assert !MainAt(rows, |rows| - 1, n);
        if i :| MainAt(rows, i, n) {
          assert MainAt(init, i, n);
        }
        if n in MainCategoryIds(init) {
          var i :| LastMainAt(init, i, n) && init[i].id == MainCategoryIds(init)[n];
          assert forall j :: i < j < |init| ==> !MainAt(init, j, n);
          assert forall j :: i < j < |rows| - 1 ==> (MainAt(rows, j, n) <==> MainAt(init, j, n));
          assert LastMainAt(rows, i, n);
        }
      }
    }
  }

  /** One more row: a level-1 row sets its name's entry, any other row changes nothing. */
  lemma MainCategoryIdsSnoc(rows: seq<Category>, c: Category)
    ensures MainCategoryIds(rows + [c]) == if c.level == 1 then MainCategoryIds(rows)[c.name := c.id] else MainCategoryIds(rows)
  {
    assert (rows + [c])[..|rows|] == rows;
  }

  /** Over two tables, the later table's level-1 rows overwrite the earlier's entries. */
  lemma {:induction false} MainCategoryIdsAppend(a: seq<Category>, r: seq<Category>)
    ensures MainCategoryIds(a + r) == MainCategoryIds(a) + MainCategoryIds(r)
    decreases |r|
  {
    if r == [] {
      assert a + r == a;
    } else {
      var init := r[..|r| - 1];
      var c := r[|r| - 1];
      MainCategoryIdsAppend(a, init);
      var all := a + r;
      assert all[..|all| - 1] == a + init;
      assert all[|all| - 1] == c;
    }
  }

  /** After the seven roots are appended, each main name maps to its new root's id. */
  lemma MainCategoryIdsOfRoots(old_rows: seq<Category>, b: int)
    ensures var m := MainCategoryIds(old_rows + Rows(MainCategories, None, 1, b));
      && "Food" in m && m["Food"] == b
      && "Fuel" in m && m["Fuel"] == b + 1
      && "Lubricants" in m && m["Lubricants"] == b + 2
      && "Utilities" in m && m["Utilities"] == b + 3
      && "Spare Parts" in m && m["Spare Parts"] == b + 4
  {
    MainCategoryIdsAppend(old_rows, Rows(MainCategories, None, 1, b));
    RootIds(b);
  }

  /** The map the seven roots alone build. */
  lemma RootIds(b: int)
    ensures var m := MainCategoryIds(Rows(MainCategories, None, 1, b));
      && "Food" in m && m["Food"] == b
      && "Fuel" in m && m["Fuel"] == b + 1
      && "Lubricants" in m && m["Lubricants"] == b + 2
      && "Utilities" in m && m["Utilities"] == b + 3
      && "Spare Parts" in m && m["Spare Parts"] == b + 4
  {
    var p0: seq<Category> := [];
    var p1 := p0 + [Category(b + 0, "Food", None, 1)];
    MainCategoryIdsSnoc(p0, Category(b + 0, "Food", None, 1));
    var p2 := p1 + [Category(b + 1, "Fuel", None, 1)];
    MainCategoryIdsSnoc(p1, Category(b + 1, "Fuel", None, 1));
    var p3 := p2 + [Category(b + 2, "Lubricants", None, 1)];
    MainCategoryIdsSnoc(p2, Category(b + 2, "Lubricants", None, 1));
    var p4 := p3 + [Category(b + 3, "Utilities", None, 1)];
    MainCategoryIdsSnoc(p3, Category(b + 3, "Utilities", None, 1));
    var p5 := p4 + [Category(b + 4, "Spare Parts", None, 1)];
    MainCategoryIdsSnoc(p4, Category(b + 4, "Spare Parts", None, 1));
    var p6 := p5 + [Category(b + 5, "Repair & Maintainance", None, 1)];
    MainCategoryIdsSnoc(p5, Category(b + 5, "Repair & Maintainance", None, 1));
    var p7 := p6 + [Category(b + 6, "General Purchases", None, 1)];
    MainCategoryIdsSnoc(p6, Category(b + 6, "General Purchases", None, 1));
    RootsListed(b);
    assert p7 == Rows(MainCategories, None, 1, b);
  }

  /** The rows of `initialize_database`: the seed when the table is empty, otherwise as they are. */
  function Initialized(rows: seq<Category>): (r: seq<Category>)
    ensures rows != [] ==> r == rows
  {
    if rows == [] then SeedRows(1) else rows
  }

  /** Initialising twice is initialising once, and the seed has rows with ids 1 to 41. */
  lemma InitializeIdempotent(rows: seq<Category>)
    ensures Initialized(Initialized(rows)) == Initialized(rows)
    ensures rows == [] ==> |Initialized(rows)| == 41 && IdsIncreasing(Initialized(rows))
  {
    SeedIds(1);
  }

  /**
   * With the seed in place, the root list is the seven main categories, each
   * sibling list is free of repeated names, and the unscoped lookup of
   * "Pickup" yields Diesel's level-3 row (id 19), not the Pickup under
   * Spare Parts (id 34).
   */
  lemma InitializedCatalogue()
    ensures CategoryNames(Initialized([]), Some(1), None) == MainCategories
    ensures forall p :: NoDuplicates(CategoryNames(Initialized([]), None, Some(p)))
    ensures CategoryId(Initialized([]), "Pickup", None) == Some(19)
    ensures Initialized([])[18] == Category(19, "Pickup", Some(18), 3)
    ensures Initialized([])[33] == Category(34, "Pickup", Some(5), 2)
  {
    SeedRoots(1);
    SeedSiblingsDistinct(1);
    SeedPickupLookup(1);
    SeedPickupRows(1);
  }

  /**
   * `save_expense` with category "Spare Parts" and subcategory "Pickup"
   * stores the id of Diesel's Pickup, whose parent is Diesel, because the
   * subcategory is looked up without its parent.
   */
  lemma SparePickupResolvesToDiesel(es: seq<Expense>, s: Submission)
    requires s.category == "Spare Parts" && s.subcategory == Some("Pickup")
    ensures NewExpense(Initialized([]), es, s).Success?
    ensures NewExpense(Initialized([]), es, s).value.subcategoryId == Some(19)
    ensures NewExpense(Initialized([]), es, s).value.categoryId == 5
    ensures Initialized([])[18].parentId != Some(5)
  {
    SeedSparePartsLookup(1);
    SeedPickupLookup(1);
    SeedPickupRows(1);
  }

  /** Both tables of the database file. */
  class ExpenseDb {
    var categories: seq<Category>
    var expenses: seq<Expense>

    /** Rowids increase in both tables, as SQLite assigns them to appended rows. */
    ghost predicate Valid()
      reads this
    {
      IdsIncreasing(categories) && ExpenseIdsIncreasing(expenses)
    }

    /** A new database file: `CREATE TABLE IF NOT EXISTS` gives two empty tables. */
    constructor ()
      ensures Valid() && categories == [] && expenses == []
    {
      categories := [];
      expenses := [];
    }

    /** `INSERT INTO categories (name, parent_id, level)`; returns its `lastrowid`. */
    method InsertCategory(name: string, parentId: Option<int>, level: int) returns (id: int)
      modifies this
      ensures old(Valid()) ==> Valid()
      ensures expenses == old(expenses)
      ensures id == NextId(old(categories))
      ensures categories == old(categories) + [Category(id, name, parentId, level)]
    {
      id := NextId(categories);
      if Valid() {
        AppendNextKeepsIdsIncreasing(categories, Category(id, name, parentId, level));
      }
      categories := categories + [Category(id, name, parentId, level)];
    }

    /** `for name in names: INSERT (name, parent_id, level)`. */
    method InsertCategories(names: seq<string>, parentId: Option<int>, level: int)
      modifies this
      ensures old(Valid()) ==> Valid()
      ensures expenses == old(expenses)
      ensures categories == old(categories) + Rows(names, parentId, level, NextId(old(categories)))
    {
      ghost var first := NextId(categories);
      var i := 0;
      while i < |names|
        invariant 0 <= i <= |names|
        invariant expenses == old(expenses)
        invariant categories == old(categories) + Rows(names[..i], parentId, level, first)
      {
        ghost var done := Rows(names[..i], parentId, level, first);
        NextIdAfter(old(categories), done, first);
        var id := InsertCategory(names[i], parentId, level);
        RowsSnoc(names, i, parentId, level, first);
        AppendAssoc(old(categories), done, [Category(first + i, names[i], parentId, level)]);
        i := i + 1;
      }
      assert names[..|names|] == names;
      if old(Valid()) {
        ConsecutiveKeepsIdsIncreasing(old(categories), Rows(names, parentId, level, first), first);
      }
    }

    /** One pass of a branch loop: `INSERT sub`, then its items under that `lastrowid`. */
    method InsertBranch(sub: string, parentId: Option<int>, level: int, items: seq<string>) returns (id: int)
      modifies this
      ensures old(Valid()) ==> Valid()
      ensures expenses == old(expenses)
      ensures id == NextId(old(categories))
      ensures categories == old(categories) + Branch(sub, parentId, level, items, id)
    {
      id := InsertCategory(sub, parentId, level);
      ghost var row := Category(id, sub, parentId, level);
      NextIdOfAppend(old(categories), [row]);
      InsertCategories(items, Some(id), level + 1);
      AppendAssoc(old(categories), [row], Rows(items, Some(id), level + 1, id + 1));
    }

    /** `for sub in subs: INSERT sub; for item in itemsOf(sub): INSERT item under lastrowid`. */
    method InsertBranches(subs: seq<string>, parentId: Option<int>, level: int, itemsOf: string -> seq<string>)
      modifies this
      ensures old(Valid()) ==> Valid()
      ensures expenses == old(expenses)
      ensures categories == old(categories) + BranchRows(subs, parentId, level, itemsOf, NextId(old(categories)))
    {
      ghost var first := NextId(categories);
      var i := 0;
      while i < |subs|
        invariant 0 <= i <= |subs|
        invariant expenses == old(expenses)
        invariant categories == old(categories) + BranchRows(subs[..i], parentId, level, itemsOf, first)
      {
        BranchLoopStep(old(categories), categories, subs, i, i + 1, parentId, level, itemsOf, first);
        var subId := InsertBranch(subs[i], parentId, level, itemsOf(subs[i]));
        i := i + 1;
      }
      assert subs[..|subs|] == subs;
      if old(Valid()) {
        assert IdsIncreasing(categories) by {
          BranchRowsIds(subs, parentId, level, itemsOf, first);
          ConsecutiveKeepsIdsIncreasing(old(categories), BranchRows(subs, parentId, level, itemsOf, first), first);
        }
      }
    }

    /** The Petrol and Diesel blocks of `insert_default_categories`, under the Fuel row `fuelId`. */
    method InsertFuelCategories(fuelId: int, ghost b: int)
      requires fuelId == b + 1 && NextId(categories) == b + 13
      modifies this
      ensures old(Valid()) ==> Valid()
      ensures expenses == old(expenses)
      ensures categories == old(categories) + FuelRows(b)
      ensures NextId(categories) == b + 24
    {
      ghost var start := categories;
      var petrolId := InsertCategory("Petrol", Some(fuelId), 2);
      ghost var petrol := Category(b + 13, "Petrol", Some(b + 1), 2);
      NextIdOfAppend(start, [petrol]);
      InsertCategories(PetrolItems, Some(petrolId), 3);
      ghost var items := Rows(PetrolItems, Some(b + 13), 3, b + 14);
      NextIdOfAppend(start + [petrol], items);
      var dieselId := InsertCategory("Diesel", Some(fuelId), 2);
      ghost var diesel := Category(b + 17, "Diesel", Some(b + 1), 2);
      NextIdOfAppend(start + [petrol] + items, [diesel]);
      InsertBranches(DieselSubs, Some(dieselId), 3, DieselItems);
      DieselBranch(b);
      FuelConcat(start, b);
      BlockEnds(start, categories, b);
    }

    /** The Food block of `insert_default_categories`: the worker meals under Food (`foodId`). */
    method InsertFoodCategories(foodId: int, ghost b: int)
      requires foodId == b && NextId(categories) == b + 7
      modifies this
      ensures old(Valid()) ==> Valid()
      ensures expenses == old(expenses)
      ensures categories == old(categories) + FoodRows(b)
      ensures NextId(categories) == b + 13
    {
      InsertCategories(FoodSubs, Some(foodId), 2);
      BlockEnds(old(categories), categories, b);
    }

    /** The Lubricants block: the five oils and grease under Lubricants (`lubricantsId`). */
    method InsertLubricantCategories(lubricantsId: int, ghost b: int)
      requires lubricantsId == b + 2 && NextId(categories) == b + 24
      modifies this
      ensures old(Valid()) ==> Valid()
      ensures expenses == old(expenses)
      ensures categories == old(categories) + LubricantRows(b)
      ensures NextId(categories) == b + 29
    {
      InsertCategories(LubricantSubs, Some(lubricantsId), 2);
      BlockEnds(old(categories), categories, b);
    }

    /** The Utilities block: each `util_subs` key, with items only under "Phone Bills". */
    method InsertUtilityCategories(utilitiesId: int, ghost b: int)
      requires utilitiesId == b + 3 && NextId(categories) == b + 29
      modifies this
      ensures old(Valid()) ==> Valid()
      ensures expenses == old(expenses)
      ensures categories == old(categories) + UtilityRows(b)
      ensures NextId(categories) == b + 33
    {
      InsertBranches(UtilitySubs, Some(utilitiesId), 2, UtilityItemsInserted);
      UtilityBranch(b);
      BlockEnds(old(categories), categories, b);
    }

    /** The Spare Parts block: Pickup and Cranes, each with the same three kinds of part. */
    method InsertSpareCategories(spareId: int, ghost b: int)
      requires spareId == b + 4 && NextId(categories) == b + 33
      modifies this
      ensures old(Valid()) ==> Valid()
      ensures expenses == old(expenses)
      ensures categories == old(categories) + SpareRows(b)
    {
      InsertBranches(SpareSubcategories, Some(spareId), 2, SpareItems);
      SpareBranch(b);
    }

    /** The blocks below the five main categories that have children, given their ids. */
    method InsertChildCategories(foodId: int, fuelId: int, lubricantsId: int, utilitiesId: int, spareId: int,
                                 ghost b: int)
      requires foodId == b && fuelId == b + 1 && lubricantsId == b + 2
      requires utilitiesId == b + 3 && spareId == b + 4
      requires NextId(categories) == b + 7
      modifies this
      ensures old(Valid()) ==> Valid()
      ensures expenses == old(expenses)
      ensures categories == old(categories) + SeedChildren(b)
    {
      InsertFoodCategories(foodId, b);
      InsertFuelCategories(fuelId, b);
      InsertLubricantCategories(lubricantsId, b);
      InsertUtilityCategories(utilitiesId, b);
      InsertSpareCategories(spareId, b);
      ChildrenConcat(old(categories), b);
    }

    /** `insert_default_categories(conn)`: appends the default forest, in the order database.py inserts it. */
    method InsertDefaultCategories()
      modifies this
      ensures old(Valid()) ==> Valid()
      ensures expenses == old(expenses)
      ensures categories == old(categories) + SeedRows(NextId(old(categories)))
    {
      ghost var b := NextId(categories);
      ghost var start := categories;
      InsertCategories(MainCategories, None, 1);
      var mainCats := MainCategoryIds(categories);
      MainCategoryIdsOfRoots(start, b);
      RootsEnd(start, b);
      InsertChildCategories(mainCats["Food"], mainCats["Fuel"], mainCats["Lubricants"],
                            mainCats["Utilities"], mainCats["Spare Parts"], b);
      AppendAssoc(start, Rows(MainCategories, None, 1, b), SeedChildren(b));
    }

    /** `initialize_database()`: seeds the categories only when the table has no rows. */
    method Initialize()
      requires Valid()
      modifies this
      ensures Valid() && expenses == old(expenses)
      ensures categories == Initialized(old(categories))
    {
      if |categories| == 0 {
        InsertDefaultCategories();
      }
    }

    /**
     * `save_expense(...)`: appends the new row and returns its rowid, or
     * fails with nothing written when the main category does not resolve.
     */
    method SaveExpense(s: Submission) returns (r: Result<int, DbError>)
      requires Valid()
      modifies this
      ensures Valid() && categories == old(categories)
      ensures r.Failure? <==> CategoryId(categories, s.category, None).None?
      ensures r.Failure? ==> r.error == NotNullViolation && expenses == old(expenses)
      ensures r.Success? ==>
        && r.value == NextExpenseId(old(expenses))
        && expenses == old(expenses) + [NewExpense(categories, old(expenses), s).value]
    {
      match NewExpense(categories, expenses, s)
      case Failure(err) =>
        r := Failure(err);
      case Success(e) =>
        AppendNextKeepsExpenseIdsIncreasing(expenses, e);
        expenses := expenses + [e];
        r := Success(e.id);
    }

    /**
     * `update_expense(expense_id, updates)`: applies the entries in order to
     * the row with that id, as the `SET` clause the loop builds does; an
     * error leaves the table as it was.
     */
    method UpdateExpense(id: int, updates: seq<FieldUpdate>) returns (err: Option<DbError>)
      requires Valid() && DistinctColumns(updates)
      modifies this
      ensures Valid() && categories == old(categories)
      ensures UpdatedTable(old(expenses), id, updates).Failure? ==>
        err == Some(UpdatedTable(old(expenses), id, updates).error) && expenses == old(expenses)
      ensures UpdatedTable(old(expenses), id, updates).Success? ==>
        err == None && expenses == UpdatedTable(old(expenses), id, updates).value
    {
      if updates == [] {
        return Some(SyntaxError);
      }
      var found := IndexOfId(expenses, id);
      if found.None? {
        assert UpdatedTable(expenses, id, updates).value == expenses;
        return None;
      }
      var at := found.value;
      var row := expenses[at];
      var clearsCategory := false;
      var i := 0;
      while i < |updates|
        invariant 0 <= i <= |updates|
        invariant row == ApplyUpdates(expenses[at], updates[..i])
        invariant clearsCategory <==> exists j :: 0 <= j < i && ClearsCategory(updates[j])
      {
        clearsCategory := clearsCategory || ClearsCategory(updates[i]);
        assert updates[..i + 1][..i] == updates[..i];
        row := Assign(row, updates[i]);
        i := i + 1;
      }
      assert updates[..|updates|] == updates;
      if clearsCategory {
        return Some(NotNullViolation);
      }
      UpdateRowOnly(expenses, at, updates);
      UpdateKeepsIds(expenses, id, updates);
      expenses := expenses[at := row];
      return None;
    }

    /** `DELETE FROM expenses` (app.py): the expense table becomes empty, the categories stay. */
    method ClearExpenses()
      requires Valid()
      modifies this
      ensures Valid() && categories == old(categories) && expenses == []
      ensures NextExpenseId(expenses) == 1
    {
      expenses := [];
    }
  }

  /** Appending rows with consecutive ids from `NextId(a)` keeps ids increasing. */
  lemma ConsecutiveKeepsIdsIncreasing(a: seq<Category>, r: seq<Category>, first: int)
    requires IdsIncreasing(a) && first == NextId(a)
    requires forall k :: 0 <= k < |r| ==> r[k].id == first + k
    ensures IdsIncreasing(a + r)
  {
    forall i, j | 0 <= i < j < |a + r| ensures (a + r)[i].id < (a + r)[j].id {
      if j < |a| {
      } else if i < |a| {
        assert a[i] in a;
      }
    }
  }

  /** One more name appends one more row. */
  lemma RowsSnoc(names: seq<string>, i: int, parentId: Option<int>, level: int, first: int)
    requires 0 <= i < |names|
    ensures Rows(names[..i + 1], parentId, level, first)
      == Rows(names[..i], parentId, level, first) + [Category(first + i, names[i], parentId, level)]
  {
  }

  /**
   * One more pass of a branch loop after the rows of the first `i`
   * subcategories: the new row takes the next id, and the table then ends
   * with the rows of the first `i + 1`.
   */
  lemma BranchLoopStep(start: seq<Category>, cur: seq<Category>, subs: seq<string>, i: int, j: int,
                       parent: Option<int>, level: int, itemsOf: string -> seq<string>, first: int)
    requires 0 <= i < |subs| && j == i + 1 && first == NextId(start)
    requires cur == start + BranchRows(subs[..i], parent, level, itemsOf, first)
    ensures cur + Branch(subs[i], parent, level, itemsOf(subs[i]), NextId(cur)) == start + BranchRows(subs[..j], parent, level, itemsOf, first)
  {
    var done := BranchRows(subs[..i], parent, level, itemsOf, first);
    var id := first + |done|;
    assert NextId(cur) == id by {
      BranchRowsIds(subs[..i], parent, level, itemsOf, first);
      NextIdAfter(start, done, first);
    }
    var pass := Branch(subs[i], parent, level, itemsOf(subs[i]), id);
    assert BranchRows(subs[..j], parent, level, itemsOf, first) == done + pass by {
      BranchRowsStep(subs, i, parent, level, itemsOf, first, done, id);
    }
    AppendAssoc(start, done, pass);
  }

  /** The Fuel blocks appended one after another make up the Fuel rows. */
  lemma FuelConcat(start: seq<Category>, b: int)
    ensures start + [Category(b + 13, "Petrol", Some(b + 1), 2)] + Rows(PetrolItems, Some(b + 13), 3, b + 14)
            + [Category(b + 17, "Diesel", Some(b + 1), 2)] + DieselRows(b)
      == start + FuelRows(b)
  {
    var petrol := [Category(b + 13, "Petrol", Some(b + 1), 2)];
    var items := Rows(PetrolItems, Some(b + 13), 3, b + 14);
    var diesel := [Category(b + 17, "Diesel", Some(b + 1), 2)];
    AppendAssoc(start, petrol, items);
    AppendAssoc(start, petrol + items, diesel);
    AppendAssoc(start, petrol + items + diesel, DieselRows(b));
  }

  /** The children blocks appended one after another make up the rows below the roots. */
  lemma ChildrenConcat(start: seq<Category>, b: int)
    ensures start + FoodRows(b) + FuelRows(b) + LubricantRows(b) + UtilityRows(b) + SpareRows(b)
      == start + SeedChildren(b)
  {
    AppendAssoc(start, FoodRows(b), FuelRows(b));
    AppendAssoc(start, FoodRows(b) + FuelRows(b), LubricantRows(b));
    AppendAssoc(start, FoodRows(b) + FuelRows(b) + LubricantRows(b), UtilityRows(b));
    AppendAssoc(start, FoodRows(b) + FuelRows(b) + LubricantRows(b) + UtilityRows(b), SpareRows(b));
  }

  /** The next id after each children block of the seed appended to `a`, as `c`. */
  lemma BlockEnds(a: seq<Category>, c: seq<Category>, b: int)
    ensures c == a + FoodRows(b) ==> NextId(c) == b + 13
    ensures c == a + FuelRows(b) ==> NextId(c) == b + 24
    ensures c == a + LubricantRows(b) ==> NextId(c) == b + 29
    ensures c == a + UtilityRows(b) ==> NextId(c) == b + 33
  {
    SeedBlocks(b);
    NextIdOfAppend(a, FoodRows(b));
    NextIdOfAppend(a, FuelRows(b));
    NextIdOfAppend(a, LubricantRows(b));
    NextIdOfAppend(a, UtilityRows(b));
  }

  /** After the seven roots the next id is the seed's eighth. */
  lemma RootsEnd(start: seq<Category>, b: int)
    requires b == NextId(start)
    ensures NextId(start + Rows(MainCategories, None, 1, b)) == b + 7
  {
    NextIdOfAppend(start, Rows(MainCategories, None, 1, b));
  }

  lemma AppendAssoc<T>(a: seq<T>, b: seq<T>, c: seq<T>)
    ensures a + b + c == a + (b + c)
  {
  }

  /** After appending a non-empty block, the next id follows the block's last row. */
  lemma NextIdOfAppend(a: seq<Category>, r: seq<Category>)
    requires r != []
    ensures NextId(a + r) == r[|r| - 1].id + 1
  {
    assert (a + r)[|a + r| - 1] == r[|r| - 1];
  }

  /** Appending rows with consecutive ids from `NextId(a)` moves the next id past them. */
  lemma NextIdAfter(a: seq<Category>, r: seq<Category>, first: int)
    requires first == NextId(a)
    requires forall k :: 0 <= k < |r| ==> r[k].id == first + k
    ensures NextId(a + r) == first + |r|
  {
    if r == [] {
      assert a + r == a;
    }
  }

  /** With increasing ids, updating the row at `at` is the whole-table update. */
  lemma UpdateRowOnly(es: seq<Expense>, at: int, us: seq<FieldUpdate>)
    requires ExpenseIdsIncreasing(es) && 0 <= at < |es| && us != [] && DistinctColumns(us)
    requires forall k :: 0 <= k < |us| ==> !ClearsCategory(us[k])
    ensures UpdatedTable(es, es[at].id, us) == Success(es[at := ApplyUpdates(es[at], us)])
  {
    var id := es[at].id;
    assert HasId(es, id);
    var t := UpdatedTable(es, id, us);
    var expected := es[at := ApplyUpdates(es[at], us)];
    assert |t.value| == |expected|;
    forall j | 0 <= j < |es|
      ensures t.value[j] == expected[j]
    {
      if j < at {
        assert es[j].id < id;
      } else if j > at {
        assert id < es[j].id;
      }
    }
    assert t.value == expected;
  }
}

/**
 * The default category forest that `insert_default_categories` writes, laid
 * out row by row as the inserts produce it, and the properties of that
 * layout.
 */
module Seed {
  import opened Wrappers
  import opened Categories

  // The name lists of database.py, in their listed order.
  const MainCategories: seq<string> :=
    ["Food", "Fuel", "Lubricants", "Utilities", "Spare Parts", "Repair & Maintainance", "General Purchases"]
  const FoodSubs: seq<string> :=
    ["Worker Groceries", "Worker Water", "Worker Tea", "Worker Breakfast", "Worker Lunch", "Worker Dinner"]
  const PetrolItems: seq<string> := ["3818 - Pickup", "8957 - Hyundai", "Workshop"]
  const DieselSubs: seq<string> := ["Pickup", "Workshop", "Crane"]
  const PickupNumbers: seq<string> := ["9431 - Pickup", "8889 - Pickup", "8415 - Pickup"]
  const LubricantSubs: seq<string> := ["Transmission Oil", "Hydrolic Oil", "Gear Oil", "Grease", "Engine Oil"]
  /** The keys of the `util_subs` dictionary, in insertion order. */
  const UtilitySubs: seq<string> := ["Phone Bills", "Other"]
  const SpareSubcategories: seq<string> := ["Pickup", "Cranes"]
  const SpareSubsubcategories: seq<string> := ["Batteries", "Filters", "General Spare Parts"]

  /** The values of the `util_subs` dictionary. */
  function UtilityItems(sub: string): seq<string> {
    if sub == "Phone Bills" then ["GM Phone Bill", "Supervisor Phone Bill"]
    else if sub == "Other" then
      ["Water Bill Workshop", "Water Bill Workers Room", "Electricity Bill Workshop", "Electricity Bill Workers Room"]
    else []
  }

  /** The children the Diesel loop inserts under each of its subcategories: only Pickup gets any. */
  function DieselItems(sub: string): seq<string> {
    if sub == "Pickup" then PickupNumbers else []
  }

  /** The children the Utilities loop inserts: only "Phone Bills" gets its items. */
  function UtilityItemsInserted(sub: string): seq<string> {
    if sub == "Phone Bills" then UtilityItems(sub) else []
  }

  /** The children the Spare Parts loop inserts: the same three under each subcategory. */
  function SpareItems(sub: string): seq<string> {
    SpareSubsubcategories
  }

  /** The rows `for name in names: INSERT (name, parent, level)` appends, starting at rowid `first`. */
  function Rows(names: seq<string>, parent: Option<int>, level: int, first: int): (rows: seq<Category>)
    ensures |rows| == |names|
    ensures forall k :: 0 <= k < |names| ==> rows[k] == Category(first + k, names[k], parent, level)
  {
    seq(|names|, k requires 0 <= k < |names| => Category(first + k, names[k], parent, level))
  }

  /**
   * The rows of a loop that inserts each of `subs` under `parent` and, after
   * each, the items `itemsOf(sub)` under that new row (its `lastrowid`).
   */
  function BranchRows(subs: seq<string>, parent: Option<int>, level: int,
                      itemsOf: string -> seq<string>, first: int): (rows: seq<Category>)
    ensures |rows| >= |subs|
    decreases |subs|
  {
    if subs == [] then []
    else
      var done := BranchRows(subs[..|subs| - 1], parent, level, itemsOf, first);
      var sub := subs[|subs| - 1];
      var id := first + |done|;
      done + Branch(sub, parent, level, itemsOf(sub), id)
  }

  /** One pass of a branch loop: the row for `sub` at rowid `id`, then its items under it. */
  function Branch(sub: string, parent: Option<int>, level: int, items: seq<string>, id: int): seq<Category> {
    [Category(id, sub, parent, level)] + Rows(items, Some(id), level + 1, id + 1)
  }

  /** The rows a branch loop appends have consecutive ids from `first`. */
  lemma {:induction false} BranchRowsIds(subs: seq<string>, parent: Option<int>, level: int,
                                         itemsOf: string -> seq<string>, first: int)
    ensures forall k :: 0 <= k < |BranchRows(subs, parent, level, itemsOf, first)| ==>
      BranchRows(subs, parent, level, itemsOf, first)[k].id == first + k
    decreases |subs|
  {
    if subs != [] {
      var done := BranchRows(subs[..|subs| - 1], parent, level, itemsOf, first);
      BranchRowsIds(subs[..|subs| - 1], parent, level, itemsOf, first);
      var sub := subs[|subs| - 1];
      var id := first + |done|;
      var row := Category(id, sub, parent, level);
      var items := Rows(itemsOf(sub), Some(id), level + 1, id + 1);
      var rows := BranchRows(subs, parent, level, itemsOf, first);
      assert rows == done + ([row] + items);
      forall k | 0 <= k < |rows|
        ensures rows[k].id == first + k
      {
        if k < |done| {
          assert rows[k] == done[k];
          assert done[k].id == first + k;
        } else if k == |done| {
          assert rows[k] == row;
          assert row.id == first + k;
        } else {
          var j := k - |done| - 1;
          assert 0 <= j < |items|;
          assert rows[k] == items[j];
          assert items[j] == Category(id + 1 + j, itemsOf(sub)[j], Some(id), level + 1);
        }
      }
    }
  }

  /**
   * The whole seed starting at rowid `b`: the seven roots, then the rows
   * under them in the order database.py inserts them, 41 rows in all.
   * Offsets from `b` are noted beside each row.
   */
  function SeedRows(b: int): (rows: seq<Category>)
    ensures |rows| == 41
  {
    Rows(MainCategories, None, 1, b) + SeedChildren(b)                //  0..6, then 7..40
  }

  function SeedChildren(b: int): seq<Category> {
    FoodRows(b) + FuelRows(b) + LubricantRows(b) + UtilityRows(b) + SpareRows(b)
  }

  function FoodRows(b: int): seq<Category> {
    Rows(FoodSubs, Some(b), 2, b + 7)                                 //  7..12 under Food
  }

  function FuelRows(b: int): seq<Category> {
    [Category(b + 13, "Petrol", Some(b + 1), 2)]                      // 13 under Fuel
    + Rows(PetrolItems, Some(b + 13), 3, b + 14)                      // 14..16 under Petrol
    + [Category(b + 17, "Diesel", Some(b + 1), 2)]                    // 17 under Fuel
    + DieselRows(b)
  }

  function DieselRows(b: int): seq<Category> {
    [Category(b + 18, "Pickup", Some(b + 17), 3)]                     // 18 under Diesel
    + Rows(PickupNumbers, Some(b + 18), 4, b + 19)                    // 19..21 under Diesel's Pickup
    + [Category(b + 22, "Workshop", Some(b + 17), 3)]                 // 22 under Diesel
    + [Category(b + 23, "Crane", Some(b + 17), 3)]                    // 23 under Diesel
  }

  function LubricantRows(b: int): seq<Category> {
    Rows(LubricantSubs, Some(b + 2), 2, b + 24)                       // 24..28 under Lubricants
  }

  function UtilityRows(b: int): seq<Category> {
    [Category(b + 29, "Phone Bills", Some(b + 3), 2)]                 // 29 under Utilities
    + Rows(UtilityItems("Phone Bills"), Some(b + 29), 3, b + 30)      // 30..31 under Phone Bills
    + [Category(b + 32, "Other", Some(b + 3), 2)]                     // 32 under Utilities
  }

  function SpareRows(b: int): seq<Category> {
    [Category(b + 33, "Pickup", Some(b + 4), 2)]                      // 33 under Spare Parts
    + Rows(SpareSubsubcategories, Some(b + 33), 3, b + 34)            // 34..36 under Spare Parts' Pickup
    + [Category(b + 37, "Cranes", Some(b + 4), 2)]                    // 37 under Spare Parts
    + Rows(SpareSubsubcategories, Some(b + 37), 3, b + 38)            // 38..40 under Cranes
  }

  /** The size and the last id of each block of the seed. */
  lemma SeedBlocks(b: int)
    ensures |Rows(MainCategories, None, 1, b)| == 7 && Rows(MainCategories, None, 1, b)[6].id == b + 6
    ensures |FoodRows(b)| == 6 && FoodRows(b)[5].id == b + 12
    ensures |FuelRows(b)| == 11 && FuelRows(b)[10].id == b + 23
    ensures |LubricantRows(b)| == 5 && LubricantRows(b)[4].id == b + 28
    ensures |UtilityRows(b)| == 4 && UtilityRows(b)[3].id == b + 32
    ensures |SpareRows(b)| == 8 && SpareRows(b)[7].id == b + 40
  {
  }

  /**
   * The seed by offset: row `k` of the seed starting at rowid `b`, as the
   * offsets noted beside the blocks above lay it out.
   */
  function SeedRow(b: int, k: int): Category
    requires 0 <= k < 41
  {
    if k < 7 then Category(b + k, MainCategories[k], None, 1)
    else if k < 13 then Category(b + k, FoodSubs[k - 7], Some(b), 2)
    else if k == 13 then Category(b + 13, "Petrol", Some(b + 1), 2)
    else if k < 17 then Category(b + k, PetrolItems[k - 14], Some(b + 13), 3)
    else if k == 17 then Category(b + 17, "Diesel", Some(b + 1), 2)
    else if k == 18 then Category(b + 18, "Pickup", Some(b + 17), 3)
    else if k < 22 then Category(b + k, PickupNumbers[k - 19], Some(b + 18), 4)
    else if k == 22 then Category(b + 22, "Workshop", Some(b + 17), 3)
    else if k == 23 then Category(b + 23, "Crane", Some(b + 17), 3)
    else if k < 29 then Category(b + k, LubricantSubs[k - 24], Some(b + 2), 2)
    else if k == 29 then Category(b + 29, "Phone Bills", Some(b + 3), 2)
    else if k < 32 then Category(b + k, UtilityItems("Phone Bills")[k - 30], Some(b + 29), 3)
    else if k == 32 then Category(b + 32, "Other", Some(b + 3), 2)
    else if k == 33 then Category(b + 33, "Pickup", Some(b + 4), 2)
    else if k < 37 then Category(b + k, SpareSubsubcategories[k - 34], Some(b + 33), 3)
    else if k == 37 then Category(b + 37, "Cranes", Some(b + 4), 2)
    else Category(b + k, SpareSubsubcategories[k - 38], Some(b + 37), 3)
  }

  lemma DieselRowsAt(b: int, k: int)
    requires 0 <= k < 6
    ensures DieselRows(b)[k] == SeedRow(b, 18 + k)
  {
  }

  lemma FuelRowsAt(b: int, k: int)
    requires 0 <= k < 11
    ensures FuelRows(b)[k] == SeedRow(b, 13 + k)
  {
    var head := [Category(b + 13, "Petrol", Some(b + 1), 2)] + Rows(PetrolItems, Some(b + 13), 3, b + 14)
      + [Category(b + 17, "Diesel", Some(b + 1), 2)];
    assert |head| == 5;
    if k >= 5 {
      DieselRowsAt(b, k - 5);
    }
  }

  lemma UtilityRowsAt(b: int, k: int)
    requires 0 <= k < 4
    ensures UtilityRows(b)[k] == SeedRow(b, 29 + k)
  {
  }

  lemma SpareRowsAt(b: int, k: int)
    requires 0 <= k < 8
    ensures SpareRows(b)[k] == SeedRow(b, 33 + k)
  {
    var head := [Category(b + 33, "Pickup", Some(b + 4), 2)] + Rows(SpareSubsubcategories, Some(b + 33), 3, b + 34)
      + [Category(b + 37, "Cranes", Some(b + 4), 2)];
    assert |head| == 5;
  }

  lemma ChildrenAt(b: int, k: int)
    requires 7 <= k < 41
    ensures |SeedChildren(b)| == 34
    ensures SeedChildren(b)[k - 7] == SeedRow(b, k)
  {
    SeedBlocks(b);
    var g1 := FoodRows(b) + FuelRows(b);
    var g2 := g1 + LubricantRows(b);
    var g3 := g2 + UtilityRows(b);
    assert |g1| == 17 && |g2| == 22 && |g3| == 26;
    if k < 13 {
      assert SeedChildren(b)[k - 7] == FoodRows(b)[k - 7];
    } else if k < 24 {
      FuelRowsAt(b, k - 13);
      assert SeedChildren(b)[k - 7] == FuelRows(b)[k - 13];
    } else if k < 29 {
      assert SeedChildren(b)[k - 7] == LubricantRows(b)[k - 24];
    } else if k < 33 {
      UtilityRowsAt(b, k - 29);
      assert SeedChildren(b)[k - 7] == UtilityRows(b)[k - 29];
    } else {
      SpareRowsAt(b, k - 33);
      assert SeedChildren(b)[k - 7] == SpareRows(b)[k - 33];
    }
  }

  /** The seed in insertion order is the seed by offset. */
  lemma SeedRowsAt(b: int, k: int)
    requires 0 <= k < 41
    ensures |SeedRows(b)| == 41
    ensures SeedRows(b)[k] == SeedRow(b, k)
  {
    ChildrenAt(b, 7);
    if k >= 7 {
      ChildrenAt(b, k);
    }
  }

  /** The seed has 41 rows with consecutive ids from `b`. */
  lemma SeedIds(b: int)
    ensures |SeedRows(b)| == 41
    ensures forall k :: 0 <= k < 41 ==> SeedRows(b)[k].id == b + k
    ensures IdsIncreasing(SeedRows(b))
  {
    SeedRowsAt(b, 0);
    forall k | 0 <= k < 41
      ensures SeedRows(b)[k].id == b + k
    {
      SeedRowsAt(b, k);
    }
  }

  /** `get_categories` on a block of rows inserted under one parent at one level. */
  lemma {:induction false} CategoryNamesRows(names: seq<string>, parent: Option<int>, level: int, first: int,
                                             qLevel: Option<int>, qParent: Option<int>)
    ensures CategoryNames(Rows(names, parent, level, first), qLevel, qParent)
      == if Listed(Category(first, "", parent, level), qLevel, qParent) then names else []
  {
    var rows := Rows(names, parent, level, first);
    if names != [] {
      assert rows[1..] == Rows(names[1..], parent, level, first + 1);
      CategoryNamesRows(names[1..], parent, level, first + 1, qLevel, qParent);
      assert names == [names[0]] + names[1..];
    }
  }

  /** A query that lists no row of a table returns nothing. */
  lemma {:induction false} CategoryNamesNone(rows: seq<Category>, qLevel: Option<int>, qParent: Option<int>)
    requires forall c :: c in rows ==> !Listed(c, qLevel, qParent)
    ensures CategoryNames(rows, qLevel, qParent) == []
  {
    if rows != [] {
      assert rows[0] in rows;
      CategoryNamesNone(rows[1..], qLevel, qParent);
    }
  }

  /** What every row of an inserted block shares. */
  lemma RowsMembers(names: seq<string>, parent: Option<int>, level: int, first: int)
    ensures forall c :: c in Rows(names, parent, level, first) ==>
      c.parentId == parent && c.level == level && first <= c.id < first + |names| && c.name in names
  {
    var rows := Rows(names, parent, level, first);
    forall c | c in rows
      ensures c.parentId == parent && c.level == level && first <= c.id < first + |names| && c.name in names
    {
      var k :| 0 <= k < |rows| && rows[k] == c;
    }
  }

  /** By offset, every row after the roots has a parent and a level from 2 to 4. */
  lemma SeedRowBelowRoots(b: int, k: int)
    requires 7 <= k < 41
    ensures SeedRow(b, k).parentId.Some? && 2 <= SeedRow(b, k).level <= 4 && SeedRow(b, k).id == b + k
  {
  }

  /** Every row below the roots has a parent, level 2 to 4, and an id after the roots. */
  lemma SeedChildrenMembers(b: int)
    ensures forall c :: c in SeedChildren(b) ==>
      c.parentId.Some? && 2 <= c.level <= 4 && b + 7 <= c.id < b + 41
  {
    ChildrenAt(b, 7);
    forall c | c in SeedChildren(b)
      ensures c.parentId.Some? && 2 <= c.level <= 4 && b + 7 <= c.id < b + 41
    {
      var k :| 0 <= k < 34 && SeedChildren(b)[k] == c;
      ChildrenAt(b, k + 7);
      SeedRowBelowRoots(b, k + 7);
    }
  }

  /** Exactly the first seven rows are roots: level 1, no parent, the main categories in order. */
  lemma SeedRoots(b: int)
    ensures CategoryNames(SeedRows(b), Some(1), None) == MainCategories
    ensures forall c :: c in SeedRows(b) ==> (c.level == 1 <==> c.parentId.None?)
    ensures forall c :: c in SeedRows(b) ==> (c.level == 1 <==> c.id < b + 7)
  {
    SeedChildrenMembers(b);
    RowsMembers(MainCategories, None, 1, b);
    CategoryNamesAppend(Rows(MainCategories, None, 1, b), SeedChildren(b), Some(1), None);
    CategoryNamesRows(MainCategories, None, 1, b, Some(1), None);
    CategoryNamesNone(SeedChildren(b), Some(1), None);
  }

  /** By offset, the parent of row `k` is an earlier row one level up. */
  lemma SeedRowParent(b: int, k: int)
    requires 0 <= k < 41 && SeedRow(b, k).parentId.Some?
    ensures var j := SeedRow(b, k).parentId.value - b;
      0 <= j < k && SeedRow(b, j).level + 1 == SeedRow(b, k).level
  {
  }

  /** Every non-root row's parent comes earlier in the table and is one level higher. */
  lemma SeedParentLevels(b: int)
    ensures forall k :: 0 <= k < |SeedRows(b)| && SeedRows(b)[k].parentId.Some? ==>
      0 <= SeedRows(b)[k].parentId.value - b < k
      && SeedRows(b)[SeedRows(b)[k].parentId.value - b].level + 1 == SeedRows(b)[k].level
  {
    SeedRowsAt(b, 0);
    forall k | 0 <= k < |SeedRows(b)| && SeedRows(b)[k].parentId.Some?
      ensures 0 <= SeedRows(b)[k].parentId.value - b < k
        && SeedRows(b)[SeedRows(b)[k].parentId.value - b].level + 1 == SeedRows(b)[k].level
    {
      var row := SeedRows(b)[k];
      assert row == SeedRow(b, k) by {
        SeedRowsAt(b, k);
      }
      var j := row.parentId.value - b;
      SeedRowParent(b, k);
      assert SeedRows(b)[j] == SeedRow(b, j) by {
        SeedRowsAt(b, j);
      }
    }
  }

  /** No level exceeds 4. */
  lemma SeedLevelsBounded(b: int)
    ensures forall c :: c in SeedRows(b) ==> 1 <= c.level <= 4
  {
    SeedRowsAt(b, 0);
    forall c | c in SeedRows(b)
      ensures 1 <= c.level <= 4
    {
      var k :| 0 <= k < 41 && SeedRows(b)[k] == c;
      SeedRowsAt(b, k);
      if k >= 7 {
        SeedRowBelowRoots(b, k);
      }
    }
  }

  /** No name occurs twice in a list. */
  ghost predicate NoDuplicates(names: seq<string>) {
    forall i, j :: 0 <= i < j < |names| ==> names[i] != names[j]
  }

  /** The children lists of the Diesel rows, by parent id. */
  lemma DieselChildren(b: int, p: int)
    ensures CategoryNames(DieselRows(b), None, Some(p)) ==
      if p == b + 17 then DieselSubs
      else if p == b + 18 then PickupNumbers
      else []
  {
    var pickup := Category(b + 18, "Pickup", Some(b + 17), 3);
    var workshop := Category(b + 22, "Workshop", Some(b + 17), 3);
    var crane := Category(b + 23, "Crane", Some(b + 17), 3);
    var numbers := Rows(PickupNumbers, Some(b + 18), 4, b + 19);
    var q := Some(p);
    CategoryNamesSingle(pickup, None, q);
    CategoryNamesSingle(workshop, None, q);
    CategoryNamesSingle(crane, None, q);
    CategoryNamesRows(PickupNumbers, Some(b + 18), 4, b + 19, None, q);
    CategoryNamesAppend([pickup], numbers, None, q);
    CategoryNamesAppend([pickup] + numbers, [workshop], None, q);
    CategoryNamesAppend([pickup] + numbers + [workshop], [crane], None, q);
    var names := CategoryNames(DieselRows(b), None, q);
    if p == b + 17 {
      assert names == ["Pickup"] + [] + ["Workshop"] + ["Crane"];
    } else if p == b + 18 {
      assert names == [] + PickupNumbers + [] + [];
    } else {
      assert names == [] + [] + [] + [];
    }
  }

  /** The children of the Fuel branch's nodes, by parent id. */
  function FuelChildNames(b: int, p: int): seq<string> {
    if p == b + 1 then ["Petrol", "Diesel"]
    else if p == b + 13 then PetrolItems
    else if p == b + 17 then DieselSubs
    else if p == b + 18 then PickupNumbers
    else []
  }

  /** The children of the Utilities branch's nodes, by parent id. */
  function UtilityChildNames(b: int, p: int): seq<string> {
    if p == b + 3 then UtilitySubs
    else if p == b + 29 then UtilityItems("Phone Bills")
    else []
  }

  /** The children of the Spare Parts branch's nodes, by parent id. */
  function SpareChildNames(b: int, p: int): seq<string> {
    if p == b + 4 then SpareSubcategories
    else if p == b + 33 || p == b + 37 then SpareSubsubcategories
    else []
  }

  /** The children lists of the Fuel branch, by parent id. */
  lemma FuelChildren(b: int, p: int)
    ensures CategoryNames(FuelRows(b), None, Some(p)) == FuelChildNames(b, p)
  {
    var petrol := Category(b + 13, "Petrol", Some(b + 1), 2);
    var diesel := Category(b + 17, "Diesel", Some(b + 1), 2);
    var items := Rows(PetrolItems, Some(b + 13), 3, b + 14);
    var q := Some(p);
    CategoryNamesSingle(petrol, None, q);
    CategoryNamesSingle(diesel, None, q);
    CategoryNamesRows(PetrolItems, Some(b + 13), 3, b + 14, None, q);
    DieselChildren(b, p);
    CategoryNamesAppend([petrol], items, None, q);
    CategoryNamesAppend([petrol] + items, [diesel], None, q);
    CategoryNamesAppend([petrol] + items + [diesel], DieselRows(b), None, q);
    var names := CategoryNames(FuelRows(b), None, q);
    if p == b + 1 {
      assert names == ["Petrol"] + [] + ["Diesel"] + [] == ["Petrol", "Diesel"];
    } else if p == b + 13 {
      assert names == [] + PetrolItems + [] + [] == PetrolItems;
    } else if p == b + 17 {
      assert names == [] + [] + [] + DieselSubs == DieselSubs;
    } else if p == b + 18 {
      assert names == [] + [] + [] + PickupNumbers == PickupNumbers;
    } else {
      assert names == [] + [] + [] + [] == [];
    }
  }

  /** The children lists of the Utilities branch, by parent id. */
  lemma UtilityChildren(b: int, p: int)
    ensures CategoryNames(UtilityRows(b), None, Some(p)) == UtilityChildNames(b, p)
  {
    var phone := Category(b + 29, "Phone Bills", Some(b + 3), 2);
    var other := Category(b + 32, "Other", Some(b + 3), 2);
    var items := Rows(UtilityItems("Phone Bills"), Some(b + 29), 3, b + 30);
    var q := Some(p);
    CategoryNamesSingle(phone, None, q);
    CategoryNamesSingle(other, None, q);
    CategoryNamesRows(UtilityItems("Phone Bills"), Some(b + 29), 3, b + 30, None, q);
    CategoryNamesAppend([phone], items, None, q);
    CategoryNamesAppend([phone] + items, [other], None, q);
  }

  /** The children lists of the Spare Parts branch, by parent id. */
  lemma SpareChildren(b: int, p: int)
    ensures CategoryNames(SpareRows(b), None, Some(p)) == SpareChildNames(b, p)
  {
    var pickup := Category(b + 33, "Pickup", Some(b + 4), 2);
    var cranes := Category(b + 37, "Cranes", Some(b + 4), 2);
    var items1 := Rows(SpareSubsubcategories, Some(b + 33), 3, b + 34);
    var items2 := Rows(SpareSubsubcategories, Some(b + 37), 3, b + 38);
    var q := Some(p);
    CategoryNamesSingle(pickup, None, q);
    CategoryNamesSingle(cranes, None, q);
    CategoryNamesRows(SpareSubsubcategories, Some(b + 33), 3, b + 34, None, q);
    CategoryNamesRows(SpareSubsubcategories, Some(b + 37), 3, b + 38, None, q);
    CategoryNamesAppend([pickup], items1, None, q);
    CategoryNamesAppend([pickup] + items1, [cranes], None, q);
    CategoryNamesAppend([pickup] + items1 + [cranes], items2, None, q);
    var names := CategoryNames(SpareRows(b), None, q);
    if p == b + 4 {
      assert names == ["Pickup"] + [] + ["Cranes"] + [];
    } else if p == b + 33 {
      assert names == [] + SpareSubsubcategories + [] + [];
    } else if p == b + 37 {
      assert names == [] + [] + [] + SpareSubsubcategories;
    } else {
      assert names == [] + [] + [] + [];
    }
  }

  /**
   * The children of every node of the seed, as `get_categories(parent_id=p)`
   * lists them: the seed's shape, parent by parent.
   */
  function SeedChildNames(b: int, p: int): seq<string> {
    if p == b then FoodSubs
    else if p == b + 1 then ["Petrol", "Diesel"]
    else if p == b + 2 then LubricantSubs
    else if p == b + 3 then UtilitySubs
    else if p == b + 4 then SpareSubcategories
    else if p == b + 13 then PetrolItems
    else if p == b + 17 then DieselSubs
    else if p == b + 18 then PickupNumbers
    else if p == b + 29 then UtilityItems("Phone Bills")
    else if p == b + 33 || p == b + 37 then SpareSubsubcategories
    else []
  }

  /** `get_categories(parent_id=p)` on the seed lists exactly the seed's children of `p`, in order. */
  lemma {:induction false} SeedChildLists(b: int, p: int)
    ensures CategoryNames(SeedRows(b), None, Some(p)) == SeedChildNames(b, p)
  {
    var q := Some(p);
    var g1 := FoodRows(b) + FuelRows(b);
    var g2 := g1 + LubricantRows(b);
    var g3 := g2 + UtilityRows(b);
    CategoryNamesAppend(FoodRows(b), FuelRows(b), None, q);
    CategoryNamesAppend(g1, LubricantRows(b), None, q);
    CategoryNamesAppend(g2, UtilityRows(b), None, q);
    CategoryNamesAppend(g3, SpareRows(b), None, q);
    CategoryNamesAppend(Rows(MainCategories, None, 1, b), SeedChildren(b), None, q);
    var food := CategoryNames(FoodRows(b), None, q);
    var lubricants := CategoryNames(LubricantRows(b), None, q);
    assert CategoryNames(Rows(MainCategories, None, 1, b), None, q) == [] by {
      CategoryNamesRows(MainCategories, None, 1, b, None, q);
    }
    assert food == if p == b then FoodSubs else [] by {
      CategoryNamesRows(FoodSubs, Some(b), 2, b + 7, None, q);
    }
    assert lubricants == if p == b + 2 then LubricantSubs else [] by {
      CategoryNamesRows(LubricantSubs, Some(b + 2), 2, b + 24, None, q);
    }
    FuelChildren(b, p);
    UtilityChildren(b, p);
    SpareChildren(b, p);
    ChildNamesByBlock(b, p);
  }

  /** The seed's children lists, put together from those of its blocks. */
  lemma ChildNamesByBlock(b: int, p: int)
    ensures SeedChildNames(b, p)
      == [] + (((((if p == b then FoodSubs else []) + FuelChildNames(b, p))
                 + (if p == b + 2 then LubricantSubs else [])) + UtilityChildNames(b, p)) + SpareChildNames(b, p))
  {
  }

  /** None of the seed's name lists repeats a name. */
  lemma SeedListsDistinct()
    ensures NoDuplicates(MainCategories) && NoDuplicates(FoodSubs) && NoDuplicates(PetrolItems)
    ensures NoDuplicates(DieselSubs) && NoDuplicates(PickupNumbers) && NoDuplicates(LubricantSubs)
    ensures NoDuplicates(UtilitySubs) && NoDuplicates(UtilityItems("Phone Bills"))
    ensures NoDuplicates(SpareSubcategories) && NoDuplicates(SpareSubsubcategories)
    ensures NoDuplicates(["Petrol", "Diesel"]) && NoDuplicates([])
  {
  }

  /** Siblings have distinct names: no root name twice, and no child list of any parent with a repeat. */
  lemma SeedSiblingsDistinct(b: int)
    ensures NoDuplicates(CategoryNames(SeedRows(b), Some(1), None))
    ensures forall p :: NoDuplicates(CategoryNames(SeedRows(b), None, Some(p)))
  {
    SeedRoots(b);
    SeedListsDistinct();
    forall p ensures NoDuplicates(CategoryNames(SeedRows(b), None, Some(p))) {
      SeedChildLists(b, p);
      var names := SeedChildNames(b, p);
      assert NoDuplicates(names);
    }
  }

  /** Utilities' "Other" subcategory has no children. */
  lemma SeedOtherChildless(b: int)
    ensures SeedRows(b)[32] == Category(b + 32, "Other", Some(b + 3), 2)
    ensures CategoryNames(SeedRows(b), None, Some(b + 32)) == []
  {
    SeedRowsAt(b, 32);
    SeedChildLists(b, b + 32);
  }

  /** A lookup of a name no row carries finds nothing. */
  lemma CategoryIdAbsent(rows: seq<Category>, name: string, parentId: Option<int>)
    requires forall c :: c in rows ==> c.name != name
    ensures CategoryId(rows, name, parentId) == None
  {
    CategoryIdFirstMatch(rows, name, parentId);
    assert forall i :: 0 <= i < |rows| ==> rows[i] in rows;
  }

  /** The seven root rows, written out. */
  lemma RootsListed(b: int)
    ensures Rows(MainCategories, None, 1, b) == [Category(b + 0, "Food", None, 1), Category(b + 1, "Fuel", None, 1), Category(b + 2, "Lubricants", None, 1), Category(b + 3, "Utilities", None, 1), Category(b + 4, "Spare Parts", None, 1), Category(b + 5, "Repair & Maintainance", None, 1), Category(b + 6, "General Purchases", None, 1)]
  {
  }

  /** The unscoped lookup of "Spare Parts" finds its root row. */
  lemma SeedSparePartsLookup(b: int)
    ensures CategoryId(SeedRows(b), "Spare Parts", None) == Some(b + 4)
  {
    var roots := Rows(MainCategories, None, 1, b);
    RootsListed(b);
    var before := roots[..4];
    var from := roots[4..];
    assert roots == before + from;
    assert from[0] == Category(b + 4, "Spare Parts", None, 1);
    CategoryIdAbsent(before, "Spare Parts", None);
    CategoryIdAppend(before, from, "Spare Parts", None);
    CategoryIdAppend(roots, SeedChildren(b), "Spare Parts", None);
  }

  /** Within the Fuel branch, the first "Pickup" is Diesel's. */
  lemma FuelPickup(b: int)
    ensures CategoryId(FuelRows(b), "Pickup", None) == Some(b + 18)
  {
    var pickup := Category(b + 18, "Pickup", Some(b + 17), 3);
    var fuelHead := [Category(b + 13, "Petrol", Some(b + 1), 2)] + Rows(PetrolItems, Some(b + 13), 3, b + 14)
      + [Category(b + 17, "Diesel", Some(b + 1), 2)];
    RowsMembers(PetrolItems, Some(b + 13), 3, b + 14);
    CategoryIdAbsent(fuelHead, "Pickup", None);
    var dieselTail := Rows(PickupNumbers, Some(b + 18), 4, b + 19)
      + [Category(b + 22, "Workshop", Some(b + 17), 3)] + [Category(b + 23, "Crane", Some(b + 17), 3)];
    assert DieselRows(b) == [pickup] + dieselTail;
    CategoryIdAppend([pickup], dieselTail, "Pickup", None);
    CategoryIdAppend(fuelHead, DieselRows(b), "Pickup", None);
  }

  /** Below the roots, the first "Pickup" is Diesel's. */
  lemma ChildrenPickup(b: int)
    ensures CategoryId(SeedChildren(b), "Pickup", None) == Some(b + 18)
  {
    RowsMembers(FoodSubs, Some(b), 2, b + 7);
    CategoryIdAbsent(FoodRows(b), "Pickup", None);
    FuelPickup(b);
    CategoryIdAppend(FoodRows(b), FuelRows(b), "Pickup", None);
    var g1 := FoodRows(b) + FuelRows(b);
    var g2 := g1 + LubricantRows(b);
    var g3 := g2 + UtilityRows(b);
    CategoryIdAppend(g1, LubricantRows(b), "Pickup", None);
    CategoryIdAppend(g2, UtilityRows(b), "Pickup", None);
    CategoryIdAppend(g3, SpareRows(b), "Pickup", None);
  }

  /** The unscoped lookup of "Pickup" finds Diesel's level-3 Pickup, not Spare Parts' level-2 one. */
  lemma SeedPickupLookup(b: int)
    ensures CategoryId(SeedRows(b), "Pickup", None) == Some(b + 18)
  {
    var roots := Rows(MainCategories, None, 1, b);
    RowsMembers(MainCategories, None, 1, b);
    CategoryIdAbsent(roots, "Pickup", None);
    ChildrenPickup(b);
    CategoryIdAppend(roots, SeedChildren(b), "Pickup", None);
  }

  /** The two "Pickup" rows: Diesel's at level 3 comes before Spare Parts' at level 2. */
  lemma SeedPickupRows(b: int)
    ensures SeedRows(b)[18] == Category(b + 18, "Pickup", Some(b + 17), 3) && SeedRows(b)[17].name == "Diesel"
    ensures SeedRows(b)[33] == Category(b + 33, "Pickup", Some(b + 4), 2) && SeedRows(b)[4].name == "Spare Parts"
  {
    SeedRowsAt(b, 18);
    SeedRowsAt(b, 17);
    SeedRowsAt(b, 33);
    SeedRowsAt(b, 4);
  }

  // ---------------------------------------------------------------------
  // The branch loops produce the laid-out groups

  /** One more subcategory appends its row, with the next id, and then its items. */
  lemma BranchRowsSnoc(subs: seq<string>, sub: string, parent: Option<int>, level: int,
                       itemsOf: string -> seq<string>, first: int, done: seq<Category>, id: int)
    requires done == BranchRows(subs, parent, level, itemsOf, first) && id == first + |done|
    ensures BranchRows(subs + [sub], parent, level, itemsOf, first)
      == done + Branch(sub, parent, level, itemsOf(sub), id)
  {
    var all := subs + [sub];
    assert all[..|all| - 1] == subs;
    assert all[|all| - 1] == sub;
    assert all != [];
  }

  /** The loop's next step: the first `i + 1` subcategories lay out one more branch. */
  lemma BranchRowsStep(subs: seq<string>, i: int, parent: Option<int>, level: int,
                       itemsOf: string -> seq<string>, first: int, done: seq<Category>, id: int)
    requires 0 <= i < |subs|
    requires done == BranchRows(subs[..i], parent, level, itemsOf, first) && id == first + |done|
    ensures BranchRows(subs[..i + 1], parent, level, itemsOf, first)
      == done + Branch(subs[i], parent, level, itemsOf(subs[i]), id)
  {
    var prefix := subs[..i + 1];
    assert prefix[..|prefix| - 1] == subs[..i];
    assert prefix[|prefix| - 1] == subs[i];
    assert prefix != [];
  }

  /** The Diesel loop lays out Diesel's rows. */
  lemma DieselBranch(b: int)
    ensures BranchRows(DieselSubs, Some(b + 17), 3, DieselItems, b + 18) == DieselRows(b)
  {
    var p := Some(b + 17);
    var numbers := Rows(PickupNumbers, Some(b + 18), 4, b + 19);
    BranchRowsSnoc([], "Pickup", p, 3, DieselItems, b + 18, [], b + 18);
    assert [] + ["Pickup"] == ["Pickup"];
    var r1 := [Category(b + 18, "Pickup", p, 3)] + numbers;
    assert BranchRows(["Pickup"], p, 3, DieselItems, b + 18) == [] + [Category(b + 18, "Pickup", p, 3)] + numbers;
    assert [] + [Category(b + 18, "Pickup", p, 3)] + numbers == r1;
    BranchRowsSnoc(["Pickup"], "Workshop", p, 3, DieselItems, b + 18, r1, b + 22);
    assert ["Pickup"] + ["Workshop"] == ["Pickup", "Workshop"];
    var r2 := r1 + [Category(b + 22, "Workshop", p, 3)];
    assert Rows(DieselItems("Workshop"), Some(b + 22), 4, b + 23) == [];
    assert r1 + [Category(b + 22, "Workshop", p, 3)] + [] == r2;
    BranchRowsSnoc(["Pickup", "Workshop"], "Crane", p, 3, DieselItems, b + 18, r2, b + 23);
    assert ["Pickup", "Workshop"] + ["Crane"] == DieselSubs;
    assert Rows(DieselItems("Crane"), Some(b + 23), 4, b + 24) == [];
    assert r2 + [Category(b + 23, "Crane", p, 3)] + [] == DieselRows(b);
  }

  /** The Utilities loop lays out the Utilities rows. */
  lemma UtilityBranch(b: int)
    ensures BranchRows(UtilitySubs, Some(b + 3), 2, UtilityItemsInserted, b + 29) == UtilityRows(b)
  {
    var p := Some(b + 3);
    var phone := Rows(UtilityItems("Phone Bills"), Some(b + 29), 3, b + 30);
    BranchRowsSnoc([], "Phone Bills", p, 2, UtilityItemsInserted, b + 29, [], b + 29);
    assert [] + ["Phone Bills"] == ["Phone Bills"];
    var r1 := [Category(b + 29, "Phone Bills", p, 2)] + phone;
    assert [] + [Category(b + 29, "Phone Bills", p, 2)] + phone == r1;
    BranchRowsSnoc(["Phone Bills"], "Other", p, 2, UtilityItemsInserted, b + 29, r1, b + 32);
    assert ["Phone Bills"] + ["Other"] == UtilitySubs;
    assert Rows(UtilityItemsInserted("Other"), Some(b + 32), 3, b + 33) == [];
    assert r1 + [Category(b + 32, "Other", p, 2)] + [] == UtilityRows(b);
  }

  /** The Spare Parts loop lays out the Spare Parts rows. */
  lemma SpareBranch(b: int)
    ensures BranchRows(SpareSubcategories, Some(b + 4), 2, SpareItems, b + 33) == SpareRows(b)
  {
    var p := Some(b + 4);
    var items1 := Rows(SpareSubsubcategories, Some(b + 33), 3, b + 34);
    BranchRowsSnoc([], "Pickup", p, 2, SpareItems, b + 33, [], b + 33);
    assert [] + ["Pickup"] == ["Pickup"];
    var r1 := [Category(b + 33, "Pickup", p, 2)] + items1;
    assert [] + [Category(b + 33, "Pickup", p, 2)] + items1 == r1;
    BranchRowsSnoc(["Pickup"], "Cranes", p, 2, SpareItems, b + 33, r1, b + 37);
    assert ["Pickup"] + ["Cranes"] == SpareSubcategories;
  }
}

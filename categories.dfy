/**
 * The `categories` table of database.py as an ordered sequence of rows
 * (rowid order), and the read-only queries over it: `get_categories`,
 * `get_category_id` and `get_category_name`.
 */
module Categories {
  import opened Wrappers
  import opened Sql

  /** One row `(id, name, parent_id, level)`; `parentId == None` is SQL NULL. */
  datatype Category = Category(id: int, name: string, parentId: Option<int>, level: int)

  /** Rowids grow in table order, so every id occurs once. */
  ghost predicate IdsIncreasing(rows: seq<Category>) {
    forall i, j :: 0 <= i < j < |rows| ==> rows[i].id < rows[j].id
  }

  /**
   * The rowid SQLite gives the next inserted row: one more than the largest
   * rowid in the table, or 1 in an empty table. With increasing ids the
   * largest is the last one.
   */
  function NextId(rows: seq<Category>): (id: int)
    ensures rows == [] ==> id == 1
    ensures rows != [] ==> id == rows[|rows| - 1].id + 1
  {
    NextRowid(rows, (c: Category) => c.id)
  }

  /** With increasing ids, the next id is larger than every id in the table. */
  lemma NextIdIsFresh(rows: seq<Category>)
    requires IdsIncreasing(rows)
    ensures forall r :: r in rows ==> r.id < NextId(rows)
  {
    forall r | r in rows ensures r.id < NextId(rows) {
      var i :| 0 <= i < |rows| && rows[i] == r;
      if i < |rows| - 1 {
        assert rows[i].id < rows[|rows| - 1].id;
      }
    }
  }

  /** Appending a row with the next id keeps ids increasing. */
  lemma AppendNextKeepsIdsIncreasing(rows: seq<Category>, c: Category)
    requires IdsIncreasing(rows) && c.id == NextId(rows)
    ensures IdsIncreasing(rows + [c])
  {
    NextIdIsFresh(rows);
    assert forall r :: r in rows ==> r.id < c.id;
  }

  // ---------------------------------------------------------------------
  // get_categories(level=None, parent_id=None)

  /**
   * A row passes the WHERE clause of `get_categories`: `level = ?` when a
   * level is given, `parent_id = ?` when a parent is given (a NULL
   * parent_id never equals a parameter).
   */
  predicate Listed(c: Category, level: Option<int>, parentId: Option<int>) {
    (level.None? || c.level == level.value)
    && (parentId.None? || c.parentId == parentId)
  }

  /** `get_categories(level, parent_id)`: the names of the listed rows, in table order. */
  function CategoryNames(rows: seq<Category>, level: Option<int>, parentId: Option<int>): (names: seq<string>)
    ensures |names| <= |rows|
  {
    if rows == [] then []
    else
      var rest := CategoryNames(rows[1..], level, parentId);
      if Listed(rows[0], level, parentId) then [rows[0].name] + rest else rest
  }

  /** A name is listed exactly when some row it names passes the filters. */
  lemma {:induction false} CategoryNamesMembers(rows: seq<Category>, level: Option<int>, parentId: Option<int>)
    ensures forall n :: n in CategoryNames(rows, level, parentId) <==>
      exists c :: c in rows && Listed(c, level, parentId) && c.name == n
  {
    if rows != [] {
      CategoryNamesMembers(rows[1..], level, parentId);
      assert forall c :: c in rows <==> c == rows[0] || c in rows[1..];
    }
  }

  /** The query preserves table order: it distributes over concatenation of tables. */
  lemma {:induction false} CategoryNamesAppend(a: seq<Category>, b: seq<Category>, level: Option<int>, parentId: Option<int>)
    ensures CategoryNames(a + b, level, parentId) == CategoryNames(a, level, parentId) + CategoryNames(b, level, parentId)
  {
    if a == [] {
      assert a + b == b;
    } else {
      var ab := a + b;
      var head := if Listed(a[0], level, parentId) then [a[0].name] else [];
      assert CategoryNames(ab, level, parentId) == head + CategoryNames(a[1..] + b, level, parentId) by {
        assert ab[0] == a[0];
        assert ab[1..] == a[1..] + b;
      }
      CategoryNamesAppend(a[1..], b, level, parentId);
      assert head + (CategoryNames(a[1..], level, parentId) + CategoryNames(b, level, parentId))
          == (head + CategoryNames(a[1..], level, parentId)) + CategoryNames(b, level, parentId);
    }
  }

  /** On one row the query yields its name exactly when the row is listed. */
  lemma CategoryNamesSingle(c: Category, level: Option<int>, parentId: Option<int>)
    ensures CategoryNames([c], level, parentId) == if Listed(c, level, parentId) then [c.name] else []
  {
    assert [c][1..] == [];
  }

  /** The name column of a table, in table order. */
  function AllNames(rows: seq<Category>): (names: seq<string>)
    ensures |names| == |rows| && forall i :: 0 <= i < |rows| ==> names[i] == rows[i].name
  {
    seq(|rows|, i requires 0 <= i < |rows| => rows[i].name)
  }

  /** With neither filter, `get_categories` returns every name, in table order. */
  lemma {:induction false} CategoryNamesUnfiltered(rows: seq<Category>)
    ensures CategoryNames(rows, None, None) == AllNames(rows)
  {
    if rows != [] {
      CategoryNamesUnfiltered(rows[1..]);
    }
  }

  // ---------------------------------------------------------------------
  // get_category_id(name, parent_id=None)

  /** `if parent_id:` in Python: the lookup is scoped only by a present, non-zero parent id. */
  predicate Scoped(parentId: Option<int>) {
    parentId.Some? && parentId.value != 0
  }

  /** A row matches `name = ?`, and `parent_id = ?` when the lookup is scoped. */
  predicate Named(c: Category, name: string, parentId: Option<int>) {
    c.name == name && (Scoped(parentId) ==> c.parentId == parentId)
  }

  /** `get_category_id(name, parent_id)`: the id of the first matching row, or None. */
  function CategoryId(rows: seq<Category>, name: string, parentId: Option<int>): (r: Option<int>)
    ensures r.Some? ==> r.value in Ids(rows)
  {
    if rows == [] then None
    else if Named(rows[0], name, parentId) then Some(rows[0].id)
    else CategoryId(rows[1..], name, parentId)
  }

  /** The rowids of a table. */
  function Ids(rows: seq<Category>): set<int> {
    set c | c in rows :: c.id
  }

  /** The lookup finds nothing exactly when no row matches, and otherwise the id of the first row that does. */
  lemma {:induction false} CategoryIdFirstMatch(rows: seq<Category>, name: string, parentId: Option<int>)
    ensures var r := CategoryId(rows, name, parentId);
      && (r.None? <==> forall i :: 0 <= i < |rows| ==> !Named(rows[i], name, parentId))
      && (r.Some? ==>
           exists i :: (0 <= i < |rows| && Named(rows[i], name, parentId) && rows[i].id == r.value
                        && forall j :: 0 <= j < i ==> !Named(rows[j], name, parentId)))
  {
    if rows != [] && !Named(rows[0], name, parentId) {
      CategoryIdFirstMatch(rows[1..], name, parentId);
      assert forall i :: 0 <= i < |rows[1..]| ==> rows[1..][i] == rows[i + 1];
      var r := CategoryId(rows, name, parentId);
      if r.Some? {
        var i :| 0 <= i < |rows[1..]| && Named(rows[1..][i], name, parentId) && rows[1..][i].id == r.value
                 && forall j :: 0 <= j < i ==> !Named(rows[1..][j], name, parentId);
        assert Named(rows[i + 1], name, parentId) && forall j :: 0 <= j < i + 1 ==> !Named(rows[j], name, parentId);
      }
    }
  }

  /** First-match lookup over two tables: the first table's match wins. */
  lemma {:induction false} CategoryIdAppend(a: seq<Category>, b: seq<Category>, name: string, parentId: Option<int>)
    ensures CategoryId(a + b, name, parentId)
      == if CategoryId(a, name, parentId).Some? then CategoryId(a, name, parentId) else CategoryId(b, name, parentId)
  {
    if a == [] {
      assert a + b == b;
    } else {
      assert (a + b)[1..] == a[1..] + b;
      CategoryIdAppend(a[1..], b, name, parentId);
    }
  }

  // ---------------------------------------------------------------------
  // get_category_name(category_id)

  /** The name of the first row with rowid `id`, if any. */
  function NameOfId(rows: seq<Category>, id: int): (r: Option<string>)
    ensures r.None? <==> id !in Ids(rows)
  {
    if rows == [] then None
    else if rows[0].id == id then Some(rows[0].name)
    else
      var r := NameOfId(rows[1..], id);
      assert Ids(rows) == {rows[0].id} + Ids(rows[1..]);
      r
  }

  /** The first row of the table with this id exists and is named `name`. */
  ghost predicate FirstNamed(rows: seq<Category>, id: int, name: string) {
    exists i :: (0 <= i < |rows| && rows[i].id == id && rows[i].name == name
                 && forall j :: 0 <= j < i ==> rows[j].id != id)
  }

  /** The name found is that of the first row with the id. */
  lemma {:induction false} NameOfIdFirstMatch(rows: seq<Category>, id: int)
    ensures var r := NameOfId(rows, id);
      r.Some? ==> FirstNamed(rows, id, r.value)
  {
    if rows != [] && rows[0].id != id {
      NameOfIdFirstMatch(rows[1..], id);
      var r := NameOfId(rows, id);
      if r.Some? {
        var i :| 0 <= i < |rows[1..]| && rows[1..][i].id == id && rows[1..][i].name == r.value
                 && forall j :: 0 <= j < i ==> rows[1..][j].id != id;
        assert rows[i + 1].id == id && forall j :: 0 <= j < i + 1 ==> rows[j].id != id;
      }
    }
  }

  /**
   * `get_category_name(category_id)`: None for a None id, otherwise the name
   * of the row with that id, or None when there is none. It is also the
   * name a `LEFT JOIN categories ON ... = id` brings.
   */
  function CategoryName(rows: seq<Category>, id: Option<int>): (r: Option<string>)
    ensures id.None? ==> r.None?
    ensures id.Some? ==> r == NameOfId(rows, id.value)
  {
    match id
    case None => None
    case Some(i) => NameOfId(rows, i)
  }

  /** A name found for an optional id is that of the first row with the id. */
  lemma CategoryNameFirstMatch(rows: seq<Category>, id: Option<int>)
    ensures var r := CategoryName(rows, id);
      r.Some? ==> id.Some? && FirstNamed(rows, id.value, r.value)
  {
    if id.Some? {
      NameOfIdFirstMatch(rows, id.value);
    }
  }

  /** Looking up the name of a resolved id gives back the name that was resolved. */
  lemma NameOfResolvedId(rows: seq<Category>, name: string, parentId: Option<int>)
    requires IdsIncreasing(rows)
    requires CategoryId(rows, name, parentId).Some?
    ensures CategoryName(rows, CategoryId(rows, name, parentId)) == Some(name)
  {
    CategoryIdFirstMatch(rows, name, parentId);
    var id := CategoryId(rows, name, parentId).value;
    NameOfIdFirstMatch(rows, id);
    var i :| 0 <= i < |rows| && Named(rows[i], name, parentId) && rows[i].id == id;
    var n := NameOfId(rows, id);
    var j :| 0 <= j < |rows| && rows[j].id == id && rows[j].name == n.value;
    assert i == j;
  }

  /** A name that resolves names an existing row; one that does not resolve names no row. */
  lemma ResolvedIdExists(rows: seq<Category>, name: string)
    ensures CategoryId(rows, name, None).Some? <==> name in CategoryNames(rows, None, None)
  {
    CategoryIdFirstMatch(rows, name, None);
    CategoryNamesMembers(rows, None, None);
    if CategoryId(rows, name, None).None? {
      assert forall c :: c in rows ==> !Named(c, name, None);
    }
  }
}

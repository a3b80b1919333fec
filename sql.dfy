/**
 * The row operations the tables share: the rowid an `INSERT` assigns, a
 * `WHERE` filter and an `ORDER BY ... DESC` sort. The sort is an insertion sort by a total
 * preorder; SQL leaves the order of ties unspecified, and the contracts
 * promise only sortedness and the same rows.
 */
module Sql {

  /**
   * The rowid SQLite gives the next inserted row of a table whose rowids
   * grow in table order: one more than the last row's, or 1 in an empty
   * table.
   */
  function NextRowid<T>(rows: seq<T>, rowid: T -> int): (id: int)
    ensures rows == [] ==> id == 1
  {
    if rows == [] then 1 else rowid(rows[|rows| - 1]) + 1
  }

  /** The rows that satisfy `p`, in table order, each as often as in `s`. */
  function Where<T(!new)>(s: seq<T>, p: T -> bool): (r: seq<T>)
    ensures |r| <= |s|
  {
    if s == [] then []
    else (if p(s[0]) then [s[0]] else []) + Where(s[1..], p)
  }

  /** The filter keeps every row that satisfies `p`, as often as it occurs, and no other row. */
  lemma {:induction false} WhereMultiset<T(!new)>(s: seq<T>, p: T -> bool)
    ensures forall x :: multiset(Where(s, p))[x] == if p(x) then multiset(s)[x] else 0
  {
    if s != [] {
      WhereMultiset(s[1..], p);
      assert s == [s[0]] + s[1..];
    }
  }

  /** Filtering distributes over concatenation. */
  lemma {:induction false} WhereAppend<T(!new)>(a: seq<T>, b: seq<T>, p: T -> bool)
    ensures Where(a + b, p) == Where(a, p) + Where(b, p)
  {
    if a == [] {
      assert a + b == b;
    } else {
      var ab := a + b;
      var head := if p(a[0]) then [a[0]] else [];
      assert Where(ab, p) == head + Where(a[1..] + b, p) by {
        assert ab[0] == a[0];
        assert ab[1..] == a[1..] + b;
      }
      WhereAppend(a[1..], b, p);
      assert head + (Where(a[1..], p) + Where(b, p)) == (head + Where(a[1..], p)) + Where(b, p);
    }
  }

  /** `le` is a total preorder: any two elements compare, and comparison chains. */
  ghost predicate TotalPreorder<T(!new)>(le: (T, T) -> bool) {
    && (forall a, b :: le(a, b) || le(b, a))
    && (forall a, b, c :: le(a, b) && le(b, c) ==> le(a, c))
  }

  /** Every element comes no later than the ones after it. */
  ghost predicate SortedBy<T>(s: seq<T>, le: (T, T) -> bool) {
    forall i, j :: 0 <= i < j < |s| ==> le(s[i], s[j])
  }

  /** Places `x` before the first element it may precede. */
  function InsertSorted<T(!new)>(x: T, s: seq<T>, le: (T, T) -> bool): (r: seq<T>)
    requires TotalPreorder(le) && SortedBy(s, le)
    ensures SortedBy(r, le) && multiset(r) == multiset(s) + multiset{x}
  {
    if s == [] then [x]
    else if le(x, s[0]) then [x] + s
    else
      var rest := InsertSorted(x, s[1..], le);
      assert s == [s[0]] + s[1..];
      HeadPrecedes(x, s, rest, le);
      [s[0]] + rest
  }

  /** When `x` goes after the head of `s`, that head precedes everything the insertion into the tail yields. */
  lemma HeadPrecedes<T(!new)>(x: T, s: seq<T>, rest: seq<T>, le: (T, T) -> bool)
    requires TotalPreorder(le) && SortedBy(s, le) && s != [] && !le(x, s[0])
    requires multiset(rest) == multiset(s[1..]) + multiset{x}
    ensures forall j :: 0 <= j < |rest| ==> le(s[0], rest[j])
  {
    forall j | 0 <= j < |rest| ensures le(s[0], rest[j]) {
      var y := rest[j];
      assert y in multiset(rest);
      if y != x {
        assert y in multiset(s[1..]);
        var k :| 0 <= k < |s[1..]| && s[1..][k] == y;
        assert s[k + 1] == y;
      }
    }
  }

  /** The input's elements, ordered by `le`. */
  function SortBy<T(!new)>(s: seq<T>, le: (T, T) -> bool): (r: seq<T>)
    requires TotalPreorder(le)
    ensures SortedBy(r, le) && multiset(r) == multiset(s) && |r| == |s|
  {
    if s == [] then []
    else
      assert s == [s[0]] + s[1..];
      InsertSorted(s[0], SortBy(s[1..], le), le)
  }
}

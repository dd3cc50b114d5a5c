/**
 * The row sort of lumina/widgets/datatable.py: list.sort with the key
 * row.get(column_key, "") and reverse for the descending direction.
 * CPython's sort is stable, also under reverse=True, and raises TypeError
 * as soon as it compares two keys Python cannot order.
 */
module TableSort {

  /** A cell value, as far as ordering is concerned: a number, a string, or None. */
  datatype Cell = Num(n: real) | Str(s: string) | NoneCell

  /** A table row; id is the row object's identity (id(row)). */
  datatype Row = Row(id: nat, cells: map<string, Cell>)

  /** row.get(column_key, "") */
  function KeyOf(row: Row, column: string): (k: Cell)
    ensures column !in row.cells ==> k == Str("")
  {
    if column in row.cells then row.cells[column] else Str("")
  }

  /** Python's str ordering: code point by code point, a proper prefix first. */
  predicate StrLess(a: string, b: string)
    decreases |a|
  {
    if a == [] then b != []
    else if b == [] then false
    else if a[0] != b[0] then a[0] < b[0]
    else StrLess(a[1..], b[1..])
  }

  lemma {:induction false} StrLessIrreflexive(a: string)
    ensures !StrLess(a, a)
    decreases |a|
  {
    if a != [] {
      StrLessIrreflexive(a[1..]);
    }
  }

  lemma {:induction false} StrLessTransitive(a: string, b: string, c: string)
    requires StrLess(a, b) && StrLess(b, c)
    ensures StrLess(a, c)
    decreases |a|
  {
    if a != [] && b != [] && c != [] && a[0] == b[0] == c[0] {
      StrLessTransitive(a[1..], b[1..], c[1..]);
    }
  }

  lemma {:induction false} StrLessTotal(a: string, b: string)
    requires a != b
    ensures StrLess(a, b) || StrLess(b, a)
    decreases |a|
  {
    if a != [] && b != [] && a[0] == b[0] {
      assert a == [a[0]] + a[1..] && b == [b[0]] + b[1..];
      StrLessTotal(a[1..], b[1..]);
    }
  }

  /** Whether Python can compare two keys: numbers with numbers, strings with strings. */
  predicate Comparable(a: Cell, b: Cell) {
    (a.Num? && b.Num?) || (a.Str? && b.Str?)
  }

  /**
   * Python's < on comparable keys. Keys of different kinds are ordered by
   * kind only so that the ordering lemmas need no side condition; a table
   * whose keys mix kinds raises before any such order could matter.
   */
  predicate CellLess(a: Cell, b: Cell) {
    match (a, b)
    case (Num(x), Num(y)) => x < y
    case (Str(x), Str(y)) => StrLess(x, y)
    case _ => Rank(a) < Rank(b)
  }

  function Rank(c: Cell): nat {
    match c
    case Num(_) => 0
    case Str(_) => 1
    case NoneCell => 2
  }

  lemma CellLessIrreflexive(a: Cell)
    ensures !CellLess(a, a)
  {
    if a.Str? {
      StrLessIrreflexive(a.s);
    }
  }

  lemma CellLessTransitive(a: Cell, b: Cell, c: Cell)
    requires CellLess(a, b) && CellLess(b, c)
    ensures CellLess(a, c)
  {
    if a.Str? && b.Str? && c.Str? {
      StrLessTransitive(a.s, b.s, c.s);
    }
  }

  lemma CellLessTotal(a: Cell, b: Cell)
    requires a != b
    ensures CellLess(a, b) || CellLess(b, a)
  {
    if a.Str? && b.Str? {
      StrLessTotal(a.s, b.s);
    }
  }

  /** Key a goes strictly before key b: smaller ascending, larger descending. */
  predicate Precedes(a: Cell, b: Cell, desc: bool) {
    if desc then CellLess(b, a) else CellLess(a, b)
  }

  lemma PrecedesIrreflexive(a: Cell, desc: bool)
    ensures !Precedes(a, a, desc)
  {
    CellLessIrreflexive(a);
  }

  lemma PrecedesTransitive(a: Cell, b: Cell, c: Cell, desc: bool)
    requires Precedes(a, b, desc) && Precedes(b, c, desc)
    ensures Precedes(a, c, desc)
  {
    if desc {
      CellLessTransitive(c, b, a);
    } else {
      CellLessTransitive(a, b, c);
    }
  }

  lemma PrecedesTotal(a: Cell, b: Cell, desc: bool)
    requires a != b
    ensures Precedes(a, b, desc) || Precedes(b, a, desc)
  {
    CellLessTotal(a, b);
  }

  /** Python sorts without an error exactly when all keys are numbers or all are strings, or there is nothing to compare. */
  predicate Orderable(rows: seq<Row>, column: string) {
    |rows| < 2
    || (forall i :: 0 <= i < |rows| ==> KeyOf(rows[i], column).Num?)
    || (forall i :: 0 <= i < |rows| ==> KeyOf(rows[i], column).Str?)
  }

  /** Every two keys of an orderable list can be compared by Python. */
  lemma OrderableKeysComparable(rows: seq<Row>, column: string, i: nat, j: nat)
    requires Orderable(rows, column) && i < |rows| && j < |rows| && i != j
    ensures Comparable(KeyOf(rows[i], column), KeyOf(rows[j], column))
  {
  }

  /** A list whose keys mix kinds has two keys Python cannot compare. */
  lemma UnorderableHasIncomparablePair(rows: seq<Row>, column: string)
    requires !Orderable(rows, column)
    ensures exists i, j :: 0 <= i < |rows| && 0 <= j < |rows| && !Comparable(KeyOf(rows[i], column), KeyOf(rows[j], column))
  {
    var i :| 0 <= i < |rows| && !KeyOf(rows[i], column).Num?;
    var j :| 0 <= j < |rows| && !KeyOf(rows[j], column).Str?;
    assert !Comparable(KeyOf(rows[i], column), KeyOf(rows[j], column));
  }

  /** No row is followed by one whose key goes strictly before its own. */
  predicate Ordered(rows: seq<Row>, column: string, desc: bool) {
    forall i, j :: 0 <= i < j < |rows| ==> !Precedes(KeyOf(rows[j], column), KeyOf(rows[i], column), desc)
  }

  /** The rows whose key is k, in list order. */
  function WithKey(rows: seq<Row>, column: string, k: Cell): (r: seq<Row>)
    ensures |r| <= |rows|
  {
    if rows == [] then []
    else (if KeyOf(rows[0], column) == k then [rows[0]] else []) + WithKey(rows[1..], column, k)
  }

  /** Insert x after every row whose key does not come after x's key. */
  function InsertRow(x: Row, rows: seq<Row>, column: string, desc: bool): (r: seq<Row>)
    ensures |r| == |rows| + 1
  {
    if rows == [] then [x]
    else if Precedes(KeyOf(x, column), KeyOf(rows[0], column), desc) then [x] + rows
    else [rows[0]] + InsertRow(x, rows[1..], column, desc)
  }

  /** The sorted list: each row in turn inserted after the rows before it. */
  function SortRows(rows: seq<Row>, column: string, desc: bool): (r: seq<Row>)
    ensures |r| == |rows|
  {
    if rows == [] then []
    else InsertRow(rows[|rows| - 1], SortRows(rows[..|rows| - 1], column, desc), column, desc)
  }

  lemma {:induction false} InsertRowPermutes(x: Row, rows: seq<Row>, column: string, desc: bool)
    ensures multiset(InsertRow(x, rows, column, desc)) == multiset(rows) + multiset{x}
    decreases |rows|
  {
    if rows != [] && !Precedes(KeyOf(x, column), KeyOf(rows[0], column), desc) {
      assert rows == [rows[0]] + rows[1..];
      InsertRowPermutes(x, rows[1..], column, desc);
    }
  }

  /** Sorting only rearranges the rows. */
  lemma {:induction false} SortRowsPermutes(rows: seq<Row>, column: string, desc: bool)
    ensures multiset(SortRows(rows, column, desc)) == multiset(rows)
    decreases |rows|
  {
    if rows != [] {
      var init, last := rows[..|rows| - 1], rows[|rows| - 1];
      assert rows == init + [last];
      SortRowsPermutes(init, column, desc);
      InsertRowPermutes(last, SortRows(init, column, desc), column, desc);
    }
  }

  lemma {:induction false} InsertRowOrdered(x: Row, rows: seq<Row>, column: string, desc: bool)
    requires Ordered(rows, column, desc)
    ensures Ordered(InsertRow(x, rows, column, desc), column, desc)
    decreases |rows|
  {
    if rows == [] {
      return;
    }
    var kx, k0 := KeyOf(x, column), KeyOf(rows[0], column);
    var r := InsertRow(x, rows, column, desc);
    if Precedes(kx, k0, desc) {
      forall j | 0 < j < |r|
        ensures !Precedes(KeyOf(r[j], column), kx, desc)
      {
        var kj := KeyOf(r[j], column);
        assert r[j] == rows[j - 1];
        if Precedes(kj, kx, desc) {
          PrecedesTransitive(kj, kx, k0, desc);
          if j - 1 == 0 {
            PrecedesIrreflexive(k0, desc);
          }
          assert false;
        }
      }
    } else {
      var tail := InsertRow(x, rows[1..], column, desc);
      InsertRowOrdered(x, rows[1..], column, desc);
      InsertRowPermutes(x, rows[1..], column, desc);
      forall j | 0 <= j < |tail|
        ensures !Precedes(KeyOf(tail[j], column), k0, desc)
      {
        assert tail[j] in multiset(tail);
        assert tail[j] == x || tail[j] in multiset(rows[1..]);
        if tail[j] != x {
          var m :| 0 <= m < |rows[1..]| && rows[1..][m] == tail[j];
          assert rows[m + 1] == tail[j];
        }
      }
      assert r == [rows[0]] + tail;
    }
  }

  lemma {:induction false} SortRowsOrdered(rows: seq<Row>, column: string, desc: bool)
    ensures Ordered(SortRows(rows, column, desc), column, desc)
    decreases |rows|
  {
    if rows != [] {
      var init := rows[..|rows| - 1];
      SortRowsOrdered(init, column, desc);
      InsertRowOrdered(rows[|rows| - 1], SortRows(init, column, desc), column, desc);
    }
  }

  lemma {:induction false} WithKeyAppend(a: seq<Row>, b: seq<Row>, column: string, k: Cell)
    ensures WithKey(a + b, column, k) == WithKey(a, column, k) + WithKey(b, column, k)
    decreases |a|
  {
    if a == [] {
      assert a + b == b;
    } else {
      var h := if KeyOf(a[0], column) == k then [a[0]] else [];
      assert (a + b)[0] == a[0] && (a + b)[1..] == a[1..] + b;
      WithKeyAppend(a[1..], b, column, k);
      calc {
        WithKey(a + b, column, k);
        h + WithKey(a[1..] + b, column, k);
        h + (WithKey(a[1..], column, k) + WithKey(b, column, k));
        (h + WithKey(a[1..], column, k)) + WithKey(b, column, k);
      }
    }
  }

  lemma WithKeyCons(x: Row, rows: seq<Row>, column: string, k: Cell)
    ensures WithKey([x] + rows, column, k) == (if KeyOf(x, column) == k then [x] else []) + WithKey(rows, column, k)
  {
    assert ([x] + rows)[0] == x && ([x] + rows)[1..] == rows;
  }

  /** Rows whose keys all come strictly after k hold no row with key k. */
  lemma {:induction false} WithKeyNone(rows: seq<Row>, column: string, k: Cell, desc: bool)
    requires forall i :: 0 <= i < |rows| ==> Precedes(k, KeyOf(rows[i], column), desc)
    ensures WithKey(rows, column, k) == []
    decreases |rows|
  {
    if rows != [] {
      PrecedesIrreflexive(k, desc);
      WithKeyNone(rows[1..], column, k, desc);
    }
  }

  /** In an ordered list, a key before the first row's key is before every row's key. */
  lemma AllAfter(k: Cell, rows: seq<Row>, column: string, desc: bool)
    requires Ordered(rows, column, desc) && rows != [] && Precedes(k, KeyOf(rows[0], column), desc)
    ensures forall i :: 0 <= i < |rows| ==> Precedes(k, KeyOf(rows[i], column), desc)
  {
    var k0 := KeyOf(rows[0], column);
    forall i | 0 < i < |rows|
      ensures Precedes(k, KeyOf(rows[i], column), desc)
    {
      var ki := KeyOf(rows[i], column);
      if ki != k0 {
        PrecedesTotal(ki, k0, desc);
        PrecedesTransitive(k, k0, ki, desc);
      }
    }
  }

  lemma OrderedTail(rows: seq<Row>, column: string, desc: bool)
    requires Ordered(rows, column, desc) && rows != []
    ensures Ordered(rows[1..], column, desc)
  {
    forall i, j | 0 <= i < j < |rows| - 1
      ensures !Precedes(KeyOf(rows[1..][j], column), KeyOf(rows[1..][i], column), desc)
    {
      assert rows[1..][j] == rows[j + 1] && rows[1..][i] == rows[i + 1];
    }
  }

  /** A row inserted at the front comes after no row of its own key. */
  lemma InsertRowFrontStable(x: Row, rows: seq<Row>, column: string, desc: bool, k: Cell)
    requires Ordered(rows, column, desc) && rows != []
    requires Precedes(KeyOf(x, column), KeyOf(rows[0], column), desc)
    ensures WithKey(InsertRow(x, rows, column, desc), column, k)
         == WithKey(rows, column, k) + (if KeyOf(x, column) == k then [x] else [])
  {
    assert InsertRow(x, rows, column, desc) == [x] + rows;
    WithKeyCons(x, rows, column, k);
    if KeyOf(x, column) == k {
      AllAfter(k, rows, column, desc);
      WithKeyNone(rows, column, k, desc);
    }
  }

  /** A row inserted past the first row: the first row's contribution is unchanged. */
  lemma InsertRowSkipStable(x: Row, rows: seq<Row>, column: string, desc: bool, k: Cell)
    requires rows != [] && !Precedes(KeyOf(x, column), KeyOf(rows[0], column), desc)
    requires WithKey(InsertRow(x, rows[1..], column, desc), column, k)
          == WithKey(rows[1..], column, k) + (if KeyOf(x, column) == k then [x] else [])
    ensures WithKey(InsertRow(x, rows, column, desc), column, k)
         == WithKey(rows, column, k) + (if KeyOf(x, column) == k then [x] else [])
  {
    assert [rows[0]] + rows[1..] == rows;
    var tail := InsertRow(x, rows[1..], column, desc);
    assert InsertRow(x, rows, column, desc) == [rows[0]] + tail;
    WithKeyCons(rows[0], tail, column, k);
    WithKeyCons(rows[0], rows[1..], column, k);
    var h := if KeyOf(rows[0], column) == k then [rows[0]] else [];
    var xs := if KeyOf(x, column) == k then [x] else [];
    calc {
      WithKey(InsertRow(x, rows, column, desc), column, k);
      h + WithKey(tail, column, k);
      h + (WithKey(rows[1..], column, k) + xs);
      (h + WithKey(rows[1..], column, k)) + xs;
      WithKey(rows, column, k) + xs;
    }
  }

  lemma {:induction false} InsertRowStable(x: Row, rows: seq<Row>, column: string, desc: bool, k: Cell)
    requires Ordered(rows, column, desc)
    ensures WithKey(InsertRow(x, rows, column, desc), column, k)
         == WithKey(rows, column, k) + (if KeyOf(x, column) == k then [x] else [])
    decreases |rows|
  {
    if rows == [] {
      return;
    }
    if Precedes(KeyOf(x, column), KeyOf(rows[0], column), desc) {
      InsertRowFrontStable(x, rows, column, desc, k);
    } else {
      OrderedTail(rows, column, desc);
      InsertRowStable(x, rows[1..], column, desc, k);
      InsertRowSkipStable(x, rows, column, desc, k);
    }
  }

  /** Stability: for every key, the rows with that key keep their relative order. */
  lemma {:induction false} SortRowsStable(rows: seq<Row>, column: string, desc: bool, k: Cell)
    ensures WithKey(SortRows(rows, column, desc), column, k) == WithKey(rows, column, k)
    decreases |rows|
  {
    if rows != [] {
      var init, last := rows[..|rows| - 1], rows[|rows| - 1];
      assert rows == init + [last];
      SortRowsStable(init, column, desc, k);
      SortRowsOrdered(init, column, desc);
      var sorted := SortRows(init, column, desc);
      InsertRowStable(last, sorted, column, desc, k);
      WithKeyAppend(init, [last], column, k);
      WithKeyCons(last, [], column, k);
      assert [last] + [] == [last];
      calc {
        WithKey(SortRows(rows, column, desc), column, k);
        WithKey(InsertRow(last, sorted, column, desc), column, k);
        WithKey(sorted, column, k) + (if KeyOf(last, column) == k then [last] else []);
        WithKey(init, column, k) + WithKey([last], column, k);
        WithKey(rows, column, k);
      }
    }
  }

  /** What sort_data leaves in the table: a stable, ordered permutation of the rows. */
  lemma SortRowsCorrect(rows: seq<Row>, column: string, desc: bool)
    ensures var r := SortRows(rows, column, desc);
      multiset(r) == multiset(rows)
      && Ordered(r, column, desc)
      && forall k :: WithKey(r, column, k) == WithKey(rows, column, k)
  {
    SortRowsPermutes(rows, column, desc);
    SortRowsOrdered(rows, column, desc);
    forall k {
      SortRowsStable(rows, column, desc, k);
    }
  }
}

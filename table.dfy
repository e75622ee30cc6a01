/**
 * The sorted two-key table the converter keeps its static field image in: cells
 * keyed by a row name and a column number, iterated by row name in `String.compareTo`
 * order, then by column.
 */
module Table {
  import opened Wrappers

  /** `String.compareTo(a, b) < 0`: lexicographic by character, a proper prefix first. */
  predicate StringLess(a: string, b: string)
    decreases |a|
  {
    if |a| == 0 then |b| > 0
    else if |b| == 0 then false
    else if a[0] != b[0] then a[0] < b[0]
    else StringLess(a[1..], b[1..])
  }

  lemma {:induction false} StringLessIrreflexive(a: string)
    ensures !StringLess(a, a)
    decreases |a|
  {
    if |a| > 0 {
      StringLessIrreflexive(a[1..]);
    }
  }

  lemma {:induction false} StringLessTransitive(a: string, b: string, c: string)
    requires StringLess(a, b) && StringLess(b, c)
    ensures StringLess(a, c)
    decreases |a|
  {
    if |a| > 0 && a[0] == b[0] && b[0] == c[0] {
      StringLessTransitive(a[1..], b[1..], c[1..]);
    }
  }

  lemma {:induction false} StringLessTotal(a: string, b: string)
    ensures a == b || StringLess(a, b) || StringLess(b, a)
    decreases |a|
  {
    if |a| > 0 && |b| > 0 && a[0] == b[0] {
      StringLessTotal(a[1..], b[1..]);
      if a[1..] == b[1..] {
        assert a == [a[0]] + a[1..] && b == [b[0]] + b[1..];
      }
    }
  }

  /** A cell of the table. */
  datatype Cell<V> = Cell(row: string, column: int, value: V)

  /** Cell `a` comes before cell `b`: smaller row name, or the same row and a smaller column. */
  predicate Before<V>(a: Cell<V>, b: Cell<V>)
  {
    StringLess(a.row, b.row) || (a.row == b.row && a.column < b.column)
  }

  lemma BeforeTransitive<V>(a: Cell<V>, b: Cell<V>, c: Cell<V>)
    requires Before(a, b) && Before(b, c)
    ensures Before(a, c)
  {
    if StringLess(a.row, b.row) && StringLess(b.row, c.row) {
      StringLessTransitive(a.row, b.row, c.row);
    }
  }

  /** The cells of a table in iteration order: strictly ascending keys. */
  predicate Ascending<V>(t: seq<Cell<V>>)
  {
    forall i, j :: 0 <= i < j < |t| ==> Before(t[i], t[j])
  }

  /** `Table.get(row, column)`. */
  function Get<V>(t: seq<Cell<V>>, row: string, column: int): Option<V>
  {
    if t == [] then None
    else if t[0].row == row && t[0].column == column then Some(t[0].value)
    else Get(t[1..], row, column)
  }

  /** A present cell is found by its own keys. */
  lemma {:induction false} GetPresent<V>(t: seq<Cell<V>>, i: int)
    requires Ascending(t) && 0 <= i < |t|
    ensures Get(t, t[i].row, t[i].column) == Some(t[i].value)
    decreases |t|
  {
    if i > 0 {
      StringLessIrreflexive(t[0].row);
      GetPresent(t[1..], i - 1);
    }
  }

  /** `Table.put`: insert in key order, or replace the value of an existing cell. */
  function Put<V>(t: seq<Cell<V>>, row: string, column: int, v: V): (r: seq<Cell<V>>)
    requires Ascending(t)
    ensures Ascending(r) && r != []
    ensures Get(r, row, column) == Some(v)
    ensures forall x, y :: (x != row || y != column) ==> Get(r, x, y) == Get(t, x, y)
    ensures forall i :: 0 <= i < |r| ==> r[i] == Cell(row, column, v) || r[i] in t
    ensures |t| <= |r| <= |t| + 1
  {
    var c := Cell(row, column, v);
    if t == [] then [c]
    else if t[0].row == row && t[0].column == column then
      [c] + t[1..]
    else if Before(c, t[0]) then
      forall j | 0 < j < |t| ensures Before(c, t[j]) {
        BeforeTransitive(c, t[0], t[j]);
      }
      [c] + t
    else
      var rest := Put(t[1..], row, column, v);
      StringLessTotal(row, t[0].row);
      assert Before(t[0], c);
      forall j | 0 <= j < |rest| ensures Before(t[0], rest[j]) {
        if rest[j] != c {
          assert rest[j] in t[1..];
        }
      }
      assert ([t[0]] + rest)[1..] == rest;
      [t[0]] + rest
  }

  /** `Table.putAll`: the cells of `cells` put one after the other. */
  function PutAll<V>(t: seq<Cell<V>>, cells: seq<Cell<V>>): (r: seq<Cell<V>>)
    requires Ascending(t)
    ensures Ascending(r)
    ensures |r| <= |t| + |cells|
    decreases |cells|
  {
    if cells == [] then t
    else
      var last := cells[|cells| - 1];
      Put(PutAll(t, cells[..|cells| - 1]), last.row, last.column, last.value)
  }

  /** Putting one more cell after a `putAll`. */
  lemma PutAllSnoc<V>(t: seq<Cell<V>>, cells: seq<Cell<V>>, c: Cell<V>)
    requires Ascending(t)
    ensures PutAll(t, cells + [c]) == Put(PutAll(t, cells), c.row, c.column, c.value)
  {
    assert (cells + [c])[..|cells|] == cells;
  }

  /** After `putAll`, a key holds the value of the last cell put under it, or its old value. */
  lemma {:induction false} PutAllGet<V>(t: seq<Cell<V>>, cells: seq<Cell<V>>, row: string, column: int)
    requires Ascending(t)
    ensures Get(PutAll(t, cells), row, column) ==
            if exists i :: 0 <= i < |cells| && cells[i].row == row && cells[i].column == column
            then Some(cells[LastWith(cells, row, column)].value)
            else Get(t, row, column)
    decreases |cells|
  {
    if cells != [] {
      var init := cells[..|cells| - 1];
      PutAllGet(t, init, row, column);
      var last := cells[|cells| - 1];
      if !(last.row == row && last.column == column) {
        if exists i :: 0 <= i < |cells| && cells[i].row == row && cells[i].column == column {
          var i :| 0 <= i < |cells| && cells[i].row == row && cells[i].column == column;
          assert init[i].row == row && init[i].column == column;
        }
        if exists i :: 0 <= i < |init| && init[i].row == row && init[i].column == column {
          var i :| 0 <= i < |init| && init[i].row == row && init[i].column == column;
          assert cells[i] == init[i];
        }
      }
    }
  }

  /** The index of the last cell of `cells` with the given keys. */
  function LastWith<V>(cells: seq<Cell<V>>, row: string, column: int): (r: int)
    requires exists i :: 0 <= i < |cells| && cells[i].row == row && cells[i].column == column
    ensures 0 <= r < |cells| && cells[r].row == row && cells[r].column == column
    ensures forall j :: r < j < |cells| ==> !(cells[j].row == row && cells[j].column == column)
    decreases |cells|
  {
    var last := cells[|cells| - 1];
    if last.row == row && last.column == column then |cells| - 1
    else
      var init := cells[..|cells| - 1];
      var i :| 0 <= i < |cells| && cells[i].row == row && cells[i].column == column;
      assert init[i] == cells[i];
      LastWith(init, row, column)
  }

  /** A key that `get` finds is the key of a cell of the table holding that value. */
  lemma {:induction false} GetIn<V>(t: seq<Cell<V>>, row: string, column: int)
    requires Get(t, row, column).Some?
    ensures Cell(row, column, Get(t, row, column).value) in t
    decreases |t|
  {
    if !(t[0].row == row && t[0].column == column) {
      GetIn(t[1..], row, column);
    }
  }

  /** Every cell of a `putAll` comes from the table or from the cells put. */
  lemma {:induction false} PutAllFrom<V>(t: seq<Cell<V>>, cells: seq<Cell<V>>, c: Cell<V>)
    requires Ascending(t) && c in PutAll(t, cells)
    ensures c in t || c in cells
    decreases |cells|
  {
    if cells != [] {
      var init, last := cells[..|cells| - 1], cells[|cells| - 1];
      if c != last {
        PutAllFrom(t, init, c);
        if c in init {
          var i :| 0 <= i < |init| && init[i] == c;
          assert cells[i] == c;
        }
      }
    }
  }

  /** A `putAll` of a sorted table sets each of its keys to its value. */
  lemma PutAllTake<V>(t: seq<Cell<V>>, cells: seq<Cell<V>>, c: Cell<V>)
    requires Ascending(t) && Ascending(cells) && c in cells
    ensures Get(PutAll(t, cells), c.row, c.column) == Some(c.value)
  {
    var i :| 0 <= i < |cells| && cells[i] == c;
    PutAllGet(t, cells, c.row, c.column);
    var r := LastWith(cells, c.row, c.column);
    StringLessIrreflexive(c.row);
    assert !Before(cells[i], cells[r]) && !Before(cells[r], cells[i]);
  }

  /** A `putAll` of cells none of which is in a column leaves that column as it was. */
  lemma PutAllKeep<V>(t: seq<Cell<V>>, cells: seq<Cell<V>>, row: string, column: int)
    requires Ascending(t) && forall c :: c in cells ==> c.column != column
    ensures Get(PutAll(t, cells), row, column) == Get(t, row, column)
  {
    PutAllGet(t, cells, row, column);
    assert forall i :: 0 <= i < |cells| ==> cells[i] in cells;
  }

  /** `row(name).size() > 1` for some row: two cells of a table share a row name. */
  predicate SharedRow<V>(t: seq<Cell<V>>)
  {
    exists i :: 0 <= i < |t| - 1 && t[i].row == t[i + 1].row
  }

  /** In a sorted table the cells of one row are adjacent, so a shared row shows up between neighbours. */
  lemma SharedRowAdjacent<V>(t: seq<Cell<V>>, i: int, j: int)
    requires Ascending(t) && 0 <= i < j < |t| && t[i].row == t[j].row
    ensures SharedRow(t)
  {
    if i + 1 < j {
      var a, b, c := t[i].row, t[i + 1].row, t[j].row;
      assert Before(t[i], t[i + 1]) && Before(t[i + 1], t[j]);
      StringLessIrreflexive(a);
      if StringLess(a, b) && StringLess(b, c) {
        StringLessTransitive(a, b, c);
      }
    }
    assert t[i].row == t[i + 1].row;
  }

  /** `row(name).keySet().iterator().next()`: the column of the first cell of a row, absent for an empty row. */
  function FirstInRow<V>(t: seq<Cell<V>>, row: string): (r: Option<int>)
    ensures r.None? <==> forall i :: 0 <= i < |t| ==> t[i].row != row
    ensures r.Some? ==> exists i :: 0 <= i < |t| && t[i].row == row && t[i].column == r.value
  {
    if t == [] then None
    else if t[0].row == row then Some(t[0].column)
    else
      var r := FirstInRow(t[1..], row);
      assert forall i :: 1 <= i < |t| ==> t[i] == t[1..][i - 1];
      r
  }

  /** In a sorted table the first cell of a row has the smallest column of that row. */
  lemma {:induction false} FirstInRowSmallest<V>(t: seq<Cell<V>>, row: string, i: int)
    requires Ascending(t) && 0 <= i < |t| && t[i].row == row
    ensures FirstInRow(t, row).Some? && FirstInRow(t, row).value <= t[i].column
    decreases |t|
  {
    if t[0].row == row {
      if i > 0 {
        assert Before(t[0], t[i]);
        StringLessIrreflexive(row);
      }
    } else {
      FirstInRowSmallest(t[1..], row, i - 1);
    }
  }

  /** `row(name).size()`: the number of cells in a row. */
  function RowSize<V>(t: seq<Cell<V>>, row: string): (r: nat)
    ensures r == 0 <==> FirstInRow(t, row).None?
    ensures r <= |t|
  {
    if t == [] then 0
    else (if t[0].row == row then 1 else 0) + RowSize(t[1..], row)
  }
}

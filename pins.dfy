/**
 * The pin triangle of `setup`: row `i` (for `i` in `0..4`) holds the columns
 * `c = -i, -i + 2, ..., i`, and the pin of cell `(i, c)` stands at `(c / 1.5, 2, -25 - i)`.
 * The functions here are the reference layout the setup loop is proved against.
 */
module Pins {
  import opened Ecs

  /** The number of pin rows: `for i in 0..4`. */
  const PinRows: nat := 4

  /** A pin's place in the triangle: its row `i` and its column `c`. */
  datatype Cell = Cell(row: int, col: int)

  /** The cells the inner `while c <= i` loop visits from column `c` on. */
  function RowFrom(i: int, c: int): seq<Cell>
    decreases i - c + 2
  {
    if c <= i then [Cell(i, c)] + RowFrom(i, c + 2) else []
  }

  /** The cells of the first `n` rows, row by row. */
  function Triangle(n: nat): seq<Cell>
  {
    if n == 0 then [] else Triangle(n - 1) + RowFrom(n - 1, -(n - 1))
  }

  /** The cells that belong to a triangle of `n` rows. */
  predicate InTriangle(x: Cell, n: nat)
  {
    0 <= x.row < n && -x.row <= x.col <= x.row && (x.row - x.col) % 2 == 0
  }

  /** The number of cells in row `i`. */
  function CountInRow(cells: seq<Cell>, i: int): nat
  {
    if cells == [] then 0
    else CountInRow(cells[..|cells| - 1], i) + (if cells[|cells| - 1].row == i then 1 else 0)
  }

  predicate Distinct<T(==)>(s: seq<T>)
  {
    forall j, k :: 0 <= j < k < |s| ==> s[j] != s[k]
  }

  /** Where the pin of a cell stands (`Transform::from_xyz(c / 1.5, 2., -25. - i)`). */
  function PinPosition(x: Cell): Vec3
  {
    Vec3(x.col as real / 1.5, 2.0, -25.0 - x.row as real)
  }

  /** The pin spawned for a cell: tagged `Pin` only. */
  function PinEntity(x: Cell): Entity
  {
    Entity(PinBox, {Pin}, PinPosition(x))
  }

  /** The pins spawned for a sequence of cells, in order. */
  function PinsAt(cells: seq<Cell>): seq<Entity>
  {
    seq(|cells|, k requires 0 <= k < |cells| => PinEntity(cells[k]))
  }

  lemma PinsAtAppend(cells: seq<Cell>, x: Cell)
    ensures PinsAt(cells + [x]) == PinsAt(cells) + [PinEntity(x)]
  {
    assert forall k :: 0 <= k < |cells| ==> (cells + [x])[k] == cells[k];
  }

  /** A row started at column `c` holds the cells of row `i` from `c` to `i` in steps of two. */
  lemma {:induction false} RowFromMembers(i: int, c: int, x: Cell)
    ensures x in RowFrom(i, c) <==> x.row == i && c <= x.col <= i && (x.col - c) % 2 == 0
    decreases i - c + 2
  {
    if c <= i {
      RowFromMembers(i, c + 2, x);
    }
  }

  /** The inner loop visits `(i - c) / 2 + 1` columns from an admissible start `c`. */
  lemma {:induction false} RowFromLength(i: int, c: int)
    requires c <= i + 2 && (i - c) % 2 == 0
    ensures |RowFrom(i, c)| == (i - c + 2) / 2
    decreases i - c + 2
  {
    if c <= i {
      RowFromLength(i, c + 2);
    }
  }

  /** Every cell the inner loop visits lies in row `i`, at column `c` or beyond. */
  lemma {:induction false} RowFromRows(i: int, c: int)
    ensures forall k :: 0 <= k < |RowFrom(i, c)| ==> RowFrom(i, c)[k].row == i && c <= RowFrom(i, c)[k].col
    decreases i - c + 2
  {
    if c <= i {
      RowFromRows(i, c + 2);
      var r := RowFrom(i, c);
      assert forall k :: 1 <= k < |r| ==> r[k] == RowFrom(i, c + 2)[k - 1];
    }
  }

  /** The columns of a row strictly increase, so a row holds no cell twice. */
  lemma {:induction false} RowFromIncreasing(i: int, c: int)
    ensures forall j, k :: 0 <= j < k < |RowFrom(i, c)| ==> RowFrom(i, c)[j].col < RowFrom(i, c)[k].col
    decreases i - c + 2
  {
    if c <= i {
      RowFromIncreasing(i, c + 2);
      RowFromRows(i, c + 2);
      var r, r' := RowFrom(i, c), RowFrom(i, c + 2);
      forall j, k | 0 <= j < k < |r| ensures r[j].col < r[k].col {
        assert r[k] == r'[k - 1];
        if j > 0 { assert r[j] == r'[j - 1]; }
      }
    }
  }

  lemma DistinctConcat(a: seq<Cell>, b: seq<Cell>)
    requires Distinct(a) && Distinct(b)
    requires forall j, k :: 0 <= j < |a| && 0 <= k < |b| ==> a[j] != b[k]
    ensures Distinct(a + b)
  {
    forall j, k | 0 <= j < k < |a + b| ensures (a + b)[j] != (a + b)[k] {
      if k < |a| {
        assert (a + b)[j] == a[j] && (a + b)[k] == a[k];
      } else if j < |a| {
        assert (a + b)[j] == a[j] && (a + b)[k] == b[k - |a|];
      } else {
        assert (a + b)[j] == b[j - |a|] && (a + b)[k] == b[k - |a|];
      }
    }
  }

  /** Row `i` of the triangle holds exactly its `i + 1` pins. */
  lemma FullRowLength(i: int)
    requires 0 <= i
    ensures |RowFrom(i, -i)| == i + 1
  {
    RowFromLength(i, -i);
  }

  /** `2 * |Triangle(n)| == n * (n + 1)`: one pin, then three, five and seven more. */
  lemma {:induction false} TriangleLength(n: nat)
    ensures 2 * |Triangle(n)| == n * (n + 1)
  {
    if n > 0 {
      TriangleLength(n - 1);
      FullRowLength(n - 1);
    }
  }

  /** The layout has ten pins. */
  lemma TenPins()
    ensures |Triangle(PinRows)| == 10
  {
    TriangleLength(PinRows);
  }

  /** A cell is laid out exactly when its row is in range, `-i <= c <= i` and `c` and `i` have the same parity. */
  lemma {:induction false} TriangleMembers(n: nat, x: Cell)
    ensures x in Triangle(n) <==> InTriangle(x, n)
  {
    if n > 0 {
      var m := n - 1;
      var a, b := Triangle(m), RowFrom(m, -m);
      assert Triangle(n) == a + b;
      assert x in Triangle(n) <==> x in a || x in b;
      TriangleMembers(m, x);
      RowFromMembers(m, -m, x);
      SameParity(x.col, m);
      assert InTriangle(x, n) <==> InTriangle(x, m) || (x.row == m && -m <= x.col <= m && (m - x.col) % 2 == 0);
    }
  }

  /** `b + a` and `b - a` differ by `2a`, so they have the same parity. */
  lemma SameParity(a: int, b: int)
    ensures (a + b) % 2 == (b - a) % 2
  {
  }

  /** Every cell of an `n`-row triangle lies in a row below `n`. */
  lemma TriangleRows(n: nat)
    ensures forall k :: 0 <= k < |Triangle(n)| ==> 0 <= Triangle(n)[k].row < n
  {
    forall k | 0 <= k < |Triangle(n)| ensures 0 <= Triangle(n)[k].row < n {
      TriangleMembers(n, Triangle(n)[k]);
    }
  }

  /** Every cell of the triangle is laid out once. */
  lemma {:induction false} TriangleDistinct(n: nat)
    ensures Distinct(Triangle(n))
  {
    if n > 0 {
      TriangleDistinct(n - 1);
      var a, b := Triangle(n - 1), RowFrom(n - 1, -(n - 1));
      RowFromIncreasing(n - 1, -(n - 1));
      RowFromRows(n - 1, -(n - 1));
      TriangleRows(n - 1);
      assert Distinct(b);
      DistinctConcat(a, b);
    }
  }

  lemma {:induction false} CountInRowAppend(a: seq<Cell>, b: seq<Cell>, i: int)
    ensures CountInRow(a + b, i) == CountInRow(a, i) + CountInRow(b, i)
    decreases |b|
  {
    if b != [] {
      assert (a + b)[..|a + b| - 1] == a + b[..|b| - 1];
      assert (a + b)[|a + b| - 1] == b[|b| - 1];
      CountInRowAppend(a, b[..|b| - 1], i);
    } else {
      assert a + b == a;
    }
  }

  lemma {:induction false} CountInRowOther(s: seq<Cell>, i: int)
    requires forall k :: 0 <= k < |s| ==> s[k].row != i
    ensures CountInRow(s, i) == 0
    decreases |s|
  {
    if s != [] {
      CountInRowOther(s[..|s| - 1], i);
    }
  }

  lemma {:induction false} CountInRowAll(s: seq<Cell>, i: int)
    requires forall k :: 0 <= k < |s| ==> s[k].row == i
    ensures CountInRow(s, i) == |s|
    decreases |s|
  {
    if s != [] {
      CountInRowAll(s[..|s| - 1], i);
    }
  }

  /** The last row of an `n`-row triangle holds `n` pins. */
  lemma LastRowCount(n: nat)
    requires n > 0
    ensures CountInRow(Triangle(n), n - 1) == n
  {
    var a, b := Triangle(n - 1), RowFrom(n - 1, -(n - 1));
    CountInRowAppend(a, b, n - 1);
    TriangleRows(n - 1);
    CountInRowOther(a, n - 1);
    RowFromRows(n - 1, -(n - 1));
    CountInRowAll(b, n - 1);
    FullRowLength(n - 1);
  }

  /** Row `i` of an `n`-row triangle holds `i + 1` pins. */
  lemma {:induction false} TriangleRowCount(n: nat, i: nat)
    requires i < n
    ensures CountInRow(Triangle(n), i) == i + 1
  {
    if i == n - 1 {
      LastRowCount(n);
    } else {
      var a, b := Triangle(n - 1), RowFrom(n - 1, -(n - 1));
      CountInRowAppend(a, b, i);
      TriangleRowCount(n - 1, i);
      RowFromRows(n - 1, -(n - 1));
      CountInRowOther(b, i);
    }
  }

  /** Two cells share a pin position only if they are the same cell. */
  lemma PinPositionInjective(x: Cell, y: Cell)
    requires PinPosition(x) == PinPosition(y)
    ensures x == y
  {
    assert x.col as real == PinPosition(x).x * 1.5;
    assert y.col as real == PinPosition(y).x * 1.5;
  }

  /** No two pins of the triangle stand at the same position. */
  lemma PinPositionsDistinct(n: nat)
    ensures forall j, k :: 0 <= j < k < |Triangle(n)| ==> PinPosition(Triangle(n)[j]) != PinPosition(Triangle(n)[k])
  {
    TriangleDistinct(n);
    forall j, k | 0 <= j < k < |Triangle(n)| ensures PinPosition(Triangle(n)[j]) != PinPosition(Triangle(n)[k]) {
      if PinPosition(Triangle(n)[j]) == PinPosition(Triangle(n)[k]) {
        PinPositionInjective(Triangle(n)[j], Triangle(n)[k]);
      }
    }
  }
}

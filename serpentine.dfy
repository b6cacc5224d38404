/**
 * The serpentine path of the reference word-clock strip: 10 visible rows of
 * 11 LEDs, even rows wired left to right and odd rows right to left, each row
 * taking the next block of 11 strip positions.
 */
module Serpentine {

  /** Strip position of the visible cell in column `x` of row `y`. */
  function IndexAt(x: nat, y: nat): (p: nat)
    requires x < 11
    ensures 11 * y <= p <= 11 * y + 10
  {
    if y % 2 == 0 then 11 * y + x else 11 * y + 10 - x
  }

  /** Row `y` of the wiring table, indexed by column. */
  function Row(y: nat): (row: seq<nat>)
    ensures |row| == 11
  {
    seq(11, x requires 0 <= x < 11 => IndexAt(x, y))
  }

  /** The cell `(x, y)` that strip position `p` lights: the inverse of IndexAt. */
  function CellOf(p: nat): (cell: (nat, nat))
    ensures cell.0 < 11 && cell.1 == p / 11
  {
    var y := p / 11;
    (if y % 2 == 0 then p % 11 else 10 - p % 11, y)
  }

  /** The linear (row-major) index of the cell that strip position `p` lights. */
  function ScanPosition(p: nat): (i: nat)
    ensures i % 11 == CellOf(p).0 && i / 11 == CellOf(p).1
  {
    11 * CellOf(p).1 + CellOf(p).0
  }

  /** The table rows `0 .. n-1` read one after another (row-major scan). */
  function Scan(n: nat): (s: seq<nat>)
    ensures |s| == 11 * n
  {
    if n == 0 then [] else Scan(n - 1) + Row(n - 1)
  }

  lemma CellOfIndexAt(x: nat, y: nat)
    requires x < 11
    ensures CellOf(IndexAt(x, y)) == (x, y)
  {
    var p := IndexAt(x, y);
    if y % 2 == 0 {
      assert p == 11 * y + x;
    } else {
      assert p == 11 * y + (10 - x);
    }
    assert p / 11 == y && p % 11 == (if y % 2 == 0 then x else 10 - x);
  }

  lemma IndexAtCellOf(p: nat)
    ensures IndexAt(CellOf(p).0, CellOf(p).1) == p
  {
    assert p == 11 * (p / 11) + p % 11;
  }

  /** Distinct cells are wired to distinct strip positions. */
  lemma Injective(x1: nat, y1: nat, x2: nat, y2: nat)
    requires x1 < 11 && x2 < 11
    requires IndexAt(x1, y1) == IndexAt(x2, y2)
    ensures x1 == x2 && y1 == y2
  {
    CellOfIndexAt(x1, y1);
    CellOfIndexAt(x2, y2);
  }

  /**
   * Over the visible 11 x 10 grid the wiring is a bijection onto the strip
   * positions `[0, 110)`.
   */
  lemma Bijection()
    ensures forall x: nat, y: nat :: x < 11 && y < 10 ==> IndexAt(x, y) < 110
    ensures forall x1: nat, y1: nat, x2: nat, y2: nat ::
              x1 < 11 && x2 < 11 && IndexAt(x1, y1) == IndexAt(x2, y2) ==> x1 == x2 && y1 == y2
    ensures forall p: nat :: p < 110 ==> CellOf(p).1 < 10 && IndexAt(CellOf(p).0, CellOf(p).1) == p
  {
    forall x1: nat, y1: nat, x2: nat, y2: nat | x1 < 11 && x2 < 11 && IndexAt(x1, y1) == IndexAt(x2, y2)
      ensures x1 == x2 && y1 == y2
    {
      Injective(x1, y1, x2, y2);
    }
    forall p: nat | p < 110
      ensures CellOf(p).1 < 10 && IndexAt(CellOf(p).0, CellOf(p).1) == p
    {
      IndexAtCellOf(p);
    }
  }

  /**
   * Within a row the position rises with the column on even rows and falls on
   * odd rows.
   */
  lemma RowDirection(x1: nat, x2: nat, y: nat)
    requires x1 < x2 < 11
    ensures y % 2 == 0 ==> IndexAt(x1, y) < IndexAt(x2, y)
    ensures y % 2 == 1 ==> IndexAt(x1, y) > IndexAt(x2, y)
  {
  }

  /**
   * Row `y` covers exactly the block `[11 * y, 11 * y + 10]`; the row's two
   * ends are 10 apart, and the LED after the row's last one is the first LED
   * of row `y + 1`.
   */
  lemma RowBlock(y: nat)
    ensures forall x: nat :: x < 11 ==> 11 * y <= IndexAt(x, y) <= 11 * y + 10
    ensures forall p: nat :: 11 * y <= p <= 11 * y + 10 ==> CellOf(p).1 == y && IndexAt(CellOf(p).0, y) == p
    ensures IndexAt(10, y) - IndexAt(0, y) == 10 || IndexAt(0, y) - IndexAt(10, y) == 10
    ensures IndexAt(if y % 2 == 0 then 10 else 0, y) + 1 == IndexAt(if (y + 1) % 2 == 0 then 0 else 10, y + 1)
  {
    forall p: nat | 11 * y <= p <= 11 * y + 10
      ensures CellOf(p).1 == y && IndexAt(CellOf(p).0, y) == p
    {
      assert p / 11 == y;
      IndexAtCellOf(p);
    }
  }

  /**
   * The strip is one continuous path: consecutive positions light cells that
   * are neighbours in the grid, along a row or down at a row's end.
   */
  lemma Continuous(p: nat)
    requires p + 1 < 110
    ensures var (x1, y1) := CellOf(p); var (x2, y2) := CellOf(p + 1);
            (y1 == y2 && (x2 == x1 + 1 || x1 == x2 + 1)) || (x1 == x2 && y2 == y1 + 1)
  {
    var y := p / 11;
    if p % 11 == 10 {
      assert (p + 1) / 11 == y + 1 && (p + 1) % 11 == 0;
    } else {
      assert (p + 1) / 11 == y && (p + 1) % 11 == p % 11 + 1;
    }
  }

  /** Position `i` of the row-major scan is the table entry in column `i % 11` of row `i / 11`. */
  lemma {:induction false} ScanAt(n: nat, i: nat)
    requires i < 11 * n
    ensures Scan(n)[i] == IndexAt(i % 11, i / 11)
  {
    if i < 11 * (n - 1) {
      ScanAt(n - 1, i);
    } else {
      var k := i - 11 * (n - 1);
      assert i / 11 == n - 1 && i % 11 == k;
      assert Scan(n)[i] == Row(n - 1)[k];
    }
  }
}

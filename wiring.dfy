/**
 * The word clock's coordinate-to-LED mapping: the `french_wiring` lookup table
 * and the `wiring` facade that derives the display's dimensions and turns 2D,
 * linear and minute positions into strip positions.
 */
module Wiring {
  import opened PyList
  import Serpentine

  /** A row of `n` zeros, as `[0 for x in range(n)]` builds it. */
  function Zeros(n: nat): (row: seq<nat>)
    ensures |row| == n
  {
    seq(n, _ => 0)
  }

  /**
   * A table under construction: rows below `k` hold the serpentine rows and
   * rows from `k` on still hold the `h + 1` zeros they were allocated with.
   */
  ghost predicate FilledUpTo(g: seq<seq<nat>>, k: nat, h: nat)
  {
    k <= |g|
    && (forall y :: 0 <= y < k ==> g[y] == Serpentine.Row(y))
    && (forall y :: k <= y < |g| ==> g[y] == Zeros(h + 1))
  }

  /** Writing the literal row `k` over a zero row extends the filled prefix. */
  lemma FillRow(g: seq<seq<nat>>, k: nat, h: nat)
    requires k < |g|
    requires forall y :: 0 <= y < k ==> g[y] == Serpentine.Row(y)
    requires forall y :: k < y < |g| ==> g[y] == Zeros(h + 1)
    requires g[k] == Serpentine.Row(k)
    ensures FilledUpTo(g, k + 1, h)
  {
  }

  /** The literal rows of the reference wiring are the serpentine rows. */
  lemma LiteralRows()
    ensures Serpentine.Row(0) == [0, 1, 2, 3, 4, 5, 6, 7, 8, 9, 10]
    ensures Serpentine.Row(1) == [21, 20, 19, 18, 17, 16, 15, 14, 13, 12, 11]
    ensures Serpentine.Row(2) == [22, 23, 24, 25, 26, 27, 28, 29, 30, 31, 32]
    ensures Serpentine.Row(3) == [43, 42, 41, 40, 39, 38, 37, 36, 35, 34, 33]
    ensures Serpentine.Row(4) == [44, 45, 46, 47, 48, 49, 50, 51, 52, 53, 54]
    ensures Serpentine.Row(5) == [65, 64, 63, 62, 61, 60, 59, 58, 57, 56, 55]
    ensures Serpentine.Row(6) == [66, 67, 68, 69, 70, 71, 72, 73, 74, 75, 76]
    ensures Serpentine.Row(7) == [87, 86, 85, 84, 83, 82, 81, 80, 79, 78, 77]
    ensures Serpentine.Row(8) == [88, 89, 90, 91, 92, 93, 94, 95, 96, 97, 98]
    ensures Serpentine.Row(9) == [109, 108, 107, 106, 105, 104, 103, 102, 101, 100, 99]
  {
  }

  /** One `strip.setPixelColor(index, color)` call made on the external strip driver. */
  datatype PixelCall = SetPixelColor(index: nat, color: int)

  /**
   * The serpentine wiring table of the reference clock. Although it is built
   * from a width and a height, its ten visible rows are fixed 11-LED rows.
   */
  class FrenchWiring {
    const width: nat
    const height: nat
    /** `grid[y][x]`: strip position of column `x` of row `y`. */
    var grid: seq<seq<nat>>

    /**
     * The table as construction leaves it: `width + 1` rows, rows 0..9 the
     * serpentine rows, and every later row `height + 1` zeros.
     */
    ghost predicate Valid()
      reads this
    {
      9 <= width && |grid| == width + 1
      && (forall y :: 0 <= y < 10 ==> grid[y] == Serpentine.Row(y))
      && (forall y :: 10 <= y < |grid| ==> grid[y] == Zeros(height + 1))
    }

    /** Allocates the zero table, then overwrites rows 0..9 one at a time. */
    constructor (wcaWidth: nat, wcaHeight: nat)
      requires 9 <= wcaWidth
      ensures width == wcaWidth && height == wcaHeight
      ensures Valid()
    {
      width := wcaWidth;
      height := wcaHeight;
      grid := seq(wcaWidth + 1, _ => Zeros(wcaHeight + 1));
      new;
      LiteralRows();
      grid := grid[0 := [0, 1, 2, 3, 4, 5, 6, 7, 8, 9, 10]];
      FillRow(grid, 0, height);
      grid := grid[1 := [21, 20, 19, 18, 17, 16, 15, 14, 13, 12, 11]];
      FillRow(grid, 1, height);
      grid := grid[2 := [22, 23, 24, 25, 26, 27, 28, 29, 30, 31, 32]];
      FillRow(grid, 2, height);
      grid := grid[3 := [43, 42, 41, 40, 39, 38, 37, 36, 35, 34, 33]];
      FillRow(grid, 3, height);
      grid := grid[4 := [44, 45, 46, 47, 48, 49, 50, 51, 52, 53, 54]];
      FillRow(grid, 4, height);
      grid := grid[5 := [65, 64, 63, 62, 61, 60, 59, 58, 57, 56, 55]];
      FillRow(grid, 5, height);
      grid := grid[6 := [66, 67, 68, 69, 70, 71, 72, 73, 74, 75, 76]];
      FillRow(grid, 6, height);
      grid := grid[7 := [87, 86, 85, 84, 83, 82, 81, 80, 79, 78, 77]];
      FillRow(grid, 7, height);
      grid := grid[8 := [88, 89, 90, 91, 92, 93, 94, 95, 96, 97, 98]];
      FillRow(grid, 8, height);
      grid := grid[9 := [109, 108, 107, 106, 105, 104, 103, 102, 101, 100, 99]];
      FillRow(grid, 9, height);
    }

    /**
     * `grid[y][x]`. On a visible row the read succeeds exactly for columns
     * -11..10 (negative ones counting from the row's end, as Python does) and
     * yields the serpentine position of that column.
     */
    function GetStripIndexFrom2D(x: int, y: int): (r: Lookup<nat>)
      reads this
      ensures Valid() && 0 <= y < 10 ==> (r.Found? <==> -11 <= x < 11)
      ensures Valid() && 0 <= y < 10 && r.Found? ==>
                r.value == Serpentine.IndexAt(if x < 0 then x + 11 else x, y)
    {
      match Subscript(grid, y)
      case IndexError => IndexError
      case Found(row) => Subscript(row, x)
    }

    /**
     * The LED of minute marker `m`: markers 1, 2, 3, 4 read columns 0, 1, 8, 9
     * of row 10; any other marker falls back to marker 1's cell. With the
     * reference stencil every marker reads a zero cell.
     */
    function MapMinutes(m: int): (r: Lookup<nat>)
      reads this
      ensures Valid() && 10 <= width && 9 <= height ==> r == Found(0)
    {
      if m == 1 then GetStripIndexFrom2D(0, 10)
      else if m == 2 then GetStripIndexFrom2D(1, 10)
      else if m == 3 then GetStripIndexFrom2D(8, 10)
      else if m == 4 then GetStripIndexFrom2D(9, 10)
      else GetStripIndexFrom2D(0, 10)
    }
  }

  /**
   * The facade: display dimensions taken from the stencil, and the mapping of
   * 2D, linear and minute positions through the French wiring table.
   */
  class Wiring {
    const wcaHeight: nat
    const wcaWidth: nat
    const ledCount: nat
    const wcl: FrenchWiring

    ghost predicate Valid()
      reads this, wcl
    {
      wcl.Valid() && wcl.width == wcaWidth && wcl.height == wcaHeight
      && ledCount == wcaWidth * wcaHeight
    }

    /**
     * `stencil` is the configured stencil, one decoded text row per display
     * row. The first row must exist, and the table construction needs at
     * least 9 columns.
     */
    constructor (stencil: seq<string>)
      requires |stencil| > 0
      requires 9 <= |stencil[0]|
      ensures wcaHeight == |stencil| && wcaWidth == |stencil[0]|
      ensures ledCount == wcaWidth * wcaHeight
      ensures fresh(wcl) && Valid()
    {
      wcaHeight := |stencil|;
      wcaWidth := |stencil[0]|;
      ledCount := |stencil[0]| * |stencil|;
      wcl := new FrenchWiring(|stencil[0]|, |stencil|);
    }

    /**
     * The table read for linear index `i`: column `i % W`, row `i / W`. With
     * the 11-column reference stencil, every index of the visible grid reads
     * the serpentine position of its cell.
     */
    function IndexFrom1D(i: int): (r: Lookup<nat>)
      requires 0 < wcaWidth
      reads this, wcl
      ensures Valid() && wcaWidth == 11 && 0 <= i < 110 ==> r == Found(Serpentine.IndexAt(i % 11, i / 11))
    {
      wcl.GetStripIndexFrom2D(i % wcaWidth, i / wcaWidth)
    }

    /** Delegates to the French table. */
    function GetStripIndexFrom2D(x: int, y: int): (r: Lookup<nat>)
      reads this, wcl
      ensures r == wcl.GetStripIndexFrom2D(x, y)
    {
      wcl.GetStripIndexFrom2D(x, y)
    }

    /** Delegates to the French table. */
    function MapMinutes(m: int): (r: Lookup<nat>)
      reads this, wcl
      ensures r == wcl.MapMinutes(m)
    {
      wcl.MapMinutes(m)
    }

    /**
     * Sets the LED at `(x, y)`: one strip call with the table's position, or,
     * when the table read raises IndexError, no call and `completed` false.
     */
    method SetColorBy2DCoordinates(x: int, y: int, color: int) returns (calls: seq<PixelCall>, completed: bool)
      ensures completed <==> wcl.GetStripIndexFrom2D(x, y).Found?
      ensures completed ==> calls == [SetPixelColor(wcl.GetStripIndexFrom2D(x, y).value, color)]
      ensures !completed ==> calls == []
    {
      var r := wcl.GetStripIndexFrom2D(x, y);
      if r.IndexError? {
        return [], false;
      }
      calls, completed := [SetPixelColor(r.value, color)], true;
    }

    /**
     * Sets each LED of `ledCoordinates`, in order, through its linear index.
     * Stops at the first index whose table read raises IndexError.
     */
    method SetColorBy1DCoordinates(ledCoordinates: seq<int>, color: int) returns (calls: seq<PixelCall>, completed: bool)
      requires Valid()
      ensures |calls| <= |ledCoordinates|
      ensures forall k :: 0 <= k < |calls| ==>
                IndexFrom1D(ledCoordinates[k]).Found?
                && calls[k] == SetPixelColor(IndexFrom1D(ledCoordinates[k]).value, color)
      ensures completed <==> forall k :: 0 <= k < |ledCoordinates| ==> IndexFrom1D(ledCoordinates[k]).Found?
      ensures completed ==> |calls| == |ledCoordinates|
      ensures !completed ==> |calls| < |ledCoordinates| && IndexFrom1D(ledCoordinates[|calls|]).IndexError?
    {
      calls := [];
      var k := 0;
      while k < |ledCoordinates|
        invariant 0 <= k <= |ledCoordinates| && |calls| == k
        invariant forall j :: 0 <= j < k ==>
                    IndexFrom1D(ledCoordinates[j]).Found?
                    && calls[j] == SetPixelColor(IndexFrom1D(ledCoordinates[j]).value, color)
      {
        var i := ledCoordinates[k];
        var made, ok := SetColorBy2DCoordinates(i % wcaWidth, i / wcaWidth, color);
        if !ok {
          return calls, false;
        }
        calls := calls + made;
        k := k + 1;
      }
      completed := true;
    }
  }

  /** The closed form of the table: even rows count up, odd rows count down. */
  lemma ClosedForm(w: FrenchWiring, x: nat, y: nat)
    requires w.Valid() && x < 11 && y < 10
    ensures y % 2 == 0 ==> w.GetStripIndexFrom2D(x, y) == Found(11 * y + x)
    ensures y % 2 == 1 ==> w.GetStripIndexFrom2D(x, y) == Found(11 * y + 10 - x)
  {
  }

  /**
   * Reading the visible grid hits every strip position `0..109` exactly once;
   * position `p` is read at cell `Serpentine.CellOf(p)`.
   */
  lemma TableBijection(w: FrenchWiring)
    requires w.Valid()
    ensures forall x: nat, y: nat :: x < 11 && y < 10 ==>
              w.GetStripIndexFrom2D(x, y).Found? && w.GetStripIndexFrom2D(x, y).value < 110
    ensures forall x1: nat, y1: nat, x2: nat, y2: nat ::
              (x1 < 11 && y1 < 10 && x2 < 11 && y2 < 10
               && w.GetStripIndexFrom2D(x1, y1) == w.GetStripIndexFrom2D(x2, y2)) ==> x1 == x2 && y1 == y2
    ensures forall p: nat :: p < 110 ==>
              Serpentine.CellOf(p).1 < 10 && w.GetStripIndexFrom2D(Serpentine.CellOf(p).0, Serpentine.CellOf(p).1) == Found(p)
  {
    Serpentine.Bijection();
  }

  /** The known corners and row ends of the reference wiring. */
  lemma ConcreteValues(w: FrenchWiring)
    requires w.Valid()
    ensures w.GetStripIndexFrom2D(0, 0) == Found(0)
    ensures w.GetStripIndexFrom2D(10, 0) == Found(10)
    ensures w.GetStripIndexFrom2D(10, 1) == Found(11)
    ensures w.GetStripIndexFrom2D(0, 1) == Found(21)
    ensures w.GetStripIndexFrom2D(0, 9) == Found(109)
  {
  }

  /**
   * Rows 10 and beyond exist only as wide as the table is tall, and hold zeros;
   * reads past the last row raise IndexError.
   */
  lemma AuxiliaryRows(w: FrenchWiring, x: int, y: int)
    requires w.Valid() && 10 <= y
    ensures w.GetStripIndexFrom2D(x, y).Found? <==> y <= w.width && -(w.height + 1) <= x <= w.height
    ensures w.GetStripIndexFrom2D(x, y).Found? ==> w.GetStripIndexFrom2D(x, y).value == 0
  {
  }

  /**
   * Minute markers: which markers can be read depends on the table's shape,
   * and every marker that can be read is a zero cell of row 10.
   */
  lemma MinuteMarkers(w: FrenchWiring, m: int)
    requires w.Valid()
    ensures w.width == 9 ==> w.MapMinutes(m) == IndexError
    ensures 10 <= w.width ==>
              w.MapMinutes(m) == if (m == 2 && w.height < 1) || (m == 3 && w.height < 8) || (m == 4 && w.height < 9) then IndexError else Found(0)
  {
  }

  /** A marker other than 1..4 reads the same cell as marker 1. */
  lemma MinuteFallback(w: FrenchWiring, m: int)
    requires m != 1 && m != 2 && m != 3 && m != 4
    ensures w.MapMinutes(m) == w.MapMinutes(1) == w.GetStripIndexFrom2D(0, 10)
  {
  }

  /**
   * For the reference 11 x 10 stencil, linear index `i` reads the same
   * position as the `i`-th entry of the row-major scan of the visible rows.
   */
  lemma LinearRoundTrip(wr: Wiring, i: int)
    requires wr.Valid() && wr.wcaWidth == 11 && wr.wcaHeight == 10
    requires 0 <= i < wr.ledCount
    ensures wr.IndexFrom1D(i) == Found(Serpentine.Scan(10)[i])
  {
    Serpentine.ScanAt(10, i);
  }

  /**
   * For the reference 11 x 10 stencil the linear mapping is a bijection
   * from `[0, LED_COUNT)` onto the strip positions `[0, LED_COUNT)`, undone
   * by Serpentine.ScanPosition.
   */
  lemma LinearBijection(wr: Wiring)
    requires wr.Valid() && wr.wcaWidth == 11 && wr.wcaHeight == 10
    ensures wr.ledCount == 110
    ensures forall i :: 0 <= i < wr.ledCount ==> wr.IndexFrom1D(i).Found? && wr.IndexFrom1D(i).value < wr.ledCount
    ensures forall i, j :: 0 <= i < wr.ledCount && 0 <= j < wr.ledCount && wr.IndexFrom1D(i) == wr.IndexFrom1D(j) ==> i == j
    ensures forall p :: 0 <= p < wr.ledCount ==>
              0 <= Serpentine.ScanPosition(p) < wr.ledCount && wr.IndexFrom1D(Serpentine.ScanPosition(p)) == Found(p)
  {
    assert wr.ledCount == 110;
    Serpentine.Bijection();
    forall i, j | 0 <= i < wr.ledCount && 0 <= j < wr.ledCount && wr.IndexFrom1D(i) == wr.IndexFrom1D(j)
      ensures i == j
    {
      Serpentine.Injective(i % 11, i / 11, j % 11, j / 11);
    }
    forall p | 0 <= p < wr.ledCount
      ensures 0 <= Serpentine.ScanPosition(p) < wr.ledCount && wr.IndexFrom1D(Serpentine.ScanPosition(p)) == Found(p)
    {
      var (x, y) := Serpentine.CellOf(p);
      Serpentine.IndexAtCellOf(p);
      var i := Serpentine.ScanPosition(p);
      assert i % 11 == x && i / 11 == y;
    }
  }
}

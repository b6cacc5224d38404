# Word-clock wiring

A Dafny model of the coordinate-to-LED translation of a word clock whose
letters are lit by one addressable LED strip (`wiring.py`). The class
`french_wiring` holds a lookup table that records the serpentine route of the
strip through 10 visible rows of 11 letters: even rows run left to right, odd
rows right to left, and every row takes the next block of 11 strip positions.
The class `wiring` is the facade. It derives the display's width, height and
LED count from the configured stencil. It maps a 2D cell, a linear index or a
minute marker (1 to 4) to a strip position, and it sets colours on the strip.

Modules:

- `PyList` (`py_list.dfy`): Python list subscripting, `s[k]`. A negative `k`
  counts from the end, and an out-of-range `k` gives `IndexError`.
- `Serpentine` (`serpentine.dfy`): the closed form of the wiring (`IndexAt`),
  its inverse (`CellOf`) and the row-major scan of the table (`Scan`). It also
  holds the lemmas about them: bijection, row direction, row blocks, continuity
  and scan order.
- `Wiring` (`wiring.dfy`): the classes `FrenchWiring` and `Wiring`, and lemmas
  tying the constructed table and the facade to `Serpentine`.

Points where the code's behaviour is easy to misread; the model follows the code:

- The table is allocated as `width + 1` rows of `height + 1` zeros (line 70),
  not `height + 1` rows of `width + 1`. Rows 0 to 9 are then replaced by fixed
  11-entry lists, whatever the stencil's shape. So the constructor needs
  `width >= 9`, and rows 10 and up stay zeros.
- Row 10 is never filled, because its assignment on line 81 is commented out.
  So every minute marker that can be read at all reads 0.
- Markers 3 and 4 read columns 8 and 9 of row 10, not columns `W-2` and `W-1`.
- A marker outside 1 to 4 does not fail. It falls back to marker 1's cell.
- Coordinates are not range-checked. The model reads them with Python's list
  rules: negative subscripts wrap, and anything else out of range gives
  `IndexError`.

The strip driver is external. `strip.setPixelColor(index, color)` is modelled
as a `PixelCall` value, and the colour-setting methods return the calls they
make, in order. When a table read raises `IndexError`, the loop stops and
reports `completed == false`, as the Python exception would end it. The linear
split uses `i % W` and `i / W`. `W` is positive, so Dafny's Euclidean operators
agree with Python 2's floor division and modulo, even for negative `i`.

## Model

| member | source | states |
|---|---|---|
| Wiring.FrenchWiring.constructor | wiring.py:66-81 | the table has `width + 1` rows; rows 0 to 9 are the serpentine rows; every later row is `height + 1` zeros |
| Wiring.LiteralRows | wiring.py:71-80 | each literal row written by the constructor equals the closed-form row `Serpentine.Row(y)` |
| Wiring.FrenchWiring.GetStripIndexFrom2D | wiring.py:84-92 | on a visible row the read succeeds exactly for columns -11 to 10 and gives the serpentine position of that column (negative columns count from the row's end) |
| Wiring.FrenchWiring.MapMinutes | wiring.py:94-112 | with width ≥ 10 (so row 10 exists) and height ≥ 9 (so row 10 has columns 0–9), every marker, including an invalid one, gives strip position 0 |
| Wiring.ClosedForm | wiring.py:71-80 | cell `(x, y)` of the visible grid holds `11*y + x` on even rows and `11*y + 10 - x` on odd rows |
| Wiring.TableBijection | wiring.py:71-80 | every visible cell reads a position below 110; distinct cells read distinct positions; every position `p` in `[0, 110)` is read at cell `Serpentine.CellOf(p)` |
| Wiring.ConcreteValues | wiring.py:71-80 | `(0,0)` gives 0, `(10,0)` gives 10, `(10,1)` gives 11, `(0,1)` gives 21 and `(0,9)` gives 109 |
| Wiring.AuxiliaryRows | wiring.py:70 | a read on row 10 or later succeeds exactly when the row exists and the column is within its `height + 1` entries, and then gives 0 |
| Wiring.MinuteMarkers | wiring.py:101-108 | a 10-row table (width 9) raises IndexError for every marker; otherwise a marker raises IndexError only when its column (1, 8 or 9) is past row 10's end, and gives 0 otherwise |
| Wiring.MinuteFallback | wiring.py:109-112 | a marker other than 1 to 4 reads the same cell `(0, 10)` as marker 1 |
| Wiring.Wiring.constructor | wiring.py:12-30 | height is the number of stencil rows; width is the length of the first row; LED count is width times height; the French table is built with these dimensions |
| Wiring.Wiring.GetStripIndexFrom2D | wiring.py:48-49 | gives exactly the French table's result |
| Wiring.Wiring.MapMinutes | wiring.py:51-55 | gives exactly the French table's result |
| PyList.Subscript | wiring.py:92 | `s[k]` succeeds exactly for `-len <= k < len`, reading element `k` from the front, or element `len + k` when `k` is negative; otherwise IndexError |
| Wiring.Wiring.IndexFrom1D | wiring.py:37 | reads column `i % W` of row `i / W`; with the 11-column stencil every `i` in `[0, 110)` reads the serpentine position of cell `(i % 11, i / 11)` |
| Wiring.Wiring.SetColorBy2DCoordinates | wiring.py:39-47 | one call with the table's position and the colour when the read succeeds; no call when it raises IndexError |
| Wiring.Wiring.SetColorBy1DCoordinates | wiring.py:32-37 | one call per coordinate, in input order, for the cell `(i % W, i / W)` with the given colour; it stops at the first coordinate whose read raises IndexError, and `completed` holds exactly when no read raises |
| Wiring.LinearRoundTrip | wiring.py:36-37 | for the 11 x 10 stencil, linear index `i < LED_COUNT` reads entry `i` of the row-major scan of the table |
| Wiring.LinearBijection | wiring.py:36-37 | for the 11 x 10 stencil, `LED_COUNT` is 110 and the linear mapping is a bijection of `[0, 110)` whose inverse is `Serpentine.ScanPosition` |
| Serpentine.IndexAt | wiring.py:71-80 | row `y` is wired into the block `[11*y, 11*y + 10]` |
| Serpentine.CellOfIndexAt | wiring.py:71-80 | `CellOf` undoes `IndexAt` on every cell |
| Serpentine.IndexAtCellOf | wiring.py:71-80 | `IndexAt` undoes `CellOf` on every position |
| Serpentine.Injective | wiring.py:71-80 | two cells with the same position are the same cell |
| Serpentine.Bijection | wiring.py:71-80 | `IndexAt` maps the 11 x 10 grid into `[0, 110)`, is injective, and reaches every position in `[0, 110)` |
| Serpentine.RowDirection | wiring.py:71-80 | within a row the position rises strictly with the column on even rows and falls strictly on odd rows |
| Serpentine.RowBlock | wiring.py:71-80 | row `y` covers exactly `[11*y, 11*y + 10]`; the row's two ends are 10 apart; the LED after the row's last one is the first LED of row `y + 1` |
| Serpentine.Continuous | wiring.py:71-80 | consecutive strip positions light neighbouring cells, either along a row or straight down at a row's end |
| Serpentine.ScanAt | wiring.py:71-80 | entry `i` of the row-major scan of the first `n` rows is the table entry in column `i % 11` of row `i / 11` |

## Left out

- Configuration parsing is not modelled. The stencil is a parameter: one row per
  display row, already decoded from UTF-8 (the source reads it with
  `config.get` and `ast.literal_eval` and decodes its first row).
- The `wiring_layout` setting is read but never used, and `french_wiring` is
  always built. There is no variant choice to model.
- The diagnostic `print` output is not modelled, both at construction and on an
  invalid minute marker.
- `LED_PIN`, `LED_FREQ_HZ`, `LED_DMA` and `LED_INVERT` are constants passed
  through to the strip driver. They are not modelled.
- The strip driver is external. Its `setPixelColor` calls appear only as the
  returned `PixelCall` trace.
- Wiring.FrenchWiring.constructor: requires `width >= 9`. With fewer columns,
  the source's row assignments on lines 71-80 raise IndexError during
  construction, and the model does not represent that failure.
- Wiring.Wiring.constructor: requires a non-empty stencil whose first row has
  at least 9 characters. An empty stencil makes the source raise on
  `stancil_content[0]`, and a shorter first row makes the table construction
  raise.

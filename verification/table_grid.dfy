/** Table validation: the occupancy loop accepts exactly disjoint rectangles inside the grid. */
module TableGrid {
  import opened Wrappers

  const MAX_TABLE_DIMENSION := 10_000
  const MAX_TABLE_GRID_CELLS := 1_000_000
  const MAX_TABLE_CELLS := 250_000

  /** A cell as its own constructor admits it. */
  datatype Cell = Cell(row: int, column: int, rowspan: int, colspan: int)

  predicate CellOk(c: Cell) {
    c.row >= 0 && c.column >= 0 && c.rowspan >= 1 && c.colspan >= 1
  }

  datatype TableError =
    | InvalidDimensions | DimensionTooLarge | OneDimensionZero | GridTooLarge | TooManyCells
    | SpanExceedsTable(cell: nat) | CellsOverlap(cell: nat)

  type Position = (int, int)

  predicate Inside(c: Cell, rows: int, columns: int) {
    c.row + c.rowspan <= rows && c.column + c.colspan <= columns
  }

  /** Two rectangles lie side by side or one above the other. */
  predicate Apart(a: Cell, b: Cell) {
    || a.row + a.rowspan <= b.row || b.row + b.rowspan <= a.row
    || a.column + a.colspan <= b.column || b.column + b.colspan <= a.column
  }

  predicate Covers(c: Cell, p: Position) {
    c.row <= p.0 < c.row + c.rowspan && c.column <= p.1 < c.column + c.colspan
  }

  predicate Tiled(cells: seq<Cell>, rows: int, columns: int) {
    && (forall i :: 0 <= i < |cells| ==> Inside(cells[i], rows, columns))
    && (forall i, j :: 0 <= i < j < |cells| ==> Apart(cells[i], cells[j]))
  }

  function Area(cells: seq<Cell>): int {
    if cells == [] then 0
    else Area(cells[..|cells| - 1]) + cells[|cells| - 1].rowspan * cells[|cells| - 1].colspan
  }

  /** The grid checks made before any cell is looked at, in their order. */
  function GridError(named: bool, rows: int, columns: int, count: nat): Option<TableError> {
    if !named || rows < 0 || columns < 0 then Some(InvalidDimensions)
    else if rows > MAX_TABLE_DIMENSION || columns > MAX_TABLE_DIMENSION then Some(DimensionTooLarge)
    else if (rows == 0) != (columns == 0) then Some(OneDimensionZero)
    else if rows * columns > MAX_TABLE_GRID_CELLS then Some(GridTooLarge)
    else if count > MAX_TABLE_CELLS then Some(TooManyCells)
    else None
  }

  /** `occupied` is exactly what the cells cover. */
  ghost predicate OccupiedBy(occupied: set<Position>, cells: seq<Cell>) {
    forall p :: p in occupied <==> exists i :: 0 <= i < |cells| && Covers(cells[i], p)
  }

  /** Rectangles that are not apart share a position. */
  lemma NotApartMeet(a: Cell, b: Cell) returns (p: Position)
    requires CellOk(a) && CellOk(b) && !Apart(a, b)
    ensures Covers(a, p) && Covers(b, p)
  {
    p := (if a.row > b.row then a.row else b.row, if a.column > b.column then a.column else b.column);
  }

  /** Marks one cell's positions, or finds one already taken. */
  method Occupy(c: Cell, before: set<Position>) returns (occupied: Option<set<Position>>)
    requires CellOk(c)
    ensures occupied.None? <==> exists p :: p in before && Covers(c, p)
    ensures occupied.Some? ==> forall p :: p in occupied.value <==> p in before || Covers(c, p)
    ensures occupied.Some? ==> |occupied.value| == |before| + c.rowspan * c.colspan
  {
    var taken := before;
    var row := c.row;
    while row < c.row + c.rowspan
      invariant c.row <= row <= c.row + c.rowspan
      invariant forall p :: p in taken <==> p in before || (Covers(c, p) && p.0 < row)
      invariant forall p :: p in before && Covers(c, p) ==> p.0 >= row
      invariant |taken| == |before| + (row - c.row) * c.colspan
    {
      ghost var start := taken;
      var column := c.column;
      while column < c.column + c.colspan
        invariant c.column <= column <= c.column + c.colspan
        invariant forall p :: p in taken <==> p in start || (p.0 == row && c.column <= p.1 < column)
        invariant forall k :: c.column <= k < column ==> (row, k) !in before
        invariant |taken| == |start| + (column - c.column)
      {
        if (row, column) in taken {
          assert (row, column) in before && Covers(c, (row, column));
          return None;
        }
        taken := taken + {(row, column)};
        column := column + 1;
      }
      assert (row + 1 - c.row) * c.colspan == (row - c.row) * c.colspan + c.colspan;
      row := row + 1;
    }
    occupied := Some(taken);
  }

  /**
   Validates a table. It is accepted exactly when the limits hold and the cells
   are pairwise apart inside the grid; otherwise the first offending cell is named.
   */
  method ValidateTable(named: bool, rows: int, columns: int, cells: seq<Cell>)
    returns (error: Option<TableError>, ghost occupied: set<Position>)
    requires forall i :: 0 <= i < |cells| ==> CellOk(cells[i])
    ensures error.None? <==> GridError(named, rows, columns, |cells|).None? && Tiled(cells, rows, columns)
    ensures error.Some? && error.value.SpanExceedsTable? ==>
              error.value.cell < |cells| && Tiled(cells[..error.value.cell], rows, columns)
              && !Inside(cells[error.value.cell], rows, columns)
    ensures error.Some? && error.value.CellsOverlap? ==>
              error.value.cell < |cells| && Tiled(cells[..error.value.cell], rows, columns)
              && Inside(cells[error.value.cell], rows, columns)
              && exists j :: 0 <= j < error.value.cell && !Apart(cells[j], cells[error.value.cell])
    ensures GridError(named, rows, columns, |cells|).Some? ==> error == GridError(named, rows, columns, |cells|)
    ensures GridError(named, rows, columns, |cells|).None? && error.Some? ==>
              error.value.SpanExceedsTable? || error.value.CellsOverlap?
    ensures error.None? ==> OccupiedBy(occupied, cells) && Area(cells) == |occupied| <= rows * columns
  {
    occupied := {};
    error := GridError(named, rows, columns, |cells|);
    if error.Some? {
      return;
    }
    var taken: set<Position> := {};
    for i := 0 to |cells|
      invariant Tiled(cells[..i], rows, columns)
      invariant OccupiedBy(taken, cells[..i])
      invariant |taken| == Area(cells[..i])
    {
      assert cells[..i + 1] == cells[..i] + [cells[i]];
      if !Inside(cells[i], rows, columns) {
        return Some(SpanExceedsTable(i)), taken;
      }
      var next := Occupy(cells[i], taken);
      if next.None? {
        OverlapFound(cells, i, taken);
        return Some(CellsOverlap(i)), taken;
      }
      NoOverlap(cells, i, taken);
      OccupiedMore(cells, i, taken, next.value);
      taken := next.value;
    }
    assert cells[..|cells|] == cells;
    GridBounds(cells, rows, columns, taken);
    occupied := taken;
  }

  lemma OverlapFound(cells: seq<Cell>, i: nat, occupied: set<Position>)
    requires i < |cells| && OccupiedBy(occupied, cells[..i]) && exists p :: p in occupied && Covers(cells[i], p)
    ensures exists j :: 0 <= j < i && !Apart(cells[j], cells[i])
  {
    var p :| p in occupied && Covers(cells[i], p);
    var j :| 0 <= j < i && Covers(cells[..i][j], p);
    assert !Apart(cells[j], cells[i]);
  }

  lemma NoOverlap(cells: seq<Cell>, i: nat, occupied: set<Position>)
    requires i < |cells| && (forall j :: 0 <= j < |cells| ==> CellOk(cells[j])) && OccupiedBy(occupied, cells[..i])
    requires forall p :: p in occupied ==> !Covers(cells[i], p)
    ensures forall j :: 0 <= j < i ==> Apart(cells[j], cells[i])
  {
    forall j | 0 <= j < i ensures Apart(cells[j], cells[i]) {
      if !Apart(cells[j], cells[i]) {
        MeetIsOccupied(cells, j, i, occupied);
      }
    }
  }

  lemma MeetIsOccupied(cells: seq<Cell>, j: nat, i: nat, occupied: set<Position>)
    requires j < i < |cells| && CellOk(cells[j]) && CellOk(cells[i]) && !Apart(cells[j], cells[i])
    requires OccupiedBy(occupied, cells[..i])
    ensures exists p :: p in occupied && Covers(cells[i], p)
  {
    var p := NotApartMeet(cells[j], cells[i]);
    assert Covers(cells[..i][j], p);
  }

  lemma OccupiedMore(cells: seq<Cell>, i: nat, before: set<Position>, after: set<Position>)
    requires i < |cells| && OccupiedBy(before, cells[..i])
    requires forall p :: p in after <==> p in before || Covers(cells[i], p)
    ensures OccupiedBy(after, cells[..i + 1])
    ensures Area(cells[..i + 1]) == Area(cells[..i]) + cells[i].rowspan * cells[i].colspan
  {
    var init, all := cells[..i], cells[..i + 1];
    assert all == init + [cells[i]] && all[..i] == init;
    forall p ensures p in after <==> exists j :: 0 <= j < |all| && Covers(all[j], p) {
      if p in before {
        var j :| 0 <= j < |init| && Covers(init[j], p);
        assert Covers(all[j], p);
      }
      if Covers(cells[i], p) {
        assert Covers(all[i], p);
      }
    }
  }

  /** What lies inside the grid cannot be more than the grid. */
  lemma GridBounds(cells: seq<Cell>, rows: int, columns: int, occupied: set<Position>)
    requires Tiled(cells, rows, columns) && OccupiedBy(occupied, cells) && rows >= 0 && columns >= 0
    requires forall i :: 0 <= i < |cells| ==> CellOk(cells[i])
    ensures |occupied| <= rows * columns
  {
    var grid := Grid(rows, columns);
    assert occupied <= grid;
    SubsetSize(occupied, grid);
  }

  lemma {:induction false} SubsetSize(a: set<Position>, b: set<Position>)
    requires a <= b
    ensures |a| <= |b|
  {
    assert b == a + (b - a);
    assert |b| == |a| + |b - a|;
  }

  function Line(row: int, columns: nat): (line: set<Position>)
    ensures |line| == columns && forall p :: p in line <==> p.0 == row && 0 <= p.1 < columns
  {
    if columns == 0 then {} else Line(row, columns - 1) + {(row, columns - 1)}
  }

  function Grid(rows: nat, columns: nat): (grid: set<Position>)
    ensures |grid| == rows * columns && forall p :: p in grid <==> 0 <= p.0 < rows && 0 <= p.1 < columns
  {
    if rows == 0 then {}
    else
      var above, line := Grid(rows - 1, columns), Line(rows - 1, columns);
      assert above * line == {};
      assert rows * columns == (rows - 1) * columns + columns;
      above + line
  }
}

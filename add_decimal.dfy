/**
 * The "increase decimal places" command of the number-format plugin.
 *
 * A first pass over every cell of every selected range takes the largest
 * decimal count among the cells that carry a number format; a second pass
 * builds the list of format updates, giving unformatted cells (and cells
 * whose pattern is `0.0` up to decimals) one uniform pattern with one more
 * decimal than that maximum, and every other cell its own pattern with one
 * more decimal, when that actually changes it. The pattern helpers are left
 * uninterpreted.
 */
module AddDecimal {
  import opened Wrappers

  /** An inclusive rectangle of cells, as `IRange` has it. */
  datatype CellRange = CellRange(startRow: int, startColumn: int, endRow: int, endColumn: int)

  datatype Selection = Selection(range: CellRange)

  datatype Cell = Cell(row: int, col: int)

  /** The pattern strings of the active sheet's formatted cells. */
  type NumfmtStore = map<Cell, string>

  /** `getDecimalFromPattern`, `setPatternDecimal` and `isPatternEqualWithoutDecimal`. */
  datatype DecimalOps = DecimalOps(
    getDecimalFromPattern: string -> int,
    setPatternDecimal: (string, int) -> string,
    isPatternEqualWithoutDecimal: (string, string) -> bool)

  /** One entry of `SetNumfmtCommandParams['values']`. */
  datatype NumfmtUpdate = NumfmtUpdate(row: int, col: int, pattern: string)

  /**
   * What the handler does: return `false` without dispatching, or dispatch
   * `SetNumfmtCommand` with these values and return that command's result.
   */
  datatype HandlerResult = ReturnedFalse | DispatchedSetNumfmt(values: seq<NumfmtUpdate>)

  predicate InRange(c: Cell, r: CellRange) {
    r.startRow <= c.row <= r.endRow && r.startColumn <= c.col <= r.endColumn
  }

  /** Cells `(row, c0) .. (row, c1)`, left to right. */
  function RowCells(row: int, c0: int, c1: int): seq<Cell>
    decreases c1 - c0
  {
    if c1 < c0 then [] else RowCells(row, c0, c1 - 1) + [Cell(row, c1)]
  }

  /** The rows `r.startRow .. lastRow` of `r`, row by row. */
  function RangeRows(r: CellRange, lastRow: int): seq<Cell>
    decreases lastRow - r.startRow
  {
    if lastRow < r.startRow then [] else RangeRows(r, lastRow - 1) + RowCells(lastRow, r.startColumn, r.endColumn)
  }

  /** The order in which `Range.foreach` visits a range: row by row, each row left to right. */
  function RangeCells(r: CellRange): seq<Cell> {
    RangeRows(r, r.endRow)
  }

  /** Every cell of every selection, selection by selection. */
  function SelectedCells(selections: seq<Selection>): seq<Cell> {
    if selections == [] then []
    else SelectedCells(selections[..|selections| - 1]) + RangeCells(selections[|selections| - 1].range)
  }

  /** One step of the first pass: a formatted cell may raise the maximum. */
  function DecimalsStep(acc: int, c: Cell, store: NumfmtStore, ops: DecimalOps): int {
    if c in store then
      var decimals := ops.getDecimalFromPattern(store[c]);
      if decimals > acc then decimals else acc
    else acc
  }

  /** `maxDecimals` after the first pass over `cells`, starting from 0. */
  function MaxDecimals(cells: seq<Cell>, store: NumfmtStore, ops: DecimalOps): int {
    if cells == [] then 0
    else DecimalsStep(MaxDecimals(cells[..|cells| - 1], store, ops), cells[|cells| - 1], store, ops)
  }

  /** The uniform pattern: `0.0` set to `maxDecimals + 1` decimals. */
  function UniformPattern(maxDecimals: int, ops: DecimalOps): string {
    var decimals := maxDecimals + 1;
    ops.setPatternDecimal("0" + (if decimals > 0 then ".0" else ""), decimals)
  }

  /**
   * The entry the second pass emits for one cell: the uniform pattern for an
   * unformatted cell or one equal to `0.0` up to decimals; otherwise the
   * cell's own pattern with one more decimal, and nothing when that leaves
   * the pattern as it is.
   */
  function UpdateFor(c: Cell, store: NumfmtStore, ops: DecimalOps, uniform: string): (r: Option<NumfmtUpdate>)
    ensures r.Some? ==> r.value.row == c.row && r.value.col == c.col
    ensures c !in store || ops.isPatternEqualWithoutDecimal(store[c], "0.0") ==> r == Some(NumfmtUpdate(c.row, c.col, uniform))
    ensures c in store && !ops.isPatternEqualWithoutDecimal(store[c], "0.0") ==>
      var raised := ops.setPatternDecimal(store[c], ops.getDecimalFromPattern(store[c]) + 1);
      && (r.Some? <==> raised != store[c])
      && (r.Some? ==> r.value.pattern == raised)
  {
    if c !in store || ops.isPatternEqualWithoutDecimal(store[c], "0.0") then
      Some(NumfmtUpdate(c.row, c.col, uniform))
    else
      var decimals := ops.getDecimalFromPattern(store[c]);
      var pattern := ops.setPatternDecimal(store[c], decimals + 1);
      if pattern != store[c] then Some(NumfmtUpdate(c.row, c.col, pattern)) else None
  }

  /** The `values` list after the second pass over `cells`. */
  function Updates(cells: seq<Cell>, store: NumfmtStore, ops: DecimalOps, uniform: string): seq<NumfmtUpdate> {
    if cells == [] then []
    else
      var last := UpdateFor(cells[|cells| - 1], store, ops, uniform);
      Updates(cells[..|cells| - 1], store, ops, uniform) + (if last.Some? then [last.value] else [])
  }

  /** First pass: the largest decimal count over the selected cells. */
  method ComputeMaxDecimals(selections: seq<Selection>, store: NumfmtStore, ops: DecimalOps) returns (maxDecimals: int)
    ensures maxDecimals == MaxDecimals(SelectedCells(selections), store, ops)
  {
    maxDecimals := 0;
    var s := 0;
    while s < |selections|
      invariant 0 <= s <= |selections|
      invariant maxDecimals == MaxDecimals(SelectedCells(selections[..s]), store, ops)
    {
      assert selections[..s + 1][..s] == selections[..s];
      maxDecimals := MaxDecimalsOverRange(selections[s].range, store, ops, maxDecimals, SelectedCells(selections[..s]));
      s := s + 1;
    }
    assert selections[..s] == selections;
  }

  /** `Range.foreach` with the first pass's callback: folds one range into the running maximum. */
  method MaxDecimalsOverRange(range: CellRange, store: NumfmtStore, ops: DecimalOps, acc: int, ghost visited: seq<Cell>)
    returns (maxDecimals: int)
    requires acc == MaxDecimals(visited, store, ops)
    ensures maxDecimals == MaxDecimals(visited + RangeCells(range), store, ops)
  {
    maxDecimals := acc;
    var row := range.startRow;
    assert visited + RangeRows(range, row - 1) == visited;
    while row <= range.endRow
      invariant range.startRow <= row && (row <= range.endRow + 1 || row == range.startRow)
      invariant maxDecimals == MaxDecimals(visited + RangeRows(range, row - 1), store, ops)
      decreases range.endRow - row
    {
      ghost var rowStart := visited + RangeRows(range, row - 1);
      maxDecimals := MaxDecimalsOverRow(row, range.startColumn, range.endColumn, store, ops, maxDecimals, rowStart);
      RangeRowsStep(range, row, visited);
      row := row + 1;
    }
  }

  /** The inner, column loop of `Range.foreach` for the first pass. */
  method MaxDecimalsOverRow(row: int, startColumn: int, endColumn: int, store: NumfmtStore, ops: DecimalOps,
                            acc: int, ghost visited: seq<Cell>)
    returns (maxDecimals: int)
    requires acc == MaxDecimals(visited, store, ops)
    ensures maxDecimals == MaxDecimals(visited + RowCells(row, startColumn, endColumn), store, ops)
  {
    maxDecimals := acc;
    var col := startColumn;
    assert visited + RowCells(row, startColumn, col - 1) == visited;
    while col <= endColumn
      invariant startColumn <= col && (col <= endColumn + 1 || col == startColumn)
      invariant maxDecimals == MaxDecimals(visited + RowCells(row, startColumn, col - 1), store, ops)
      decreases endColumn - col
    {
      ghost var seen := visited + RowCells(row, startColumn, col - 1);
      var c := Cell(row, col);
      if c in store {
        var decimals := ops.getDecimalFromPattern(store[c]);
        maxDecimals := if decimals > maxDecimals then decimals else maxDecimals;
      }
      assert visited + RowCells(row, startColumn, col) == seen + [c];
      MaxDecimalsSnoc(seen, c, store, ops);
      col := col + 1;
    }
  }

  /** Second pass: the update entries for the selected cells, in visiting order. */
  method BuildUpdates(selections: seq<Selection>, store: NumfmtStore, ops: DecimalOps, pattern: string)
    returns (values: seq<NumfmtUpdate>)
    ensures values == Updates(SelectedCells(selections), store, ops, pattern)
  {
    values := [];
    var s := 0;
    while s < |selections|
      invariant 0 <= s <= |selections|
      invariant values == Updates(SelectedCells(selections[..s]), store, ops, pattern)
    {
      assert selections[..s + 1][..s] == selections[..s];
      values := UpdatesOverRange(selections[s].range, store, ops, pattern, values, SelectedCells(selections[..s]));
      s := s + 1;
    }
    assert selections[..s] == selections;
  }

  /** `Range.foreach` with the second pass's callback: appends one range's entries. */
  method UpdatesOverRange(range: CellRange, store: NumfmtStore, ops: DecimalOps, pattern: string,
                          acc: seq<NumfmtUpdate>, ghost visited: seq<Cell>)
    returns (values: seq<NumfmtUpdate>)
    requires acc == Updates(visited, store, ops, pattern)
    ensures values == Updates(visited + RangeCells(range), store, ops, pattern)
  {
    values := acc;
    var row := range.startRow;
    assert visited + RangeRows(range, row - 1) == visited;
    while row <= range.endRow
      invariant range.startRow <= row && (row <= range.endRow + 1 || row == range.startRow)
      invariant values == Updates(visited + RangeRows(range, row - 1), store, ops, pattern)
      decreases range.endRow - row
    {
      ghost var rowStart := visited + RangeRows(range, row - 1);
      values := UpdatesOverRow(row, range.startColumn, range.endColumn, store, ops, pattern, values, rowStart);
      RangeRowsStep(range, row, visited);
      row := row + 1;
    }
  }

  /** The inner, column loop of `Range.foreach` for the second pass. */
  method UpdatesOverRow(row: int, startColumn: int, endColumn: int, store: NumfmtStore, ops: DecimalOps, pattern: string,
                        acc: seq<NumfmtUpdate>, ghost visited: seq<Cell>)
    returns (values: seq<NumfmtUpdate>)
    requires acc == Updates(visited, store, ops, pattern)
    ensures values == Updates(visited + RowCells(row, startColumn, endColumn), store, ops, pattern)
  {
    values := acc;
    var col := startColumn;
    assert visited + RowCells(row, startColumn, col - 1) == visited;
    while col <= endColumn
      invariant startColumn <= col && (col <= endColumn + 1 || col == startColumn)
      invariant values == Updates(visited + RowCells(row, startColumn, col - 1), store, ops, pattern)
      decreases endColumn - col
    {
      ghost var seen := visited + RowCells(row, startColumn, col - 1);
      var c := Cell(row, col);
      assert visited + RowCells(row, startColumn, col) == seen + [c];
      UpdatesSnoc(seen, c, store, ops, pattern);
      ghost var entry := UpdateFor(c, store, ops, pattern);
      ghost var before := values;
      if c !in store || ops.isPatternEqualWithoutDecimal(store[c], "0.0") {
        values := values + [NumfmtUpdate(row, col, pattern)];
      } else {
        var decimals := ops.getDecimalFromPattern(store[c]);
        var raised := ops.setPatternDecimal(store[c], decimals + 1);
        if raised != store[c] {
          values := values + [NumfmtUpdate(row, col, raised)];
        }
      }
      assert values == before + (if entry.Some? then [entry.value] else []);
      col := col + 1;
    }
  }

  /**
   * `AddDecimalCommand.handler`: `false` without a selection; otherwise the
   * two passes, and `SetNumfmtCommand` is dispatched exactly when the
   * update list is non-empty.
   */
  method Handler(selections: Option<seq<Selection>>, store: NumfmtStore, ops: DecimalOps) returns (result: HandlerResult)
    ensures selections.None? || selections.value == [] ==> result == ReturnedFalse
    ensures selections.Some? && selections.value != [] ==>
      var cells := SelectedCells(selections.value);
      var values := Updates(cells, store, ops, UniformPattern(MaxDecimals(cells, store, ops), ops));
      result == if values == [] then ReturnedFalse else DispatchedSetNumfmt(values)
    ensures result.DispatchedSetNumfmt? ==> result.values != []
  {
    if selections.None? || |selections.value| == 0 {
      return ReturnedFalse;
    }
    var maxDecimals := ComputeMaxDecimals(selections.value, store, ops);
    var decimals := maxDecimals + 1;
    var pattern := ops.setPatternDecimal("0" + (if decimals > 0 then ".0" else ""), decimals);
    var values := BuildUpdates(selections.value, store, ops, pattern);
    if |values| > 0 {
      return DispatchedSetNumfmt(values);
    }
    return ReturnedFalse;
  }

  /** Visiting one more row of a range appends that row's cells. */
  lemma RangeRowsStep(range: CellRange, row: int, visited: seq<Cell>)
    requires range.startRow <= row
    ensures visited + RangeRows(range, row) == visited + RangeRows(range, row - 1) + RowCells(row, range.startColumn, range.endColumn)
  {
  }

  /** Visiting one more cell is one more step of the first pass. */
  lemma MaxDecimalsSnoc(cells: seq<Cell>, c: Cell, store: NumfmtStore, ops: DecimalOps)
    ensures MaxDecimals(cells + [c], store, ops) == DecimalsStep(MaxDecimals(cells, store, ops), c, store, ops)
  {
    assert (cells + [c])[..|cells|] == cells;
  }

  /** Visiting one more cell appends that cell's entry, if any, to the second pass's list. */
  lemma UpdatesSnoc(cells: seq<Cell>, c: Cell, store: NumfmtStore, ops: DecimalOps, uniform: string)
    ensures var last := UpdateFor(c, store, ops, uniform);
      Updates(cells + [c], store, ops, uniform) == Updates(cells, store, ops, uniform) + (if last.Some? then [last.value] else [])
  {
    assert (cells + [c])[..|cells|] == cells;
  }

  /**
   * The maximum is at least every formatted cell's decimal count, never
   * negative, 0 when no cell is formatted, and otherwise attained by a cell
   * unless it is 0.
   */
  lemma {:induction false} MaxDecimalsBounds(cells: seq<Cell>, store: NumfmtStore, ops: DecimalOps)
    ensures MaxDecimals(cells, store, ops) >= 0
    ensures forall k :: 0 <= k < |cells| && cells[k] in store ==>
      ops.getDecimalFromPattern(store[cells[k]]) <= MaxDecimals(cells, store, ops)
    ensures (forall k :: 0 <= k < |cells| ==> cells[k] !in store) ==> MaxDecimals(cells, store, ops) == 0
    ensures MaxDecimals(cells, store, ops) == 0 ||
      exists k :: 0 <= k < |cells| && cells[k] in store && ops.getDecimalFromPattern(store[cells[k]]) == MaxDecimals(cells, store, ops)
  {
    if cells != [] {
      var n := |cells| - 1;
      var init := cells[..n];
      MaxDecimalsBounds(init, store, ops);
      assert forall k :: 0 <= k < n ==> cells[k] == init[k];
      if MaxDecimals(cells, store, ops) != 0 && MaxDecimals(cells, store, ops) == MaxDecimals(init, store, ops) {
        var k :| 0 <= k < n && init[k] in store && ops.getDecimalFromPattern(store[init[k]]) == MaxDecimals(init, store, ops);
        assert cells[k] == init[k];
      }
    }
  }

  /** The uniform pattern's decimal count is at least 1 and above every selected cell's count. */
  lemma UniformDecimalsAboveAll(cells: seq<Cell>, store: NumfmtStore, ops: DecimalOps)
    ensures MaxDecimals(cells, store, ops) + 1 >= 1
    ensures forall k :: 0 <= k < |cells| && cells[k] in store ==>
      ops.getDecimalFromPattern(store[cells[k]]) < MaxDecimals(cells, store, ops) + 1
    ensures UniformPattern(MaxDecimals(cells, store, ops), ops)
      == ops.setPatternDecimal("0.0", MaxDecimals(cells, store, ops) + 1)
  {
    MaxDecimalsBounds(cells, store, ops);
    assert "0" + ".0" == "0.0";
  }

  /** Cells of one row segment are exactly those in that row between the two columns. */
  lemma {:induction false} RowCellsMembership(row: int, c0: int, c1: int, c: Cell)
    ensures c in RowCells(row, c0, c1) <==> c.row == row && c0 <= c.col <= c1
    decreases c1 - c0
  {
    if c1 >= c0 {
      RowCellsMembership(row, c0, c1 - 1, c);
    }
  }

  /** A range visits exactly the cells inside it. */
  lemma {:induction false} RangeRowsMembership(r: CellRange, lastRow: int, c: Cell)
    ensures c in RangeRows(r, lastRow) <==> r.startRow <= c.row <= lastRow && r.startColumn <= c.col <= r.endColumn
    decreases lastRow - r.startRow
  {
    if lastRow >= r.startRow {
      RangeRowsMembership(r, lastRow - 1, c);
      RowCellsMembership(lastRow, r.startColumn, r.endColumn, c);
    }
  }

  /** The selected cells are exactly those lying inside some selection's range. */
  lemma {:induction false} SelectedCellsMembership(selections: seq<Selection>, c: Cell)
    ensures c in SelectedCells(selections) <==> exists s :: 0 <= s < |selections| && InRange(c, selections[s].range)
  {
    if selections != [] {
      var n := |selections| - 1;
      SelectedCellsMembership(selections[..n], c);
      RangeRowsMembership(selections[n].range, selections[n].range.endRow, c);
      if exists s :: 0 <= s < |selections| && InRange(c, selections[s].range) {
        var s :| 0 <= s < |selections| && InRange(c, selections[s].range);
        if s < n {
          assert selections[..n][s] == selections[s];
        }
      }
    }
  }

  /** Selections are visited in order: the cells of a split list are the two lists' cells, joined. */
  lemma {:induction false} SelectedCellsOfConcat(a: seq<Selection>, b: seq<Selection>)
    ensures SelectedCells(a + b) == SelectedCells(a) + SelectedCells(b)
  {
    if b == [] {
      assert a + b == a;
    } else {
      var n := |b| - 1;
      var last := RangeCells(b[n].range);
      assert (a + b)[..|a + b| - 1] == a + b[..n];
      assert (a + b)[|a + b| - 1] == b[n];
      assert SelectedCells(a + b) == SelectedCells(a + b[..n]) + last;
      assert SelectedCells(b) == SelectedCells(b[..n]) + last;
      SelectedCellsOfConcat(a, b[..n]);
    }
  }

  /** Entries follow the visiting order: the updates of joined cell lists are the joined updates. */
  lemma {:induction false} UpdatesOfConcat(a: seq<Cell>, b: seq<Cell>, store: NumfmtStore, ops: DecimalOps, uniform: string)
    ensures Updates(a + b, store, ops, uniform) == Updates(a, store, ops, uniform) + Updates(b, store, ops, uniform)
  {
    if b == [] {
      assert a + b == a;
    } else {
      var n := |b| - 1;
      assert (a + b)[..|a + b| - 1] == a + b[..n];
      UpdatesOfConcat(a, b[..n], store, ops, uniform);
    }
  }

  /**
   * The entries are exactly the per-cell entries of the visited cells: each
   * entry is `UpdateFor` of some visited cell, and each visited cell that has
   * an entry finds it in the list.
   */
  lemma {:induction false} UpdatesArePerCell(cells: seq<Cell>, store: NumfmtStore, ops: DecimalOps, uniform: string)
    ensures forall u :: u in Updates(cells, store, ops, uniform) ==>
      exists k :: 0 <= k < |cells| && UpdateFor(cells[k], store, ops, uniform) == Some(u)
    ensures forall k :: 0 <= k < |cells| && UpdateFor(cells[k], store, ops, uniform).Some? ==>
      UpdateFor(cells[k], store, ops, uniform).value in Updates(cells, store, ops, uniform)
  {
    if cells != [] {
      var n := |cells| - 1;
      var init := cells[..n];
      UpdatesArePerCell(init, store, ops, uniform);
      assert forall k :: 0 <= k < n ==> cells[k] == init[k];
    }
  }

  /**
   * Over the handler's own selections: every entry lies inside a selection;
   * every selected cell that is unformatted or `0.0` up to decimals gets the
   * uniform pattern; no other entry leaves its cell's pattern unchanged.
   */
  lemma HandlerEntries(selections: seq<Selection>, store: NumfmtStore, ops: DecimalOps)
    ensures var cells := SelectedCells(selections);
      var uniform := UniformPattern(MaxDecimals(cells, store, ops), ops);
      var values := Updates(cells, store, ops, uniform);
      && (forall u :: u in values ==> exists s :: 0 <= s < |selections| && InRange(Cell(u.row, u.col), selections[s].range))
      && (forall c :: c in cells && (c !in store || ops.isPatternEqualWithoutDecimal(store[c], "0.0")) ==>
            NumfmtUpdate(c.row, c.col, uniform) in values)
      && (forall u :: u in values && Cell(u.row, u.col) in store && !ops.isPatternEqualWithoutDecimal(store[Cell(u.row, u.col)], "0.0") ==>
            u.pattern != store[Cell(u.row, u.col)])
  {
    var cells := SelectedCells(selections);
    var uniform := UniformPattern(MaxDecimals(cells, store, ops), ops);
    var values := Updates(cells, store, ops, uniform);
    UpdatesArePerCell(cells, store, ops, uniform);
    forall u | u in values
      ensures exists s :: 0 <= s < |selections| && InRange(Cell(u.row, u.col), selections[s].range)
    {
      var k :| 0 <= k < |cells| && UpdateFor(cells[k], store, ops, uniform) == Some(u);
      assert cells[k] == Cell(u.row, u.col);
      SelectedCellsMembership(selections, cells[k]);
    }
    forall c | c in cells && (c !in store || ops.isPatternEqualWithoutDecimal(store[c], "0.0"))
      ensures NumfmtUpdate(c.row, c.col, uniform) in values
    {
      var k :| 0 <= k < |cells| && cells[k] == c;
    }
    forall u | u in values && Cell(u.row, u.col) in store && !ops.isPatternEqualWithoutDecimal(store[Cell(u.row, u.col)], "0.0")
      ensures u.pattern != store[Cell(u.row, u.col)]
    {
      var k :| 0 <= k < |cells| && UpdateFor(cells[k], store, ops, uniform) == Some(u);
      assert cells[k] == Cell(u.row, u.col);
    }
  }
}

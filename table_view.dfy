/**
 * The spreadsheet's view: the formula bar, the table body and the
 * summation bar it renders from the model, and the two event handlers
 * that keep them in step with the model.
 *
 * The DOM is abstracted: the formula bar is the text it shows, the table
 * body is a grid of cells (each `<td>` with its text and whether it carries
 * the `current-cell` class), and the summation bar is the list of sums it
 * shows, one per column.
 */
module View {
  import opened Wrappers
  import opened JsText
  import opened Model
  import opened ColumnSum

  /** A rendered `<td>`: the value given to `createTD`, and whether it is marked `current-cell`. */
  datatype Cell = Cell(value: Option<string>, current: bool)

  /** `value || ''`: `undefined` and the empty string render as "", every other text as itself. */
  function NormalizeValueForRendering(value: Option<string>): (text: string)
    ensures value.None? ==> text == ""
    ensures value.Some? ==> text == value.value
  {
    match value
    case None => ""
    case Some(s) => if s == [] then "" else s
  }

  /** One row of the body as the model shows it, with the selected cell marked. */
  function BodyRow(store: Store, current: Position, row: int, numCols: nat): seq<Cell> {
    seq(numCols, col => Cell(store.Get(PositionId(Position(col, row))), current == Position(col, row)))
  }

  /** The whole body: `numRows` rows of `numCols` cells. */
  function BodyGrid(store: Store, current: Position, numRows: nat, numCols: nat): (grid: seq<seq<Cell>>)
    ensures |grid| == numRows
    ensures forall row :: 0 <= row < numRows ==> grid[row] == BodyRow(store, current, row, numCols)
  {
    seq(numRows, row => BodyRow(store, current, row, numCols))
  }

  predicate InBounds(p: Position, numRows: nat, numCols: nat) {
    0 <= p.col < numCols && 0 <= p.row < numRows
  }

  /** The positions of the cells of `grid` that carry the `current-cell` class. */
  function MarkedCells(grid: seq<seq<Cell>>): set<Position> {
    set row, col | 0 <= row < |grid| && 0 <= col < |grid[row]| && grid[row][col].current :: Position(col, row)
  }

  /** Exactly one cell is marked current, the selected one, when it is on the grid; none otherwise. */
  lemma BodyGridMarksCurrentCell(store: Store, current: Position, numRows: nat, numCols: nat)
    ensures MarkedCells(BodyGrid(store, current, numRows, numCols))
         == if InBounds(current, numRows, numCols) then {current} else {}
  {
    var grid := BodyGrid(store, current, numRows, numCols);
    forall p | p in MarkedCells(grid)
      ensures p == current && InBounds(current, numRows, numCols)
    {
      var row, col :| 0 <= row < |grid| && 0 <= col < |grid[row]| && grid[row][col].current && p == Position(col, row);
      assert grid[row] == BodyRow(store, current, row, numCols);
    }
    if InBounds(current, numRows, numCols) {
      assert grid[current.row] == BodyRow(store, current, current.row, numCols);
      assert grid[current.row][current.col].current;
      assert current in MarkedCells(grid);
    }
  }

  /**
   * `getRange(0, numCols).map(column => this.sumColumn(column))`: the sum of
   * every column, or `None` when the first `sumColumn` raises its TypeError.
   */
  function SummationRow(store: Store, numCols: nat): (r: Option<seq<int>>)
    ensures r.None? <==> numCols > 0 && !AllKeysMatch(store.keys)
    ensures r.Some? ==> |r.value| == numCols
    ensures r.Some? ==> forall column :: 0 <= column < numCols ==> SumColumn(store, column) == Some(r.value[column])
  {
    if numCols > 0 && !AllKeysMatch(store.keys) then None
    else Some(seq(numCols, column => SumColumn(store, column).GetOr(0)))
  }

  /** An empty model sums every column to 0. */
  lemma SummationRowOfEmpty(numCols: nat)
    ensures SummationRow(Store([], map[]), numCols) == Some(seq(numCols, column => 0))
  {
    var store := Store([], map[]);
    assert AllKeysMatch(store.keys);
    var r := SummationRow(store, numCols);
    forall column | 0 <= column < numCols
      ensures r.value[column] == 0
    {
      SumColumnIsColumnTotal(store, column);
    }
    assert r.value == seq(numCols, column => 0);
  }

  /**
   * Writing a cell at a non-negative position keeps the summation bar
   * defined exactly when it was, and leaves every other column's sum as it was.
   */
  lemma SummationRowAfterSet(store: Store, p: Position, value: string, numCols: nat)
    requires 0 <= p.col && 0 <= p.row
    ensures SummationRow(store.Set(PositionId(p), value), numCols).Some? <==> SummationRow(store, numCols).Some?
    ensures SummationRow(store, numCols).Some? ==>
      forall column :: 0 <= column < numCols && column != p.col ==>
        SummationRow(store.Set(PositionId(p), value), numCols).value[column] == SummationRow(store, numCols).value[column]
  {
    var after := store.Set(PositionId(p), value);
    SetKeepsKeysMatching(store, p, value);
    forall column | 0 <= column < numCols && column != p.col
      ensures SumColumn(after, column) == SumColumn(store, column)
    {
      SumColumnIgnoresOtherColumns(store, p, value, column);
    }
  }

  /** The view object: the selected cell and what the three widgets currently show. */
  class TableView {
    const model: TableModel
    /** The selected cell, `{col, row}`. */
    var currentCellLocation: Position
    /** The formula bar's text; the user's typing changes it directly. */
    var formulaBar: string
    /** The table body's rows of cells. */
    var sheetBody: seq<seq<Cell>>
    /** The summation bar's cells, one sum per column. */
    var summationBar: seq<int>
    /** Whether the click and keyup handlers have been attached. */
    var listening: bool

    /** Every widget shows what the model and the selection say it should. */
    ghost predicate InSync()
      reads this, model
    {
      && sheetBody == BodyGrid(model.data, currentCellLocation, model.numRows, model.numCols)
      && formulaBar == NormalizeValueForRendering(model.GetValue(currentCellLocation))
      && summationBar == SummationRow(model.data, model.numCols).GetOr([])
    }

    constructor (model: TableModel)
      ensures this.model == model
      ensures currentCellLocation == Position(0, 0)
      ensures formulaBar == "" && sheetBody == [] && summationBar == []
      ensures !listening
    {
      this.model := model;
      currentCellLocation := Position(0, 0);
      formulaBar := "";
      sheetBody := [];
      summationBar := [];
      listening := false;
    }

    /** `isCurrentCell(col, row)`: whether (col, row) is the selected cell. */
    function IsCurrentCell(col: int, row: int): (b: bool)
      reads this
      ensures b <==> currentCellLocation == Position(col, row)
    {
      currentCellLocation.col == col && currentCellLocation.row == row
    }

    /** `renderFormulaBar()`: the bar shows the selected cell's value. */
    method RenderFormulaBar()
      modifies this`formulaBar
      ensures formulaBar == NormalizeValueForRendering(model.GetValue(currentCellLocation))
    {
      var currentCellValue := model.GetValue(currentCellLocation);
      formulaBar := NormalizeValueForRendering(currentCellValue);
    }

    /** `initCurrentCell()`: select the top-left cell and show it in the formula bar. */
    method InitCurrentCell()
      modifies this`currentCellLocation, this`formulaBar
      ensures currentCellLocation == Position(0, 0)
      ensures formulaBar == NormalizeValueForRendering(model.GetValue(Position(0, 0)))
    {
      currentCellLocation := Position(0, 0);
      RenderFormulaBar();
    }

    /** The fragment `renderTableBody()` builds, row by row and cell by cell. */
    method BuildBody() returns (fragment: seq<seq<Cell>>)
      ensures fragment == BodyGrid(model.data, currentCellLocation, model.numRows, model.numCols)
    {
      ghost var grid := BodyGrid(model.data, currentCellLocation, model.numRows, model.numCols);
      fragment := [];
      var row := 0;
      while row < model.numRows
        invariant 0 <= row <= model.numRows
        invariant fragment == grid[..row]
      {
        ghost var expected := BodyRow(model.data, currentCellLocation, row, model.numCols);
        var tr := [];
        var col := 0;
        while col < model.numCols
          invariant 0 <= col <= model.numCols
          invariant tr == expected[..col]
        {
          var position := Position(col, row);
          var value := model.GetValue(position);
          var td := Cell(value, false);
          if IsCurrentCell(col, row) {
            td := td.(current := true);
          }
          assert td == expected[col];
          assert expected[..col + 1] == expected[..col] + [td];
          tr := tr + [td];
          col := col + 1;
        }
        assert tr == expected == grid[row];
        assert grid[..row + 1] == grid[..row] + [tr];
        fragment := fragment + [tr];
        row := row + 1;
      }
    }

    /** `renderTableBody()`: replace the body with a freshly built one. */
    method RenderTableBody()
      modifies this`sheetBody
      ensures sheetBody == BodyGrid(model.data, currentCellLocation, model.numRows, model.numCols)
    {
      var fragment := BuildBody();
      sheetBody := fragment;
    }

    /**
     * `renderSummationBar()`: empty the bar, then show every column's sum;
     * `ok` is false when a `sumColumn` raises, which leaves the bar empty.
     */
    method RenderSummationBar() returns (ok: bool)
      modifies this`summationBar
      ensures ok <==> SummationRow(model.data, model.numCols).Some?
      ensures summationBar == SummationRow(model.data, model.numCols).GetOr([])
    {
      summationBar := [];
      var sums := SummationRow(model.data, model.numCols);
      match sums
      case None =>
        ok := false;
      case Some(row) =>
        summationBar := row;
        ok := true;
    }

    /**
     * `renderTable()`: the body, then the summation bar (the header is not
     * part of this model). `ok` is false when the summation bar raised.
     */
    method RenderTable() returns (ok: bool)
      modifies this`sheetBody, this`summationBar
      ensures sheetBody == BodyGrid(model.data, currentCellLocation, model.numRows, model.numCols)
      ensures summationBar == SummationRow(model.data, model.numCols).GetOr([])
      ensures ok <==> SummationRow(model.data, model.numCols).Some?
    {
      RenderTableBody();
      ok := RenderSummationBar();
    }

    /**
     * `init()`: select the top-left cell, render everything, then attach the
     * handlers; an exception from the summation bar stops `init` before the
     * handlers are attached.
     */
    method Init() returns (ok: bool)
      modifies this`currentCellLocation, this`formulaBar, this`sheetBody, this`summationBar, this`listening
      ensures currentCellLocation == Position(0, 0)
      ensures InSync()
      ensures ok <==> SummationRow(model.data, model.numCols).Some?
      ensures listening == (ok || old(listening))
    {
      InitCurrentCell();
      ok := RenderTable();
      if ok {
        listening := true;
      }
    }

    /**
     * `handleFormulaBarChange()`: write the formula bar's text into the
     * selected cell, then re-render the body and the summation bar.
     */
    method HandleFormulaBarChange() returns (ok: bool)
      requires listening
      requires model.Valid()
      modifies model, this`sheetBody, this`summationBar
      ensures model.Valid()
      ensures model.numCols == old(model.numCols) && model.numRows == old(model.numRows)
      ensures model.data == old(model.data).Set(PositionId(currentCellLocation), formulaBar)
      ensures model.GetValue(currentCellLocation) == Some(formulaBar)
      ensures forall q :: q != currentCellLocation ==> model.GetValue(q) == old(model.GetValue(q))
      ensures InSync()
      ensures ok <==> SummationRow(model.data, model.numCols).Some?
      ensures 0 <= currentCellLocation.col && 0 <= currentCellLocation.row ==>
        (ok <==> old(SummationRow(model.data, model.numCols)).Some?)
      ensures 0 <= currentCellLocation.col && 0 <= currentCellLocation.row && old(InSync()) && ok ==>
        forall column :: 0 <= column < model.numCols && column != currentCellLocation.col ==>
          summationBar[column] == old(summationBar)[column]
    {
      ghost var before := model.data;
      var value := formulaBar;
      model.SetValue(currentCellLocation, value);
      RenderTableBody();
      ok := RenderSummationBar();
      if 0 <= currentCellLocation.col && 0 <= currentCellLocation.row {
        SummationRowAfterSet(before, currentCellLocation, value, model.numCols);
      }
    }

    /**
     * `handleSheetClick(evt)`: select the clicked cell, whose column is the
     * cell's index in its row and whose row is the row's index in the table
     * less the header row, then re-render.
     */
    method HandleSheetClick(cellIndex: int, rowIndex: int) returns (ok: bool)
      requires listening
      modifies this`currentCellLocation, this`formulaBar, this`sheetBody, this`summationBar
      ensures currentCellLocation == Position(cellIndex, rowIndex - 1)
      ensures InSync()
      ensures ok <==> SummationRow(model.data, model.numCols).Some?
      ensures old(InSync()) ==> summationBar == old(summationBar)
    {
      currentCellLocation := Position(cellIndex, rowIndex - 1);
      RenderTableBody();
      RenderFormulaBar();
      ok := RenderSummationBar();
    }
  }
}

# Spreadsheet table view, modelled in Dafny

This project models the view of a small browser spreadsheet: the class
`TableView` in `client/js/table-view.js`. The view keeps three widgets in
step with a `TableModel`:

- the formula bar shows the selected cell's text;
- the table body shows every cell, with the selected one marked `current-cell`;
- the summation bar shows a sum for each column. The sum is taken key by key
  over the model's keys, not cell by cell. Every key whose column text reads
  as the column adds the `parseInt` of the value it points to. That reading
  skips leading white space and takes an optional sign. A value that reads
  as NaN adds nothing. Two keys that point to the same cell, such as "1:2"
  and "1:2x", count that cell twice.

Two event handlers change the state. A click selects a cell. A keyup in the
formula bar writes the bar's text into the selected cell. Both re-render.

Modules:

- `Wrappers` (`wrappers.dfy`): `Option`. `None` stands for JavaScript's `undefined`, and for `NaN`.
- `JsText` (`js_text.dfy`): the JavaScript text semantics the view relies on:
  - the decimal text `${n}` of an integer;
  - `parseInt(s, 10)`: leading white space, an optional sign, the longest digit run;
  - `String(undefined)`.
- `Model` (`cell_store.dfy`): the part of the model the view uses:
  - the cell store: the keys `"col:row"` in insertion order, and their values;
  - `getValue` and `setValue`.
- `ColumnSum` (`column_sum.dfy`):
  - `getColumnPositions` and `sumColumn`, stage by stage;
  - a key-by-key reference total. `sumColumn` is proved equal to it.
    `getColumnPositions` has its own contract: which references it keeps,
    and how many times each.
- `View` (`table_view.dfy`): the rendered widgets and the class `TableView`,
  with each method proved against the functions that say what the widgets
  must show (`BodyGrid`, `SummationRow`, `NormalizeValueForRendering`).

A JavaScript exception that aborts a render (the `TypeError` raised when a
key does not match `/^(\d+):(\d+)/`) is modelled as a `None` result, and as
an `ok` flag returned by the methods.

## Model

| member | source | states |
|---|---|---|
| View.NormalizeValueForRendering | client/js/table-view.js:28-30 | `value \|\| ''`: `undefined` renders as the empty text; every string, the empty one included, renders as itself |
| View.TableView.constructor | client/js/table-view.js:5-7 | the view keeps the given model; it starts with selection (0, 0), empty widgets and no handlers attached |
| View.TableView.IsCurrentCell | client/js/table-view.js:52-55 | true exactly when (col, row) is the selected position |
| View.BodyGridMarksCurrentCell | client/js/table-view.js:57-76 | in the rendered body, the set of cells marked `current-cell` is exactly the selected cell when it lies on the grid, and empty otherwise |
| View.TableView.BuildBody | client/js/table-view.js:58-73 | the nested loops build `numRows` rows of `numCols` cells; each cell holds the model's value at (col, row) and is marked exactly when it is the selected cell |
| View.TableView.RenderTableBody | client/js/table-view.js:57-76 | the body is replaced by the freshly built grid; nothing else changes |
| View.TableView.RenderFormulaBar | client/js/table-view.js:32-36 | the formula bar shows the normalised value of the selected cell |
| View.TableView.InitCurrentCell | client/js/table-view.js:23-26 | the selection becomes (0, 0) and the formula bar shows that cell |
| View.SummationRow | client/js/table-view.js:78-83 | the row fails exactly when there is at least one column and some key does not match; otherwise it has one entry per column, equal to that column's `sumColumn` |
| View.SummationRowOfEmpty | client/js/table-view.js:78-83 | a model with no cells shows 0 under every column |
| View.SummationRowAfterSet | client/js/table-view.js:106-111 | writing a cell at non-negative coordinates keeps the summation row defined exactly when it was before, and leaves every other column's sum unchanged |
| View.TableView.RenderSummationBar | client/js/table-view.js:78-83 | the bar shows the summation row; on the `TypeError` it stays empty and `ok` is false |
| View.TableView.RenderTable | client/js/table-view.js:39-43 | the body and the summation bar are both rendered from the model and the selection |
| View.TableView.Init | client/js/table-view.js:9-14 | afterwards the selection is (0, 0) and every widget is in sync with the model; handlers are attached exactly when rendering did not raise |
| View.TableView.HandleFormulaBarChange | client/js/table-view.js:106-111 | only once the handlers are attached: the selected cell now holds the formula bar's text and every other cell is unchanged; the view is in sync. For a selection at non-negative coordinates, the bar fails after the edit exactly when it failed before, and other columns' sums are unchanged |
| View.TableView.HandleSheetClick | client/js/table-view.js:113-121 | only once the handlers are attached: the selection becomes (cellIndex, rowIndex - 1) and the view is in sync; the model and, when the view was in sync, the summation bar are unchanged |
| ColumnSum.MatchKey | client/js/table-view.js:87 | a match captures two non-empty digit runs; the key starts with `col:row` built from them |
| ColumnSum.MatchKeyOf | client/js/table-view.js:87 | the pattern is anchored only at the start: digits, `:`, digits, then anything that is not a digit, always match, capturing the two digit runs |
| ColumnSum.MatchKeyOfPositionId | client/js/table-view.js:87-88 | a key the model writes for a cell at non-negative coordinates matches, capturing the coordinates' decimal texts, and its column text parses back to the column |
| ColumnSum.MatchAll | client/js/table-view.js:86-87 | mapping the match over all keys succeeds exactly when every key matches, position by position |
| ColumnSum.InColumn | client/js/table-view.js:88 | the filter keeps exactly the references whose column text `parseInt`s to the column, each as many times as it occurs in the input, and drops the others |
| ColumnSum.GetColumnPositions | client/js/table-view.js:85-91 | fails exactly when some key does not match. Otherwise a reference is in the result exactly when some key matches to it and its column text parses to the column. It occurs there once per such key, so two keys matching to the same reference give it twice |
| ColumnSum.ValuesAt | client/js/table-view.js:95 | one value per reference, in order: the model's value at that reference |
| ColumnSum.ParseAll | client/js/table-view.js:96 | one result per value, in order: `parseInt` of the value's text, with `undefined` read as the text "undefined" |
| ColumnSum.NumbersKeepsEveryNumber | client/js/table-view.js:97 | the NaN filter keeps every number as many times as it occurs, and drops exactly the NaNs |
| ColumnSum.SumAppend | client/js/table-view.js:98 | the `reduce` from 0 with `+` adds over a concatenation part by part |
| ColumnSum.SumColumn | client/js/table-view.js:93-98 | fails exactly when some key does not match |
| ColumnSum.SumColumnIsColumnTotal | client/js/table-view.js:93-98 | when every key matches, the pipeline's sum equals the key-by-key total of each in-column value's leading integer, with NaN contributing nothing |
| ColumnSum.PipelineIsColumnTotal | client/js/table-view.js:94-98 | the map, parse, NaN-filter and reduce stages over the column's references add up exactly the per-key contributions |
| ColumnSum.PipelineOfCons | client/js/table-view.js:95-98 | the stages over a reference followed by others give the first value's integer, or 0 when it is NaN, plus the rest's sum |
| ColumnSum.SumColumnZero | client/js/table-view.js:96-98 | when every key matches, a column none of whose values starts with an integer sums to 0 |
| ColumnSum.ColumnTotalReadsOnlyColumn | client/js/table-view.js:88-95 | a column's total depends only on the values stored under keys of that column |
| ColumnSum.SetKeepsKeysMatching | client/js/table-view.js:87 | writing a cell at non-negative coordinates keeps every key matching exactly when every key matched before |
| ColumnSum.SumColumnIgnoresOtherColumns | client/js/table-view.js:93-98 | writing a cell at non-negative coordinates does not change the sum of any other column |
| ColumnSum.SumColumnCountsEachMatchingKey | client/js/table-view.js:86-98 | when the keys are a cell's key and that key followed by a non-digit, the column sum is twice the cell's integer |
| ColumnSum.KeyContributionOfPositionId | client/js/table-view.js:87-97 | a key the model writes for (col, row) adds that cell's integer (0 for NaN) to column col, and nothing to any other column |
| ColumnSum.SumColumnExample | client/js/table-view.js:93-98 | for cells "10", "abc", "5", "" in column 0 and "12abc" in column 1, the sums are 15 and 12 |
| JsText.ParseIntNeedsDigit | client/js/table-view.js:96 | `parseInt` gives a number only when the text holds a decimal digit |
| JsText.ToJsString | client/js/table-view.js:96 | `String(v)`: a string stays itself and `undefined` becomes "undefined" |
| JsText.ParseIntOfUndefined | client/js/table-view.js:95-97 | the value of an empty cell, `undefined`, reads as NaN |
| JsText.ParseIntOfIntText | client/js/table-view.js:88 | `parseInt` of an integer's decimal text followed by anything but a digit gives back the integer |
| JsText.ParseIntOfIntTextAlone | client/js/table-view.js:88 | `parseInt(String(n)) === n` |
| JsText.ParseIntOfDigits | client/js/table-view.js:96 | `parseInt` reads a leading digit run as its decimal value |
| JsText.ParseIntWithoutDigits | client/js/table-view.js:96-97 | a text without any digit parses to NaN |
| Model.TableModel.GetValue | client/js/table-view.js:95 | in a well-formed store a cell's value is defined exactly when its key is enumerated, and it is the string stored under that key |
| Model.TableModel.SetValue | client/js/table-view.js:108 | `setValue` stores the value under the cell's key; that cell reads back the value and every other cell reads as before |
| Model.GetAfterSet | client/js/table-view.js:108 | after a write to p, reading q gives the new value when q is p and the old value otherwise |
| Model.PositionIdInjective | client/js/table-view.js:62-63 | distinct positions have distinct keys |

## Left out

- The DOM is abstract. Element references (`initDomReferences`), `removeChildren`, `createTR`/`createTD`, document fragments and `focus()` become plain values and field assignments.
- `renderTableHeader` and `getLetterRange` are not modelled, because the header's letter labels are produced by `array-util`, which is not part of this model.
- `getRange(0, n)` is taken to be the columns 0 to n-1 in order; `array-util` is not part of this model.
- `TableModel` is not part of this model beyond what the view uses. Its store is assumed to key each cell by the template `${col}:${row}` and to keep keys in insertion order, as `Object.keys` does for such keys.
- `attachEventHandlers` is reduced to the `listening` flag, which both handlers require. Event dispatch is not modelled: a caller invokes the handlers directly.
- View.TableView.constructor: the constructor stores only the model. Until `init` the selection and the DOM references are `undefined`. The model starts the selection at (0, 0) and the widgets empty, since Dafny fields need a value. No handler can run before `init`, because the handlers require `listening`.
- `HandleSheetClick` takes the target's `cellIndex` and its row's `rowIndex` as integers. Clicks whose target is not a cell, where these are `undefined`, are not modelled.
- The formula bar's user edits are assignments to the `formulaBar` field, followed by a call to `HandleFormulaBarChange`.
- Numbers are unbounded integers. `parseInt` results beyond 2^53 and the floating-point rounding of their sum are not modelled.
- `JsText.ParseInt` is `parseInt(s, 10)`. The call at line 88 has no radix, so a column text like "0x1" would read as hexadecimal there. This cannot arise, because that text is always the pattern's digit capture.
- Code outside `table-view.js` (the model implementation, the application entry point, DOM helpers) is not part of this model.

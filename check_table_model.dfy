/** `CheckTableModel`: the Check tab's table over check-constraint records. */
module CheckTableModel {
  import opened Common
  import opened Records
  import C = Constants
  import P = PopupListener

  const Headers: seq<string> := ["", "Name", "Expression", "Comment"]

  function RowCount(rows: seq<CheckStructure>): (n: nat)
    ensures n == |rows|
  {
    |rows|
  }

  /** One column per header, as many as the tab's configured widths. */
  function ColumnCount(): (n: nat)
    ensures n == |C.CheckColumnWidths| == 4
  {
    |Headers|
  }

  /** The header of a column; "Expression" and "Comment" open popups. */
  function ColumnName(column: int): (h: string)
    requires 0 <= column < ColumnCount()
    ensures P.PopupEnabled(h) <==> column == 2 || column == 3
  {
    Headers[column]
  }

  /** `getValueAt`: the position is the one integer cell; a column index
      outside the headers reads as the empty string. */
  function ValueAt(rows: seq<CheckStructure>, rowIndex: int, columnIndex: int): (v: CellValue)
    requires 0 <= rowIndex < |rows|
    ensures v.IntValue? <==> columnIndex == 0
    ensures v.IntValue? ==> v.n == rows[rowIndex].position
    ensures !(0 <= columnIndex < ColumnCount()) ==> v == TextValue("")
  {
    var row := rows[rowIndex];
    match columnIndex
    case 0 => IntValue(row.position)
    case 1 => TextValue(row.name)
    case 2 => TextValue(row.expression)
    case 3 => TextValue(row.comment)
    case _ => TextValue("")
  }

  function Cells(rows: seq<CheckStructure>, rowIndex: int): (cells: seq<CellValue>)
    requires 0 <= rowIndex < |rows|
    ensures |cells| == ColumnCount()
  {
    seq(|Headers|, c requires 0 <= c < |Headers| => ValueAt(rows, rowIndex, c))
  }

  function RecordFromCells(cells: seq<CellValue>): CheckStructure
    requires |cells| == |Headers|
  {
    CheckStructure(
      position := if cells[0].IntValue? then cells[0].n else 0,
      name := cells[1].ToString(),
      expression := cells[2].ToString(),
      comment := cells[3].ToString())
  }

  /** A row's cells show everything in the record. */
  lemma CellsRoundTrip(rows: seq<CheckStructure>, rowIndex: int)
    requires 0 <= rowIndex < |rows|
    ensures RecordFromCells(Cells(rows, rowIndex)) == rows[rowIndex]
  {
  }

  /** The table as the popup listener sees it. */
  function View(rows: seq<CheckStructure>): P.TableView {
    P.TableView(
      c => if 0 <= c < |Headers| then Headers[c] else "",
      (r, c) => if 0 <= r < RowCount(rows) then Some(ValueAt(rows, r, c).ToString()) else None)
  }

  /** The listener finds a cell exactly in the rows the model counts, and
      reads the `toString()` of the model's value there. */
  lemma ViewCells(rows: seq<CheckStructure>, row: int, column: int)
    ensures View(rows).cellText(row, column).Some? <==> 0 <= row < RowCount(rows)
    ensures 0 <= row < RowCount(rows) ==>
      View(rows).cellText(row, column) == Some(ValueAt(rows, row, column).ToString())
  {
  }

  /** A double-click opens a popup exactly on an Expression or Comment cell
      longer than ten characters. */
  lemma PopupOnlyForLongExpressionsOrComments(rows: seq<CheckStructure>, clickCount: int, row: int, column: int)
    requires -1 <= row < |rows| && -1 <= column < ColumnCount()
    ensures P.PopupText(P.Click(clickCount, Some(View(rows)), row, column)).Some? <==>
      clickCount == 2 && row >= 0
      && ((column == 2 && |rows[row].expression| > 10) || (column == 3 && |rows[row].comment| > 10))
  {
  }
}

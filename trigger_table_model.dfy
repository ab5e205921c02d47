/** `TriggerTableModel`: the Trigger tab's table over trigger records. */
module TriggerTableModel {
  import opened Common
  import opened Records
  import C = Constants
  import P = PopupListener

  const Headers: seq<string> := ["", "Name", "Event", "Timing", "Statement", "Comment"]

  function RowCount(rows: seq<TriggerStructure>): (n: nat)
    ensures n == |rows|
  {
    |rows|
  }

  /** One column per header, as many as the tab's configured widths. */
  function ColumnCount(): (n: nat)
    ensures n == |C.TriggerColumnWidths| == 6
  {
    |Headers|
  }

  /** The header of a column; "Statement" and "Comment" open popups. */
  function ColumnName(column: int): (h: string)
    requires 0 <= column < ColumnCount()
    ensures P.PopupEnabled(h) <==> column == 4 || column == 5
  {
    Headers[column]
  }

  /** `getValueAt`: the position is the one integer cell; a column index
      outside the headers reads as the empty string. */
  function ValueAt(rows: seq<TriggerStructure>, rowIndex: int, columnIndex: int): (v: CellValue)
    requires 0 <= rowIndex < |rows|
    ensures v.IntValue? <==> columnIndex == 0
    ensures v.IntValue? ==> v.n == rows[rowIndex].position
    ensures !(0 <= columnIndex < ColumnCount()) ==> v == TextValue("")
  {
    var row := rows[rowIndex];
    match columnIndex
    case 0 => IntValue(row.position)
    case 1 => TextValue(row.name)
    case 2 => TextValue(row.event)
    case 3 => TextValue(row.timing)
    case 4 => TextValue(row.statement)
    case 5 => TextValue(row.comment)
    case _ => TextValue("")
  }

  function Cells(rows: seq<TriggerStructure>, rowIndex: int): (cells: seq<CellValue>)
    requires 0 <= rowIndex < |rows|
    ensures |cells| == ColumnCount()
  {
    seq(|Headers|, c requires 0 <= c < |Headers| => ValueAt(rows, rowIndex, c))
  }

  function RecordFromCells(cells: seq<CellValue>): TriggerStructure
    requires |cells| == |Headers|
  {
    TriggerStructure(
      position := if cells[0].IntValue? then cells[0].n else 0,
      name := cells[1].ToString(),
      event := cells[2].ToString(),
      timing := cells[3].ToString(),
      statement := cells[4].ToString(),
      comment := cells[5].ToString())
  }

  /** A row's cells show everything in the record. */
  lemma CellsRoundTrip(rows: seq<TriggerStructure>, rowIndex: int)
    requires 0 <= rowIndex < |rows|
    ensures RecordFromCells(Cells(rows, rowIndex)) == rows[rowIndex]
  {
  }

  /** The table as the popup listener sees it. */
  function View(rows: seq<TriggerStructure>): P.TableView {
    P.TableView(
      c => if 0 <= c < |Headers| then Headers[c] else "",
      (r, c) => if 0 <= r < RowCount(rows) then Some(ValueAt(rows, r, c).ToString()) else None)
  }

  /** The listener finds a cell exactly in the rows the model counts, and
      reads the `toString()` of the model's value there. */
  lemma ViewCells(rows: seq<TriggerStructure>, row: int, column: int)
    ensures View(rows).cellText(row, column).Some? <==> 0 <= row < RowCount(rows)
    ensures 0 <= row < RowCount(rows) ==>
      View(rows).cellText(row, column) == Some(ValueAt(rows, row, column).ToString())
  {
  }

  /** A double-click opens a popup exactly on a Statement or Comment cell
      longer than ten characters. */
  lemma PopupOnlyForLongStatementsOrComments(rows: seq<TriggerStructure>, clickCount: int, row: int, column: int)
    requires -1 <= row < |rows| && -1 <= column < ColumnCount()
    ensures P.PopupText(P.Click(clickCount, Some(View(rows)), row, column)).Some? <==>
      clickCount == 2 && row >= 0
      && ((column == 4 && |rows[row].statement| > 10) || (column == 5 && |rows[row].comment| > 10))
  {
  }
}

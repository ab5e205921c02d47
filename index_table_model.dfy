/** `IndexTableModel`: the Index tab's table over index records. */
module IndexTableModel {
  import opened Common
  import opened Records
  import C = Constants
  import P = PopupListener
  import CS = ColumnStructureTableModel

  const Headers: seq<string> := ["", "Name", "Columns", "Type", "Unique", "Comment"]

  function RowCount(rows: seq<IndexStructure>): (n: nat)
    ensures n == |rows|
  {
    |rows|
  }

  /** One column per header, as many as the tab's configured widths. */
  function ColumnCount(): (n: nat)
    ensures n == |C.IndexColumnWidths| == 6
  {
    |Headers|
  }

  /** The header of a column; "Columns" and "Comment" open popups. */
  function ColumnName(column: int): (h: string)
    requires 0 <= column < ColumnCount()
    ensures P.PopupEnabled(h) <==> column == 2 || column == 5
  {
    Headers[column]
  }

  /** `getValueAt` (the unique flag through the same `formatBoolean` as the
      column table): the position is the one integer cell; a column index
      outside the headers reads as the empty string. */
  function ValueAt(rows: seq<IndexStructure>, rowIndex: int, columnIndex: int): (v: CellValue)
    requires 0 <= rowIndex < |rows|
    ensures v.IntValue? <==> columnIndex == 0
    ensures v.IntValue? ==> v.n == rows[rowIndex].position
    ensures !(0 <= columnIndex < ColumnCount()) ==> v == TextValue("")
  {
    var row := rows[rowIndex];
    match columnIndex
    case 0 => IntValue(row.position)
    case 1 => TextValue(row.name)
    case 2 => TextValue(row.columns)
    case 3 => TextValue(row.indexType)
    case 4 => TextValue(CS.FormatBoolean(row.unique))
    case 5 => TextValue(row.comment)
    case _ => TextValue("")
  }

  function Cells(rows: seq<IndexStructure>, rowIndex: int): (cells: seq<CellValue>)
    requires 0 <= rowIndex < |rows|
    ensures |cells| == ColumnCount()
  {
    seq(|Headers|, c requires 0 <= c < |Headers| => ValueAt(rows, rowIndex, c))
  }

  function RecordFromCells(cells: seq<CellValue>): IndexStructure
    requires |cells| == |Headers|
  {
    IndexStructure(
      position := if cells[0].IntValue? then cells[0].n else 0,
      name := cells[1].ToString(),
      columns := cells[2].ToString(),
      unique := cells[4].ToString() == "Yes",
      indexType := cells[3].ToString(),
      comment := cells[5].ToString())
  }

  /** A row's cells show everything in the record. */
  lemma CellsRoundTrip(rows: seq<IndexStructure>, rowIndex: int)
    requires 0 <= rowIndex < |rows|
    ensures RecordFromCells(Cells(rows, rowIndex)) == rows[rowIndex]
  {
    var cells := Cells(rows, rowIndex);
    assert cells[4] == TextValue(CS.FormatBoolean(rows[rowIndex].unique));
  }

  /** The table as the popup listener sees it. */
  function View(rows: seq<IndexStructure>): P.TableView {
    P.TableView(
      c => if 0 <= c < |Headers| then Headers[c] else "",
      (r, c) => if 0 <= r < RowCount(rows) then Some(ValueAt(rows, r, c).ToString()) else None)
  }

  /** The listener finds a cell exactly in the rows the model counts, and
      reads the `toString()` of the model's value there. */
  lemma ViewCells(rows: seq<IndexStructure>, row: int, column: int)
    ensures View(rows).cellText(row, column).Some? <==> 0 <= row < RowCount(rows)
    ensures 0 <= row < RowCount(rows) ==>
      View(rows).cellText(row, column) == Some(ValueAt(rows, row, column).ToString())
  {
  }

  /** A double-click opens a popup exactly on a Columns or Comment cell
      longer than ten characters. */
  lemma PopupOnlyForLongColumnsOrComments(rows: seq<IndexStructure>, clickCount: int, row: int, column: int)
    requires -1 <= row < |rows| && -1 <= column < ColumnCount()
    ensures P.PopupText(P.Click(clickCount, Some(View(rows)), row, column)).Some? <==>
      clickCount == 2 && row >= 0
      && ((column == 2 && |rows[row].columns| > 10) || (column == 5 && |rows[row].comment| > 10))
  {
  }
}

/** `ColumnStructureTableModel`: the Structure tab's table over column records. */
module ColumnStructureTableModel {
  import opened Common
  import opened Records
  import C = Constants
  import P = PopupListener

  const Headers: seq<string> :=
    [" ", "Column", "Type", "Nullable", "Default", "Primary Key", "Auto Increment", "Comment"]

  /** `formatBoolean`. */
  function FormatBoolean(value: bool): (r: string)
    ensures r == "Yes" <==> value
    ensures r == "No" <==> !value
  {
    if value then "Yes" else "No"
  }

  function RowCount(rows: seq<ColumnStructure>): (n: nat)
    ensures n == |rows|
  {
    |rows|
  }

  /** One column per header, as many as the tab's configured widths. */
  function ColumnCount(): (n: nat)
    ensures n == |C.StructureColumnWidths| == 8
  {
    |Headers|
  }

  /** The header of a column; of them only "Comment" opens a popup. */
  function ColumnName(column: int): (h: string)
    requires 0 <= column < ColumnCount()
    ensures P.PopupEnabled(h) <==> column == 7
    ensures h == "Comment" <==> column == 7
  {
    Headers[column]
  }

  /** `getValueAt`: the position is the one integer cell; a column index
      outside the headers reads as the empty string. */
  function ValueAt(rows: seq<ColumnStructure>, rowIndex: int, columnIndex: int): (v: CellValue)
    requires 0 <= rowIndex < |rows|
    ensures v.IntValue? <==> columnIndex == 0
    ensures v.IntValue? ==> v.n == rows[rowIndex].position
    ensures !(0 <= columnIndex < ColumnCount()) ==> v == TextValue("")
  {
    var row := rows[rowIndex];
    match columnIndex
    case 0 => IntValue(row.position)
    case 1 => TextValue(row.name)
    case 2 => TextValue(row.dataType)
    case 3 => TextValue(FormatBoolean(row.nullable))
    case 4 => TextValue(row.defaultValue.GetOr(""))
    case 5 => TextValue(FormatBoolean(row.primaryKey))
    case 6 => TextValue(FormatBoolean(row.autoIncrement))
    case 7 => TextValue(row.comment)
    case _ => TextValue("")
  }

  /** The cells of one row, left to right. */
  function Cells(rows: seq<ColumnStructure>, rowIndex: int): (cells: seq<CellValue>)
    requires 0 <= rowIndex < |rows|
    ensures |cells| == ColumnCount()
  {
    seq(|Headers|, c requires 0 <= c < |Headers| => ValueAt(rows, rowIndex, c))
  }

  /** Reads a record back from its cells; an empty Default cell reads as no
      default. */
  function RecordFromCells(cells: seq<CellValue>): ColumnStructure
    requires |cells| == |Headers|
  {
    ColumnStructure(
      position := if cells[0].IntValue? then cells[0].n else 0,
      name := cells[1].ToString(),
      dataType := cells[2].ToString(),
      nullable := cells[3].ToString() == "Yes",
      defaultValue := if cells[4].ToString() == "" then None else Some(cells[4].ToString()),
      primaryKey := cells[5].ToString() == "Yes",
      autoIncrement := cells[6].ToString() == "Yes",
      comment := cells[7].ToString())
  }

  /** A row's cells show everything in the record, except that an empty
      default and a missing one look the same. */
  lemma CellsRoundTrip(rows: seq<ColumnStructure>, rowIndex: int)
    requires 0 <= rowIndex < |rows|
    ensures rows[rowIndex].defaultValue != Some("") ==> RecordFromCells(Cells(rows, rowIndex)) == rows[rowIndex]
    ensures RecordFromCells(Cells(rows, rowIndex)) == rows[rowIndex].(defaultValue :=
      if rows[rowIndex].defaultValue == Some("") then None else rows[rowIndex].defaultValue)
  {
    var cells := Cells(rows, rowIndex);
    assert cells[3] == TextValue(FormatBoolean(rows[rowIndex].nullable));
    assert cells[5] == TextValue(FormatBoolean(rows[rowIndex].primaryKey));
    assert cells[6] == TextValue(FormatBoolean(rows[rowIndex].autoIncrement));
  }

  /** The collision: a record with an empty default and the same record with
      none render identical rows. */
  lemma EmptyDefaultLooksMissing(r: ColumnStructure)
    requires r.defaultValue == Some("")
    ensures r != r.(defaultValue := None)
    ensures Cells([r], 0) == Cells([r.(defaultValue := None)], 0)
  {
    var a, b := Cells([r], 0), Cells([r.(defaultValue := None)], 0);
    assert forall c :: 0 <= c < |Headers| ==> a[c] == b[c];
  }

  /** The table as the popup listener sees it. */
  function View(rows: seq<ColumnStructure>): P.TableView {
    P.TableView(
      c => if 0 <= c < |Headers| then Headers[c] else "",
      (r, c) => if 0 <= r < RowCount(rows) then Some(ValueAt(rows, r, c).ToString()) else None)
  }

  /** The listener finds a cell exactly in the rows the model counts, and
      reads the `toString()` of the model's value there. */
  lemma ViewCells(rows: seq<ColumnStructure>, row: int, column: int)
    ensures View(rows).cellText(row, column).Some? <==> 0 <= row < RowCount(rows)
    ensures 0 <= row < RowCount(rows) ==>
      View(rows).cellText(row, column) == Some(ValueAt(rows, row, column).ToString())
  {
  }

  /** A double-click on this table opens a popup exactly on a Comment cell
      longer than ten characters (rows and columns under the point are -1 or
      in range). */
  lemma PopupOnlyForLongComments(rows: seq<ColumnStructure>, clickCount: int, row: int, column: int)
    requires -1 <= row < |rows| && -1 <= column < ColumnCount()
    ensures P.PopupText(P.Click(clickCount, Some(View(rows)), row, column)).Some? <==>
      clickCount == 2 && row >= 0 && column == 7 && |rows[row].comment| > 10
  {
  }
}

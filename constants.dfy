/** The constants of `TableStructureConstants` that the modelled code reads. */
module Constants {

  // Column widths of the five tables, one entry per header.
  const StructureColumnWidths: seq<int> := [35, 150, 100, 90, 150, 100, 100, 250]
  const IndexColumnWidths: seq<int> := [35, 200, 300, 100, 80, 250]
  const ForeignKeyColumnWidths: seq<int> := [35, 150, 150, 150, 150, 100, 100, 200]
  const TriggerColumnWidths: seq<int> := [35, 150, 100, 100, 250, 200]
  const CheckColumnWidths: seq<int> := [35, 200, 500, 250]

  // Text display.
  const MaxDisplayLength: nat := 80
  const TooltipThreshold: nat := 30
  const LongTextThreshold: nat := 10
  const TooltipWidth: nat := 500
  const TooltipWrapLength: nat := 80
  const Ellipsis: string := "..."

  // Popup sizing. POPUP_LINE_HEIGHT_MULTIPLIER (1.2) is used as 12 / 10.
  const PopupMinWidth: int := 400
  const PopupMaxWidth: int := 1000
  const PopupMinHeight: int := 200
  const PopupMaxHeight: int := 800
  const PopupDefaultWidth: int := 600
  const PopupBorderSize: int := 10

  // Index classification.
  const IndexTypePrimary: string := "PRIMARY"
  const IndexTypeUnique: string := "UNIQUE"
  const IndexTypeIndex: string := "INDEX"
  const IndexPrefixPrimary: string := "PK_"
  const IndexNamePrimary: string := "PRIMARY"

  // Foreign keys.
  const FkPrefix: string := "FK_"

  // String operations.
  const ColumnSeparator: string := ", "
  const HtmlBreak: string := "<br>"
  const Space: string := " "
  const DoubleClickCount: int := 2
}

# schema-lens in Dafny

schema-lens is an IntelliJ database-tools plugin. It shows a "Table Structure" view of the table selected in the IDE. This project models the plugin's logic in Dafny 4.11 and proves its properties:

- **Extractors.** They turn the platform's index, foreign-key, trigger and check objects into flat display records with 1-based positions. A host call that throws is modelled explicitly, as `Common.Attempt`.
- **Cell renderer.** It truncates a cell's text for display and builds the HTML tooltip. The tooltip's HTML escaping and greedy word wrap are the source's character loops. Each loop is written as a method and proved equal to a specification function (`CellRenderer.Escaped`, `CellRenderer.Wrapped`). The properties of the tooltip are proved about those functions:
  - unescaping inverts escaping;
  - every wrapped line fits or is one long word;
  - the wrap is greedy;
  - reading the breaks back gives the text again.
- **Popup listener.** It decides which double-clicks open the full-content popup, and how big the popup is.
- **Five table models.** They project records onto table cells.
- **Action.** It resolves the selected table through an ordered list of fallbacks and walks up the parent chain.

Module layout:

- There is one module per Kotlin file.
- `Common` holds:
  - `Option` and `Attempt`;
  - the Kotlin string operations the plugin uses (`joinToString`, `split`, `contains`, `startsWith`);
  - `mapIndexed` with a throwing element.
- `Constants` holds the constants of `framework/TableStructureConstants.kt` that the modelled code reads.
- `Records` holds the records of the `model` package.

External inputs:

- Font metrics become parameters: the 'M' width, the line height, and a string-width function.
- Each platform object becomes a datatype holding the fields that are read.
- The reflective call and the data-key lookups of an action event become fields of the `ActionEvent` datatype.

## Model

| member | source | states |
|---|---|---|
| Common.JoinEmpty | src/main/kotlin/cn/com/mustache/plugin/schemalens/extractor/IndexExtractor.kt:39-51 | a join with a non-empty separator is empty exactly when there are no parts, or one empty part |
| Common.JoinSplit | src/main/kotlin/cn/com/mustache/plugin/schemalens/ui/TableCellPopupListener.kt:80 | joining the pieces of `split(sep)` with the separator gives back the text |
| Common.SplitJoin | src/main/kotlin/cn/com/mustache/plugin/schemalens/ui/TableCellPopupListener.kt:80 | splitting a join of separator-free parts gives back those parts |
| Common.MapPositioned | src/main/kotlin/cn/com/mustache/plugin/schemalens/extractor/IndexExtractor.kt:27 | the mapping succeeds exactly when no element throws; item k then maps with position start + k |
| IndexExtractor.Uppercase | src/main/kotlin/cn/com/mustache/plugin/schemalens/extractor/IndexExtractor.kt:42 | length is kept; each ASCII lower-case letter becomes its upper-case letter (code point minus 32) and every other character is kept |
| IndexExtractor.UppercaseOfUpper | src/main/kotlin/cn/com/mustache/plugin/schemalens/extractor/IndexExtractor.kt:42 | a name without lower-case letters is unchanged by upper-casing |
| IndexExtractor.IsPrimaryIndex | src/main/kotlin/cn/com/mustache/plugin/schemalens/extractor/IndexExtractor.kt:62-66 | primary exactly when the name contains "PRIMARY" or starts with "PK_"; the equality test is subsumed |
| IndexExtractor.DetermineIndexType | src/main/kotlin/cn/com/mustache/plugin/schemalens/extractor/IndexExtractor.kt:71-77 | PRIMARY iff primary; UNIQUE iff unique and not primary; INDEX iff neither |
| IndexExtractor.ToIndexStructure | src/main/kotlin/cn/com/mustache/plugin/schemalens/extractor/IndexExtractor.kt:37-57 | every record field in terms of the index: the columns fall back to the name when the joined list is empty; shown as unique iff primary by name or unique by flag; the type is `DetermineIndexType` of the upper-cased name's primary test and the flag (PRIMARY over UNIQUE over INDEX), hence INDEX iff not unique; absent comment as "" |
| IndexExtractor.Extract | src/main/kotlin/cn/com/mustache/plugin/schemalens/extractor/IndexExtractor.kt:20-34 | a throw while reading the list or any index yields []; otherwise one record per index, record k being index k converted at position k + 1 |
| IndexExtractor.ExtractAllOrNothing | src/main/kotlin/cn/com/mustache/plugin/schemalens/extractor/IndexExtractor.kt:20-34 | the result is empty or holds one record per index |
| IndexExtractor.ExtractPositions | src/main/kotlin/cn/com/mustache/plugin/schemalens/extractor/IndexExtractor.kt:27 | positions are 1..n in source order |
| IndexExtractor.TypeIgnoresNonPrimaryName | src/main/kotlin/cn/com/mustache/plugin/schemalens/extractor/IndexExtractor.kt:45-52 | for non-primary names the type and unique flag depend only on the platform flag |
| IndexExtractor.PrimaryByPrefixExample | src/main/kotlin/cn/com/mustache/plugin/schemalens/extractor/IndexExtractor.kt:62-66 | "PK_USER" without the platform flag is PRIMARY and shown as unique |
| IndexExtractor.PrimaryIgnoresCaseExample | src/main/kotlin/cn/com/mustache/plugin/schemalens/extractor/IndexExtractor.kt:42-43 | "pk_user" is PRIMARY: the prefix test ignores case |
| IndexExtractor.UniqueOnlyByFlagExample | src/main/kotlin/cn/com/mustache/plugin/schemalens/extractor/IndexExtractor.kt:45-52 | "UQ_EMAIL" is UNIQUE only with the platform flag, INDEX otherwise |
| ForeignKeyExtractor.DefaultName | src/main/kotlin/cn/com/mustache/plugin/schemalens/extractor/ForeignKeyExtractor.kt:59-64 | the synthesized name is "FK_" followed by the owning table's name, or by "null" without one |
| ForeignKeyExtractor.ToForeignKeyStructure | src/main/kotlin/cn/com/mustache/plugin/schemalens/extractor/ForeignKeyExtractor.kt:38-76 | every record field in terms of the key; the name is never empty; an empty platform name gets the default name |
| ForeignKeyExtractor.Extract | src/main/kotlin/cn/com/mustache/plugin/schemalens/extractor/ForeignKeyExtractor.kt:20-35 | a throw while reading the list or any key yields []; otherwise record k is key k converted at position k + 1 |
| ForeignKeyExtractor.ExtractPositions | src/main/kotlin/cn/com/mustache/plugin/schemalens/extractor/ForeignKeyExtractor.kt:27-28 | all or nothing, with positions 1..n in source order |
| ForeignKeyExtractor.DefaultNameExample | src/main/kotlin/cn/com/mustache/plugin/schemalens/extractor/ForeignKeyExtractor.kt:59-64 | an unnamed key of table "orders" is named "FK_orders" |
| ForeignKeyExtractor.NoColumnFallback | src/main/kotlin/cn/com/mustache/plugin/schemalens/extractor/ForeignKeyExtractor.kt:40 | an empty column list stays "" (no fallback to the name, unlike indexes) |
| TriggerExtractor.ToTriggerStructure | src/main/kotlin/cn/com/mustache/plugin/schemalens/extractor/TriggerExtractor.kt:30-44 | events joined with ", ", a missing timing as "null", an absent comment as "" |
| TriggerExtractor.TriggersFrom | src/main/kotlin/cn/com/mustache/plugin/schemalens/extractor/TriggerExtractor.kt:20-22 | aborts exactly when some trigger throws; otherwise one record per trigger, each the conversion of the child at its unfiltered position, positions strictly increasing |
| TriggerExtractor.Extract | src/main/kotlin/cn/com/mustache/plugin/schemalens/extractor/TriggerExtractor.kt:15-27 | a failed read or a throwing trigger yields []; otherwise the records of `TriggersFrom`, positions counting every child |
| TriggerExtractor.PositionGapExample | src/main/kotlin/cn/com/mustache/plugin/schemalens/extractor/TriggerExtractor.kt:20-22 | a dropped non-trigger leaves a gap: [non-trigger, trigger] yields one record at position 2 |
| CheckExtractor.ToCheckStructure | src/main/kotlin/cn/com/mustache/plugin/schemalens/extractor/CheckExtractor.kt:28-41 | null, non-`DbObject` and `Exception` children give null; only an `Error` escapes; a readable object gives its name, text and comment |
| CheckExtractor.ChecksFrom | src/main/kotlin/cn/com/mustache/plugin/schemalens/extractor/CheckExtractor.kt:18-20 | aborts exactly when some child throws an `Error`; otherwise one record per convertible child at its position, positions strictly increasing |
| CheckExtractor.Extract | src/main/kotlin/cn/com/mustache/plugin/schemalens/extractor/CheckExtractor.kt:13-25 | a failed read or an `Error` yields []; otherwise each record is its child's conversion at its unfiltered position |
| CheckExtractor.SkipExample | src/main/kotlin/cn/com/mustache/plugin/schemalens/extractor/CheckExtractor.kt:18-20 | a child whose read throws an `Exception` is skipped, and the check after it keeps its own position 3 |
| CellRenderer.DisplayText | src/main/kotlin/cn/com/mustache/plugin/schemalens/ui/MultilineTableCellRenderer.kt:40-47 | unchanged up to 80 characters; otherwise the first 80 characters followed by "..." (83 in all) |
| CellRenderer.DisplayTextIdempotent | src/main/kotlin/cn/com/mustache/plugin/schemalens/ui/MultilineTableCellRenderer.kt:40-47 | truncating the display text again changes nothing |
| CellRenderer.EscapedLength | src/main/kotlin/cn/com/mustache/plugin/schemalens/ui/MultilineTableCellRenderer.kt:83-98 | escaping never shortens the text |
| CellRenderer.EscapedNoMarkup | src/main/kotlin/cn/com/mustache/plugin/schemalens/ui/MultilineTableCellRenderer.kt:83-98 | escaped text contains no '<', '>', '"' or "'" |
| CellRenderer.EscapedAppend | src/main/kotlin/cn/com/mustache/plugin/schemalens/ui/MultilineTableCellRenderer.kt:86-96 | escaping distributes over concatenation, character by character |
| CellRenderer.EscapedIdentity | src/main/kotlin/cn/com/mustache/plugin/schemalens/ui/MultilineTableCellRenderer.kt:88-95 | escaping leaves a text unchanged iff it has none of the five special characters |
| CellRenderer.EscapedLonger | src/main/kotlin/cn/com/mustache/plugin/schemalens/ui/MultilineTableCellRenderer.kt:88-93 | a text with a special character gets strictly longer |
| CellRenderer.UnescapeEscapeChar | src/main/kotlin/cn/com/mustache/plugin/schemalens/ui/MultilineTableCellRenderer.kt:88-95 | each of the five entities, and every other character, decodes back to the character it stands for |
| CellRenderer.UnescapeEscaped | src/main/kotlin/cn/com/mustache/plugin/schemalens/ui/MultilineTableCellRenderer.kt:83-98 | decoding the five entities inverts escaping |
| CellRenderer.EscapedSpacing | src/main/kotlin/cn/com/mustache/plugin/schemalens/ui/MultilineTableCellRenderer.kt:88-95 | escaping keeps emptiness, a leading or trailing space, and the absence of double spaces |
| CellRenderer.EscapeHtml | src/main/kotlin/cn/com/mustache/plugin/schemalens/ui/MultilineTableCellRenderer.kt:83-98 | the `StringBuilder` loop computes `Escaped(text)` |
| CellRenderer.Words | src/main/kotlin/cn/com/mustache/plugin/schemalens/ui/MultilineTableCellRenderer.kt:122-145 | the words the scan delimits: none but the last contains a space, the last ends with the text's last character |
| CellRenderer.WordsJoin | src/main/kotlin/cn/com/mustache/plugin/schemalens/ui/MultilineTableCellRenderer.kt:122-145 | the words joined with single spaces are the text |
| CellRenderer.WordsNonEmpty | src/main/kotlin/cn/com/mustache/plugin/schemalens/ui/MultilineTableCellRenderer.kt:122-145 | without a leading or a double space, no word is empty |
| CellRenderer.LayoutSnoc | src/main/kotlin/cn/com/mustache/plugin/schemalens/ui/MultilineTableCellRenderer.kt:130-141 | laying out one more word is one more step of the three-way placement |
| CellRenderer.Wrapped | src/main/kotlin/cn/com/mustache/plugin/schemalens/ui/MultilineTableCellRenderer.kt:111-114 | a text that fits is returned as it is |
| CellRenderer.LayoutShape | src/main/kotlin/cn/com/mustache/plugin/schemalens/ui/MultilineTableCellRenderer.kt:130-141 | the completed lines are non-empty, each fits or is one word, consecutive lines could not be merged (greedy), and the current line did not fit after the last one |
| CellRenderer.LayoutRejoin | src/main/kotlin/cn/com/mustache/plugin/schemalens/ui/MultilineTableCellRenderer.kt:130-141 | the lines and the current line joined with spaces are the words joined with spaces |
| CellRenderer.LayoutNoMarkup | src/main/kotlin/cn/com/mustache/plugin/schemalens/ui/MultilineTableCellRenderer.kt:130-141 | a layout of markup-free words has markup-free lines |
| CellRenderer.WrapLinesShape | src/main/kotlin/cn/com/mustache/plugin/schemalens/ui/MultilineTableCellRenderer.kt:111-156 | every wrapped line is non-empty and fits, or is one over-long word; the wrap is greedy |
| CellRenderer.WrapLinesRejoin | src/main/kotlin/cn/com/mustache/plugin/schemalens/ui/MultilineTableCellRenderer.kt:111-156 | for text without a leading or a double space, the lines joined with spaces are the text: nothing is lost or split |
| CellRenderer.WrapLinesNoMarkup | src/main/kotlin/cn/com/mustache/plugin/schemalens/ui/MultilineTableCellRenderer.kt:111-156 | wrapping markup-free text gives markup-free lines |
| CellRenderer.PlaceWord | src/main/kotlin/cn/com/mustache/plugin/schemalens/ui/MultilineTableCellRenderer.kt:130-141 | the word branch of the loop performs one `Place` step and keeps the result equal to the completed lines joined with "<br>" |
| CellRenderer.WrapText | src/main/kotlin/cn/com/mustache/plugin/schemalens/ui/MultilineTableCellRenderer.kt:111-156 | for a positive width, the character loop computes `Wrapped(text, width)` |
| CellRenderer.ReplaceBreaksJoin | src/main/kotlin/cn/com/mustache/plugin/schemalens/ui/MultilineTableCellRenderer.kt:137-152 | in a "<br>" join of markup-free lines, reading each break as a separator gives the join with that separator |
| CellRenderer.NewlinesToBreaks | src/main/kotlin/cn/com/mustache/plugin/schemalens/ui/MultilineTableCellRenderer.kt:71 | no newline is left; newline-free text is unchanged |
| CellRenderer.NewlinesToBreaksRoundTrip | src/main/kotlin/cn/com/mustache/plugin/schemalens/ui/MultilineTableCellRenderer.kt:71 | for markup-free text, reading each break back as a newline inverts the replacement |
| CellRenderer.BuildTooltipHtml | src/main/kotlin/cn/com/mustache/plugin/schemalens/ui/MultilineTableCellRenderer.kt:103-105 | the content sits, unchanged, between the fixed 500px HTML prefix and the closing suffix |
| CellRenderer.FormatTooltip | src/main/kotlin/cn/com/mustache/plugin/schemalens/ui/MultilineTableCellRenderer.kt:65-78 | computes `TooltipHtml(text)`: escaped, then newlines as breaks if the text has any, else wrapped at 80 |
| CellRenderer.TooltipBodyBreaksOnly | src/main/kotlin/cn/com/mustache/plugin/schemalens/ui/MultilineTableCellRenderer.kt:65-78 | every markup character of the body belongs to a "<br>" the formatter inserted |
| CellRenderer.TooltipRoundTripMultiline | src/main/kotlin/cn/com/mustache/plugin/schemalens/ui/MultilineTableCellRenderer.kt:69-73 | a multi-line text is recovered from its body by reading breaks as newlines and unescaping |
| CellRenderer.TooltipRoundTripWrapped | src/main/kotlin/cn/com/mustache/plugin/schemalens/ui/MultilineTableCellRenderer.kt:75-77 | a single-line text without a leading or a double space is recovered from its wrapped body by reading breaks as spaces and unescaping |
| CellRenderer.TooltipFor | src/main/kotlin/cn/com/mustache/plugin/schemalens/ui/MultilineTableCellRenderer.kt:53-57 | a tooltip exactly when the text is longer than 30 characters, and then the formatted HTML |
| CellRenderer.TruncationImpliesTooltip | src/main/kotlin/cn/com/mustache/plugin/schemalens/ui/MultilineTableCellRenderer.kt:40-57 | whenever the display truncates, the full text is in a tooltip |
| CellRenderer.MultilineTableCellRenderer.GetTableCellRendererComponent | src/main/kotlin/cn/com/mustache/plugin/schemalens/ui/MultilineTableCellRenderer.kt:28-60 | the label shows the display text of the value (null as "") and carries exactly `TooltipFor` of it |
| PopupListener.PopupText | src/main/kotlin/cn/com/mustache/plugin/schemalens/ui/TableCellPopupListener.kt:29-50 | a popup opens iff: the click count is 2, the source is a table, row and column are at least 0, the header is popup-enabled, and the text is longer than 10; it then shows the cell's text |
| PopupListener.NoPopupForNullOrSingleClick | src/main/kotlin/cn/com/mustache/plugin/schemalens/ui/TableCellPopupListener.kt:30-46 | a null cell or a click count other than 2 never opens a popup |
| PopupListener.Clamp | src/main/kotlin/cn/com/mustache/plugin/schemalens/ui/TableCellPopupListener.kt:94-96 | the result lies in [lo, hi], equals x inside it and the nearer bound outside |
| PopupListener.Scale13 | src/main/kotlin/cn/com/mustache/plugin/schemalens/ui/TableCellPopupListener.kt:90 | x · 1.3 truncated toward zero |
| PopupListener.Scale12 | src/main/kotlin/cn/com/mustache/plugin/schemalens/ui/TableCellPopupListener.kt:125 | x · 1.2 truncated toward zero |
| PopupListener.MaxLength | src/main/kotlin/cn/com/mustache/plugin/schemalens/ui/TableCellPopupListener.kt:81 | no line is longer, and some line has that length (0 for no lines) |
| PopupListener.Lines | src/main/kotlin/cn/com/mustache/plugin/schemalens/ui/TableCellPopupListener.kt:80 | a text always has at least one line |
| PopupListener.PopupWidth | src/main/kotlin/cn/com/mustache/plugin/schemalens/ui/TableCellPopupListener.kt:85-96 | the width lies in [400, 1000] |
| PopupListener.PopupWidthByLongestLine | src/main/kotlin/cn/com/mustache/plugin/schemalens/ui/TableCellPopupListener.kt:85-96 | the width is 600 when some line is over 100 characters, else the clamped longest line times 'M' width times 1.3 |
| PopupListener.AvailableWidth | src/main/kotlin/cn/com/mustache/plugin/schemalens/ui/TableCellPopupListener.kt:100 | for a clamped width the text width is in [360, 960], so the `> 0` guard always holds |
| PopupListener.LineVisualCount | src/main/kotlin/cn/com/mustache/plugin/schemalens/ui/TableCellPopupListener.kt:104-117 | one visual line iff the line does not overflow; an overflowing line takes from 2 up to its length / 10 + 2 |
| PopupListener.VisualLines | src/main/kotlin/cn/com/mustache/plugin/schemalens/ui/TableCellPopupListener.kt:102-118 | at least one visual line per line, exactly one each iff none overflows |
| PopupListener.OptimalSize | src/main/kotlin/cn/com/mustache/plugin/schemalens/ui/TableCellPopupListener.kt:74-134 | width in [400, 1000] and height in [200, 800] |
| PopupListener.TotalVisualLines | src/main/kotlin/cn/com/mustache/plugin/schemalens/ui/TableCellPopupListener.kt:100-121 | the padded count is at least the line count plus 3, with equality iff no line overflows |
| PopupListener.VisualLineCount | src/main/kotlin/cn/com/mustache/plugin/schemalens/ui/TableCellPopupListener.kt:104-115 | the loop body computes `LineVisualCount` |
| PopupListener.CalculateOptimalSize | src/main/kotlin/cn/com/mustache/plugin/schemalens/ui/TableCellPopupListener.kt:74-134 | the accumulation loop computes `OptimalSize` |
| ColumnStructureTableModel.FormatBoolean | src/main/kotlin/cn/com/mustache/plugin/schemalens/ui/ColumnStructureTableModel.kt:36 | "Yes" iff true, "No" iff false |
| ColumnStructureTableModel.ColumnCount | src/main/kotlin/cn/com/mustache/plugin/schemalens/ui/ColumnStructureTableModel.kt:17 | 8 columns, as many as `STRUCTURE_COLUMN_WIDTHS` has entries |
| ColumnStructureTableModel.ColumnName | src/main/kotlin/cn/com/mustache/plugin/schemalens/ui/ColumnStructureTableModel.kt:13-19 | only column 7 ("Comment") has a popup-enabled header |
| ColumnStructureTableModel.ValueAt | src/main/kotlin/cn/com/mustache/plugin/schemalens/ui/ColumnStructureTableModel.kt:21-34 | column 0 is the only integer cell and holds the position; an index outside 0..7 gives "" |
| ColumnStructureTableModel.CellsRoundTrip | src/main/kotlin/cn/com/mustache/plugin/schemalens/ui/ColumnStructureTableModel.kt:21-36 | the record is read back from its cells, except that an empty default reads back as none |
| ColumnStructureTableModel.EmptyDefaultLooksMissing | src/main/kotlin/cn/com/mustache/plugin/schemalens/ui/ColumnStructureTableModel.kt:28 | an empty default and a missing one render identical rows |
| ColumnStructureTableModel.PopupOnlyForLongComments | src/main/kotlin/cn/com/mustache/plugin/schemalens/ui/ColumnStructureTableModel.kt:13-34 | a double-click on this table opens a popup exactly on a Comment cell longer than 10 |
| IndexTableModel.ColumnCount | src/main/kotlin/cn/com/mustache/plugin/schemalens/ui/IndexTableModel.kt:17 | 6 columns, as many as `INDEX_COLUMN_WIDTHS` has entries |
| IndexTableModel.ColumnName | src/main/kotlin/cn/com/mustache/plugin/schemalens/ui/IndexTableModel.kt:13-19 | the popup-enabled headers are exactly columns 2 and 5 |
| IndexTableModel.ValueAt | src/main/kotlin/cn/com/mustache/plugin/schemalens/ui/IndexTableModel.kt:21-32 | column 0 is the only integer cell and holds the position; an index outside 0..5 gives "" |
| IndexTableModel.CellsRoundTrip | src/main/kotlin/cn/com/mustache/plugin/schemalens/ui/IndexTableModel.kt:21-34 | the record is read back from its cells |
| IndexTableModel.PopupOnlyForLongColumnsOrComments | src/main/kotlin/cn/com/mustache/plugin/schemalens/ui/IndexTableModel.kt:13-32 | a popup opens exactly on a Columns or Comment cell longer than 10 |
| ForeignKeyTableModel.ColumnCount | src/main/kotlin/cn/com/mustache/plugin/schemalens/ui/ForeignKeyTableModel.kt:18 | 8 columns, as many as `FOREIGN_KEY_COLUMN_WIDTHS` has entries |
| ForeignKeyTableModel.ColumnName | src/main/kotlin/cn/com/mustache/plugin/schemalens/ui/ForeignKeyTableModel.kt:13-20 | the popup-enabled headers are exactly columns 2, 4 and 7 ("Referenced Table" is not) |
| ForeignKeyTableModel.ValueAt | src/main/kotlin/cn/com/mustache/plugin/schemalens/ui/ForeignKeyTableModel.kt:22-35 | column 0 is the only integer cell and holds the position; an index outside 0..7 gives "" |
| ForeignKeyTableModel.CellsRoundTrip | src/main/kotlin/cn/com/mustache/plugin/schemalens/ui/ForeignKeyTableModel.kt:22-35 | the record is read back from its cells, fields in header order |
| ForeignKeyTableModel.PopupOnlyForLongListsOrComments | src/main/kotlin/cn/com/mustache/plugin/schemalens/ui/ForeignKeyTableModel.kt:13-35 | a popup opens exactly on a Columns, Referenced Columns or Comment cell longer than 10 |
| TriggerTableModel.ColumnCount | src/main/kotlin/cn/com/mustache/plugin/schemalens/ui/TriggerTableModel.kt:17 | 6 columns, as many as `TRIGGER_COLUMN_WIDTHS` has entries |
| TriggerTableModel.ColumnName | src/main/kotlin/cn/com/mustache/plugin/schemalens/ui/TriggerTableModel.kt:13-19 | the popup-enabled headers are exactly columns 4 and 5 |
| TriggerTableModel.ValueAt | src/main/kotlin/cn/com/mustache/plugin/schemalens/ui/TriggerTableModel.kt:21-32 | column 0 is the only integer cell and holds the position; an index outside 0..5 gives "" |
| TriggerTableModel.CellsRoundTrip | src/main/kotlin/cn/com/mustache/plugin/schemalens/ui/TriggerTableModel.kt:21-32 | the record is read back from its cells, fields in header order |
| TriggerTableModel.PopupOnlyForLongStatementsOrComments | src/main/kotlin/cn/com/mustache/plugin/schemalens/ui/TriggerTableModel.kt:13-32 | a popup opens exactly on a Statement or Comment cell longer than 10 |
| CheckTableModel.ColumnCount | src/main/kotlin/cn/com/mustache/plugin/schemalens/ui/CheckTableModel.kt:17 | 4 columns, as many as `CHECK_COLUMN_WIDTHS` has entries |
| CheckTableModel.ColumnName | src/main/kotlin/cn/com/mustache/plugin/schemalens/ui/CheckTableModel.kt:13-19 | the popup-enabled headers are exactly columns 2 and 3 |
| CheckTableModel.ValueAt | src/main/kotlin/cn/com/mustache/plugin/schemalens/ui/CheckTableModel.kt:21-30 | column 0 is the only integer cell and holds the position; an index outside 0..3 gives "" |
| CheckTableModel.CellsRoundTrip | src/main/kotlin/cn/com/mustache/plugin/schemalens/ui/CheckTableModel.kt:21-30 | the record is read back from its cells, fields in header order |
| CheckTableModel.PopupOnlyForLongExpressionsOrComments | src/main/kotlin/cn/com/mustache/plugin/schemalens/ui/CheckTableModel.kt:13-30 | a popup opens exactly on an Expression or Comment cell longer than 10 |
| TableStructureAction.FirstSome | src/main/kotlin/cn/com/mustache/plugin/schemalens/TableStructureAction.kt:39-46 | none iff every option is none; otherwise the first present option |
| TableStructureAction.FirstSomeAt | src/main/kotlin/cn/com/mustache/plugin/schemalens/TableStructureAction.kt:39-46 | an option preceded only by none options is the result |
| TableStructureAction.FirstTableIndex | src/main/kotlin/cn/com/mustache/plugin/schemalens/TableStructureAction.kt:56-60 | the index of the first table in the chain, none iff the chain has no table |
| TableStructureAction.NearestTable | src/main/kotlin/cn/com/mustache/plugin/schemalens/TableStructureAction.kt:51-64 | a table is its own answer; another element gives its first table ancestor k, every ancestor before k not being a table, and none iff no ancestor is a table; null and non-elements give none |
| TableStructureAction.FindTable | src/main/kotlin/cn/com/mustache/plugin/schemalens/TableStructureAction.kt:51-64 | the `while` walk up the parent chain computes `NearestTable` |
| TableStructureAction.TryResolveByReflection | src/main/kotlin/cn/com/mustache/plugin/schemalens/TableStructureAction.kt:69-87 | a table only when the first selected element is itself a table; an `Exception` gives none; only an `Error` escapes |
| TableStructureAction.ByDataKeys | src/main/kotlin/cn/com/mustache/plugin/schemalens/TableStructureAction.kt:92-102 | none iff none of the four data keys leads to a table; a result is always a table |
| TableStructureAction.TryResolveByDataKeys | src/main/kotlin/cn/com/mustache/plugin/schemalens/TableStructureAction.kt:92-102 | the four lookups with early returns compute `ByDataKeys` |
| TableStructureAction.BySelectedItems | src/main/kotlin/cn/com/mustache/plugin/schemalens/TableStructureAction.kt:107-113 | no array gives none; otherwise none iff no item leads to a table, and else the table of the first item in array order that leads to one; a result is always a table |
| TableStructureAction.TryResolveBySelectedItems | src/main/kotlin/cn/com/mustache/plugin/schemalens/TableStructureAction.kt:107-113 | the loop over the items computes `BySelectedItems`, the first item in array order that leads to a table |
| TableStructureAction.Resolve | src/main/kotlin/cn/com/mustache/plugin/schemalens/TableStructureAction.kt:39-46 | throws iff reflection throws an `Error`; a resolved element is always a table |
| TableStructureAction.ResolveIsFirstSome | src/main/kotlin/cn/com/mustache/plugin/schemalens/TableStructureAction.kt:39-46 | the result is the first of the six sources, in their fixed order, that yields a table |
| TableStructureAction.ReflectionDoesNotWalkUp | src/main/kotlin/cn/com/mustache/plugin/schemalens/TableStructureAction.kt:82 | a selected column under a table is not resolved by reflection, but is by the editor data key |
| TableStructureAction.ResolveSelectedTable | src/main/kotlin/cn/com/mustache/plugin/schemalens/TableStructureAction.kt:39-46 | the three strategies in sequence compute `Resolve` |
| TableStructureAction.Update | src/main/kotlin/cn/com/mustache/plugin/schemalens/TableStructureAction.kt:24-30 | enabled and visible exactly when a table is resolved; an `Error` leaves the presentation unchanged |
| TableStructureAction.ActionPerformed | src/main/kotlin/cn/com/mustache/plugin/schemalens/TableStructureAction.kt:32-37 | without a project nothing runs; otherwise a loader task for the project and the resolved table runs exactly when one is resolved |

By the greedy-wrap properties, every line is at most the wrap width when no word is longer than it. A longer word is kept whole on a line of its own.

### Behaviour of the code worth knowing

- **Trigger and check positions.** Positions count every child of the table, including children that are dropped. A record's position is therefore not always its index in the result plus one (`TriggerExtractor.PositionGapExample`, `CheckExtractor.SkipExample`).
- **Check children.** A child that fails to convert with an `Exception` is skipped, not fatal. Only a failure to read the children, or an `Error` while converting one, empties the check list.
- **Default foreign-key name.** It is "FK_" followed by the owning table's name, and "FK_null" when the key has no table.
- **Popup width.** The text width inside the popup is the width minus twice the 10-pixel border and 20 more, so 40 in all.

## Left out

- `ui/TableStructureFileEditor.kt` and the `framework` files other than the constants are not part of this model: Swing tab, table and scroll-pane construction, background loading, threading and editor registration.
- The popup itself (`showPopup`, `createPopupTextArea`, `createPopupScrollPane`, `createPopup`): Swing construction and display. The model stops at the text shown and the size chosen.
- Logging in the extractors (`TableStructureLogger.warn`): the message is not modelled. Each handler builds it from the table's name (IndexExtractor.kt:31, ForeignKeyExtractor.kt:32, TriggerExtractor.kt:24, CheckExtractor.kt:22). The model takes that read not to throw; if it does throw, the throwable escapes `extract` instead of the empty list being returned.
- String lengths are counted in Unicode scalar values (Dafny's `char`), whereas Kotlin's `String.length` counts UTF-16 code units. A text with characters outside the Basic Multilingual Plane therefore meets the 80, 30 and 10 thresholds and the wrap widths at other lengths than in the source. A `substring(0, 80)` that cuts a surrogate pair in half is not modelled.
- The `super.getTableCellRendererComponent` call (colours, selection, focus) and `getActionUpdateThread`: Swing and platform plumbing.
- The internals of the reflective call and of the data-key lookups: they are the inputs of `ActionEvent`.
- The JTable view-to-model index mapping: the `TableView` a click sees gives the model's column names and cell texts directly.
- IndexExtractor.Uppercase: upper-cases ASCII letters only; Unicode case mapping is not modelled.
- PopupListener.Scale13: the factor 1.3 is taken as exactly 13/10; a `Double` representation error that changes the truncated result is not modelled.
- PopupListener.Scale12: the factor 1.2 is taken as exactly 12/10, with the same caveat.
- PopupListener.CalculateOptimalSize: integers are unbounded, so a 32-bit overflow of `maxLineLength * charWidth` or `totalVisualLines * lineHeight` is not modelled.
- PopupListener.CalculateOptimalSize: requires an 'M' width greater than 0. With a width of 0 the source divides by zero at line 111; the model does not cover that case.
- CellRenderer.WrapText: requires a positive width. The source divides by the width at line 117, and its one caller passes 80.
- CellRenderer.Wrapped: requires a positive width, for the same reason.
- CellRenderer.TooltipRoundTripWrapped: holds only for text without a leading or a double space. The wrap drops such spaces, because an empty word on an empty line adds nothing.
- ColumnStructureTableModel.ColumnName: requires an index within the headers; the source throws `IndexOutOfBoundsException` outside them.
- ColumnStructureTableModel.ValueAt: requires a row index within the records. The source throws outside them, and a table only asks for existing rows. The other four models' `ColumnName` and `ValueAt` do the same.
- TriggerExtractor.ToTriggerStructure: the statement, `asOptional.get().toString()`, is an input string whose read may throw.
- ForeignKeyExtractor.ToForeignKeyStructure: the update and delete rules are the names of the rule constants, taken as strings.

/** `TableCellPopupListener`: which double-clicks open the full-content popup,
    and how large that popup is made. */
module PopupListener {
  import opened Common
  import C = Constants

  /** Headers whose cells may be long enough to deserve a popup. */
  const PopupEnabledColumns: set<string> :=
    {"Comment", "Statement", "Expression", "Columns", "Referenced Columns"}

  predicate PopupEnabled(header: string) {
    header in PopupEnabledColumns
  }

  // Literals of `calculateOptimalSize`.
  const LongLineLength: nat := 100
  const ScrollbarAllowance: int := 20
  const MinCharsPerLine: int := 10
  const PaddingLines: nat := 3

  /** What the listener reads from the table the event came from: the model's
      column names and the cells (`getValueAt(row, column)?.toString()`, `None`
      for a null cell). */
  datatype TableView = TableView(columnName: int -> string, cellText: (int, int) -> Option<string>)

  /** A mouse click: its count, the table it came from (`None` when the source
      is not a `JTable`), and the row and column under the point (-1 when
      none). */
  datatype Click = Click(clickCount: int, source: Option<TableView>, row: int, column: int)

  /** The text a double-click reads from the cell under it (null read as ""). */
  function CellText(t: TableView, row: int, column: int): (r: string)
    ensures t.cellText(row, column).Some? ==> r == t.cellText(row, column).value
    ensures t.cellText(row, column).None? ==> r == ""
  {
    t.cellText(row, column).GetOr("")
  }

  /** `mouseClicked`: the text of the popup it shows, or `None` when none is
      shown. */
  function PopupText(e: Click): (r: Option<string>)
    ensures r.Some? <==>
      e.clickCount == C.DoubleClickCount && e.source.Some? && e.row >= 0 && e.column >= 0
      && PopupEnabled(e.source.value.columnName(e.column))
      && |CellText(e.source.value, e.row, e.column)| > C.LongTextThreshold
    ensures r.Some? ==> r.value == CellText(e.source.value, e.row, e.column) && |r.value| > 0
  {
    if e.clickCount != C.DoubleClickCount then None
    else
      match e.source
      case None => None
      case Some(table) =>
        if e.row >= 0 && e.column >= 0 then
          if !PopupEnabled(table.columnName(e.column)) then None
          else
            var value := CellText(table, e.row, e.column);
            if |value| > C.LongTextThreshold && |value| > 0 then Some(value) else None
        else None
  }

  /** A null cell never opens a popup, nor does a single click. */
  lemma NoPopupForNullOrSingleClick(e: Click)
    ensures e.source.Some? && e.source.value.cellText(e.row, e.column).None? ==> PopupText(e).None?
    ensures e.clickCount != 2 ==> PopupText(e).None?
  {
  }

  /** `x.coerceAtLeast(lo).coerceAtMost(hi)`. */
  function Clamp(x: int, lo: int, hi: int): (r: int)
    ensures lo <= hi ==> lo <= r <= hi
    ensures lo <= x <= hi ==> r == x
    ensures x < lo && lo <= hi ==> r == lo
    ensures x > hi ==> r == hi
  {
    var atLeast := if x < lo then lo else x;
    if atLeast > hi then hi else atLeast
  }

  function Max(a: int, b: int): (r: int)
    ensures r >= a && r >= b && (r == a || r == b)
  {
    if a >= b then a else b
  }

  /** `(x * 1.3).toInt()`: the product truncated toward zero. */
  function Scale13(x: int): (r: int)
    ensures x >= 0 ==> 0 <= r && 10 * r <= 13 * x < 10 * r + 10
    ensures x < 0 ==> r <= 0 && 10 * r >= 13 * x > 10 * r - 10
  {
    if x >= 0 then 13 * x / 10 else -((-13 * x) / 10)
  }

  /** `(x * 1.2).toInt()`: the product truncated toward zero. */
  function Scale12(x: int): (r: int)
    ensures x >= 0 ==> 0 <= r && 10 * r <= 12 * x < 10 * r + 10
    ensures x < 0 ==> r <= 0 && 10 * r >= 12 * x > 10 * r - 10
  {
    if x >= 0 then 12 * x / 10 else -((-12 * x) / 10)
  }

  /** `lines.maxOfOrNull { it.length } ?: 0`. */
  function MaxLength(lines: seq<string>): (m: nat)
    ensures forall k :: 0 <= k < |lines| ==> |lines[k]| <= m
    ensures |lines| == 0 ==> m == 0
    ensures |lines| > 0 ==> exists k :: 0 <= k < |lines| && |lines[k]| == m
    decreases |lines|
  {
    if |lines| == 0 then 0
    else
      var rest := MaxLength(lines[1..]);
      assert forall k :: 1 <= k < |lines| ==> lines[1..][k - 1] == lines[k];
      if |lines[0]| >= rest then |lines[0]| else rest
  }

  /** The text's lines (`text.split('\n')`). */
  function Lines(text: string): (lines: seq<string>)
    ensures |lines| >= 1
  {
    SplitOn(text, '\n')
  }

  /** The popup width before clamping. */
  function PreClampWidth(maxLineLength: nat, charWidth: int): int {
    if maxLineLength > LongLineLength then C.PopupDefaultWidth
    else Scale13(maxLineLength * charWidth)
  }

  /** The popup width, within [400, 1000]. */
  function PopupWidth(text: string, charWidth: int): (w: int)
    ensures C.PopupMinWidth <= w <= C.PopupMaxWidth
  {
    Clamp(PreClampWidth(MaxLength(Lines(text)), charWidth), C.PopupMinWidth, C.PopupMaxWidth)
  }

  /** The default width 600 is taken whenever some line is longer than 100
      characters; otherwise the width is the longest line's width in 'M's
      plus 30%, clamped. */
  lemma PopupWidthByLongestLine(text: string, charWidth: int)
    ensures (exists k :: 0 <= k < |Lines(text)| && |Lines(text)[k]| > LongLineLength) ==>
      PopupWidth(text, charWidth) == C.PopupDefaultWidth
    ensures (forall k :: 0 <= k < |Lines(text)| ==> |Lines(text)[k]| <= LongLineLength) ==>
      PopupWidth(text, charWidth) ==
        Clamp(Scale13(MaxLength(Lines(text)) * charWidth), C.PopupMinWidth, C.PopupMaxWidth)
  {
  }

  /** The width left for text inside the popup: borders and a scrollbar
      taken off. It is always positive, so the `availableTextWidth > 0` guard
      never fails. */
  function AvailableWidth(width: int): (a: int)
    ensures C.PopupMinWidth <= width <= C.PopupMaxWidth ==> 360 <= a <= 960
  {
    width - C.PopupBorderSize * 2 - ScrollbarAllowance
  }

  /** A non-empty line whose rendered width exceeds the available width. */
  predicate Overflows(line: string, available: int, stringWidth: string -> int) {
    |line| > 0 && stringWidth(line) > available && available > 0
  }

  lemma MulMonotone(x: int, y: int, c: nat)
    requires x <= y
    ensures x * c <= y * c
  {
    assert y * c - x * c == (y - x) * c;
  }

  /** Dividing by a larger divisor gives no larger quotient. */
  lemma DivAntitone(a: nat, b: int, c: int)
    requires 0 < c <= b
    ensures a / b <= a / c
  {
    var q, r := a / b, a / c;
    assert q >= 0;
    assert q * b <= a;
    MulMonotone(c, b, q);
    assert c * q == q * c && b * q == q * b;
    assert a < r * c + c;
    if q > r {
      MulMonotone(r + 1, q, c);
      assert false;
    }
  }

  /** How many visual lines one text line takes: one unless it overflows, and
      then at least two, estimating at least ten characters per visual line. */
  function LineVisualCount(line: string, available: int, charWidth: int, stringWidth: string -> int): (n: int)
    requires charWidth > 0
    ensures n >= 1
    ensures n == 1 <==> !Overflows(line, available, stringWidth)
    ensures Overflows(line, available, stringWidth) ==> 2 <= n <= |line| / MinCharsPerLine + 2
  {
    if |line| == 0 then 1
    else if stringWidth(line) > available && available > 0 then
      var charsPerLine := Max(available / charWidth, MinCharsPerLine);
      DivAntitone(|line|, charsPerLine, MinCharsPerLine);
      Max(|line| / charsPerLine, 1) + 1
    else 1
  }

  /** The visual lines of all the text lines (before padding). */
  function VisualLines(lines: seq<string>, available: int, charWidth: int, stringWidth: string -> int): (n: int)
    requires charWidth > 0
    ensures n >= |lines|
    ensures n == |lines| <==> forall k :: 0 <= k < |lines| ==> !Overflows(lines[k], available, stringWidth)
    decreases |lines|
  {
    if |lines| == 0 then 0
    else
      var init := lines[..|lines| - 1];
      var rest := VisualLines(init, available, charWidth, stringWidth);
      assert forall k :: 0 <= k < |init| ==> init[k] == lines[k];
      rest + LineVisualCount(lines[|lines| - 1], available, charWidth, stringWidth)
  }

  /** A popup size. */
  datatype Dimension = Dimension(width: int, height: int)

  /** The size `calculateOptimalSize` picks for `text`, given the font's
      'M' width, line height and string widths. */
  function OptimalSize(text: string, charWidth: int, lineHeight: int, stringWidth: string -> int): (d: Dimension)
    requires charWidth > 0
    ensures C.PopupMinWidth <= d.width <= C.PopupMaxWidth
    ensures C.PopupMinHeight <= d.height <= C.PopupMaxHeight
  {
    var width := PopupWidth(text, charWidth);
    var available := AvailableWidth(width);
    var total := VisualLines(Lines(text), available, charWidth, stringWidth) + PaddingLines;
    var height := Scale12(total * lineHeight) + C.PopupBorderSize * 2;
    Dimension(width, Clamp(height, C.PopupMinHeight, C.PopupMaxHeight))
  }

  /** The visual line count, padding included, is at least the number of
      text lines plus three, and exactly that when no line overflows. */
  lemma TotalVisualLines(text: string, charWidth: int, stringWidth: string -> int)
    requires charWidth > 0
    ensures var lines := Lines(text);
      var available := AvailableWidth(PopupWidth(text, charWidth));
      available > 0
      && VisualLines(lines, available, charWidth, stringWidth) + PaddingLines >= |lines| + 3
      && (VisualLines(lines, available, charWidth, stringWidth) + PaddingLines == |lines| + 3 <==>
          forall k :: 0 <= k < |lines| ==> !Overflows(lines[k], available, stringWidth))
  {
  }

  /** The loop body of `calculateOptimalSize`: the visual lines of one line. */
  method VisualLineCount(line: string, availableTextWidth: int, charWidth: int, stringWidth: string -> int)
    returns (visualLines: int)
    requires charWidth > 0
    ensures visualLines == LineVisualCount(line, availableTextWidth, charWidth, stringWidth)
  {
    if |line| == 0 {
      return 1;
    }
    var lineWidth := stringWidth(line);
    visualLines := 1;
    if lineWidth > availableTextWidth && availableTextWidth > 0 {
      var estimatedCharsPerLine := Max(availableTextWidth / charWidth, MinCharsPerLine);
      visualLines := Max(|line| / estimatedCharsPerLine, 1) + 1;
    }
  }

  /** `calculateOptimalSize`. */
  method CalculateOptimalSize(text: string, charWidth: int, lineHeight: int, stringWidth: string -> int)
    returns (size: Dimension)
    requires charWidth > 0
    ensures size == OptimalSize(text, charWidth, lineHeight, stringWidth)
  {
    var lines := SplitOn(text, '\n');
    var maxLineLength := MaxLength(lines);
    var calculatedWidth := if maxLineLength > LongLineLength then C.PopupDefaultWidth
      else Scale13(maxLineLength * charWidth);
    var width := Clamp(calculatedWidth, C.PopupMinWidth, C.PopupMaxWidth);
    var availableTextWidth := width - C.PopupBorderSize * 2 - ScrollbarAllowance;

    var totalVisualLines := 0;
    for i := 0 to |lines|
      invariant totalVisualLines == VisualLines(lines[..i], availableTextWidth, charWidth, stringWidth)
    {
      var line := lines[i];
      assert lines[..i + 1] == lines[..i] + [line];
      var visualLines := VisualLineCount(line, availableTextWidth, charWidth, stringWidth);
      totalVisualLines := totalVisualLines + visualLines;
    }
    assert lines[..|lines|] == lines;
    totalVisualLines := totalVisualLines + PaddingLines;

    var calculatedHeight := Scale12(totalVisualLines * lineHeight) + C.PopupBorderSize * 2;
    var height := Clamp(calculatedHeight, C.PopupMinHeight, C.PopupMaxHeight);
    size := Dimension(width, height);
  }
}

/** `MultilineTableCellRenderer`: the text a table cell shows and the HTML
    tooltip it carries. Escaping and word wrapping are the source's
    character loops, proved equal to the functions `Escaped` and `Wrapped`;
    what the tooltip promises is proved about those functions. */
module CellRenderer {
  import opened Common
  import C = Constants

  function Init<T>(s: seq<T>): seq<T>
    requires |s| > 0
  {
    s[..|s| - 1]
  }

  function Last<T>(s: seq<T>): T
    requires |s| > 0
  {
    s[|s| - 1]
  }

  // ---------------------------------------------------------------------
  // Display text

  /** The cell text: unchanged up to 80 characters, otherwise the first 80
      followed by "...". */
  function DisplayText(text: string): (r: string)
    ensures |text| <= C.MaxDisplayLength ==> r == text
    ensures |text| > C.MaxDisplayLength ==>
      |r| == C.MaxDisplayLength + |C.Ellipsis| && r[..C.MaxDisplayLength] == text[..C.MaxDisplayLength]
      && r[C.MaxDisplayLength..] == C.Ellipsis
    ensures |r| <= C.MaxDisplayLength + |C.Ellipsis|
  {
    if |text| > C.MaxDisplayLength then text[..C.MaxDisplayLength] + C.Ellipsis else text
  }

  /** Truncating the display text again changes nothing. */
  lemma DisplayTextIdempotent(text: string)
    ensures DisplayText(DisplayText(text)) == DisplayText(text)
  {
    if |text| > C.MaxDisplayLength {
      var d := DisplayText(text);
      assert d[..C.MaxDisplayLength] == text[..C.MaxDisplayLength];
    }
  }

  // ---------------------------------------------------------------------
  // HTML escaping

  predicate IsHtmlSpecial(c: char) {
    c == '&' || c == '<' || c == '>' || c == '"' || c == '\''
  }

  /** The characters that could open or quote markup. */
  predicate IsMarkup(c: char) {
    c == '<' || c == '>' || c == '"' || c == '\''
  }

  predicate NoMarkup(t: string) {
    forall i :: 0 <= i < |t| ==> !IsMarkup(t[i])
  }

  /** The replacement `escapeHtml` appends for one character. */
  function EscapeChar(c: char): (r: string)
    ensures |r| >= 1
  {
    match c
    case '&' => "&amp;"
    case '<' => "&lt;"
    case '>' => "&gt;"
    case '"' => "&quot;"
    case '\'' => "&#39;"
    case _ => [c]
  }

  /** What each replacement is: a character that is not special stands for
      itself; a special one becomes an entity reference of at least four
      characters starting with '&'; no replacement holds markup, and a space
      is only ever replaced by itself. */
  lemma EscapeCharFacts(c: char)
    ensures var r := EscapeChar(c);
      && NoMarkup(r)
      && (IsHtmlSpecial(c) ==> |r| >= 4 && r[0] == '&')
      && (!IsHtmlSpecial(c) ==> r == [c])
      && (r[0] == ' ' <==> c == ' ')
      && (r[|r| - 1] == ' ' <==> c == ' ')
      && (c != ' ' ==> forall i :: 0 <= i < |r| ==> r[i] != ' ')
  {
  }

  /** The concatenation of `f` applied to each character, in order. */
  function MapConcat(s: string, f: char -> string): string
    decreases |s|
  {
    if |s| == 0 then "" else MapConcat(Init(s), f) + f(Last(s))
  }

  lemma InitLast<T>(a: seq<T>, b: seq<T>)
    requires |b| > 0
    ensures b == Init(b) + [Last(b)]
    ensures a + b == (a + Init(b)) + [Last(b)]
  {
  }

  lemma MapConcatSnoc(s: string, c: char, f: char -> string)
    ensures MapConcat(s + [c], f) == MapConcat(s, f) + f(c)
  {
    assert Init(s + [c]) == s;
  }

  lemma {:induction false} MapConcatAppend(a: string, b: string, f: char -> string)
    ensures MapConcat(a + b, f) == MapConcat(a, f) + MapConcat(b, f)
    decreases |b|
  {
    if |b| == 0 {
      assert a + b == a;
    } else {
      var b', c := Init(b), Last(b);
      InitLast(a, b);
      MapConcatSnoc(a + b', c, f);
      MapConcatSnoc(b', c, f);
      MapConcatAppend(a, b', f);
    }
  }

  /** The escaped text: each character replaced by `EscapeChar`, in order. */
  function Escaped(s: string): string {
    MapConcat(s, EscapeChar)
  }

  lemma EscapedUnfold(s: string)
    requires |s| > 0
    ensures Escaped(s) == Escaped(Init(s)) + EscapeChar(Last(s))
    ensures EscapeChar(Last(s)) == EscapeChar(s[|s| - 1])
  {
  }

  /** Escaping never shortens a text. */
  lemma {:induction false} EscapedLength(s: string)
    ensures |Escaped(s)| >= |s|
    decreases |s|
  {
    if |s| > 0 {
      EscapedUnfold(s);
      EscapedLength(Init(s));
    }
  }

  /** Escaped text holds no markup character. */
  lemma {:induction false} EscapedNoMarkup(s: string)
    ensures NoMarkup(Escaped(s))
    decreases |s|
  {
    if |s| > 0 {
      EscapedNoMarkup(Init(s));
      EscapedUnfold(s);
      EscapeCharFacts(Last(s));
      var e, x := Escaped(Init(s)), EscapeChar(Last(s));
      assert Escaped(s) == e + x;
      forall i | 0 <= i < |e + x| ensures !IsMarkup((e + x)[i]) {
        if i < |e| {
          assert (e + x)[i] == e[i];
        } else {
          assert (e + x)[i] == x[i - |e|];
        }
      }
    }
  }

  lemma EscapedSnoc(s: string, c: char)
    ensures Escaped(s + [c]) == Escaped(s) + EscapeChar(c)
  {
    MapConcatSnoc(s, c, EscapeChar);
  }

  lemma EscapedAppend(a: string, b: string)
    ensures Escaped(a + b) == Escaped(a) + Escaped(b)
  {
    MapConcatAppend(a, b, EscapeChar);
  }

  lemma EscapedCons(c: char, s: string)
    ensures Escaped([c] + s) == EscapeChar(c) + Escaped(s)
  {
    EscapedAppend([c], s);
    EscapedSnoc([], c);
    assert [] + [c] == [c];
    assert Escaped([]) == [];
    assert [] + EscapeChar(c) == EscapeChar(c);
  }

  /** Escaping leaves a text unchanged exactly when it has none of the five
      special characters. */
  lemma {:induction false} EscapedIdentity(s: string)
    ensures Escaped(s) == s <==> forall i :: 0 <= i < |s| ==> !IsHtmlSpecial(s[i])
    decreases |s|
  {
    if |s| > 0 {
      EscapedIdentity(Init(s));
      EscapedUnfold(s);
      if exists i :: 0 <= i < |s| && IsHtmlSpecial(s[i]) {
        var i :| 0 <= i < |s| && IsHtmlSpecial(s[i]);
        EscapedLonger(s, i);
      } else {
        EscapeCharFacts(Last(s));
        assert forall i :: 0 <= i < |Init(s)| ==> !IsHtmlSpecial(Init(s)[i]);
        assert Init(s) + [Last(s)] == s;
      }
    }
  }

  lemma {:induction false} EscapedLonger(s: string, i: int)
    requires 0 <= i < |s| && IsHtmlSpecial(s[i])
    ensures |Escaped(s)| > |s|
    decreases |s|
  {
    EscapeCharFacts(Last(s));
    EscapedUnfold(s);
    if i < |s| - 1 {
      assert Init(s)[i] == s[i];
      EscapedLonger(Init(s), i);
    } else {
      EscapedLength(Init(s));
    }
  }

  /** The inverse of escaping: decodes the five entity references. */
  function Unescape(t: string): string
    decreases |t|
  {
    if |t| == 0 then ""
    else if StartsWith(t, "&amp;") then "&" + Unescape(t[5..])
    else if StartsWith(t, "&lt;") then "<" + Unescape(t[4..])
    else if StartsWith(t, "&gt;") then ">" + Unescape(t[4..])
    else if StartsWith(t, "&quot;") then "\"" + Unescape(t[6..])
    else if StartsWith(t, "&#39;") then "'" + Unescape(t[5..])
    else [t[0]] + Unescape(t[1..])
  }

  lemma UnescapeEscapeChar(c: char, rest: string)
    ensures Unescape(EscapeChar(c) + rest) == [c] + Unescape(rest)
  {
    EscapeCharFacts(c);
    var e := EscapeChar(c);
    var t := e + rest;
    assert t[..|e|] == e && t[|e|..] == rest;
    if c == '&' {
      assert StartsWith(t, "&amp;");
    } else if c == '<' {
      assert t[1] == 'l' && !StartsWith(t, "&amp;") && StartsWith(t, "&lt;");
    } else if c == '>' {
      assert t[1] == 'g' && !StartsWith(t, "&amp;") && !StartsWith(t, "&lt;") && StartsWith(t, "&gt;");
    } else if c == '"' {
      assert t[1] == 'q' && !StartsWith(t, "&amp;") && !StartsWith(t, "&lt;") && !StartsWith(t, "&gt;");
      assert StartsWith(t, "&quot;");
    } else if c == '\'' {
      assert t[1] == '#' && !StartsWith(t, "&amp;") && !StartsWith(t, "&lt;") && !StartsWith(t, "&gt;");
      assert !StartsWith(t, "&quot;") && StartsWith(t, "&#39;");
    } else {
      assert t[0] == c && t[1..] == rest && c != '&';
      assert !StartsWith(t, "&amp;") && !StartsWith(t, "&lt;") && !StartsWith(t, "&gt;");
      assert !StartsWith(t, "&quot;") && !StartsWith(t, "&#39;");
    }
  }

  /** Escaping loses nothing: unescaping gives back the original text. */
  lemma {:induction false} UnescapeEscaped(s: string)
    ensures Unescape(Escaped(s)) == s
    decreases |s|
  {
    if |s| > 0 {
      assert s == [s[0]] + s[1..];
      EscapedCons(s[0], s[1..]);
      UnescapeEscapeChar(s[0], Escaped(s[1..]));
      UnescapeEscaped(s[1..]);
    }
  }

  predicate NoLeadingSpace(s: string) {
    |s| == 0 || s[0] != ' '
  }

  predicate NoDoubleSpace(s: string) {
    forall i :: 0 <= i < |s| - 1 ==> !(s[i] == ' ' && s[i + 1] == ' ')
  }

  /** Escaping keeps every space where it was and adds none, so it keeps
      "no leading space" and "no two consecutive spaces". */
  lemma {:induction false} EscapedSpacing(s: string)
    ensures |Escaped(s)| > 0 <==> |s| > 0
    ensures |s| > 0 ==> (Escaped(s)[0] == ' ' <==> s[0] == ' ')
    ensures |s| > 0 ==> (Last(Escaped(s)) == ' ' <==> Last(s) == ' ')
    ensures NoDoubleSpace(s) ==> NoDoubleSpace(Escaped(s))
    decreases |s|
  {
    if |s| > 0 {
      var u, c := Init(s), Last(s);
      EscapedSpacing(u);
      var e, x := Escaped(u), EscapeChar(c);
      EscapedUnfold(s);
      EscapeCharFacts(c);
      assert Escaped(s) == e + x;
      if |u| == 0 {
        assert Escaped(s) == x;
      } else {
        assert Escaped(s)[0] == e[0];
        assert u[0] == s[0];
      }
      if NoDoubleSpace(s) {
        assert NoDoubleSpace(u) by {
          forall i | 0 <= i < |u| - 1 ensures !(u[i] == ' ' && u[i + 1] == ' ') {
            assert u[i] == s[i] && u[i + 1] == s[i + 1];
          }
        }
        assert NoDoubleSpace(x);
        assert |e| > 0 && Last(e) == ' ' ==> x[0] != ' ' by {
          if |e| > 0 && Last(e) == ' ' {
            assert Last(u) == ' ';
            assert s[|s| - 2] == ' ';
          }
        }
        NoDoubleSpaceConcat(e, x);
      }
    }
  }

  lemma NoDoubleSpaceConcat(a: string, b: string)
    requires NoDoubleSpace(a) && NoDoubleSpace(b)
    requires |a| > 0 && |b| > 0 ==> !(Last(a) == ' ' && b[0] == ' ')
    ensures NoDoubleSpace(a + b)
  {
    var t := a + b;
    forall i | 0 <= i < |t| - 1 ensures !(t[i] == ' ' && t[i + 1] == ' ') {
      if i < |a| - 1 {
        assert t[i] == a[i] && t[i + 1] == a[i + 1];
      } else if i == |a| - 1 {
        assert t[i] == Last(a) && t[i + 1] == b[0];
      } else {
        assert t[i] == b[i - |a|] && t[i + 1] == b[i - |a| + 1];
      }
    }
  }

  /** `escapeHtml`: the source's loop, appending one replacement per character. */
  method EscapeHtml(text: string) returns (r: string)
    ensures r == Escaped(text)
  {
    if |text| == 0 {
      return text;
    }
    var sb := "";
    for i := 0 to |text|
      invariant sb == Escaped(text[..i])
    {
      var c := text[i];
      assert text[..i + 1] == text[..i] + [c];
      EscapedSnoc(text[..i], c);
      match c {
        case '&' => sb := sb + "&amp;";
        case '<' => sb := sb + "&lt;";
        case '>' => sb := sb + "&gt;";
        case '"' => sb := sb + "&quot;";
        case '\'' => sb := sb + "&#39;";
        case _ => sb := sb + [c];
      }
    }
    assert text[..|text|] == text;
    return sb;
  }

  // ---------------------------------------------------------------------
  // Word wrapping

  /** The words `wrapText` cuts out of a text: the pieces between spaces,
      except that the last word runs to the end of the text and so keeps a
      final space if the text ends with one. */
  function Words(s: string): (ws: seq<string>)
    requires |s| > 0
    ensures |ws| > 0
    ensures forall k :: 0 <= k < |ws| - 1 ==> ' ' !in ws[k]
    ensures |Last(ws)| > 0 && ' ' !in Init(Last(ws))
  {
    var p := SplitOn(Init(s), ' ');
    assert Init(Last(p) + [Last(s)]) == Last(p);
    Init(p) + [Last(p) + [Last(s)]]
  }

  /** Reading the words with one space between them gives back the text. */
  lemma WordsJoin(s: string)
    requires |s| > 0
    ensures Join(Words(s), " ") == s
  {
    var p := SplitOn(Init(s), ' ');
    JoinSplit(Init(s), ' ');
    JoinExtendLast(p, [Last(s)], " ");
    assert Words(s) == p[..|p| - 1] + [p[|p| - 1] + [Last(s)]];
    assert Init(s) + [Last(s)] == s;
  }

  lemma SpacingInit(s: string)
    requires |s| > 0 && NoLeadingSpace(s) && NoDoubleSpace(s)
    ensures NoLeadingSpace(Init(s)) && NoDoubleSpace(Init(s))
  {
    var u := Init(s);
    if |u| > 0 {
      assert u[0] == s[0];
    }
    forall i | 0 <= i < |u| - 1 ensures !(u[i] == ' ' && u[i + 1] == ' ') {
      assert u[i] == s[i] && u[i + 1] == s[i + 1];
    }
  }

  lemma NoMarkupInit(s: string)
    requires |s| > 0 && NoMarkup(s)
    ensures NoMarkup(Init(s)) && !IsMarkup(Last(s))
  {
    forall i | 0 <= i < |Init(s)| ensures !IsMarkup(Init(s)[i]) {
      assert Init(s)[i] == s[i];
    }
  }

  /** No word is empty when the text has no leading space and no two
      consecutive spaces. */
  lemma WordsNonEmpty(s: string)
    requires |s| > 0 && NoLeadingSpace(s) && NoDoubleSpace(s)
    ensures AllNonEmpty(Words(s))
  {
    SpacingInit(s);
    SplitPiecesNonEmpty(Init(s));
    var p := SplitOn(Init(s), ' ');
    var ws := Words(s);
    forall k | 0 <= k < |ws| ensures |ws[k]| > 0 {
      if k < |ws| - 1 {
        assert ws[k] == Init(p)[k];
      }
    }
  }

  predicate AllNonEmpty(ws: seq<string>) {
    forall k :: 0 <= k < |ws| ==> |ws[k]| > 0
  }

  predicate AllNoMarkup(ws: seq<string>) {
    forall k :: 0 <= k < |ws| ==> NoMarkup(ws[k])
  }

  /** Every line fits the wrap length or is one of the words. */
  predicate FitsOrWord(lines: seq<string>, ws: seq<string>, maxLineLength: int) {
    forall k :: 0 <= k < |lines| ==> |lines[k]| <= maxLineLength || lines[k] in ws
  }

  /** No line could have taken the next one after a space. */
  predicate Greedy(lines: seq<string>, maxLineLength: int) {
    forall k :: 0 <= k < |lines| - 1 ==> |lines[k]| + 1 + |lines[k + 1]| > maxLineLength
  }

  /** In a text without a leading space or a double space, every piece but
      the last is non-empty. */
  lemma {:induction false} SplitPiecesNonEmpty(t: string)
    requires NoLeadingSpace(t) && NoDoubleSpace(t)
    ensures AllNonEmpty(Init(SplitOn(t, ' ')))
    decreases |t|
  {
    if |t| > 0 {
      var u, c := Init(t), Last(t);
      SpacingInit(t);
      SplitPiecesNonEmpty(u);
      var p := SplitOn(u, ' ');
      var p' := SplitOn(t, ' ');
      assert Init(t) == t[..|t| - 1];
      if c == ' ' {
        assert |u| > 0 by { assert t[0] != ' '; }
        assert Last(u) != ' ' by { assert t[|t| - 2] == Last(u); }
        var q := SplitOn(Init(u), ' ');
        assert p == Init(q) + [Last(q) + [Last(u)]];
        assert |Last(p)| > 0;
        assert p' == p + [""];
        assert Init(p') == p;
        assert AllNonEmpty(p) by {
          forall k | 0 <= k < |p| ensures |p[k]| > 0 {
            if k < |p| - 1 {
              assert p[k] == Init(p)[k];
            }
          }
        }
      } else {
        assert p' == Init(p) + [Last(p) + [c]];
        assert Init(p') == Init(p);
      }
    }
  }

  /** Pieces and words of a markup-free text are markup-free. */
  lemma {:induction false} SplitNoMarkup(t: string)
    requires NoMarkup(t)
    ensures AllNoMarkup(SplitOn(t, ' '))
    decreases |t|
  {
    if |t| > 0 {
      NoMarkupInit(t);
      SplitNoMarkup(Init(t));
      var p := SplitOn(Init(t), ' ');
      assert Init(t) == t[..|t| - 1];
      assert NoMarkup(Last(p)) by { assert Last(p) == p[|p| - 1]; }
      assert NoMarkup(Last(p) + [Last(t)]);
      var p' := SplitOn(t, ' ');
      if Last(t) == ' ' {
        assert p' == p + [""];
      } else {
        assert p' == Init(p) + [Last(p) + [Last(t)]];
        forall k | 0 <= k < |p'| ensures NoMarkup(p'[k]) {
          if k < |p'| - 1 {
            assert p'[k] == p[k];
          }
        }
      }
    }
  }

  lemma WordsNoMarkup(s: string)
    requires |s| > 0 && NoMarkup(s)
    ensures AllNoMarkup(Words(s))
  {
    NoMarkupInit(s);
    SplitNoMarkup(Init(s));
    var p := SplitOn(Init(s), ' ');
    assert NoMarkup(Last(p)) by { assert Last(p) == p[|p| - 1]; }
    assert NoMarkup(Last(p) + [Last(s)]);
    var ws := Words(s);
    forall k | 0 <= k < |ws| ensures NoMarkup(ws[k]) {
      if k < |ws| - 1 {
        assert ws[k] == p[k];
      }
    }
  }

  /** The layout state of `wrapText`: lines already written to the result, and
      the line being filled. */
  datatype LineState = LineState(lines: seq<string>, current: string)

  /** One word placed by the greedy rule: it starts an empty line, joins the
      current line when the line, a space and the word fit, and otherwise the
      current line is written out and the word starts the next one. */
  function Place(st: LineState, word: string, maxLineLength: int): LineState {
    if |st.current| == 0 then LineState(st.lines, word)
    else if |st.current| + |word| + 1 <= maxLineLength then LineState(st.lines, st.current + " " + word)
    else LineState(st.lines + [st.current], word)
  }

  function Layout(ws: seq<string>, maxLineLength: int): LineState
    decreases |ws|
  {
    if |ws| == 0 then LineState([], "")
    else Place(Layout(Init(ws), maxLineLength), Last(ws), maxLineLength)
  }

  lemma LayoutSnoc(ws: seq<string>, w: string, maxLineLength: int)
    ensures Layout(ws + [w], maxLineLength) == Place(Layout(ws, maxLineLength), w, maxLineLength)
  {
    assert Init(ws + [w]) == ws;
  }

  /** The finished lines: the current line is written out only if non-empty. */
  function FinalLines(st: LineState): seq<string> {
    if |st.current| > 0 then st.lines + [st.current] else st.lines
  }

  /** The lines `wrapText` produces for a text longer than the wrap length. */
  function WrapLines(s: string, maxLineLength: int): seq<string>
    requires |s| > 0
  {
    FinalLines(Layout(Words(s), maxLineLength))
  }

  /** What `wrapText` returns. */
  function Wrapped(s: string, maxLineLength: int): (r: string)
    requires maxLineLength > 0
    ensures |s| <= maxLineLength ==> r == s
  {
    if |s| <= maxLineLength then s else Join(WrapLines(s, maxLineLength), C.HtmlBreak)
  }

  /** What the greedy layout keeps true after any number of words. */
  lemma {:induction false} LayoutShape(ws: seq<string>, maxLineLength: int)
    requires maxLineLength > 0
    ensures AllNonEmpty(Layout(ws, maxLineLength).lines)
    ensures FitsOrWord(Layout(ws, maxLineLength).lines, ws, maxLineLength)
    ensures |Layout(ws, maxLineLength).current| <= maxLineLength || Layout(ws, maxLineLength).current in ws
    ensures Greedy(Layout(ws, maxLineLength).lines, maxLineLength)
    ensures |Layout(ws, maxLineLength).lines| > 0 ==>
      |Last(Layout(ws, maxLineLength).lines)| + 1 + |Layout(ws, maxLineLength).current| > maxLineLength
    decreases |ws|
  {
    if |ws| > 0 {
      var v, w := Init(ws), Last(ws);
      LayoutShape(v, maxLineLength);
      var st := Layout(v, maxLineLength);
      assert Layout(ws, maxLineLength) == Place(st, w, maxLineLength);
      assert w in ws;
      assert forall x :: x in v ==> x in ws;
      assert FitsOrWord(st.lines, ws, maxLineLength);
      if |st.current| > 0 && |st.current| + |w| + 1 > maxLineLength {
        AppendLineShape(st.lines, st.current, ws, maxLineLength);
      }
    }
  }

  /** If every word is non-empty, the lines read with single spaces give back
      the words read with single spaces. */
  lemma {:induction false} LayoutRejoin(ws: seq<string>, maxLineLength: int)
    requires |ws| > 0 && AllNonEmpty(ws)
    ensures |Layout(ws, maxLineLength).current| > 0
    ensures Join(Layout(ws, maxLineLength).lines + [Layout(ws, maxLineLength).current], " ") == Join(ws, " ")
    decreases |ws|
  {
    var v, w := Init(ws), Last(ws);
    assert ws == v + [w];
    assert |w| > 0;
    if |ws| == 1 {
      assert Layout(v, maxLineLength) == LineState([], "");
    } else {
      assert AllNonEmpty(v) by {
        forall k | 0 <= k < |v| ensures |v[k]| > 0 {
          assert v[k] == ws[k];
        }
      }
      LayoutRejoin(v, maxLineLength);
      var st := Layout(v, maxLineLength);
      assert Layout(ws, maxLineLength) == Place(st, w, maxLineLength);
      JoinSnoc(v, w, " ");
      if |st.current| + |w| + 1 <= maxLineLength {
        JoinSnoc(st.lines, st.current, " ");
        JoinSnoc(st.lines, st.current + " " + w, " ");
        if |st.lines| > 0 {
          var j := Join(st.lines, " ");
          assert j + " " + (st.current + " " + w) == (j + " " + st.current) + " " + w;
        }
      } else {
        JoinSnoc(st.lines + [st.current], w, " ");
      }
    }
  }

  lemma {:induction false} LayoutNoMarkup(ws: seq<string>, maxLineLength: int)
    requires AllNoMarkup(ws)
    ensures NoMarkup(Layout(ws, maxLineLength).current)
    ensures AllNoMarkup(Layout(ws, maxLineLength).lines)
    decreases |ws|
  {
    if |ws| > 0 {
      var v, w := Init(ws), Last(ws);
      assert AllNoMarkup(v) by {
        forall k | 0 <= k < |v| ensures NoMarkup(v[k]) {
          assert v[k] == ws[k];
        }
      }
      assert NoMarkup(w);
      LayoutNoMarkup(v, maxLineLength);
      var st := Layout(v, maxLineLength);
      assert Layout(ws, maxLineLength) == Place(st, w, maxLineLength);
      assert NoMarkup(" ");
      assert NoMarkup(st.current + " " + w);
      assert AllNoMarkup(st.lines + [st.current]) by {
        forall k | 0 <= k < |st.lines| + 1 ensures NoMarkup((st.lines + [st.current])[k]) {
          if k < |st.lines| {
            assert (st.lines + [st.current])[k] == st.lines[k];
          }
        }
      }
    }
  }

  /** Writing out a non-empty current line keeps the shape of the lines. */
  lemma AppendLineShape(lines: seq<string>, cur: string, ws: seq<string>, maxLineLength: int)
    requires AllNonEmpty(lines) && FitsOrWord(lines, ws, maxLineLength) && Greedy(lines, maxLineLength)
    requires |cur| > 0 && (|cur| <= maxLineLength || cur in ws)
    requires |lines| > 0 ==> |Last(lines)| + 1 + |cur| > maxLineLength
    ensures AllNonEmpty(lines + [cur]) && FitsOrWord(lines + [cur], ws, maxLineLength)
    ensures Greedy(lines + [cur], maxLineLength)
  {
    var ls := lines + [cur];
    forall k | 0 <= k < |ls| - 1 ensures |ls[k]| + 1 + |ls[k + 1]| > maxLineLength {
      if k < |lines| - 1 {
        assert ls[k] == lines[k] && ls[k + 1] == lines[k + 1];
      } else {
        assert ls[k] == Last(lines) && ls[k + 1] == cur;
      }
    }
    forall k | 0 <= k < |ls| ensures |ls[k]| > 0 && (|ls[k]| <= maxLineLength || ls[k] in ws) {
      if k < |lines| {
        assert ls[k] == lines[k];
      }
    }
  }

  /** Each line is non-empty and fits the wrap length unless it is a single
      word, and the layout is greedy: no line could have taken the next line
      after a space. */
  lemma WrapLinesShape(s: string, maxLineLength: int)
    requires |s| > 0 && maxLineLength > 0
    ensures AllNonEmpty(WrapLines(s, maxLineLength))
    ensures FitsOrWord(WrapLines(s, maxLineLength), Words(s), maxLineLength)
    ensures Greedy(WrapLines(s, maxLineLength), maxLineLength)
  {
    var ws := Words(s);
    LayoutShape(ws, maxLineLength);
    var st := Layout(ws, maxLineLength);
    if |st.current| > 0 {
      AppendLineShape(st.lines, st.current, ws, maxLineLength);
    }
  }

  /** Words are kept whole and in order: for a text with no leading space and
      no two consecutive spaces, the lines joined by single spaces are the text. */
  lemma WrapLinesRejoin(s: string, maxLineLength: int)
    requires |s| > 0 && NoLeadingSpace(s) && NoDoubleSpace(s)
    ensures Join(WrapLines(s, maxLineLength), " ") == s
  {
    WordsNonEmpty(s);
    LayoutRejoin(Words(s), maxLineLength);
    WordsJoin(s);
  }

  lemma WrapLinesNoMarkup(s: string, maxLineLength: int)
    requires |s| > 0 && NoMarkup(s)
    ensures AllNoMarkup(WrapLines(s, maxLineLength))
  {
    WordsNoMarkup(s);
    LayoutNoMarkup(Words(s), maxLineLength);
    var st := Layout(Words(s), maxLineLength);
    if |st.current| > 0 {
      var ls := st.lines + [st.current];
      forall k | 0 <= k < |ls| ensures NoMarkup(ls[k]) {
        if k < |st.lines| {
          assert ls[k] == st.lines[k];
        }
      }
    }
  }

  /** The word `wrapText` is collecting after scanning `i` characters. */
  function Pending(s: string, i: int): string
    requires 0 <= i <= |s|
  {
    Last(SplitOn(s[..i], ' '))
  }

  /** The words `wrapText` has completed after scanning `i` characters. */
  function Scanned(s: string, i: int): seq<string>
    requires 0 <= i <= |s| && |s| > 0
  {
    if i < |s| then Init(SplitOn(s[..i], ' ')) else Words(s)
  }

  /** A space, or the last character, ends the word being collected. */
  lemma ScanWordEnd(s: string, i: int, wordStart: int)
    requires 0 <= wordStart <= i < |s|
    requires s[wordStart..i] == Pending(s, i)
    requires s[i] == ' ' || i == |s| - 1
    ensures Scanned(s, i + 1) == Scanned(s, i) + [s[wordStart..if i == |s| - 1 then i + 1 else i]]
    ensures i + 1 < |s| ==> s[i + 1..i + 1] == Pending(s, i + 1)
  {
    var p := SplitOn(s[..i], ' ');
    assert s[..i + 1][..i] == s[..i] && s[..i + 1][i] == s[i];
    if i == |s| - 1 {
      assert Init(s) == s[..i];
      assert s[wordStart..i + 1] == Last(p) + [s[i]];
    } else {
      assert SplitOn(s[..i + 1], ' ') == p + [""];
      assert p == Init(p) + [Last(p)];
    }
  }

  /** Any other character extends the word being collected. */
  lemma ScanInWord(s: string, i: int, wordStart: int)
    requires 0 <= wordStart <= i < |s| - 1
    requires s[wordStart..i] == Pending(s, i)
    requires s[i] != ' '
    ensures Scanned(s, i + 1) == Scanned(s, i)
    ensures s[wordStart..i + 1] == Pending(s, i + 1)
  {
    var p := SplitOn(s[..i], ' ');
    assert s[..i + 1][..i] == s[..i] && s[..i + 1][i] == s[i];
    assert SplitOn(s[..i + 1], ' ') == Init(p) + [Last(p) + [s[i]]];
    assert s[wordStart..i + 1] == s[wordStart..i] + [s[i]];
  }

  /** The branch of `wrapText` that places one finished word: `written` is
      the lines `result` already holds, separated by breaks. */
  method PlaceWord(result: string, currentLine: string, word: string, maxLineLength: int, ghost written: seq<string>)
    returns (result': string, currentLine': string, ghost written': seq<string>)
    requires result == Join(written, C.HtmlBreak) && (|result| == 0 <==> |written| == 0)
    ensures LineState(written', currentLine') == Place(LineState(written, currentLine), word, maxLineLength)
    ensures result' == Join(written', C.HtmlBreak) && (|result'| == 0 <==> |written'| == 0)
  {
    result', currentLine', written' := result, currentLine, written;
    if |currentLine| == 0 {
      currentLine' := currentLine + word;
    } else if |currentLine| + |word| + 1 <= maxLineLength {
      currentLine' := currentLine + C.Space + word;
    } else {
      JoinSnoc(written, currentLine, C.HtmlBreak);
      if |result| > 0 {
        result' := result + C.HtmlBreak;
      }
      result' := result' + currentLine;
      written' := written + [currentLine];
      currentLine' := word;
    }
  }

  /** `wrapText`: the source's character loop. `maxLineLength` must be
      positive: the source divides by it and sizes a `StringBuilder` with it. */
  method WrapText(text: string, maxLineLength: int) returns (r: string)
    requires maxLineLength > 0
    ensures r == Wrapped(text, maxLineLength)
  {
    if |text| <= maxLineLength {
      return text;
    }
    var result := "";
    var currentLine := "";
    var wordStart := 0;
    ghost var written: seq<string> := [];
    for i := 0 to |text|
      invariant 0 <= wordStart <= i
      invariant i < |text| ==> text[wordStart..i] == Pending(text, i)
      invariant LineState(written, currentLine) == Layout(Scanned(text, i), maxLineLength)
      invariant result == Join(written, C.HtmlBreak)
      invariant |result| == 0 <==> |written| == 0
    {
      var c := text[i];
      if c == ' ' || i == |text| - 1 {
        var wordEnd := if i == |text| - 1 then i + 1 else i;
        var word := text[wordStart..wordEnd];
        ScanWordEnd(text, i, wordStart);
        LayoutSnoc(Scanned(text, i), word, maxLineLength);
        result, currentLine, written := PlaceWord(result, currentLine, word, maxLineLength, written);
        wordStart := i + 1;
      } else {
        ScanInWord(text, i, wordStart);
      }
    }
    if |currentLine| > 0 {
      JoinSnoc(written, currentLine, C.HtmlBreak);
      if |result| > 0 {
        result := result + C.HtmlBreak;
      }
      result := result + currentLine;
    }
    return result;
  }

  // ---------------------------------------------------------------------
  // Reading a body back

  /** Replaces every "<br>" by `rep`, scanning from the left. */
  function ReplaceBreaks(t: string, rep: string): string
    decreases |t|
  {
    if |t| == 0 then ""
    else if StartsWith(t, C.HtmlBreak) then rep + ReplaceBreaks(t[4..], rep)
    else [t[0]] + ReplaceBreaks(t[1..], rep)
  }

  lemma {:induction false} ReplaceBreaksPlain(a: string, rest: string, rep: string)
    requires NoMarkup(a)
    ensures ReplaceBreaks(a + rest, rep) == a + ReplaceBreaks(rest, rep)
    decreases |a|
  {
    if |a| > 0 {
      var t := a + rest;
      assert t[0] == a[0] && t[1..] == a[1..] + rest;
      assert !IsMarkup(a[0]);
      assert !StartsWith(t, C.HtmlBreak);
      assert NoMarkup(a[1..]) by {
        forall i | 0 <= i < |a[1..]| ensures !IsMarkup(a[1..][i]) {
          assert a[1..][i] == a[i + 1];
        }
      }
      ReplaceBreaksPlain(a[1..], rest, rep);
      assert ReplaceBreaks(t, rep) == [a[0]] + ReplaceBreaks(a[1..] + rest, rep);
      assert [a[0]] + (a[1..] + ReplaceBreaks(rest, rep)) == ([a[0]] + a[1..]) + ReplaceBreaks(rest, rep);
      assert [a[0]] + a[1..] == a;
    } else {
      assert a + rest == rest;
    }
  }

  /** Reading the inserted breaks as `rep` turns a "<br>"-join of markup-free
      lines into their `rep`-join. */
  lemma {:induction false} ReplaceBreaksJoin(lines: seq<string>, rep: string)
    requires AllNoMarkup(lines)
    ensures ReplaceBreaks(Join(lines, C.HtmlBreak), rep) == Join(lines, rep)
    decreases |lines|
  {
    if |lines| == 1 {
      ReplaceBreaksPlain(lines[0], "", rep);
      assert lines[0] + "" == lines[0];
    } else if |lines| > 1 {
      var x, q := lines[0], lines[1..];
      var jq := Join(q, C.HtmlBreak);
      var t := C.HtmlBreak + jq;
      assert Join(lines, C.HtmlBreak) == x + t by {
        assert lines == [x] + q;
        JoinCons(x, q, C.HtmlBreak);
      }
      assert Join(lines, rep) == x + (rep + Join(q, rep)) by {
        assert lines == [x] + q;
        JoinCons(x, q, rep);
      }
      assert AllNoMarkup(q) by {
        forall k | 0 <= k < |q| ensures NoMarkup(q[k]) {
          assert q[k] == lines[k + 1];
        }
      }
      assert NoMarkup(x);
      ReplaceBreaksPlain(x, t, rep);
      assert ReplaceBreaks(t, rep) == rep + ReplaceBreaks(jq, rep) by {
        assert StartsWith(t, C.HtmlBreak) && t[4..] == jq;
      }
      ReplaceBreaksJoin(q, rep);
    }
  }

  lemma {:induction false} JoinNoMarkup(parts: seq<string>, sep: string)
    requires NoMarkup(sep)
    requires AllNoMarkup(parts)
    ensures NoMarkup(Join(parts, sep))
    decreases |parts|
  {
    if |parts| > 1 {
      JoinNoMarkup(parts[..|parts| - 1], sep);
    }
  }

  // ---------------------------------------------------------------------
  // The tooltip

  /** `escapedText.replace("\n", "<br>")`. */
  function NewlinesToBreaks(t: string): (r: string)
    ensures '\n' !in t ==> r == t
    ensures '\n' !in r
    decreases |t|
  {
    if |t| == 0 then ""
    else (if t[0] == '\n' then C.HtmlBreak else [t[0]]) + NewlinesToBreaks(t[1..])
  }

  lemma {:induction false} NewlinesToBreaksRoundTrip(t: string)
    requires NoMarkup(t)
    ensures ReplaceBreaks(NewlinesToBreaks(t), "\n") == t
    decreases |t|
  {
    if |t| > 0 {
      NewlinesToBreaksRoundTrip(t[1..]);
      var rest := NewlinesToBreaks(t[1..]);
      if t[0] == '\n' {
        var u := C.HtmlBreak + rest;
        assert StartsWith(u, C.HtmlBreak) && u[4..] == rest;
      } else {
        ReplaceBreaksPlain([t[0]], rest, "\n");
      }
      assert t == [t[0]] + t[1..];
    }
  }

  const TooltipPrefix: string :=
    "<html><body style='width: " + DecimalString(C.TooltipWidth) + "px; white-space: pre-wrap;'>"
  const TooltipSuffix: string := "</body></html>"

  /** `buildTooltipHtml`: the fixed HTML frame around the body. */
  function BuildTooltipHtml(content: string): (r: string)
    ensures |r| == |TooltipPrefix| + |content| + |TooltipSuffix|
    ensures StartsWith(r, TooltipPrefix)
    ensures r[|TooltipPrefix|..|r| - |TooltipSuffix|] == content
    ensures r[|r| - |TooltipSuffix|..] == TooltipSuffix
  {
    TooltipPrefix + content + TooltipSuffix
  }

  /** The tooltip body: the escaped text with each newline turned into a
      break when the raw text has line breaks, otherwise the escaped text
      greedily wrapped at 80 characters. */
  function TooltipBody(text: string): string {
    var escaped := Escaped(text);
    if '\n' in text then NewlinesToBreaks(escaped)
    else Wrapped(escaped, C.TooltipWrapLength)
  }

  /** What `formatTooltip` returns. */
  function TooltipHtml(text: string): string {
    BuildTooltipHtml(TooltipBody(text))
  }

  /** `formatTooltip`. */
  method FormatTooltip(text: string) returns (r: string)
    ensures r == TooltipHtml(text)
  {
    var escapedText := EscapeHtml(text);
    if '\n' in text {
      var replacedText := NewlinesToBreaks(escapedText);
      return BuildTooltipHtml(replacedText);
    }
    var wrappedText := WrapText(escapedText, C.TooltipWrapLength);
    return BuildTooltipHtml(wrappedText);
  }

  /** Every "<br>" of a body was put there by the formatter: once the breaks
      are read back (as the newlines they replaced, or as the spaces the wrap
      replaced), no markup character is left. */
  lemma TooltipBodyBreaksOnly(text: string)
    ensures '\n' in text ==> NoMarkup(ReplaceBreaks(TooltipBody(text), "\n"))
    ensures '\n' !in text ==> NoMarkup(ReplaceBreaks(TooltipBody(text), " "))
  {
    var e := Escaped(text);
    EscapedNoMarkup(text);
    if '\n' in text {
      NewlinesToBreaksRoundTrip(e);
    } else if |e| <= C.TooltipWrapLength {
      ReplaceBreaksPlain(e, "", " ");
      assert e + "" == e;
    } else {
      WrapLinesNoMarkup(e, C.TooltipWrapLength);
      ReplaceBreaksJoin(WrapLines(e, C.TooltipWrapLength), " ");
      JoinNoMarkup(WrapLines(e, C.TooltipWrapLength), " ");
    }
  }

  /** A multi-line text is recovered from its tooltip body: read each break
      as a newline and unescape. */
  lemma TooltipRoundTripMultiline(text: string)
    requires '\n' in text
    ensures Unescape(ReplaceBreaks(TooltipBody(text), "\n")) == text
  {
    EscapedNoMarkup(text);
    NewlinesToBreaksRoundTrip(Escaped(text));
    UnescapeEscaped(text);
  }

  /** A single-line text without a leading space or a double space is
      recovered from its wrapped tooltip body: read each break as a space and
      unescape. */
  lemma TooltipRoundTripWrapped(text: string)
    requires '\n' !in text && NoLeadingSpace(text) && NoDoubleSpace(text)
    ensures Unescape(ReplaceBreaks(TooltipBody(text), " ")) == text
  {
    var e := Escaped(text);
    EscapedNoMarkup(text);
    EscapedSpacing(text);
    if |e| <= C.TooltipWrapLength {
      ReplaceBreaksPlain(e, "", " ");
      assert e + "" == e;
    } else {
      WrapLinesNoMarkup(e, C.TooltipWrapLength);
      ReplaceBreaksJoin(WrapLines(e, C.TooltipWrapLength), " ");
      WrapLinesRejoin(e, C.TooltipWrapLength);
    }
    UnescapeEscaped(text);
  }

  // ---------------------------------------------------------------------
  // The renderer

  /** The tooltip a cell text gets: the HTML tooltip when longer than 30
      characters, none otherwise. */
  function TooltipFor(text: string): (r: Option<string>)
    ensures r.Some? <==> |text| > C.TooltipThreshold
    ensures r.Some? ==> r.value == TooltipHtml(text)
  {
    if |text| > C.TooltipThreshold && |text| > 0 then Some(TooltipHtml(text)) else None
  }

  /** Whenever the display truncates, the tooltip is there to show the rest. */
  lemma TruncationImpliesTooltip(text: string)
    requires DisplayText(text) != text
    ensures TooltipFor(text).Some?
  {
  }

  /** The renderer (a `JLabel`): `text` is what the cell displays. */
  class MultilineTableCellRenderer {
    var text: string
    var toolTipText: Option<string>

    constructor ()
      ensures text == "" && toolTipText == None
    {
      text := "";
      toolTipText := None;
    }

    /** `getTableCellRendererComponent`; `value` is the cell value's
        `toString()`, `None` for a null cell. */
    method GetTableCellRendererComponent(value: Option<string>)
      modifies this
      ensures text == DisplayText(value.GetOr(""))
      ensures toolTipText == TooltipFor(value.GetOr(""))
      ensures value.None? ==> text == "" && toolTipText == None
    {
      var s := value.GetOr("");
      var displayText := if |s| > C.MaxDisplayLength then s[..C.MaxDisplayLength] + C.Ellipsis else s;
      text := displayText;
      if |s| > C.TooltipThreshold && |s| > 0 {
        var tip := FormatTooltip(s);
        toolTipText := Some(tip);
      } else {
        toolTipText := None;
      }
    }
  }
}

/** Shared vocabulary of the model: optional values, host calls that may throw,
    and the few Kotlin string operations the plugin relies on
    (`joinToString`, `split`, `contains`, `startsWith`, `toString`). */
module Common {

  datatype Option<+T> = None | Some(value: T) {
    /** Kotlin's `?: default`. */
    function GetOr(default: T): T {
      match this
      case Some(v) => v
      case None => default
    }
  }

  /** What a host (IDE platform) call threw: a `java.lang.Exception`, or a
      `Throwable` that is not an `Exception` (an `Error`). The distinction
      matters where the source catches `Exception` only. */
  datatype ThrowKind = AnException | AnError

  /** The outcome of reading something from the host: a value, or a throw. */
  datatype Attempt<+T> = Returns(value: T) | Throws(kind: ThrowKind)

  /** A table cell as a Swing table model hands it out (`Any`): the record
      position is an `Int`, every other column a `String`. */
  datatype CellValue = IntValue(n: int) | TextValue(s: string) {
    /** Kotlin `toString()` of the cell. */
    function ToString(): string {
      match this
      case IntValue(n) => DecimalString(n)
      case TextValue(s) => s
    }
  }

  /** `Int.toString()`: decimal digits, with a leading '-' when negative. */
  function DecimalString(n: int): (r: string)
    ensures |r| > 0
  {
    if n < 0 then "-" + NatString(-n) else NatString(n)
  }

  function NatString(n: nat): (r: string)
    ensures |r| > 0
    ensures forall i :: 0 <= i < |r| ==> '0' <= r[i] <= '9'
    decreases n
  {
    var d := [(('0' as int) + n % 10) as char];
    if n < 10 then d else NatString(n / 10) + d
  }

  /** Kotlin's string conversion of a nullable string (`x.toString()` on a
      `String?`, or `StringBuilder.append(x)`): the literal "null" when absent. */
  function NullableString(x: Option<string>): (r: string)
    ensures x.Some? ==> r == x.value
    ensures x.None? ==> r == "null"
  {
    match x
    case Some(s) => s
    case None => "null"
  }

  /** `parts.joinToString(sep)`. */
  function Join(parts: seq<string>, sep: string): (r: string)
    decreases |parts|
  {
    if |parts| == 0 then ""
    else if |parts| == 1 then parts[0]
    else Join(parts[..|parts| - 1], sep) + sep + parts[|parts| - 1]
  }

  lemma JoinSnoc(parts: seq<string>, x: string, sep: string)
    ensures Join(parts + [x], sep) == if |parts| == 0 then x else Join(parts, sep) + sep + x
  {
    assert (parts + [x])[..|parts|] == parts;
  }

  lemma {:induction false} JoinCons(x: string, parts: seq<string>, sep: string)
    requires |parts| > 0
    ensures Join([x] + parts, sep) == x + sep + Join(parts, sep)
    decreases |parts|
  {
    if |parts| == 1 {
      assert [x] + parts == [x] + [parts[0]];
      JoinSnoc([x], parts[0], sep);
    } else {
      var init, last := parts[..|parts| - 1], parts[|parts| - 1];
      assert Join([x] + parts, sep) == Join([x] + init, sep) + sep + last by {
        assert parts == init + [last];
        assert [x] + parts == ([x] + init) + [last];
        JoinSnoc([x] + init, last, sep);
      }
      assert Join(parts, sep) == Join(init, sep) + sep + last by {
        assert parts == init + [last];
        JoinSnoc(init, last, sep);
      }
      JoinCons(x, init, sep);
      var j := Join(init, sep);
      assert x + sep + j + sep + last == x + sep + (j + sep + last);
    }
  }

  /** A joined string is empty exactly when every part is empty and there is
      at most one part (or the separator is empty). */
  lemma {:induction false} JoinEmpty(parts: seq<string>, sep: string)
    requires |sep| > 0
    ensures |Join(parts, sep)| == 0 <==> (|parts| == 0 || (|parts| == 1 && |parts[0]| == 0))
    decreases |parts|
  {
    if |parts| > 1 {
      JoinSnoc(parts[..|parts| - 1], parts[|parts| - 1], sep);
      assert parts[..|parts| - 1] + [parts[|parts| - 1]] == parts;
    }
  }

  /** `t.split(sep)`: the pieces between separators, always at least one
      (the empty string splits into one empty piece). */
  function SplitOn(t: string, sep: char): (parts: seq<string>)
    ensures |parts| >= 1
    ensures forall k :: 0 <= k < |parts| ==> sep !in parts[k]
    decreases |t|
  {
    if |t| == 0 then [""]
    else
      var p := SplitOn(t[..|t| - 1], sep);
      var c := t[|t| - 1];
      if c == sep then p + [""]
      else p[..|p| - 1] + [p[|p| - 1] + [c]]
  }

  /** Joining the pieces with the separator gives back the string. */
  lemma {:induction false} JoinSplit(t: string, sep: char)
    ensures Join(SplitOn(t, sep), [sep]) == t
    decreases |t|
  {
    if |t| > 0 {
      var u, c := t[..|t| - 1], t[|t| - 1];
      var p := SplitOn(u, sep);
      JoinSplit(u, sep);
      assert t == u + [c];
      if c == sep {
        JoinSnoc(p, "", [sep]);
        assert Join(p, [sep]) + [sep] + "" == u + [c];
      } else {
        JoinExtendLast(p, [c], [sep]);
      }
    }
  }

  /** Extending the last part extends the join by the same characters. */
  lemma JoinExtendLast(parts: seq<string>, x: string, sep: string)
    requires |parts| > 0
    ensures Join(parts[..|parts| - 1] + [parts[|parts| - 1] + x], sep) == Join(parts, sep) + x
  {
    var q, l := parts[..|parts| - 1], parts[|parts| - 1];
    assert parts == q + [l];
    JoinSnoc(q, l, sep);
    JoinSnoc(q, l + x, sep);
    if |q| > 0 {
      var j := Join(q, sep);
      assert j + sep + (l + x) == (j + sep + l) + x;
    }
  }

  /** The converse: splitting a join of separator-free parts gives them back. */
  lemma {:induction false} SplitJoin(parts: seq<string>, sep: char)
    requires |parts| >= 1
    requires forall k :: 0 <= k < |parts| ==> sep !in parts[k]
    ensures SplitOn(Join(parts, [sep]), sep) == parts
    decreases |parts|
  {
    if |parts| == 1 {
      SplitNoSep(parts[0], sep);
    } else {
      var init, last := parts[..|parts| - 1], parts[|parts| - 1];
      assert parts == init + [last];
      var j := Join(init, [sep]);
      var u := j + [sep];
      SplitJoin(init, sep);
      JoinSnoc(init, last, [sep]);
      assert Join(parts, [sep]) == u + last;
      assert u[..|u| - 1] == j;
      SplitAppendFree(u, last, sep);
    }
  }

  lemma {:induction false} SplitNoSep(t: string, sep: char)
    requires sep !in t
    ensures SplitOn(t, sep) == [t]
    decreases |t|
  {
    if |t| > 0 {
      SplitNoSep(t[..|t| - 1], sep);
      assert t[..|t| - 1] + [t[|t| - 1]] == t;
    }
  }

  /** Appending separator-free text to a string that ends in a separator adds
      exactly one piece. */
  lemma {:induction false} SplitAppendFree(u: string, w: string, sep: char)
    requires |u| > 0 && u[|u| - 1] == sep
    requires sep !in w
    ensures SplitOn(u + w, sep) == SplitOn(u[..|u| - 1], sep) + [w]
    decreases |w|
  {
    if |w| == 0 {
      assert u + w == u;
    } else {
      var w', c := w[..|w| - 1], w[|w| - 1];
      SplitAppendFree(u, w', sep);
      var p := SplitOn(u + w', sep);
      assert (u + w)[..|u + w| - 1] == u + w';
      assert (u + w)[|u + w| - 1] == c;
      assert c != sep by { assert c == w[|w| - 1]; }
      assert SplitOn(u + w, sep) == p[..|p| - 1] + [p[|p| - 1] + [c]];
      assert p[..|p| - 1] == SplitOn(u[..|u| - 1], sep);
      assert w' + [c] == w;
    }
  }

  predicate StartsWith(s: string, prefix: string) {
    |prefix| <= |s| && s[..|prefix|] == prefix
  }

  /** `s.contains(t)`. */
  predicate Contains(s: string, t: string) {
    exists i | 0 <= i <= |s| - |t| :: StartsWith(s[i..], t)
  }

  /** Kotlin `mapIndexed { index, it -> f(it, index + 1) }` over host items
      each of which may throw while it is read or converted: the first throw
      aborts the whole mapping (`None`), otherwise every item is mapped, in
      order, with consecutive positions from `start`. */
  function MapPositioned<A, B>(items: seq<Attempt<A>>, f: (A, int) -> B, start: int): (r: Option<seq<B>>)
    ensures r.Some? <==> forall k :: 0 <= k < |items| ==> items[k].Returns?
    ensures r.Some? ==> |r.value| == |items|
    ensures r.Some? ==> forall k :: 0 <= k < |items| ==> r.value[k] == f(items[k].value, start + k)
    decreases |items|
  {
    if |items| == 0 then Some([])
    else
      match items[0]
      case Throws(_) => None
      case Returns(a) =>
        match MapPositioned(items[1..], f, start + 1)
        case None => None
        case Some(rest) => Some([f(a, start)] + rest)
  }
}

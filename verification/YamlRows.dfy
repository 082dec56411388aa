/** From the writer's lines to the reader's tokens: which quoted strings come through the line
    splitter and the comment scanner, and what is left of those that do not. */
module YamlRows {
  import opened Text
  import opened YamlReader
  import opened YamlWriter

  const PLAIN := Quotes(false, false)
  const IN_DOUBLE := Quotes(false, true)

  // ---------------------------------------------------------------- which strings survive

  /** How many characters of a quoted string the comment scanner keeps. It does not know that a
      backslash escapes a quote, so a quote inside the string closes the string for it. */
  function RawKeep(s: string, afterSpace: bool, q: Quotes): (n: nat)
    ensures n <= |s|
  {
    if s == "" || BeginsComment(s[0], afterSpace, q) then 0
    else 1 + RawKeep(s[1..], IsSpace(s[0]) && s[0] >= ' ', AfterChar(s[0], q))
  }

  /** Line breaks that JSON leaves unescaped: U+0085, U+2028 and U+2029. */
  predicate RawBreak(c: char) { IsBreak(c) && c >= ' ' }

  function RawBreakAt(s: string): (m: nat)
    ensures m <= |s| && (forall i :: 0 <= i < m ==> !RawBreak(s[i])) && (m < |s| ==> RawBreak(s[m]))
  {
    if s == "" || RawBreak(s[0]) then 0 else 1 + RawBreakAt(s[1..])
  }

  predicate Survives(s: string) {
    RawBreakAt(s) == |s| && RawKeep(s, false, IN_DOUBLE) == |s|
  }

  // ---------------------------------------------------------------- the comment scanner on escaped text

  predicate Neutral(c: char) { c != '\'' && c != '"' && c != '#' }

  lemma {:induction false} KeepNeutral(p: string, x: string, afterSpace: bool, q: Quotes)
    requires p != "" && forall i :: 0 <= i < |p| ==> Neutral(p[i])
    ensures KeepLength(p + x, afterSpace, q) == |p| + KeepLength(x, IsSpace(p[|p| - 1]), q)
    decreases |p|
  {
    assert (p + x)[1..] == p[1..] + x;
    if |p| == 1 {
      assert p[1..] + x == x;
    } else {
      KeepNeutral(p[1..], x, IsSpace(p[0]), q);
    }
  }

  lemma {:induction false} KeepOne(c: char, x: string, afterSpace: bool, q: Quotes)
    ensures KeepLength(EscapeChar(c) + x, afterSpace, q) ==
            if BeginsComment(c, afterSpace, q) then 0
            else |EscapeChar(c)| + KeepLength(x, IsSpace(c) && c >= ' ', AfterChar(c, q))
  {
    var e := EscapeChar(c);
    if c == '"' {
      assert e + x == ['\\'] + (['"'] + x);
      KeepNeutral(['\\'], ['"'] + x, afterSpace, q);
      assert (['"'] + x)[1..] == x;
    } else if c < ' ' || c == '\\' {
      KeepNeutral(e, x, afterSpace, q);
    } else {
      assert (e + x)[1..] == x;
    }
  }

  lemma {:induction false} KeepEscape(s: string, tail: string, afterSpace: bool, q: Quotes)
    requires tail == "" || tail == "\""
    ensures RawKeep(s, afterSpace, q) <= |s|
    ensures KeepLength(Escape(s) + tail, afterSpace, q) ==
            if RawKeep(s, afterSpace, q) == |s| then |Escape(s) + tail|
            else |Escape(s[..RawKeep(s, afterSpace, q)])|
    decreases |s|
  {
    if s == "" {
      assert Escape(s) + tail == tail;
    } else {
      var rest := Escape(s[1..]) + tail;
      assert Escape(s) + tail == EscapeChar(s[0]) + rest;
      KeepOne(s[0], rest, afterSpace, q);
      KeepEscape(s[1..], tail, IsSpace(s[0]) && s[0] >= ' ', AfterChar(s[0], q));
      var k := RawKeep(s, afterSpace, q);
      if k > 0 {
        assert s[..k][0] == s[0] && s[..k][1..] == s[1..][..k - 1];
      }
    }
  }

  lemma {:induction false} EscapeCharBreaks(c: char)
    ensures RawBreak(c) ==> EscapeChar(c) == [c]
    ensures !RawBreak(c) ==> NoBreaks(EscapeChar(c))
  {}

  lemma {:induction false} EscapeNoBreaks(s: string)
    requires RawBreakAt(s) == |s|
    ensures NoBreaks(Escape(s))
    decreases |s|
  {
    if s != "" {
      EscapeCharBreaks(s[0]);
      EscapeNoBreaks(s[1..]);
    }
  }

  lemma {:induction false} EscapeConcat(a: string, b: string)
    ensures Escape(a + b) == Escape(a) + Escape(b)
    decreases |a|
  {
    if a == "" {
      assert a + b == b;
    } else {
      assert (a + b)[1..] == a[1..] + b;
      EscapeConcat(a[1..], b);
    }
  }

  // ---------------------------------------------------------------- lines that become tokens unchanged

  predicate PlainText(p: string) { forall i :: 0 <= i < |p| ==> Neutral(p[i]) && !IsBreak(p[i]) }

  /** Content that line splitting, comment stripping and trimming leave alone. */
  predicate GoodContent(c: string) {
    Trimmed(c) && NoBreaks(c) && KeepLength(c, true, PLAIN) == |c|
  }

  lemma {:induction false} PlainContent(c: string)
    requires Trimmed(c) && PlainText(c)
    ensures GoodContent(c)
  {
    KeepNeutral(c, "", true, PLAIN);
    assert c + "" == c;
  }

  lemma {:induction false} KeepIndented(n: nat, c: string)
    ensures KeepLength(Spaces(n) + c, true, PLAIN) == n + KeepLength(c, true, PLAIN)
  {
    if n == 0 { assert Spaces(0) + c == c; } else { KeepNeutral(Spaces(n), c, true, PLAIN); }
  }

  /** A raw line whose kept part is `indent` blanks and a trimmed content gives that one token. */
  lemma {:induction false} TokenOf(raw: string, indent: nat, content: string)
    requires Trimmed(content) && RStrip(StripComment(raw)) == Spaces(indent) + content
    ensures LineToken(raw) == Ok(Some(Token(indent, content)))
  {
    var line := Spaces(indent) + content;
    LStripBlanks(indent, content);
    assert line[|line| - 1] == content[|content| - 1];
    assert RStrip(line) == line;
  }

  lemma {:induction false} GoodToken(row: Token)
    requires GoodContent(row.content)
    ensures LineToken(LineText(row)) == Ok(Some(row)) && NoBreaks(LineText(row))
  {
    var line := LineText(row);
    KeepIndented(row.indent, row.content);
    assert line[..|line|] == line && line[|line| - 1] == row.content[|row.content| - 1];
    TokenOf(line, row.indent, row.content);
  }

  // ---------------------------------------------------------------- lines that hold a quoted string

  predicate Head(h: string) { h != "" && PlainText(h) && !IsSpace(h[0]) }

  /** The comment scanner on a line `h` followed by a quoted string, closed or not. */
  lemma {:induction false} KeepString(h: string, s: string, tail: string)
    requires Head(h) && (tail == "" || tail == "\"")
    ensures var k := RawKeep(s, false, IN_DOUBLE);
      KeepLength(h + ("\"" + (Escape(s) + tail)), true, PLAIN) ==
      |h| + 1 + (if k == |s| then |Escape(s) + tail| else |Escape(s[..k])|)
  {
    var e := Escape(s) + tail;
    KeepNeutral(h, "\"" + e, true, PLAIN);
    KeepEscape(s, tail, false, IN_DOUBLE);
  }

  lemma {:induction false} SurvivorGood(h: string, s: string)
    requires Head(h) && Survives(s)
    ensures GoodContent(h + JsonText(s))
  {
    KeepString(h, s, "\"");
    assert "\"" + (Escape(s) + "\"") == JsonText(s);
    EscapeNoBreaks(s);
  }

  /** An unclosed quoted string after a line head. */
  function Unclosed(h: string, t: string): string { h + ("\"" + Escape(t)) }

  lemma {:induction false} EscapeLast(u: string)
    requires u != ""
    ensures Escape(u) == Escape(u[..|u| - 1]) + EscapeChar(u[|u| - 1])
  {
    EscapeConcat(u[..|u| - 1], [u[|u| - 1]]);
    assert u == u[..|u| - 1] + [u[|u| - 1]];
  }

  lemma {:induction false} EscapeCharEnd(c: char)
    requires !(c >= ' ' && IsSpace(c))
    ensures !IsSpace(EscapeChar(c)[|EscapeChar(c)| - 1])
  {}

  /** Trimming an unclosed string on the right still leaves an unclosed string. */
  lemma {:induction false} TrimOpen(h: string, u: string) returns (t: string)
    ensures RStrip(Unclosed(h, u)) == Unclosed(h, t)
    decreases |u|
  {
    var s := Unclosed(h, u);
    t := u;
    if u == "" {
      assert s[|s| - 1] == '"';
    } else {
      var front, c := u[..|u| - 1], u[|u| - 1];
      EscapeLast(u);
      if c >= ' ' && IsSpace(c) {
        assert s == Unclosed(h, front) + [c];
        assert s[..|s| - 1] == Unclosed(h, front);
        t := TrimOpen(h, front);
      } else {
        EscapeCharEnd(c);
        assert s[|s| - 1] == EscapeChar(c)[|EscapeChar(c)| - 1];
      }
    }
  }

  /** The first raw line of a written string: all of it, or what comes before its first raw break. */
  function Piece(h: string, s: string): string {
    var m := RawBreakAt(s);
    h + ("\"" + (Escape(s[..m]) + (if m == |s| then "\"" else "")))
  }

  lemma {:induction false} PieceNoBreaks(indent: nat, h: string, s: string)
    requires Head(h)
    ensures NoBreaks(Spaces(indent) + Piece(h, s))
  {
    EscapeNoBreaks(s[..RawBreakAt(s)]);
  }

  lemma {:induction false} FirstPiece(indent: nat, h: string, s: string, rest: string)
    requires Head(h)
    ensures var raw := LineText(Token(indent, h + JsonText(s))) + "\n" + rest;
      raw[..BreakAt(raw)] == Spaces(indent) + Piece(h, s)
  {
    var raw := LineText(Token(indent, h + JsonText(s))) + "\n" + rest;
    var front := Spaces(indent) + Piece(h, s);
    var m := RawBreakAt(s);
    PieceNoBreaks(indent, h, s);
    if m == |s| {
      assert s[..m] == s;
      assert raw == front + ['\n'] + rest;
      BreakAfter(front, '\n', rest);
    } else {
      var after := s[m + 1..];
      assert s == s[..m] + s[m..] && s[m..][1..] == after;
      EscapeConcat(s[..m], s[m..]);
      EscapeCharBreaks(s[m]);
      assert Escape(s[m..]) == [s[m]] + Escape(after);
      SplicePiece(indent, h, Escape(s[..m]), s[m], Escape(after), rest);
      BreakAfter(front, s[m], Escape(after) + "\"" + "\n" + rest);
    }
  }

  lemma {:induction false} SplicePiece(indent: nat, h: string, a: string, c: char, b: string, rest: string)
    ensures Spaces(indent) + (h + ("\"" + (a + ([c] + b)) + "\"")) + "\n" + rest ==
            Spaces(indent) + (h + ("\"" + (a + ""))) + [c] + (b + "\"" + "\n" + rest)
  {}

  lemma {:induction false} SplitEscape(kept: string, k: nat, tail: string)
    requires k <= |kept| && (k == |kept| ==> tail == "")
    ensures Escape(kept) + tail == Escape(kept[..k]) + (Escape(kept[k..]) + tail)
    ensures k == |kept| ==> Escape(kept) + tail == Escape(kept[..k])
  {
    EscapeConcat(kept[..k], kept[k..]);
    assert kept == kept[..k] + kept[k..];
    Assoc(Escape(kept[..k]), Escape(kept[k..]), tail);
    if k == |kept| {
      assert kept[..k] == kept;
      assert Escape(kept) + "" == Escape(kept);
    }
  }

  /** What the comment scanner leaves of such a piece is an unclosed string. */
  lemma {:induction false} CutOpen(indent: nat, h: string, kept: string, tail: string)
    requires Head(h) && (tail == "" || tail == "\"")
    requires RawKeep(kept, false, IN_DOUBLE) == |kept| ==> tail == ""
    ensures StripComment(Spaces(indent) + (h + ("\"" + (Escape(kept) + tail)))) ==
            Unclosed(Spaces(indent) + h, kept[..RawKeep(kept, false, IN_DOUBLE)])
  {
    var k := RawKeep(kept, false, IN_DOUBLE);
    var e := Escape(kept) + tail;
    KeepIndented(indent, h + ("\"" + e));
    KeepString(h, kept, tail);
    SplitEscape(kept, k, tail);
  }

  lemma {:induction false} PieceCut(indent: nat, h: string, s: string)
    requires Head(h) && !Survives(s)
    ensures var kept := s[..RawBreakAt(s)];
      StripComment(Spaces(indent) + Piece(h, s)) ==
      Unclosed(Spaces(indent) + h, kept[..RawKeep(kept, false, IN_DOUBLE)])
  {
    var m := RawBreakAt(s);
    assert m == |s| ==> s[..m] == s;
    CutOpen(indent, h, s[..m], if m == |s| then "\"" else "");
  }

  /** The first raw line of a string that does not survive gives a token that leaves the string unclosed. */
  lemma {:induction false} BrokenLine(indent: nat, h: string, s: string, rest: string) returns (t: string)
    requires Head(h) && !Survives(s)
    ensures var raw := LineText(Token(indent, h + JsonText(s))) + "\n" + rest;
      LineToken(raw[..BreakAt(raw)]) == Ok(Some(Token(indent, Unclosed(h, t))))
  {
    FirstPiece(indent, h, s, rest);
    PieceCut(indent, h, s);
    var kept := s[..RawBreakAt(s)];
    t := TrimOpen(Spaces(indent) + h, kept[..RawKeep(kept, false, IN_DOUBLE)]);
    Assoc(Spaces(indent), h, "\"" + Escape(t));
    TokenOf(Spaces(indent) + Piece(h, s), indent, Unclosed(h, t));
  }
}

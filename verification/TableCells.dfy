/** The cells of a Markdown table line. */
module TableCells {
  import opened JsText

  /** The line without its surrounding space and one bar at each end. */
  function Inner(line: string): string { Unbarred(Trim(line)) }

  function Unbarred(t: string): string {
    var unled := if t != "" && t[0] == '|' then t[1..] else t;
    if unled != "" && unled[|unled| - 1] == '|' then unled[..|unled| - 1] else unled
  }

  /** Cuts at each bar, except that a backslash before a bar makes it part of the cell. */
  function Cut(value: string, cell: string): (r: seq<string>)
    ensures r != []
    decreases |value|
  {
    if value == "" then [Trim(cell)]
    else if value[0] == '\\' && |value| > 1 && value[1] == '|' then Cut(value[2..], cell + "|")
    else if value[0] == '|' then [Trim(cell)] + Cut(value[1..], "")
    else Cut(value[1..], cell + [value[0]])
  }

  function CellsOf(line: string): (r: seq<string>)
    ensures r != []
  {
    Cut(Inner(line), "")
  }

  method Cells(line: string) returns (result: seq<string>)
    ensures result == CellsOf(line)
  {
    var value := Inner(line);
    result := [];
    var cell := "";
    var index := 0;
    while index < |value|
      invariant 0 <= index <= |value|
      invariant result + Cut(value[index..], cell) == CellsOf(line)
    {
      ghost var rest := value[index..];
      assert rest[0] == value[index] && rest[1..] == value[index + 1..];
      if value[index] == '\\' && index + 1 < |value| && value[index + 1] == '|' {
        assert rest[2..] == value[index + 2..];
        cell := cell + "|";
        index := index + 1;
      } else if value[index] == '|' {
        assert result + ([Trim(cell)] + Cut(value[index + 1..], "")) ==
          (result + [Trim(cell)]) + Cut(value[index + 1..], "");
        result := result + [Trim(cell)];
        cell := "";
      } else {
        cell := cell + [value[index]];
      }
      index := index + 1;
    }
    result := result + [Trim(cell)];
  }

  // ---------------------------------------------------------------- writing a row

  /** A cell's text with each bar escaped. */
  function EscapeBars(cell: string): string {
    if cell == "" then "" else (if cell[0] == '|' then "\\|" else [cell[0]]) + EscapeBars(cell[1..])
  }

  function RowText(row: seq<string>): string
    requires row != []
  {
    " " + EscapeBars(row[0]) + " " + if |row| == 1 then "" else "|" + RowText(row[1..])
  }

  function TableLine(row: seq<string>): string
    requires row != []
  {
    "|" + RowText(row) + "|"
  }

  lemma {:induction false} CutEscapedBar(more: string, cell: string)
    ensures Cut("\\|" + more, cell) == Cut(more, cell + "|")
  {
    assert ("\\|" + more)[2..] == more;
  }

  lemma {:induction false} CutBar(more: string, cell: string)
    ensures Cut("|" + more, cell) == [Trim(cell)] + Cut(more, "")
  {
    assert ("|" + more)[1..] == more;
  }

  lemma {:induction false} CutPlain(c: char, more: string, cell: string)
    requires c != '|' && (more == "" || more[0] != '|')
    ensures Cut([c] + more, cell) == Cut(more, cell + [c])
  {
    assert ([c] + more)[1..] == more;
  }

  lemma {:induction false} CutEscaped(cell: string, tail: string, before: string)
    requires tail != "" && tail[0] != '|'
    ensures Cut(EscapeBars(cell) + tail, before) == Cut(tail, before + cell)
    decreases |cell|
  {
    hide Cut;
    if cell == "" {
      assert EscapeBars(cell) + tail == tail && before + cell == before;
    } else {
      var c, more := cell[0], EscapeBars(cell[1..]) + tail;
      CutEscaped(cell[1..], tail, before + [c]);
      assert before + [c] + cell[1..] == before + cell;
      if c == '|' {
        assert EscapeBars(cell) + tail == "\\|" + more;
        CutEscapedBar(more, before);
      } else {
        assert EscapeBars(cell) + tail == [c] + more;
        CutPlain(c, more, before);
      }
    }
  }

  predicate NeatCells(row: seq<string>) { forall i :: 0 <= i < |row| ==> Neat(row[i]) }

  lemma {:induction false} CutOne(cell: string, tail: string)
    requires tail == "" || tail[0] == '|'
    ensures Cut(" " + EscapeBars(cell) + " " + tail, "") == Cut(tail, " " + cell + " ")
  {
    var blank := " " + tail;
    assert " " + EscapeBars(cell) + " " + tail == " " + (EscapeBars(cell) + blank);
    CutPlain(' ', EscapeBars(cell) + blank, "");
    assert "" + " " == " ";
    CutEscaped(cell, blank, " ");
  }

  lemma {:induction false} CutEnd(cell: string)
    ensures Cut("", cell) == [Trim(cell)]
  {}

  lemma {:induction false} CutRow(row: seq<string>)
    requires row != [] && NeatCells(row)
    ensures Cut(RowText(row), "") == row
    decreases |row|
  {
    hide EscapeBars, Trim, Cut;
    TrimBlanks(row[0]);
    if |row| == 1 {
      CutOne(row[0], "");
      CutEnd(" " + row[0] + " ");
      assert [row[0]] == row;
    } else {
      CutRow(row[1..]);
      CutOne(row[0], "|" + RowText(row[1..]));
      CutBar(RowText(row[1..]), " " + row[0] + " ");
      assert [row[0]] + row[1..] == row;
    }
  }

  /** Reading a written row gives its cells back, whatever bars and backslashes they hold. */
  lemma {:induction false} CellsRoundTrip(row: seq<string>)
    requires row != [] && NeatCells(row)
    ensures CellsOf(TableLine(row)) == row
  {
    hide EscapeBars, Cut, RowText;
    var text := RowText(row);
    var line := TableLine(row);
    TrimNothing(line);
    assert line[1..] == text + "|";
    assert (text + "|")[..|text|] == text;
    CutRow(row);
  }

  /** Space around a line and one bar at either end, or none, do not belong to its cells. */
  lemma {:induction false} InnerForms(pad: string, lead: string, s: string, trail: string, tail: string)
    requires AllSpace(pad) && AllSpace(tail) && (lead == "" || lead == "|") && (trail == "" || trail == "|")
    requires lead == "" && s != "" ==> s[0] != '|' && !JsSpace(s[0])
    requires trail == "" && s != "" ==> s[|s| - 1] != '|' && !JsSpace(s[|s| - 1])
    ensures Inner(pad + lead + s + trail + tail) == s
  {
    hide Trim, AllSpace, JsSpace;
    var t := lead + s + trail;
    assert pad + lead + s + trail + tail == pad + t + tail;
    assert Neat(t) by { NeatBars(lead, s, trail); }
    TrimOf(pad, t, tail);
    BarsDropped(lead, s, trail);
  }

  lemma {:induction false} NeatBars(lead: string, s: string, trail: string)
    requires (lead == "" || lead == "|") && (trail == "" || trail == "|")
    requires lead == "" && s != "" ==> !JsSpace(s[0])
    requires trail == "" && s != "" ==> !JsSpace(s[|s| - 1])
    ensures Neat(lead + s + trail)
  {
    var t := lead + s + trail;
    if t != "" {
      assert !JsSpace('|');
      hide JsSpace;
      assert t[0] == if lead != "" || s == "" then '|' else s[0];
      assert t[|t| - 1] == if trail != "" || s == "" then '|' else s[|s| - 1];
    }
  }

  lemma {:induction false} BarsDropped(lead: string, s: string, trail: string)
    requires (lead == "" || lead == "|") && (trail == "" || trail == "|")
    requires lead == "" && s != "" ==> s[0] != '|'
    requires trail == "" && s != "" ==> s[|s| - 1] != '|'
    ensures Unbarred(lead + s + trail) == s
  {
    var t := lead + s + trail;
    if lead == "|" { assert t[1..] == s + trail; } else { assert t == s + trail; }
    assert (s + trail)[..|s|] == s;
  }
}

/** The plan document reader: the blocks of a Markdown document and where a task is declared in it. */
module PlanBlocks {
  import opened Text
  import opened JsText
  import opened TableCells

  /** A displayed block. `line` is its first line; its shown text is built from `body`, `title` or `rows`. */
  datatype Block =
    | Heading(line: nat, level: nat, title: string)
    | Prose(line: nat, list: bool, body: seq<string>)
    | Code(line: nat, body: seq<string>, frontMatter: bool)
    | Table(line: nat, rows: seq<seq<string>>)

  // ---------------------------------------------------------------- what one line looks like

  predicate Blank(line: string) { Trim(line) == "" }

  predicate HasBar(line: string) { '|' in line }

  predicate OneLine(s: string) { forall i :: 0 <= i < |s| ==> !Terminator(s[i]) }

  /** `/^(#{1,6})\s+(.+)$/`: the level and the title. When only space follows the marks, the last of it is
      the title, unless it is a line terminator or the only one. */
  function HeadingOf(line: string): Option<(nat, string)> {
    var n := RunLength(line, '#');
    var rest := line[n..];
    var w := SpaceRun(rest);
    if n < 1 || n > 6 || w < 1 then None
    else if w < |rest| then (if OneLine(rest[w..]) then Some((n, rest[w..])) else None)
    else if w >= 2 && !Terminator(rest[w - 1]) then Some((n, rest[w - 1..]))
    else None
  }

  /** What the pattern says, without how it is matched: some marks, some space, a nonempty title. */
  predicate HeadingSplit(line: string, n: nat, j: nat) {
    && 1 <= n <= 6 && n < j < |line|
    && (forall i :: 0 <= i < n ==> line[i] == '#')
    && (forall i :: n <= i < j ==> JsSpace(line[i]))
    && OneLine(line[j..])
  }

  /** The reader finds a heading exactly when the pattern matches, and with the longest run of space. */
  lemma {:induction false} HeadingMatches(line: string, n: nat, j: nat)
    requires HeadingSplit(line, n, j)
    ensures HeadingOf(line).Some? && HeadingOf(line).value.0 == n
    ensures |HeadingOf(line).value.1| <= |line| - j
  {
    assert line[n] != '#';
    assert RunLength(line, '#') == n;
    var rest := line[n..];
    var w := SpaceRun(rest);
    assert forall i :: 0 <= i < j - n ==> rest[i] == line[n + i];
    assert w >= j - n;
    if w < |rest| {
      assert forall i :: 0 <= i < |rest| - w ==> rest[w..][i] == line[j..][i + w - (j - n)];
    } else {
      assert rest[w - 1] == line[j..][|line| - 1 - j];
    }
  }

  lemma {:induction false} HeadingFound(line: string)
    requires HeadingOf(line).Some?
    ensures var (n, title) := HeadingOf(line).value;
      HeadingSplit(line, n, |line| - |title|) && title == line[|line| - |title|..]
  {
    hide OneLine, RunLength, SpaceRun;
    var n := RunLength(line, '#');
    var rest := line[n..];
    var w := SpaceRun(rest);
    var k := if w < |rest| then w else w - 1;
    LastIsOneLine(rest);
    assert HeadingOf(line).value == (n, rest[k..]);
    assert rest[k..] == line[n + k..] && |line| - |rest[k..]| == n + k;
    assert OneLine(rest[k..]);
    forall i | n <= i < n + k ensures JsSpace(line[i]) { assert rest[i - n] == line[i]; }
  }

  lemma {:induction false} LastIsOneLine(s: string)
    ensures s != "" && !Terminator(s[|s| - 1]) ==> OneLine(s[|s| - 1..])
  {}

  /** A line that ends in a carriage return is never a heading. */
  lemma {:induction false} CarriageReturn(line: string)
    ensures HeadingOf(line + "\r").None?
  {
    var whole := line + "\r";
    if HeadingOf(whole).Some? {
      HeadingFound(whole);
      var title := HeadingOf(whole).value.1;
      assert Terminator(title[|title| - 1]);
    }
  }

  predicate OpensFence(line: string) {
    var t := TrimStart(line);
    StartsWith(t, "```") || StartsWith(t, "~~~")
  }

  /** Whether a line ends the code block that a line opened. */
  predicate Closes(opening: string, line: string) { StartsWith(Trim(line), Fence(opening)) }

  function Fence(opening: string): string {
    var t := Trim(opening);
    if |t| <= 3 then t else t[..3]
  }

  function DigitRun(s: string): (n: nat)
    ensures n <= |s|
  {
    if s != "" && '0' <= s[0] <= '9' then 1 + DigitRun(s[1..]) else 0
  }

  /** `/^\s*(?:[-*+]|\d+[.)])\s+/`: a bullet or a number, then space. */
  predicate IsItem(line: string) {
    var t := TrimStart(line);
    var n := DigitRun(t);
    || (|t| > 1 && (t[0] == '-' || t[0] == '*' || t[0] == '+') && JsSpace(t[1]))
    || (0 < n && n + 1 < |t| && (t[n] == '.' || t[n] == ')') && JsSpace(t[n + 1]))
  }

  /** `/^:?-{3,}:?$/`. */
  predicate Rule(cell: string) {
    var start := if cell != "" && cell[0] == ':' then 1 else 0;
    var n := RunLength(cell[start..], '-');
    n >= 3 && (start + n == |cell| || (start + n + 1 == |cell| && cell[start + n] == ':'))
  }

  predicate Separator(line: string) { line != "" && forall i :: 0 <= i < |CellsOf(line)| ==> Rule(CellsOf(line)[i]) }

  // ---------------------------------------------------------------- what a block is

  predicate TableAt(lines: seq<string>, at: nat)
    requires at < |lines|
  {
    HasBar(lines[at]) && at + 1 < |lines| && Separator(lines[at + 1])
  }

  /** A line that carries on a paragraph or a list. */
  predicate Continues(list: bool, line: string) {
    !Blank(line) && HeadingOf(line).None? && !OpensFence(line) && IsItem(line) == list && !HasBar(line)
  }

  /** A block of these lines: it starts on a line of its kind, holds those lines, and ends where it must. */
  ghost predicate IsBlock(lines: seq<string>, b: Block) {
    && b.line < |lines| && !Blank(lines[b.line])
    && match b
       case Heading(at, level, title) => HeadingOf(lines[at]) == Some((level, title))
       case Code(at, body, frontMatter) => !frontMatter && HeadingOf(lines[at]).None? && OpensFence(lines[at]) &&
         IsCode(lines, at, body)
       case Table(at, rows) => HeadingOf(lines[at]).None? && !OpensFence(lines[at]) && TableAt(lines, at) &&
         IsTable(lines, at, rows)
       case Prose(at, list, body) =>
         HeadingOf(lines[at]).None? && !OpensFence(lines[at]) && !TableAt(lines, at) && list == IsItem(lines[at]) &&
           IsProse(lines, at, list, body)
  }

  ghost predicate IsCode(lines: seq<string>, at: nat, body: seq<string>)
    requires at < |lines|
  {
    var stop := at + 1 + |body|;
    && stop <= |lines| && body == lines[at + 1..stop]
    && (forall k :: at < k < stop ==> !Closes(lines[at], lines[k]))
    && (stop < |lines| ==> Closes(lines[at], lines[stop]))
  }

  predicate IsRow(lines: seq<string>, k: nat, row: seq<string>) {
    k < |lines| && HasBar(lines[k]) && row == CellsOf(lines[k])
  }

  ghost predicate IsTable(lines: seq<string>, at: nat, rows: seq<seq<string>>)
    requires at < |lines|
  {
    var stop := at + 1 + |rows|;
    && |rows| > 0 && stop <= |lines| && rows[0] == CellsOf(lines[at])
    && (forall r :: 1 <= r < |rows| ==> IsRow(lines, at + 1 + r, rows[r]))
    && (stop < |lines| ==> !(HasBar(lines[stop]) && !Blank(lines[stop])))
  }

  ghost predicate IsProse(lines: seq<string>, at: nat, list: bool, body: seq<string>)
    requires at < |lines|
  {
    var stop := at + |body|;
    && |body| > 0 && stop <= |lines| && body == lines[at..stop]
    && (forall k :: at < k < stop ==> Continues(list, lines[k]))
    && (stop < |lines| ==> !Continues(list, lines[stop]))
  }

  /** The line after a block's last one. A code block takes its closing fence, if it has one. */
  function End(lines: seq<string>, b: Block): nat {
    match b
    case Heading(at, _, _) => at + 1
    case Code(at, body, _) => if at + 1 + |body| < |lines| then at + 2 + |body| else |lines|
    case Table(at, rows) => at + 1 + |rows|
    case Prose(at, _, body) => at + |body|
  }

  /** The blocks of the lines from one up to another: each is a block, they follow one another without
      sharing a line, and every line outside them is blank. */
  ghost predicate Covers(lines: seq<string>, from: nat, to: nat, blocks: seq<Block>) {
    && from <= to <= |lines|
    && (forall i :: 0 <= i < |blocks| ==>
      from <= blocks[i].line && IsBlock(lines, blocks[i]) && End(lines, blocks[i]) <= to)
    && (forall i, j :: 0 <= i < j < |blocks| ==> End(lines, blocks[i]) <= blocks[j].line)
    && forall k :: from <= k < to && !Blank(lines[k]) ==> Held(lines, blocks, k)
  }

  ghost predicate Held(lines: seq<string>, blocks: seq<Block>, k: int) {
    exists i :: 0 <= i < |blocks| && InSpan(lines, blocks[i], k)
  }

  predicate InSpan(lines: seq<string>, b: Block, k: int) { b.line <= k < End(lines, b) }

  /** A line of exactly three dashes. */
  predicate Dashes(line: string) { Trim(line) == "---" }

  /** The line that closes the front matter. */
  ghost predicate FrontMatterTo(lines: seq<string>, closing: nat) {
    && 0 < closing < |lines| && Dashes(lines[0]) && Dashes(lines[closing])
    && forall k :: 0 < k < closing ==> !Dashes(lines[k])
  }

  ghost predicate IsPlan(lines: seq<string>, blocks: seq<Block>) {
    || (exists closing: nat ::
          && FrontMatterTo(lines, closing) && blocks != [] && blocks[0] == Code(0, lines[1..closing], true)
          && Covers(lines, closing + 1, |lines|, blocks[1..]))
    || ((forall closing: nat :: !FrontMatterTo(lines, closing)) && Covers(lines, 0, |lines|, blocks))
  }

  // ---------------------------------------------------------------- the reader

  method ReadCode(lines: seq<string>, start: nat) returns (body: seq<string>)
    requires start < |lines|
    ensures IsCode(lines, start, body)
  {
    hide Closes;
    var line := start + 1;
    body := [];
    while line < |lines| && !Closes(lines[start], lines[line])
      invariant start < line <= |lines| && body == lines[start + 1..line]
      invariant forall k :: start < k < line ==> !Closes(lines[start], lines[k])
    {
      body := body + [lines[line]];
      line := line + 1;
    }
  }

  method ReadTable(lines: seq<string>, start: nat) returns (rows: seq<seq<string>>)
    requires start < |lines| && TableAt(lines, start)
    ensures IsTable(lines, start, rows)
  {
    hide CellsOf, HasBar, Blank, Separator;
    var header := Cells(lines[start]);
    rows := [header];
    var line := start + 1;
    while line + 1 < |lines| && HasBar(lines[line + 1]) && !Blank(lines[line + 1])
      invariant start < line < |lines| && line == start + |rows|
      invariant rows[0] == CellsOf(lines[start])
      invariant forall r :: 1 <= r < |rows| ==> IsRow(lines, start + 1 + r, rows[r])
    {
      line := line + 1;
      var row := Cells(lines[line]);
      assert IsRow(lines, line, row);
      rows := rows + [row];
    }
  }

  method ReadProse(lines: seq<string>, start: nat, list: bool) returns (body: seq<string>)
    requires start < |lines|
    ensures IsProse(lines, start, list, body)
  {
    hide Continues;
    body := [lines[start]];
    var line := start;
    while line + 1 < |lines| && Continues(list, lines[line + 1])
      invariant start <= line < |lines| && body == lines[start..line + 1]
      invariant forall k :: start < k <= line ==> Continues(list, lines[k])
    {
      line := line + 1;
      body := body + [lines[line]];
    }
  }

  method ReadBlock(lines: seq<string>, line: nat) returns (b: Block)
    requires line < |lines| && !Blank(lines[line])
    ensures b.line == line && IsBlock(lines, b)
  {
    hide Closes, HeadingOf, OpensFence, HasBar, Separator, IsItem, CellsOf, Blank, Continues, IsCode, IsTable, IsProse;
    var value := lines[line];
    var title := HeadingOf(value);
    if title.Some? { return Heading(line, title.value.0, title.value.1); }
    if OpensFence(value) {
      var body := ReadCode(lines, line);
      return Code(line, body, false);
    }
    if HasBar(value) && line + 1 < |lines| && Separator(lines[line + 1]) {
      var rows := ReadTable(lines, line);
      return Table(line, rows);
    }
    var list := IsItem(value);
    var body := ReadProse(lines, line, list);
    b := Prose(line, list, body);
  }

  method FindClosing(lines: seq<string>) returns (closing: int)
    requires lines != []
    ensures closing > 0 ==> FrontMatterTo(lines, closing)
    ensures closing <= 0 ==> forall k: nat :: !FrontMatterTo(lines, k)
  {
    if !Dashes(lines[0]) { return -1; }
    closing := 1;
    while closing < |lines|
      invariant 0 < closing <= |lines|
      invariant forall k :: 0 < k < closing ==> !Dashes(lines[k])
    {
      if Dashes(lines[closing]) { return; }
      closing := closing + 1;
    }
    closing := -1;
  }

  /** The blocks of a whole document. */
  method PlanBlocks(content: string) returns (blocks: seq<Block>)
    ensures IsPlan(SplitNewlines(content), blocks)
  {
    hide Blank, IsBlock, Dashes;
    var lines := SplitNewlines(content);
    blocks := [];
    var closing := FindClosing(lines);
    if closing > 0 { blocks := [Code(0, lines[1..closing], true)]; }
    var line := if closing > 0 then closing + 1 else 0;
    ghost var first, from := |blocks|, line;
    CoversNothing(lines, from);
    while line < |lines|
      invariant from <= line <= |lines| && first <= |blocks|
      invariant first == 1 ==> blocks[0] == Code(0, lines[1..closing], true)
      invariant Covers(lines, from, line, blocks[first..])
    {
      hide Covers;
      if Blank(lines[line]) {
        CoversBlank(lines, from, line, blocks[first..]);
        line := line + 1;
      } else {
        var b := ReadBlock(lines, line);
        BlockEnds(lines, b);
        CoversMore(lines, from, line, blocks[first..], b);
        assert (blocks + [b])[first..] == blocks[first..] + [b];
        blocks := blocks + [b];
        line := End(lines, b);
      }
    }
    assert first == 0 ==> blocks[0..] == blocks;
  }

  lemma {:induction false} CoversNothing(lines: seq<string>, from: nat)
    requires from <= |lines|
    ensures Covers(lines, from, from, [])
  {}

  lemma {:induction false} CoversBlank(lines: seq<string>, from: nat, to: nat, blocks: seq<Block>)
    requires Covers(lines, from, to, blocks) && to < |lines| && Blank(lines[to])
    ensures Covers(lines, from, to + 1, blocks)
  {
    hide IsBlock, Blank, End;
  }

  lemma {:induction false} BlockEnds(lines: seq<string>, b: Block)
    requires IsBlock(lines, b)
    ensures b.line < End(lines, b) <= |lines|
  {
    hide Closes, HeadingOf, OpensFence, HasBar, Separator, IsItem, CellsOf, Blank, Continues;
  }

  lemma {:induction false} CoversMore(lines: seq<string>, from: nat, to: nat, blocks: seq<Block>, b: Block)
    requires Covers(lines, from, to, blocks) && b.line == to && IsBlock(lines, b)
    ensures Covers(lines, from, End(lines, b), blocks + [b])
  {
    hide IsBlock, Blank, End;
    BlockEnds(lines, b);
    var more, stop := blocks + [b], End(lines, b);
    forall k | from <= k < stop && !Blank(lines[k]) ensures Held(lines, more, k) {
      if k < to {
        assert Held(lines, blocks, k);
        var i :| 0 <= i < |blocks| && InSpan(lines, blocks[i], k);
        assert InSpan(lines, more[i], k);
      } else {
        assert InSpan(lines, more[|blocks|], k);
      }
    }
    assert forall i :: 0 <= i < |blocks| ==> more[i] == blocks[i];
  }

  // ---------------------------------------------------------------- exactly one reading

  lemma {:induction false} BarNotBlank(line: string)
    requires HasBar(line)
    ensures !Blank(line)
  {
    TrimKeeps(line);
  }

  lemma {:induction false} TrimKeeps(s: string)
    requires exists i :: 0 <= i < |s| && !JsSpace(s[i])
    ensures Trim(s) != ""
  {
    TrimEndKeeps(s);
    var e := TrimEnd(s);
    assert !JsSpace(e[|e| - 1]);
  }

  lemma {:induction false} TrimEndKeeps(s: string)
    requires exists i :: 0 <= i < |s| && !JsSpace(s[i])
    ensures TrimEnd(s) != ""
    decreases |s|
  {
    var i :| 0 <= i < |s| && !JsSpace(s[i]);
    if JsSpace(s[|s| - 1]) {
      assert s[..|s| - 1][i] == s[i];
      TrimEndKeeps(s[..|s| - 1]);
    }
  }

  lemma {:induction false} TableLongest(lines: seq<string>, at: nat, a: seq<seq<string>>, b: seq<seq<string>>)
    requires at < |lines| && IsTable(lines, at, a) && IsTable(lines, at, b)
    ensures |b| <= |a|
  {
    hide HasBar, CellsOf, Blank;
    var stop := at + 1 + |a|;
    if stop < |lines| && HasBar(lines[stop]) { BarNotBlank(lines[stop]); }
    assert forall r :: 1 <= r < |b| ==> IsRow(lines, at + 1 + r, b[r]);
    assert 1 <= |a| < |b| ==> IsRow(lines, stop, b[|a|]);
  }

  lemma {:induction false} TableUnique(lines: seq<string>, at: nat, a: seq<seq<string>>, b: seq<seq<string>>)
    requires at < |lines| && IsTable(lines, at, a) && IsTable(lines, at, b)
    ensures a == b
  {
    hide HasBar, CellsOf, Blank;
    TableLongest(lines, at, a, b);
    TableLongest(lines, at, b, a);
    forall r | 0 <= r < |a| ensures a[r] == b[r] {
      assert r > 0 ==> IsRow(lines, at + 1 + r, a[r]) && IsRow(lines, at + 1 + r, b[r]);
    }
  }

  lemma {:induction false} CodeUnique(lines: seq<string>, at: nat, a: seq<string>, b: seq<string>)
    requires at < |lines| && IsCode(lines, at, a) && IsCode(lines, at, b)
    ensures a == b
  {
    hide Closes;
    var (p, q) := (at + 1 + |a|, at + 1 + |b|);
    assert p < |lines| ==> Closes(lines[at], lines[p]);
    assert q < |lines| ==> Closes(lines[at], lines[q]);
  }

  lemma {:induction false} ProseUnique(lines: seq<string>, at: nat, list: bool, a: seq<string>, b: seq<string>)
    requires at < |lines| && IsProse(lines, at, list, a) && IsProse(lines, at, list, b)
    ensures a == b
  {
    hide Continues;
    var (p, q) := (at + |a|, at + |b|);
    assert p < |lines| ==> !Continues(list, lines[p]);
    assert q < |lines| ==> !Continues(list, lines[q]);
  }

  lemma {:induction false} BlockUnique(lines: seq<string>, a: Block, b: Block)
    requires IsBlock(lines, a) && IsBlock(lines, b) && a.line == b.line
    ensures a == b
  {
    hide Closes, HeadingOf, OpensFence, HasBar, Separator, IsItem, CellsOf, Blank, Continues, IsCode, IsTable,
      IsProse, TableAt;
    match a
    case Heading(_, _, _) =>
    case Code(at, body, _) => CodeUnique(lines, at, body, b.body);
    case Table(at, rows) => TableUnique(lines, at, rows, b.rows);
    case Prose(at, list, body) => ProseUnique(lines, at, list, body, b.body);
  }

  lemma {:induction false} FirstLine(lines: seq<string>, from: nat, to: nat, a: seq<Block>, b: seq<Block>)
    requires Covers(lines, from, to, a) && Covers(lines, from, to, b) && a != []
    ensures b != [] && b[0].line <= a[0].line
  {
    hide IsBlock, End;
    BlockEnds(lines, a[0]);
    assert !Blank(lines[a[0].line]) by { StartsFull(lines, a[0]); }
    hide Blank;
    assert Held(lines, b, a[0].line);
    var i :| 0 <= i < |b| && InSpan(lines, b[i], a[0].line);
    if i > 0 { BlockEnds(lines, b[0]); }
  }

  lemma {:induction false} StartsFull(lines: seq<string>, b: Block)
    requires IsBlock(lines, b)
    ensures b.line < |lines| && !Blank(lines[b.line])
  {}

  lemma {:induction false} CoversTail(lines: seq<string>, from: nat, to: nat, a: seq<Block>)
    requires Covers(lines, from, to, a) && a != []
    ensures Covers(lines, End(lines, a[0]), to, a[1..])
  {
    hide IsBlock, End, Blank;
    BlockEnds(lines, a[0]);
    var stop := End(lines, a[0]);
    assert forall i :: 0 <= i < |a| - 1 ==> a[1..][i] == a[i + 1];
    forall k | stop <= k < to && !Blank(lines[k]) ensures Held(lines, a[1..], k) {
      assert Held(lines, a, k);
      var i :| 0 <= i < |a| && InSpan(lines, a[i], k);
      assert InSpan(lines, a[1..][i - 1], k);
    }
  }

  lemma {:induction false} CoversUnique(lines: seq<string>, from: nat, to: nat, a: seq<Block>, b: seq<Block>)
    requires Covers(lines, from, to, a) && Covers(lines, from, to, b)
    ensures a == b
    decreases |a|
  {
    hide Covers, IsBlock, End;
    if a == [] {
      if b != [] { FirstLine(lines, from, to, b, a); }
    } else {
      FirstLine(lines, from, to, a, b);
      FirstLine(lines, from, to, b, a);
      FirstBlocks(lines, from, to, a);
      FirstBlocks(lines, from, to, b);
      BlockUnique(lines, a[0], b[0]);
      CoversTail(lines, from, to, a);
      CoversTail(lines, from, to, b);
      CoversUnique(lines, End(lines, a[0]), to, a[1..], b[1..]);
      assert [a[0]] + a[1..] == a && [b[0]] + b[1..] == b;
    }
  }

  lemma {:induction false} FirstBlocks(lines: seq<string>, from: nat, to: nat, a: seq<Block>)
    requires Covers(lines, from, to, a) && a != []
    ensures IsBlock(lines, a[0])
  {
    hide IsBlock, End, Blank;
  }

  /** A document has one reading only. */
  lemma {:induction false} PlanUnique(lines: seq<string>, a: seq<Block>, b: seq<Block>)
    requires IsPlan(lines, a) && IsPlan(lines, b)
    ensures a == b
  {
    hide Covers, Dashes;
    if closing: nat :| FrontMatterTo(lines, closing) {
      var c: nat :| FrontMatterTo(lines, c) && a != [] && a[0] == Code(0, lines[1..c], true) &&
        Covers(lines, c + 1, |lines|, a[1..]);
      var d: nat :| FrontMatterTo(lines, d) && b != [] && b[0] == Code(0, lines[1..d], true) &&
        Covers(lines, d + 1, |lines|, b[1..]);
      CoversUnique(lines, c + 1, |lines|, a[1..], b[1..]);
      assert [a[0]] + a[1..] == a && [b[0]] + b[1..] == b;
    } else {
      CoversUnique(lines, 0, |lines|, a, b);
    }
  }

  /** The blocks come in strictly increasing, separate spans, and each nonblank line is in exactly one. */
  lemma {:induction false} PlanPartition(lines: seq<string>, blocks: seq<Block>)
    requires IsPlan(lines, blocks)
    ensures forall i :: 0 <= i < |blocks| ==> blocks[i].line < End(lines, blocks[i]) <= |lines|
    ensures forall i, j :: 0 <= i < j < |blocks| ==> End(lines, blocks[i]) <= blocks[j].line
    ensures forall k :: 0 <= k < |lines| && !Blank(lines[k]) ==> Held(lines, blocks, k)
    ensures forall k, i, j ::
      0 <= i < |blocks| && 0 <= j < |blocks| && InSpan(lines, blocks[i], k) && InSpan(lines, blocks[j], k) ==> i == j
  {
    hide IsBlock, Blank, End, Dashes;
    if Covers(lines, 0, |lines|, blocks) {
      forall i | 0 <= i < |blocks| ensures blocks[i].line < End(lines, blocks[i]) <= |lines| {
        BlockEnds(lines, blocks[i]);
      }
    } else {
      var c: nat :| FrontMatterTo(lines, c) && blocks != [] && blocks[0] == Code(0, lines[1..c], true) &&
        Covers(lines, c + 1, |lines|, blocks[1..]);
      FrontMatterEnd(lines, c);
      assert forall i :: 0 < i < |blocks| ==> blocks[i] == blocks[1..][i - 1];
      forall i | 0 < i < |blocks| ensures blocks[i].line < End(lines, blocks[i]) <= |lines| {
        BlockEnds(lines, blocks[i]);
      }
      forall k | 0 <= k < |lines| && !Blank(lines[k]) ensures Held(lines, blocks, k) {
        if k <= c {
          assert InSpan(lines, blocks[0], k);
        } else {
          var i :| 0 <= i < |blocks[1..]| && InSpan(lines, blocks[1..][i], k);
          assert InSpan(lines, blocks[i + 1], k);
        }
      }
    }
  }

  lemma {:induction false} FrontMatterEnd(lines: seq<string>, closing: nat)
    requires 0 < closing < |lines|
    ensures End(lines, Code(0, lines[1..closing], true)) == closing + 1
  {}

  // ---------------------------------------------------------------- where a task is declared

  datatype Place = RowPlace | HeadingPlace | GraphPlace

  datatype Declaration = Declaration(line: nat, place: Place)

  /** Which row of a table a line of the document shows. Row 0 is the header; no row is behind the separator. */
  function TableRowAt(b: Block, line: int): Option<nat> {
    var row := line - b.line - 1;
    if b.Table? && row >= 1 && row < |b.rows| then Some(row) else None
  }

  predicate DeclaresRow(line: string, id: string) { StartsWith(Trim(line), "|") && CellsOf(line)[0] == id }

  predicate Loose(s: string, i: int) { i < 0 || i >= |s| || !(WordChar(s[i]) || s[i] == '-') }

  /** The id as a whole token: no word character or dash just before or after it. */
  predicate TokenIn(s: string, id: string) { exists p :: 0 <= p <= |s| - |id| && TokenAt(s, id, p) }

  predicate TokenAt(s: string, id: string, p: nat)
    requires p + |id| <= |s|
  {
    s[p..p + |id|] == id && Loose(s, p - 1) && Loose(s, p + |id|)
  }

  predicate DeclaresHeading(line: string, id: string) { HeadingOf(line).Some? && TokenIn(HeadingOf(line).value.1, id) }

  predicate FenceLine(line: string) { StartsWith(Trim(line), "```") || StartsWith(Trim(line), "~~~") }

  predicate GraphFence(line: string) {
    var t := Trim(line);
    FenceLine(line) && |t| >= 3 &&
      var info := TrimStart(t[3..]);
      StartsWith(info, "plan-graph") && (|info| == 10 || !WordChar(info[10]))
  }

  function Squeeze(s: string): string {
    if s == "" then "" else (if JsSpace(s[0]) then "" else [s[0]]) + Squeeze(s[1..])
  }

  predicate DeclaresNode(line: string, quoted: string) { StartsWith(Squeeze(Trim(line)), "\"id\":" + quoted) }

  /** Whether the graph block is open before a line: every fence flips it, and only its own opens it. */
  predicate GraphOpen(lines: seq<string>, at: nat)
    requires at <= |lines|
  {
    at > 0 &&
    if FenceLine(lines[at - 1]) then !GraphOpen(lines, at - 1) && GraphFence(lines[at - 1])
      else GraphOpen(lines, at - 1)
  }

  predicate DeclaresAt(lines: seq<string>, id: string, quoted: string, d: Declaration) {
    d.line < |lines| &&
    match d.place
    case RowPlace => DeclaresRow(lines[d.line], id)
    case HeadingPlace => DeclaresHeading(lines[d.line], id)
    case GraphPlace => !FenceLine(lines[d.line]) && GraphOpen(lines, d.line) && DeclaresNode(lines[d.line], quoted)
  }

  function Rank(p: Place): nat { match p case RowPlace => 0 case HeadingPlace => 1 case GraphPlace => 2 }

  /** Rows come before headings, headings before graph nodes, and earlier lines before later ones. */
  predicate Before(a: Declaration, b: Declaration) {
    Rank(a.place) < Rank(b.place) || (a.place == b.place && a.line < b.line)
  }

  /** Where a task is declared, if anywhere. `quoted` is its id in JSON quotes. */
  method TaskDeclaration(content: string, taskId: string, quoted: string) returns (d: Option<Declaration>)
    ensures var lines, id := SplitNewlines(content), Trim(taskId);
      && (d.None? ==> id == "" || forall e :: !DeclaresAt(lines, id, quoted, e))
      && (d.Some? ==> id != "" && DeclaresAt(lines, id, quoted, d.value)
                      && forall e :: DeclaresAt(lines, id, quoted, e) ==> !Before(e, d.value))
      // A heading only without a row, a node only without both, and of each the first.
      && (d.Some? && !d.value.place.RowPlace? ==> forall k :: 0 <= k < |lines| ==> !DeclaresRow(lines[k], id))
      && (d.Some? && d.value.place.GraphPlace? ==> forall k :: 0 <= k < |lines| ==> !DeclaresHeading(lines[k], id))
      && (d.Some? ==> forall k :: 0 <= k < d.value.line ==> !DeclaresAt(lines, id, quoted, d.value.(line := k)))
  {
    hide DeclaresRow, DeclaresHeading, DeclaresNode, FenceLine, GraphFence;
    var id := Trim(taskId);
    if id == "" { return None; }
    var lines := SplitNewlines(content);
    for line := 0 to |lines|
      invariant forall k :: 0 <= k < line ==> !DeclaresRow(lines[k], id)
    {
      if DeclaresRow(lines[line], id) { return Some(Declaration(line, RowPlace)); }
    }
    for line := 0 to |lines|
      invariant forall k :: 0 <= k < line ==> !DeclaresHeading(lines[k], id)
    {
      if DeclaresHeading(lines[line], id) { return Some(Declaration(line, HeadingPlace)); }
    }
    var graph := false;
    for line := 0 to |lines|
      invariant graph == GraphOpen(lines, line)
      invariant forall k :: 0 <= k < line ==> !DeclaresAt(lines, id, quoted, Declaration(k, GraphPlace))
    {
      if FenceLine(lines[line]) {
        graph := !graph && GraphFence(lines[line]);
      } else if graph && DeclaresNode(lines[line], quoted) {
        return Some(Declaration(line, GraphPlace));
      }
    }
    d := None;
  }

  /** The lines behind the separator of a table are its rows, from the first to the last, and no other line is. */
  lemma {:induction false} RowLines(b: Block, line: int)
    ensures TableRowAt(b, line).Some? <==> b.Table? && b.line + 2 <= line < b.line + 1 + |b.rows|
    ensures TableRowAt(b, line).Some? ==> TableRowAt(b, line).value == line - b.line - 1
  {}

  /** A row the target maps to is the cells of that very line, and no other block claims the line. */
  lemma {:induction false} RowIsLine(lines: seq<string>, blocks: seq<Block>, i: nat, line: int)
    requires IsPlan(lines, blocks) && i < |blocks| && TableRowAt(blocks[i], line).Some?
    ensures 0 <= line < |lines|
    ensures blocks[i].rows[TableRowAt(blocks[i], line).value] == CellsOf(lines[line])
    ensures forall j :: 0 <= j < |blocks| && j != i ==> TableRowAt(blocks[j], line).None?
  {
    hide Blank, CellsOf, TableAt, HasBar, HeadingOf, OpensFence, Dashes;
    PlanPartition(lines, blocks);
    var b := blocks[i];
    assert IsBlock(lines, b) by { hide IsBlock; PlanHolds(lines, blocks, i); }
    assert InSpan(lines, b, line);
    forall j | 0 <= j < |blocks| && j != i ensures TableRowAt(blocks[j], line).None? { }
  }

  lemma {:induction false} PlanHolds(lines: seq<string>, blocks: seq<Block>, i: nat)
    requires IsPlan(lines, blocks) && i < |blocks| && blocks[i].Table?
    ensures IsBlock(lines, blocks[i])
  {
    hide IsBlock, Blank, End, Dashes;
    if !Covers(lines, 0, |lines|, blocks) {
      assert i > 0 && blocks[i] == blocks[1..][i - 1];
    }
  }

  /** The row shown for a task declared in a table has that id in its first cell. */
  lemma {:induction false} TargetRow(lines: seq<string>, blocks: seq<Block>, i: nat, id: string, quoted: string,
        d: Declaration)
    requires IsPlan(lines, blocks) && i < |blocks| && DeclaresAt(lines, id, quoted, d) && d.place == RowPlace
    requires TableRowAt(blocks[i], d.line).Some?
    ensures var row := blocks[i].rows[TableRowAt(blocks[i], d.line).value];
      row == CellsOf(lines[d.line]) && row[0] == id
  {
    hide IsPlan, CellsOf;
    RowIsLine(lines, blocks, i, d.line);
  }
}

/** The line patterns of the plan document, each as the texts it fits: what the reader's scanners find is exactly
    what the regular expressions describe. */
module PlanForms {
  import opened Text
  import opened JsText
  import opened TableCells
  import opened PlanBlocks

  lemma {:induction false} BlankForm(line: string)
    ensures Blank(line) <==> AllSpace(line)
  {
    var pad, tail := TrimParts(line);
    if Blank(line) { assert line == pad + tail; }
    if AllSpace(line) { TrimOf(line, "", ""); assert line + "" + "" == line; }
  }

  /** Three dashes with space around. */
  lemma {:induction false} DashesForm(line: string)
    ensures Dashes(line) <==> exists pad, tail :: AllSpace(pad) && AllSpace(tail) && line == pad + "---" + tail
  {
    var pad, tail := TrimParts(line);
    if exists pad, tail :: AllSpace(pad) && AllSpace(tail) && line == pad + "---" + tail {
      var pad, tail :| AllSpace(pad) && AllSpace(tail) && line == pad + "---" + tail;
      TrimOf(pad, "---", tail);
    }
  }

  // ---------------------------------------------------------------- fences

  predicate FenceMark(mark: string) { mark == "```" || mark == "~~~" }

  /** Space, the mark, anything. */
  predicate Marked(line: string, pad: string, mark: string, rest: string) {
    AllSpace(pad) && line == pad + mark + rest
  }

  lemma {:induction false} StartOf(line: string, mark: string)
    requires FenceMark(mark)
    ensures StartsWith(TrimStart(line), mark) <==> exists pad, rest :: Marked(line, pad, mark, rest)
  {
    var n := SpaceRun(line);
    if StartsWith(TrimStart(line), mark) {
      assert line == line[..n] + mark + line[n + 3..];
      assert Marked(line, line[..n], mark, line[n + 3..]);
    }
    if exists pad, rest :: Marked(line, pad, mark, rest) {
      var pad, rest :| Marked(line, pad, mark, rest);
      assert line == pad + (mark + rest) && !JsSpace(mark[0]) && (mark + rest)[0] == mark[0];
      TrimStartOf(pad, mark + rest);
    }
  }

  /** Trimming the end too makes no difference to a mark at the start. */
  lemma {:induction false} TrimStarts(line: string, mark: string)
    requires FenceMark(mark)
    ensures StartsWith(Trim(line), mark) <==> exists pad, rest :: Marked(line, pad, mark, rest)
  {
    hide Trim, Marked;
    if StartsWith(Trim(line), mark) { TrimMarked(line, mark); }
    if exists pad, rest :: Marked(line, pad, mark, rest) {
      var pad, rest :| Marked(line, pad, mark, rest);
      MarkedTrim(line, pad, mark, rest);
    }
  }

  lemma {:induction false} TrimMarked(line: string, mark: string)
    requires FenceMark(mark) && StartsWith(Trim(line), mark)
    ensures exists pad, rest :: Marked(line, pad, mark, rest)
  {
    hide Trim;
    var pad, tail := TrimParts(line);
    var t := Trim(line);
    assert t == mark + t[3..];
    assert line == pad + mark + (t[3..] + tail);
    assert Marked(line, pad, mark, t[3..] + tail);
  }

  lemma {:induction false} MarkedTrim(line: string, pad: string, mark: string, rest: string)
    requires FenceMark(mark) && Marked(line, pad, mark, rest)
    ensures StartsWith(Trim(line), mark)
  {
    hide Trim, TrimEnd;
    var end := EndSpace(rest);
    var more := TrimEnd(rest);
    var t := mark + more;
    assert t[0] == mark[0] && t[|t| - 1] == if more == "" then mark[2] else more[|more| - 1];
    assert line == pad + t + end;
    TrimOf(pad, t, end);
  }

  /** A fence is space, three backticks or three tildes, and anything; it opens a code block or ends one. */
  lemma {:induction false} FenceForm(line: string)
    ensures OpensFence(line) <==> exists pad, mark, rest :: FenceMark(mark) && Marked(line, pad, mark, rest)
    ensures FenceLine(line) <==> OpensFence(line)
  {
    hide Trim, TrimStart, StartsWith, Marked;
    StartOf(line, "```");
    StartOf(line, "~~~");
    TrimStarts(line, "```");
    TrimStarts(line, "~~~");
    if exists pad, mark, rest :: FenceMark(mark) && Marked(line, pad, mark, rest) {
      var pad, mark, rest :| FenceMark(mark) && Marked(line, pad, mark, rest);
      assert mark == "```" || mark == "~~~";
    }
    if OpensFence(line) {
      var mark := if StartsWith(TrimStart(line), "```") then "```" else "~~~";
      var pad, rest :| Marked(line, pad, mark, rest);
      assert FenceMark(mark) && Marked(line, pad, mark, rest);
    }
  }

  /** The code block that a fence opens is closed by a line with the same mark, whatever follows it. */
  lemma {:induction false} ClosingForm(opening: string, pad: string, mark: string, rest: string, line: string)
    requires FenceMark(mark) && Marked(opening, pad, mark, rest)
    ensures Fence(opening) == mark
    ensures Closes(opening, line) <==> exists p, r :: Marked(line, p, mark, r)
  {
    TrimStarts(opening, mark);
    TrimStarts(line, mark);
    assert StartsWith(Trim(opening), mark);
  }

  // ---------------------------------------------------------------- list items

  predicate AllDigits(s: string) { s != "" && forall i :: 0 <= i < |s| ==> '0' <= s[i] <= '9' }

  predicate Bullet(mark: string) {
    mark == "-" || mark == "*" || mark == "+" ||
    (mark != "" && mark[|mark| - 1] in ".)" && AllDigits(mark[..|mark| - 1]))
  }

  predicate ItemParts(line: string, pad: string, mark: string, space: char, rest: string) {
    AllSpace(pad) && Bullet(mark) && JsSpace(space) && line == pad + mark + [space] + rest
  }

  lemma {:induction false} DigitRunOf(digits: string, rest: string)
    requires (digits == "" || AllDigits(digits)) && (rest == "" || !('0' <= rest[0] <= '9'))
    ensures DigitRun(digits + rest) == |digits|
    decreases |digits|
  {
    if digits == "" {
      assert digits + rest == rest;
    } else {
      assert (digits + rest)[1..] == digits[1..] + rest;
      DigitRunOf(digits[1..], rest);
    }
  }

  lemma {:induction false} DigitRunDigits(s: string)
    ensures forall i :: 0 <= i < DigitRun(s) ==> '0' <= s[i] <= '9'
    decreases |s|
  {
    if s != "" && '0' <= s[0] <= '9' {
      DigitRunDigits(s[1..]);
      assert forall i :: 0 < i < DigitRun(s) ==> s[i] == s[1..][i - 1];
    }
  }

  /** A list item is space, a bullet or a number with a dot or a parenthesis, and space behind it. */
  lemma {:induction false} ItemForm(line: string)
    ensures IsItem(line) <==> exists pad, mark, space, rest :: ItemParts(line, pad, mark, space, rest)
  {
    if IsItem(line) { ItemFound(line); }
    if exists pad, mark, space, rest :: ItemParts(line, pad, mark, space, rest) {
      var pad, mark, space, rest :| ItemParts(line, pad, mark, space, rest);
      ItemFits(line, pad, mark, space, rest);
    }
  }

  lemma {:induction false} ItemFits(line: string, pad: string, mark: string, space: char, rest: string)
    requires ItemParts(line, pad, mark, space, rest)
    ensures IsItem(line)
  {
    var t := mark + [space] + rest;
    assert line == pad + t;
    assert t[0] == mark[0] && t[|mark|] == space;
    TrimStartOf(pad, t);
    if mark != "-" && mark != "*" && mark != "+" {
      var digits := mark[..|mark| - 1];
      assert t == digits + ([mark[|mark| - 1]] + [space] + rest);
      DigitRunOf(digits, [mark[|mark| - 1]] + [space] + rest);
      assert t[|digits|] == mark[|mark| - 1];
    }
  }

  lemma {:induction false} ItemFound(line: string)
    requires IsItem(line)
    ensures exists pad, mark, space, rest :: ItemParts(line, pad, mark, space, rest)
  {
    hide DigitRun, Bullet, AllSpace;
    var pad, t := line[..SpaceRun(line)], TrimStart(line);
    var m := MarkFound(t);
    assert t == t[..m] + [t[m]] + t[m + 1..];
    assert line == pad + t;
    assert line == pad + t[..m] + [t[m]] + t[m + 1..];
    PadSpace(line);
    assert ItemParts(line, pad, t[..m], t[m], t[m + 1..]);
  }

  lemma {:induction false} PadSpace(line: string)
    ensures AllSpace(line[..SpaceRun(line)])
  {}

  lemma {:induction false} MarkFound(t: string) returns (m: nat)
    requires var n := DigitRun(t);
      || (|t| > 1 && (t[0] == '-' || t[0] == '*' || t[0] == '+') && JsSpace(t[1]))
      || (0 < n && n + 1 < |t| && (t[n] == '.' || t[n] == ')') && JsSpace(t[n + 1]))
    ensures m < |t| && Bullet(t[..m]) && JsSpace(t[m])
  {
    var n := DigitRun(t);
    if |t| > 1 && (t[0] == '-' || t[0] == '*' || t[0] == '+') && JsSpace(t[1]) {
      m := 1;
      assert t[..1] == [t[0]];
    } else {
      m := n + 1;
      DigitRunDigits(t);
      assert t[..m][..n] == t[..n];
    }
  }

  // ---------------------------------------------------------------- table rules

  function Repeat(c: char, n: nat): (s: string)
    ensures |s| == n && forall i :: 0 <= i < n ==> s[i] == c
  {
    seq(n, _ => c)
  }

  predicate RuleParts(cell: string, left: bool, n: nat, right: bool) {
    n >= 3 && cell == (if left then ":" else "") + Repeat('-', n) + (if right then ":" else "")
  }

  /** A rule is three dashes or more, with a colon at either end or not. */
  lemma {:induction false} RuleForm(cell: string)
    ensures Rule(cell) <==> exists left, n: nat, right :: RuleParts(cell, left, n, right)
  {
    hide Rule, RuleParts;
    if Rule(cell) { RuleFound(cell); }
    if exists left, n: nat, right :: RuleParts(cell, left, n, right) {
      var left, n: nat, right :| RuleParts(cell, left, n, right);
      RuleFits(cell, left, n, right);
    }
  }

  ghost predicate RuleCell(cell: string) { exists left, n: nat, right :: RuleParts(cell, left, n, right) }

  /** A written row separates a table's header exactly when each of its cells is a rule; an empty line does not. */
  lemma {:induction false} SeparatorForm(row: seq<string>)
    requires row != [] && NeatCells(row)
    ensures Separator(TableLine(row)) <==> forall i :: 0 <= i < |row| ==> RuleCell(row[i])
    ensures !Separator("")
  {
    hide Rule, RuleParts, CellsOf, TableLine;
    CellsRoundTrip(row);
    forall i | 0 <= i < |row| ensures Rule(row[i]) <==> RuleCell(row[i]) { RuleForm(row[i]); }
    assert TableLine(row) != "" by { LineText(row); }
  }

  lemma {:induction false} LineText(row: seq<string>)
    requires row != []
    ensures TableLine(row) != ""
  {}

  lemma {:induction false} RuleFound(cell: string)
    requires Rule(cell)
    ensures exists left, n: nat, right :: RuleParts(cell, left, n, right)
  {
    hide RunLength;
    var left := cell != "" && cell[0] == ':';
    var start := if left then 1 else 0;
    var n := RunLength(cell[start..], '-');
    var right := start + n < |cell|;
    assert forall i :: 0 <= i < n ==> cell[start..][i] == cell[start + i];
    assert cell[start..start + n] == Repeat('-', n);
    assert cell == cell[..start] + cell[start..start + n] + cell[start + n..];
    assert cell[..start] == if left then ":" else "";
    assert cell[start + n..] == if right then ":" else "";
    assert RuleParts(cell, left, n, right);
  }

  lemma {:induction false} RuleFits(cell: string, left: bool, n: nat, right: bool)
    requires RuleParts(cell, left, n, right)
    ensures Rule(cell)
  {
    hide RunLength;
    var start := if left then 1 else 0;
    var tail := if right then ":" else "";
    assert cell[start..] == Repeat('-', n) + tail;
    RunOf('-', n, tail);
    assert cell[0] == if left then ':' else '-';
    assert right ==> cell[start + n] == ':';
  }

  lemma {:induction false} RunOf(c: char, n: nat, rest: string)
    requires rest == "" || rest[0] != c
    ensures RunLength(Repeat(c, n) + rest, c) == n
  {
    var s := Repeat(c, n) + rest;
    assert forall i :: 0 <= i < n ==> s[i] == c;
    assert rest != "" ==> s[n] == rest[0];
  }

  // ---------------------------------------------------------------- tokens and graph nodes

  /** Neither a letter, a digit, an underscore nor a dash. */
  predicate Apart(c: char) { !('a' <= c <= 'z') && !('A' <= c <= 'Z') && !('0' <= c <= '9') && c != '_' && c != '-' }

  predicate TokenParts(s: string, before: string, id: string, after: string) {
    && s == before + id + after
    && (before == "" || Apart(before[|before| - 1])) && (after == "" || Apart(after[0]))
  }

  /** An id is in a title when it stands there with no word character and no dash on either side. */
  lemma {:induction false} TokenForm(s: string, id: string)
    ensures TokenIn(s, id) <==> exists before, after :: TokenParts(s, before, id, after)
  {
    hide TokenIn, TokenParts;
    if TokenIn(s, id) { TokenFound(s, id); }
    if exists before, after :: TokenParts(s, before, id, after) {
      var before, after :| TokenParts(s, before, id, after);
      TokenFits(s, before, id, after);
    }
  }

  lemma {:induction false} TokenFound(s: string, id: string)
    requires TokenIn(s, id)
    ensures exists before, after :: TokenParts(s, before, id, after)
  {
    var p :| 0 <= p <= |s| - |id| && TokenAt(s, id, p);
    var before, after := s[..p], s[p + |id|..];
    assert s == before + id + after;
    assert TokenParts(s, before, id, after);
  }

  lemma {:induction false} TokenFits(s: string, before: string, id: string, after: string)
    requires TokenParts(s, before, id, after)
    ensures TokenIn(s, id)
  {
    assert s[|before|..|before| + |id|] == id;
    assert before != "" ==> s[|before| - 1] == before[|before| - 1];
    assert after != "" ==> s[|before| + |id|] == after[0];
    assert TokenAt(s, id, |before|);
  }

  predicate GraphParts(line: string, pad: string, mark: string, gap: string, rest: string) {
    && FenceMark(mark) && AllSpace(pad) && AllSpace(gap) && line == pad + mark + gap + "plan-graph" + rest
    && (rest == "" || !WordChar(rest[0]))
  }

  /** The fence of the graph: a mark, space or none, and the word, which no word character follows. */
  lemma {:induction false} GraphForm(line: string)
    ensures GraphFence(line) <==> exists pad, mark, gap, rest :: GraphParts(line, pad, mark, gap, rest)
  {
    if GraphFence(line) { GraphFound(line); }
    if exists pad, mark, gap, rest :: GraphParts(line, pad, mark, gap, rest) {
      var pad, mark, gap, rest :| GraphParts(line, pad, mark, gap, rest);
      GraphFits(line, pad, mark, gap, rest);
    }
  }

  lemma {:induction false} GraphFound(line: string)
    requires GraphFence(line)
    ensures exists pad, mark, gap, rest :: GraphParts(line, pad, mark, gap, rest)
  {
    hide Trim;
    var pad, tail := TrimParts(line);
    var t := Trim(line);
    var mark, more := t[..3], t[3..];
    var n := SpaceRun(more);
    var gap, info := more[..n], TrimStart(more);
    var rest := info[10..] + tail;
    assert info == "plan-graph" + info[10..];
    assert line == pad + mark + gap + "plan-graph" + rest;
    assert rest != "" ==> rest[0] == if info[10..] == "" then tail[0] else info[10];
    assert GraphParts(line, pad, mark, gap, rest);
  }

  lemma {:induction false} GraphFits(line: string, pad: string, mark: string, gap: string, rest: string)
    requires GraphParts(line, pad, mark, gap, rest)
    ensures GraphFence(line)
  {
    hide Trim, TrimEnd, AllSpace, WordChar;
    var end := EndSpace(rest);
    var more := TrimEnd(rest);
    var word := "plan-graph" + more;
    var t := mark + gap + word;
    GraphNeat(mark, gap, more);
    assert line == pad + t + end;
    TrimOf(pad, t, end);
    assert t[..3] == mark && t[3..] == gap + word && word[0] == 'p';
    TrimStartOf(gap, word);
    hide TrimStart;
    assert word[..10] == "plan-graph" && (more != "" ==> word[10] == more[0] == rest[0]);
    assert FenceLine(line);
  }

  lemma {:induction false} GraphNeat(mark: string, gap: string, more: string)
    requires FenceMark(mark) && (more == "" || !JsSpace(more[|more| - 1]))
    ensures Neat(mark + gap + ("plan-graph" + more))
  {
    var t := mark + gap + ("plan-graph" + more);
    assert t[0] == mark[0] && t[|t| - 1] == if more == "" then 'h' else more[|more| - 1];
  }

  /** What a graph node is compared with is the line without its white space: concatenation keeps it, one space is
      dropped and any other character kept. */
  lemma {:induction false} SqueezeForm(a: string, c: char, b: string)
    ensures Squeeze(a + [c] + b) == Squeeze(a) + (if JsSpace(c) then "" else [c]) + Squeeze(b)
    ensures Squeeze("") == ""
  {
    SqueezeParts(a + [c], b);
    SqueezeParts(a, [c]);
    SqueezeOne(c);
  }

  lemma {:induction false} SqueezeParts(a: string, b: string)
    ensures Squeeze(a + b) == Squeeze(a) + Squeeze(b)
    decreases |a|
  {
    if a == "" {
      assert a + b == b;
    } else {
      assert (a + b)[1..] == a[1..] + b;
      SqueezeParts(a[1..], b);
    }
  }

  lemma {:induction false} SqueezeOne(c: char)
    ensures Squeeze([c]) == if JsSpace(c) then "" else [c]
  {
    assert [c][1..] == "" && Squeeze("") == "";
  }

  lemma {:induction false} SqueezeNoSpace(s: string)
    ensures forall i :: 0 <= i < |Squeeze(s)| ==> !JsSpace(Squeeze(s)[i])
    decreases |s|
  {
    if s != "" { SqueezeNoSpace(s[1..]); }
  }

  /** The node of an id that holds white space is never found: the line is compared without any. */
  lemma {:induction false} SpacedIdNotFound(line: string, quoted: string, i: nat)
    requires i < |quoted| && JsSpace(quoted[i])
    ensures !DeclaresNode(line, quoted)
  {
    SqueezeNoSpace(Trim(line));
    var s, node := Squeeze(Trim(line)), "\"id\":" + quoted;
    assert node[5 + i] == quoted[i];
    assert |node| <= |s| ==> s[..|node|][5 + i] == s[5 + i];
  }

  // ---------------------------------------------------------------- where a paragraph or a list ends

  /** A line that ends a paragraph or a list: an empty one, a heading, a fence, a line with a bar, or one of the other
      kind. */
  predicate Breaks(list: bool, line: string) {
    AllSpace(line) || HeadingOf(line).Some? || OpensFence(line) || '|' in line || (list && !IsItem(line)) ||
    (!list && IsItem(line))
  }

  /** A paragraph or a list goes on to the first such line after its first, and no further. */
  lemma {:induction false} ProseEnds(lines: seq<string>, blocks: seq<Block>, i: nat)
    requires IsPlan(lines, blocks) && i < |blocks| && blocks[i].Prose?
    ensures var b := blocks[i];
      && b.line + |b.body| <= |lines| && b.body == lines[b.line..b.line + |b.body|] && b.body != []
      && (forall k :: b.line < k < b.line + |b.body| ==> !Breaks(b.list, lines[k]))
      && (b.line + |b.body| < |lines| ==> Breaks(b.list, lines[b.line + |b.body|]))
  {
    hide HeadingOf, OpensFence, IsItem, Blank, TableAt;
    BlockInPlan(lines, blocks, i);
    var b := blocks[i];
    forall k | b.line < k <= b.line + |b.body| && k < |lines|
      ensures Continues(b.list, lines[k]) <==> !Breaks(b.list, lines[k])
    {
      BlankForm(lines[k]);
    }
  }

  lemma {:induction false} BlockInPlan(lines: seq<string>, blocks: seq<Block>, i: nat)
    requires IsPlan(lines, blocks) && i < |blocks| && blocks[i].Prose?
    ensures IsBlock(lines, blocks[i])
  {
    hide IsBlock, Blank, End, Dashes;
    if !Covers(lines, 0, |lines|, blocks) {
      assert i > 0 && blocks[i] == blocks[1..][i - 1];
    }
  }
}

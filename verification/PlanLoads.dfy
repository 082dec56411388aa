/** What the loader of a plan finds, told without its scanners: fences, headings, the section, front matter and
    table as the texts they are, and the loader's answer from them. */
module PlanLoads {
  import opened Lists
  import opened Text
  import opened TextLines
  import opened PlanMarkdown
  import opened PlanSync
  import opened PlanParts
  import JsText
  import PlanRewrite

  // ---------------------------------------------------------------- fences

  /** The same character `n` times. */
  function Run(c: char, n: nat): (s: string)
    ensures |s| == n && forall i :: 0 <= i < n ==> s[i] == c
  {
    seq(n, _ => c)
  }

  /** At most three blanks, three or more backticks or tildes, and a rest that does not go on with them. */
  predicate Opener(line: string, blanks: nat, mark: char, length: nat, rest: string) {
    && blanks <= 3 && (mark == '`' || mark == '~') && length >= 3
    && (rest == "" || rest[0] != mark) && line == Spaces(blanks) + Run(mark, length) + rest
  }

  /** At most three blanks, enough of the marks, and space. */
  predicate Closer(fence: Fence, line: string, blanks: nat, length: nat, rest: string) {
    && blanks <= 3 && length >= fence.length && AllWhite(rest)
    && line == Spaces(blanks) + Run(fence.mark, length) + rest
  }

  lemma {:induction false} RunOf(s: string, c: char, n: nat, rest: string)
    requires s == Run(c, n) + rest && (rest == "" || rest[0] != c)
    ensures RunLength(s, c) == n && s[n..] == rest
  {
    assert forall i :: 0 <= i < n ==> s[i] == c;
    assert rest != "" ==> s[n] == rest[0];
  }

  lemma {:induction false} RunPart(s: string, c: char)
    ensures s == Run(c, RunLength(s, c)) + s[RunLength(s, c)..]
  {}

  lemma {:induction false} BlanksOf(line: string, n: nat, rest: string)
    requires line == Spaces(n) + rest && rest != "" && rest[0] != ' '
    ensures LeadingBlanks(line) == n && line[n..] == rest
  {
    assert forall i :: 0 <= i < n ==> line[i] == ' ';
    assert line[n] == rest[0];
  }

  /** A line opens a fence exactly in that form, and the fence has its marks and the trimmed rest. */
  lemma {:induction false} OpeningForm(line: string)
    ensures OpeningFence(line).Some? <==>
            exists blanks, mark, length, rest :: Opener(line, blanks, mark, length, rest)
    ensures forall blanks, mark, length, rest :: Opener(line, blanks, mark, length, rest) ==>
              OpeningFence(line) == Some(Fence(mark, length, Strip(rest)))
  {
    hide Strip, OpeningFence, Opener;
    forall blanks, mark, length, rest | Opener(line, blanks, mark, length, rest)
      ensures OpeningFence(line) == Some(Fence(mark, length, Strip(rest)))
    {
      OpenerFound(line, blanks, mark, length, rest);
    }
    if OpeningFence(line).Some? { OpenerOf(line); }
  }

  lemma {:induction false} OpenerOf(line: string)
    requires OpeningFence(line).Some?
    ensures exists blanks, mark, length, rest :: Opener(line, blanks, mark, length, rest)
  {
    hide Strip;
    var blanks := LeadingBlanks(line);
    var rest := line[blanks..];
    RunPart(rest, rest[0]);
    var n := RunLength(rest, rest[0]);
    assert line == Spaces(blanks) + Run(rest[0], n) + rest[n..];
    assert Opener(line, blanks, rest[0], n, rest[n..]);
  }

  lemma {:induction false} OpenerFound(line: string, blanks: nat, mark: char, length: nat, rest: string)
    requires Opener(line, blanks, mark, length, rest)
    ensures OpeningFence(line) == Some(Fence(mark, length, Strip(rest)))
  {
    hide Strip;
    var s := Run(mark, length) + rest;
    assert s[0] == mark && line == Spaces(blanks) + s;
    BlanksOf(line, blanks, s);
    RunOf(s, mark, length, rest);
  }

  /** A line closes a fence of backticks or tildes exactly in that form. */
  lemma {:induction false} ClosingForm(fence: Fence, line: string)
    requires (fence.mark == '`' || fence.mark == '~') && fence.length >= 1
    ensures Closes(fence, line) <==> exists blanks, length, rest :: Closer(fence, line, blanks, length, rest)
  {
    hide Strip;
    if Closes(fence, line) { CloserOf(fence, line); }
    if exists blanks, length, rest :: Closer(fence, line, blanks, length, rest) {
      var blanks, length, rest :| Closer(fence, line, blanks, length, rest);
      CloserFound(fence, line, blanks, length, rest);
    }
  }

  lemma {:induction false} CloserOf(fence: Fence, line: string)
    requires Closes(fence, line)
    ensures exists blanks, length, rest :: Closer(fence, line, blanks, length, rest)
  {
    var blanks := LeadingBlanks(line);
    var s := line[blanks..];
    var n := RunLength(s, fence.mark);
    RunPart(s, fence.mark);
    StripEmpty(s[n..]);
    assert line == Spaces(blanks) + Run(fence.mark, n) + s[n..];
    assert Closer(fence, line, blanks, n, s[n..]);
  }

  lemma {:induction false} CloserFound(fence: Fence, line: string, blanks: nat, length: nat, rest: string)
    requires (fence.mark == '`' || fence.mark == '~') && fence.length >= 1
    requires Closer(fence, line, blanks, length, rest)
    ensures Closes(fence, line)
  {
    var s := Run(fence.mark, length) + rest;
    assert line == Spaces(blanks) + s && s[0] == fence.mark;
    BlanksOf(line, blanks, s);
    assert rest == "" || rest[0] != fence.mark by { assert rest != "" ==> IsSpace(rest[0]); }
    RunOf(s, fence.mark, length, rest);
    StripPadded(rest, "", "");
    assert rest + "" + "" == rest;
  }

  lemma {:induction false} StripEmpty(s: string)
    requires Strip(s) == ""
    ensures AllWhite(s)
  {
    RStripPrefix(s);
    var r := RStrip(s);
    if r != "" { LStripLast(r); }
  }

  lemma {:induction false} LStripLast(s: string)
    requires s != "" && !IsSpace(s[|s| - 1])
    ensures LStrip(s) != ""
    decreases |s|
  {
    if IsSpace(s[0]) { LStripLast(s[1..]); }
  }

  // ---------------------------------------------------------------- the section

  /** A heading of level one to three: its marks, a blank, anything. */
  predicate Heading(line: string, level: nat, rest: string) {
    1 <= level <= 3 && line == Run('#', level) + " " + rest
  }

  lemma {:induction false} HeadingForm(line: string)
    ensures EndsSection(line) <==> exists level, rest :: Heading(line, level, rest)
  {
    if EndsSection(line) {
      var n := RunLength(line, '#');
      RunPart(line, '#');
      assert line == Run('#', n) + " " + line[n + 1..];
      assert Heading(line, n, line[n + 1..]);
    }
    if exists level, rest :: Heading(line, level, rest) {
      var level, rest :| Heading(line, level, rest);
      RunOf(line, '#', level, " " + rest);
    }
  }

  /** From the line after the heading to the next heading of level one to three, or the end. */
  predicate Section(lines: seq<string>, h: nat, end: nat) {
    && h < end <= |lines| && (forall k :: h < k < end ==> !EndsSection(lines[k]))
    && (end < |lines| ==> EndsSection(lines[end]))
  }

  lemma {:induction false} SectionFound(lines: seq<string>, h: nat)
    requires h < |lines|
    ensures Section(lines, h, SectionEnd(lines, h + 1))
    ensures forall end: nat :: Section(lines, h, end) ==> end == SectionEnd(lines, h + 1)
  {
    hide EndsSection;
    SectionBounds(lines, h + 1);
  }

  // ---------------------------------------------------------------- the graph

  /** The block at `k` is the only one with that info string. */
  predicate OnlyGraph(blocks: seq<FencedBlock>, k: nat) {
    k < |blocks| && forall j :: 0 <= j < |blocks| ==> (blocks[j].info == "plan-graph" <==> j == k)
  }

  lemma {:induction false} GraphsNone(blocks: seq<FencedBlock>)
    ensures PlanGraphs(blocks) == [] <==> forall j :: 0 <= j < |blocks| ==> blocks[j].info != "plan-graph"
    decreases |blocks|
  {
    if blocks != [] {
      GraphsNone(blocks[1..]);
      assert blocks == [blocks[0]] + blocks[1..];
    }
  }

  lemma {:induction false} GraphFound(blocks: seq<FencedBlock>)
    ensures |PlanGraphs(blocks)| == 1 <==> exists k: nat :: OnlyGraph(blocks, k)
    ensures forall k: nat :: OnlyGraph(blocks, k) ==> PlanGraphs(blocks) == [blocks[k]]
    decreases |blocks|
  {
    if |PlanGraphs(blocks)| == 1 { GraphOnly(blocks); }
    forall k: nat | OnlyGraph(blocks, k) ensures PlanGraphs(blocks) == [blocks[k]] { OnlyFound(blocks, k); }
  }

  lemma {:induction false} GraphOnly(blocks: seq<FencedBlock>)
    requires |PlanGraphs(blocks)| == 1
    ensures exists k: nat :: OnlyGraph(blocks, k)
    decreases |blocks|
  {
    assert blocks == [blocks[0]] + blocks[1..];
    if blocks[0].info == "plan-graph" {
      GraphsNone(blocks[1..]);
      assert forall j :: 1 <= j < |blocks| ==> blocks[j] == blocks[1..][j - 1];
      assert OnlyGraph(blocks, 0);
    } else {
      GraphOnly(blocks[1..]);
      var k: nat :| OnlyGraph(blocks[1..], k);
      assert forall j :: 1 <= j < |blocks| ==> blocks[j] == blocks[1..][j - 1];
      assert OnlyGraph(blocks, k + 1);
    }
  }

  lemma {:induction false} OnlyFound(blocks: seq<FencedBlock>, k: nat)
    requires OnlyGraph(blocks, k)
    ensures PlanGraphs(blocks) == [blocks[k]]
    decreases |blocks|
  {
    assert forall j :: 0 <= j < |blocks[1..]| ==> blocks[1..][j] == blocks[j + 1];
    if k == 0 {
      GraphsNone(blocks[1..]);
    } else {
      OnlyFound(blocks[1..], k - 1);
    }
  }

  // ---------------------------------------------------------------- what loading answers

  /** The answer for one heading, its section and one graph. */
  function Answer(text: string, c: Checks, visible: string, h: nat, end: nat, graph: FencedBlock): PlanResult<Loaded>
    requires h < end <= |SplitLines(visible)|
  {
    if !(h + 1 < graph.line < end + 1) then Err(OutsideSection)
    else
      match c.decode(Join("\n", graph.body))
      case None => Err(NotJson)
      case Some(document) =>
        if !Admitted(c, text, visible, document) then Err(NotAdmitted)
        else
          match c.validate(document)
          case None => Err(GraphRefused)
          case Some(waves) => Ok(Loaded(document, waves, SplitLines(visible)[h + 1..end]))
  }

  /** The first that fails of: closed fences, one heading, one graph, and the checks of that graph. */
  lemma {:induction false} LoadExactly(text: string, c: Checks)
    ensures LoadBase(text, c) == Err(UnclosedFence) <==>
            forall blocks, shown :: !Partition(SplitLines(text), blocks, shown)
    ensures forall blocks, shown :: Partition(SplitLines(text), blocks, shown) ==>
              Answers(text, c, blocks, Join("\n", shown))
  {
    hide LoadBase, Partition, Answers;
    Unclosed(text, c);
    MarkdownPartition(SplitLines(text));
    forall blocks, shown | Partition(SplitLines(text), blocks, shown)
      ensures Answers(text, c, blocks, Join("\n", shown)) && LoadBase(text, c) != Err(UnclosedFence)
    {
      PartitionUnique(SplitLines(text), blocks, shown);
      LoadAnswers(text, c, blocks, shown);
    }
  }

  ghost predicate Answers(text: string, c: Checks, blocks: seq<FencedBlock>, visible: string) {
    var lines := SplitLines(visible);
    && (LoadBase(text, c) == Err(SectionHeading) <==> forall h: nat :: !OneHeading(lines, h))
    && (LoadBase(text, c) == Err(PlanGraphFences) <==>
        (exists h: nat :: OneHeading(lines, h)) && forall k: nat :: !OnlyGraph(blocks, k))
    && forall h: nat, end: nat, k: nat :: OneHeading(lines, h) && Section(lines, h, end) && OnlyGraph(blocks, k) ==>
         LoadBase(text, c) == Answer(text, c, visible, h, end, blocks[k])
  }

  lemma {:induction false} Unclosed(text: string, c: Checks)
    ensures LoadBase(text, c) == Err(UnclosedFence) <==> ReadAll(SplitLines(text)).open.Some?
  {
    if ReadAll(SplitLines(text)).open.None? { assert LoadBase(text, c) != Err(UnclosedFence); }
  }

  lemma {:induction false} LoadAnswers(text: string, c: Checks, blocks: seq<FencedBlock>, shown: seq<string>)
    requires ReadAll(SplitLines(text)) == Reading(blocks, shown, None, [], 0)
    ensures Answers(text, c, blocks, Join("\n", shown))
  {
    hide ReadAll, SplitLines, SectionEnd, PlanGraphs, HeadingsFrom, OneHeading, OnlyGraph, Admitted;
    var visible := Join("\n", shown);
    var lines := SplitLines(visible);
    var headings, graphs := HeadingsFrom(lines, 0), PlanGraphs(blocks);
    GraphFound(blocks);
    HeadingCount(lines);
    assert headings != [] ==> headings[0] in headings;
    if |headings| != 1 {
      assert LoadBase(text, c) == Err(SectionHeading);
    } else if |graphs| != 1 {
      assert LoadBase(text, c) == Err(PlanGraphFences);
    } else {
      var h := headings[0];
      SectionFound(lines, h);
      assert LoadBase(text, c) == Answer(text, c, visible, h, SectionEnd(lines, h + 1), graphs[0]);
      OneAnswer(text, c, blocks, visible, h);
    }
  }

  lemma {:induction false} OneAnswer(text: string, c: Checks, blocks: seq<FencedBlock>, visible: string, h: nat)
    requires HeadingsFrom(SplitLines(visible), 0) == [h] && h < |SplitLines(visible)| && |PlanGraphs(blocks)| == 1
    requires LoadBase(text, c) ==
             Answer(text, c, visible, h, SectionEnd(SplitLines(visible), h + 1), PlanGraphs(blocks)[0])
    ensures Answers(text, c, blocks, visible)
  {
    hide SplitLines, SectionEnd, PlanGraphs, HeadingsFrom, Admitted, LoadBase, Section, EndsSection;
    var lines := SplitLines(visible);
    GraphFound(blocks);
    HeadingOnce(lines, h);
    SectionFound(lines, h);
    forall k: nat, end: nat, i: nat | OneHeading(lines, k) && Section(lines, k, end) && OnlyGraph(blocks, i)
      ensures k == h && end == SectionEnd(lines, h + 1) && blocks[i] == PlanGraphs(blocks)[0]
    {
      assert lines[k] == PLAN_SECTION;
    }
  }

  lemma {:induction false} HeadingCount(lines: seq<string>)
    ensures |HeadingsFrom(lines, 0)| == 1 <==> exists h: nat :: OneHeading(lines, h)
    ensures forall h :: h in HeadingsFrom(lines, 0) ==> h < |lines|
  {
    hide HeadingsFrom, OneHeading;
    var found := HeadingsFrom(lines, 0);
    if |found| == 1 {
      assert found == [found[0]];
      HeadingOnce(lines, found[0]);
    }
    if exists h: nat :: OneHeading(lines, h) {
      var h: nat :| OneHeading(lines, h);
      HeadingOnce(lines, h);
    }
    HeadingPlaces(lines, 0);
  }

  // ---------------------------------------------------------------- front matter

  /** A rule, a block of any text, a rule that ends its line; a carriage return may end the line of either. */
  predicate FrontAt(text: string, cr: string, block: string, tail: string) {
    && (cr == "" || cr == "\r") && (tail == "" || StartsWith(tail, "\n") || StartsWith(tail, "\r\n"))
    && text == "---" + cr + "\n" + block + "\n" + "---" + tail
  }

  /** The shortest such block. */
  ghost predicate FrontFirst(text: string, cr: string, block: string, tail: string) {
    && FrontAt(text, cr, block, tail)
    && forall c, b, t :: FrontAt(text, c, b, t) ==> |block| <= |b|
  }

  /** A text without the carriage return at its end. */
  function Chopped(block: string): (r: string)
    ensures block == r || block == r + "\r"
    ensures block != r <==> block != "" && block[|block| - 1] == '\r'
  {
    if block != "" && block[|block| - 1] == '\r' then block[..|block| - 1] else block
  }

  lemma {:induction false} LastRule(tail: string)
    requires tail == "" || StartsWith(tail, "\n") || StartsWith(tail, "\r\n")
    ensures IsRule(SplitOn("---" + tail, '\n'), 0)
  {
    hide SplitOn;
    if StartsWith(tail, "\n") {
      SplitHead("---", '\n', tail[1..]);
      assert "---" + tail == "---" + ['\n'] + tail[1..];
    } else if StartsWith(tail, "\r\n") {
      SplitHead("---\r", '\n', tail[2..]);
      assert "---" + tail == "---\r" + ['\n'] + tail[2..];
    } else {
      SplitHead("---", '\n', "");
      assert "---" + tail == "---";
    }
  }

  lemma {:induction false} FrontLines(text: string, cr: string, block: string, tail: string)
    requires FrontAt(text, cr, block, tail)
    ensures SplitOn(text, '\n') == ["---" + cr] + SplitOn(block, '\n') + SplitOn("---" + tail, '\n')
    ensures IsRule(SplitOn(text, '\n'), 0) && IsRule(SplitOn(text, '\n'), 1 + |SplitOn(block, '\n')|)
  {
    hide SplitOn;
    var rest := block + ['\n'] + ("---" + tail);
    assert text == ("---" + cr) + ['\n'] + rest;
    SplitHead("---" + cr, '\n', rest);
    SplitOnAround(block, '\n', "---" + tail);
    LastRule(tail);
    RuleBehind(["---" + cr] + SplitOn(block, '\n'), SplitOn("---" + tail, '\n'));
    assert ["---" + cr] + (SplitOn(block, '\n') + SplitOn("---" + tail, '\n')) ==
           ["---" + cr] + SplitOn(block, '\n') + SplitOn("---" + tail, '\n');
  }

  lemma {:induction false} RuleBehind(a: seq<string>, b: seq<string>)
    requires b != [] && IsRule(b, 0)
    ensures IsRule(a + b, |a|)
  {}

  lemma {:induction false} RuleBefore(lines: seq<string>, from: nat, i: nat)
    requires from <= i < |lines| && IsRule(lines, i)
    ensures RuleFrom(lines, from).Some? && RuleFrom(lines, from).value <= i
    decreases i - from
  {
    if !IsRule(lines, from) { RuleBefore(lines, from + 1, i); }
  }

  /** The lines between the rules make up a block. */
  lemma {:induction false} FrontBlock(text: string) returns (cr: string, tail: string)
    requires FrontMatter(text).Some?
    ensures var lines := SplitOn(text, '\n');
      var end := RuleFrom(lines, 2).value;
      && FrontAt(text, cr, Join("\n", lines[1..end]), tail)
      && FrontMatter(text) == Some(Chopped(Join("\n", lines[1..end])))
  {
    hide SplitOn, Join;
    var lines := SplitOn(text, '\n');
    var end := RuleFrom(lines, 2).value;
    var block := Join("\n", lines[1..end]);
    cr := lines[0][3..];
    tail := lines[end][3..] + if end + 1 < |lines| then "\n" + Join("\n", lines[end + 1..]) else "";
    JsText.JoinNewlines(text);
    Cut(lines, 1);
    Cut(lines[1..], end - 1);
    assert lines[1..][..end - 1] == lines[1..end] && lines[1..][end - 1..] == lines[end..];
    LastJoined(lines, end);
    assert Join("\n", lines[..1]) == "---" + cr by { FirstJoined(lines); }
    assert text == "---" + cr + "\n" + block + "\n" + "---" + tail;
  }

  lemma {:induction false} FirstJoined(lines: seq<string>)
    requires lines != [] && IsRule(lines, 0)
    ensures Join("\n", lines[..1]) == "---" + lines[0][3..]
  {
    assert lines[0] == "---" + lines[0][3..];
  }

  lemma {:induction false} LastJoined(lines: seq<string>, end: nat)
    requires end < |lines| && IsRule(lines, end)
    ensures Join("\n", lines[end..]) ==
            "---" + (lines[end][3..] + if end + 1 < |lines| then "\n" + Join("\n", lines[end + 1..]) else "")
  {
    assert lines[end..][1..] == lines[end + 1..] && lines[end] == "---" + lines[end][3..];
  }

  lemma {:induction false} Cut(lines: seq<string>, i: nat)
    requires 0 < i < |lines|
    ensures Join("\n", lines) == Join("\n", lines[..i]) + ("\n" + Join("\n", lines[i..]))
  {
    hide Join;
    assert lines == lines[..i] + lines[i..];
    PlanRewrite.JoinConcat(lines[..i], lines[i..]);
  }

  /** There is front matter exactly where a block stands between rules, and it is the shortest one. */
  lemma {:induction false} FrontForm(text: string)
    ensures FrontMatter(text).Some? <==> exists cr, block, tail :: FrontAt(text, cr, block, tail)
    ensures forall cr, block, tail :: FrontFirst(text, cr, block, tail) ==> FrontMatter(text) == Some(Chopped(block))
  {
    hide FrontAt, FrontFirst, FrontMatter;
    if FrontMatter(text).Some? { var cr, tail := FrontBlock(text); }
    forall cr, block, tail | FrontAt(text, cr, block, tail) ensures FrontMatter(text).Some? {
      FrontSome(text, cr, block, tail);
    }
    forall cr, block, tail | FrontFirst(text, cr, block, tail) ensures FrontMatter(text) == Some(Chopped(block)) {
      FrontShortest(text, cr, block, tail);
    }
  }

  lemma {:induction false} FrontSome(text: string, cr: string, block: string, tail: string)
    requires FrontAt(text, cr, block, tail)
    ensures var lines := SplitOn(text, '\n');
      FrontMatter(text).Some? && RuleFrom(lines, 2).Some? &&
      RuleFrom(lines, 2).value <= 1 + |SplitOn(block, '\n')| < |lines|
  {
    hide SplitOn, Join, FrontAt, IsRule;
    FrontLines(text, cr, block, tail);
    RuleBefore(SplitOn(text, '\n'), 2, 1 + |SplitOn(block, '\n')|);
  }

  lemma {:induction false} FrontShortest(text: string, cr: string, block: string, tail: string)
    requires FrontFirst(text, cr, block, tail)
    ensures FrontMatter(text) == Some(Chopped(block))
  {
    hide SplitOn, Join, FrontAt, FrontMatter, IsRule;
    var lines, parts := SplitOn(text, '\n'), SplitOn(block, '\n');
    FrontLines(text, cr, block, tail);
    FrontSome(text, cr, block, tail);
    var end := RuleFrom(lines, 2).value;
    var c, t := FrontBlock(text);
    JsText.JoinNewlines(block);
    assert lines[1..1 + |parts|] == parts;
    assert lines[1..end] == parts[..end - 1];
    if end < 1 + |parts| { Cut(parts, end - 1); }
  }

  // ---------------------------------------------------------------- the task table

  /** The first place where the pattern stands. */
  predicate FirstAt(s: string, p: string, i: nat) {
    i <= |s| && StartsWith(s[i..], p) && forall k :: 0 <= k < i ==> !StartsWith(s[k..], p)
  }

  lemma {:induction false} IndexFirst(s: string, p: string)
    requires p != "" && Count(s, p) > 0
    ensures FirstAt(s, p, Index(s, p))
    decreases |s|
  {
    if !StartsWith(s, p) {
      IndexFirst(s[1..], p);
      assert s[1..][Index(s[1..], p)..] == s[Index(s, p)..];
      assert s[0..] == s;
      forall k | 0 < k < Index(s, p) ensures !StartsWith(s[k..], p) { assert s[k..] == s[1..][k - 1..]; }
    } else {
      assert s[0..] == s;
    }
  }

  lemma {:induction false} CountFirst(s: string, p: string, i: nat)
    requires p != "" && i <= |s| && StartsWith(s[i..], p)
    ensures Count(s, p) > 0
    decreases |s|
  {
    if !StartsWith(s, p) {
      assert s[0..] == s;
      assert s[1..][i - 1..] == s[i..];
      CountFirst(s[1..], p, i - 1);
    }
  }

  lemma {:induction false} FirstFound(s: string, p: string)
    requires p != ""
    ensures Count(s, p) > 0 <==> exists i: nat :: FirstAt(s, p, i)
    ensures forall i: nat :: FirstAt(s, p, i) ==> Count(s, p) > 0 && i == Index(s, p)
  {
    hide Count, Index, StartsWith;
    if Count(s, p) > 0 { IndexFirst(s, p); }
    forall i: nat | FirstAt(s, p, i) ensures Count(s, p) > 0 && i == Index(s, p) {
      CountFirst(s, p, i);
      IndexFirst(s, p);
    }
  }

  /** The table stands between the first heading of the steps and the first mention of the section after it, or
      the end. */
  lemma {:induction false} TableForm(visible: string)
    ensures TableText(visible).Some? <==> exists i: nat :: FirstAt(visible, STEPS, i)
    ensures forall i: nat :: FirstAt(visible, STEPS, i) ==>
              var rest := visible[i + |STEPS|..];
              && (forall j: nat :: FirstAt(rest, PLAN_SECTION, j) ==> TableText(visible) == Some(rest[..j]))
              && ((forall j: nat :: !FirstAt(rest, PLAN_SECTION, j)) ==> TableText(visible) == Some(rest))
  {
    hide Count, Index;
    FirstFound(visible, STEPS);
    forall i: nat | FirstAt(visible, STEPS, i)
      ensures i + |STEPS| <= |visible|
      ensures var rest := visible[i + |STEPS|..];
        && (forall j: nat :: FirstAt(rest, PLAN_SECTION, j) ==> TableText(visible) == Some(rest[..j]))
        && ((forall j: nat :: !FirstAt(rest, PLAN_SECTION, j)) ==> TableText(visible) == Some(rest))
    {
      FirstFound(visible[i + |STEPS|..], PLAN_SECTION);
    }
  }
}

/** A plan with one task on which sync succeeds. */
module PlanExample {
  import opened Lists
  import opened Text
  import opened TextLines
  import opened PlanGraph
  import opened PlanMarkdown
  import opened PlanSync
  import opened PlanParts
  import opened PlanRewrite
  import opened PlanClean

  const MODE := "orchestration: kontor"
  const HEAD: seq<string> := ["---", MODE, "---"]
  const TABLE: seq<string> := [STEPS, "| Task | Closure condition |", "| --- | --- |", "| A-1 | merged |", PLAN_SECTION]
  const MARKERS: seq<string> := [PLAN_START, PLAN_END]

  const FIRST := Task("A-1", "First", "one", None, None, [])
  const DOCUMENT := Document(None, None, [FIRST])
  const WAVES: map<string, nat> := map["A-1" := 0]

  function Check(d: Document): Option<map<string, nat>> { if d == DOCUMENT then Some(WAVES) else None }

  /** JSON decodes the given lines to the document; the front matter has to name the mode. */
  function ChecksFor(body: seq<string>): Checks {
    Checks(json => if json == Join("\n", body) then Some(DOCUMENT) else None,
           (front, table, d) => front == MODE && d == DOCUMENT, Check)
  }

  lemma {:induction false} OneGraph()
    ensures GraphOf(DOCUMENT) == TaskGraph(["A-1"], map["A-1" := []])
  {
    assert Ids(DOCUMENT.tasks) == ["A-1"];
    assert DOCUMENT.tasks[1..] == [] && DependenciesOf([]) == map[];
  }

  lemma {:induction false} OneWave(g: TaskGraph)
    requires g == TaskGraph(["A-1"], map["A-1" := []])
    ensures Checked(g) && WavesFit(g, WAVES)
  {
    assert forall a, b :: !DependsOn(g, a, b);
    assert forall k :: k in g.ids ==> k == "A-1" && WaveStep(g, WAVES, k);
    forall k ensures !OnCycle(g, k) {
      forall c | ChainFrom(g, c, k) ensures |c| <= 1 { WaveBounds(g, WAVES, c); }
    }
  }

  /** The check of the graph is one of those that keep what `ValidateWaves` promises. */
  lemma {:induction false} ChecksValidate()
    ensures Validates(Check)
  {
    hide GraphOf, WavesFit, Checked;
    OneGraph();
    OneWave(GraphOf(DOCUMENT));
  }

  // ---------------------------------------------------------------- the text

  /** Lines of a graph that hold no marker and close no fence. */
  predicate Lines(body: seq<string>) {
    forall i :: 0 <= i < |body| ==> Code(body[i]) && !Closes(Fence('`', 3, "plan-graph"), body[i])
  }

  function Graph(body: seq<string>): seq<string> { ["```" + "plan-graph"] + body + [CLOSING] }

  function Top(body: seq<string>): seq<string> { HEAD + TABLE + Graph(body) }

  function PlanText(body: seq<string>): string { Join("\n", Top(body) + MARKERS) }

  /** Lines that stand outside fences and open none. */
  predicate Open(line: string) { Code(line) && line != "" && line[0] != ' ' && line[0] != '`' && line[0] != '~' }

  lemma {:induction false} HeadOpen()
    ensures Open("---") && Open(MODE) && Open(STEPS) && Open(PLAN_SECTION)
  {}

  lemma {:induction false} TableOpen()
    ensures Open("| Task | Closure condition |") && Open("| --- | --- |") && Open("| A-1 | merged |")
  {}

  lemma {:induction false} PlainOpen()
    ensures forall i :: 0 <= i < |HEAD + TABLE| ==> Open((HEAD + TABLE)[i])
  {
    hide Open;
    HeadOpen();
    TableOpen();
  }

  /** What is read of the lines before the view. */
  lemma {:induction false} TopRead(body: seq<string>)
    requires Lines(body)
    ensures var r := ReadAll(Top(body));
      && r.open.None? && PlanGraphs(r.blocks) == [FencedBlock("plan-graph", body, 9)]
      && |r.visible| == 10 + |body| && r.visible[..8] == HEAD + TABLE
      && forall i :: 8 <= i < |r.visible| ==> r.visible[i] == ""
  {
    hide ReadAll, Closes, OpeningFence, Open, Code;
    var plain, graph := HEAD + TABLE, Graph(body);
    PlainOpen();
    forall i | 0 <= i < |plain| ensures OpeningFence(plain[i]).None? { OpenPlain(plain[i]); }
    PlainRead(plain);
    GraphInfo();
    FencedRead("plan-graph", body);
    ReadAppend(plain, graph);
    SameLength(graph);
    OneBlock(body);
  }

  lemma {:induction false} OpenPlain(line: string)
    requires Open(line)
    ensures OpeningFence(line).None?
  {
    hide OpeningFence, Code;
    NoFence(line);
  }

  lemma {:induction false} GraphInfo()
    ensures Trimmed("plan-graph") && "plan-graph"[0] != '`'
  {}

  lemma {:induction false} OneBlock(body: seq<string>)
    ensures Moved([FencedBlock("plan-graph", body, 1)], 8) == [FencedBlock("plan-graph", body, 9)]
    ensures PlanGraphs([] + [FencedBlock("plan-graph", body, 9)]) == [FencedBlock("plan-graph", body, 9)]
  {
    var blocks := [FencedBlock("plan-graph", body, 9)];
    assert [] + blocks == blocks && blocks[1..] == [];
  }

  /** The text of the plan in parts: what stands before the view, and the markers. */
  lemma {:induction false} TextParts(body: seq<string>) returns (pre: string, piece: string)
    requires Lines(body)
    ensures PlanText(body) == pre + piece + "" && pre == Join("\n", Top(body)) + "\n" && EndsLine(pre)
    ensures Solid(piece) && piece == PLAN_START + "\n" + PLAN_END
    ensures SplitLines(PlanText(body)) == Top(body) + MARKERS && SplitLines(pre) == Top(body)
    ensures SplitLines(piece) == MARKERS && MarkersOnce(PlanText(body))
  {
    hide Closes, Open, Code, SplitLines, Count, Index, NoBreaks;
    var text := PlanText(body);
    pre, piece := Join("\n", Top(body)) + "\n", PLAN_START + "\n" + PLAN_END;
    JoinConcat(Top(body), MARKERS);
    assert Join("\n", MARKERS) == piece;
    assert text == pre + piece + "";
    LinesBare(body);
    MarkerText();
    assert Solid(piece) by { assert piece[0] == PLAN_START[0] && piece[|piece| - 1] == PLAN_END[|PLAN_END| - 1]; }
    MarkersSplit();
    assert (Top(body) + MARKERS)[|Top(body) + MARKERS| - 1] == PLAN_END;
    VisibleLines(Top(body) + MARKERS);
    SplitClosed(Top(body));
    MarkersApart();
    CountSelf(PLAN_START);
    CountSelf(PLAN_END);
    TotalBare(Top(body), PLAN_START);
    TotalBare(Top(body), PLAN_END);
    TotalConcat(Top(body), MARKERS, PLAN_START);
    TotalConcat(Top(body), MARKERS, PLAN_END);
    MarkersTotal();
    CountLines(text, PLAN_START);
    CountLines(text, PLAN_END);
  }

  lemma {:induction false} LinesBare(body: seq<string>)
    requires Lines(body)
    ensures forall i :: 0 <= i < |Top(body)| ==> Bare(Top(body)[i])
  {
    hide Bare, Code, Closes, Open;
    PlainBare();
    FixedBare();
    assert Code("```" + "plan-graph") by { GraphCode(); }
    CodeBare("```" + "plan-graph");
    forall i | 0 <= i < |body| ensures Bare(body[i]) { CodeBare(body[i]); }
  }

  lemma {:induction false} GraphCode()
    ensures Code("```" + "plan-graph")
  {}

  lemma {:induction false} PlainBare()
    ensures forall i :: 0 <= i < |HEAD + TABLE| ==> Bare((HEAD + TABLE)[i])
  {
    hide Bare, Code;
    PlainOpen();
    forall i | 0 <= i < |HEAD + TABLE| ensures Bare((HEAD + TABLE)[i]) {
      assert Open((HEAD + TABLE)[i]);
      CodeBare((HEAD + TABLE)[i]);
    }
  }

  lemma {:induction false} MarkersSplit()
    ensures SplitLines(PLAN_START + "\n" + PLAN_END) == MARKERS
  {
    hide SplitLines;
    MarkerText();
    SplitFirst(PLAN_START, PLAN_END);
    OneLine(PLAN_END);
    assert [PLAN_START] + [PLAN_END] == MARKERS;
  }

  lemma {:induction false} MarkersTotal()
    ensures Total(MARKERS, PLAN_START) == 1 == Total(MARKERS, PLAN_END)
  {
    hide Count;
    MarkersApart();
    CountSelf(PLAN_START);
    CountSelf(PLAN_END);
    assert MARKERS == [PLAN_START] + [] + [PLAN_END];
    Ends3(PLAN_START, [], PLAN_END, PLAN_START);
    Ends3(PLAN_START, [], PLAN_END, PLAN_END);
  }

  /** Lines that are all closed by a line feed. */
  lemma {:induction false} SplitClosed(lines: seq<string>)
    requires forall i :: 0 <= i < |lines| ==> NoBreaks(lines[i])
    requires lines != []
    ensures SplitLines(Join("\n", lines) + "\n") == lines
    decreases |lines|
  {
    hide SplitLines, NoBreaks;
    NoLines();
    if |lines| == 1 {
      SplitFirst(lines[0], "");
      assert lines[0] + "\n" + "" == lines[0] + "\n" && [lines[0]] + [] == lines;
    } else {
      SplitClosed(lines[1..]);
      SplitFirst(lines[0], Join("\n", lines[1..]) + "\n");
      assert Join("\n", lines) + "\n" == lines[0] + "\n" + (Join("\n", lines[1..]) + "\n");
      assert [lines[0]] + lines[1..] == lines;
    }
  }

  lemma {:induction false} SplitOnClosed(lines: seq<string>)
    requires lines != [] && forall i :: 0 <= i < |lines| ==> '\n' !in lines[i]
    ensures SplitOn(Join("\n", lines) + "\n", '\n') == lines + [""]
    decreases |lines|
  {
    if |lines| == 1 {
      SplitHead(lines[0], '\n', "");
      assert lines[0] + ['\n'] + "" == lines[0] + "\n" && [lines[0]] + [""] == lines + [""];
    } else {
      var rest := Join("\n", lines[1..]) + "\n";
      SplitOnClosed(lines[1..]);
      SplitHead(lines[0], '\n', rest);
      assert Join("\n", lines) + "\n" == lines[0] + ['\n'] + rest;
      assert [lines[0]] + (lines[1..] + [""]) == lines + [""];
    }
  }

  // ---------------------------------------------------------------- front matter and table

  lemma {:induction false} FrontFound(body: seq<string>)
    requires Lines(body)
    ensures var pre := Join("\n", Top(body)) + "\n"; FrontClosed(pre) && FrontMatter(pre) == Some(MODE)
  {
    hide SplitOn, Closes, Code, Open;
    LinesBare(body);
    var pre, lines := Join("\n", Top(body)) + "\n", Top(body) + [""];
    assert IsBreak('\n');
    forall i | 0 <= i < |Top(body)| ensures '\n' !in Top(body)[i] { assert Bare(Top(body)[i]); }
    SplitOnClosed(Top(body));
    assert lines[0] == "---" && lines[1] == MODE && lines[2] == "---";
    assert RuleFrom(lines, 2) == Some(2) && lines[1..2] == [MODE] && Join("\n", [MODE]) == MODE;
    ModeEnd();
  }

  lemma {:induction false} ModeEnd()
    ensures MODE != "" && MODE[|MODE| - 1] != '\r'
  {}

  lemma {:induction false} StepsHash()
    ensures STEPS[0] == '#' && '\n' !in STEPS && PLAN_SECTION[0] == '#'
  {}

  lemma {:induction false} HeadHash()
    ensures '#' !in "---" + "\n" + MODE + "\n" + "---" + "\n"
  {}

  /** The visible lines hold the steps and, further down, the section. */
  lemma {:induction false} TableFound(rest: seq<string>)
    requires rest != []
    ensures TableClosed(Join("\n", HEAD + TABLE + rest))
  {
    hide Count, Index;
    var head := Join("\n", HEAD) + "\n";
    assert head == "---" + "\n" + MODE + "\n" + "---" + "\n" by { HeadText(); }
    HeadHash();
    StepsHash();
    CountNone(head, STEPS);
    var mid, below := TABLE[1..4], Join("\n", rest);
    var section := Join("\n", mid) + "\n";
    TableJoined(rest);
    var after := "\n" + section + PLAN_SECTION + ("\n" + below);
    assert Join("\n", HEAD + TABLE + rest) == head + (STEPS + after);
    assert (STEPS + after)[..|STEPS|] == STEPS;
    IndexAfter(head, STEPS + after, STEPS);
    assert (head + (STEPS + after))[|head| + |STEPS|..] == after;
    CountSelf(PLAN_SECTION);
    CountWithin("\n" + section, PLAN_SECTION, "\n" + below, PLAN_SECTION);
  }

  lemma {:induction false} HeadText()
    ensures Join("\n", HEAD) + "\n" == "---" + "\n" + MODE + "\n" + "---" + "\n"
  {
    assert HEAD[1..] == [MODE, "---"] && [MODE, "---"][1..] == ["---"];
    assert Join("\n", [MODE, "---"]) == MODE + "\n" + "---";
    assert Join("\n", HEAD) == "---" + "\n" + (MODE + "\n" + "---");
  }

  lemma {:induction false} TableJoined(rest: seq<string>)
    requires rest != []
    ensures Join("\n", HEAD + TABLE + rest) ==
            Join("\n", HEAD) + "\n" +
            (STEPS + ("\n" + (Join("\n", TABLE[1..4]) + "\n") + PLAN_SECTION + ("\n" + Join("\n", rest))))
  {
    hide Join;
    JoinConcat(HEAD, TABLE + rest);
    assert HEAD + TABLE + rest == HEAD + (TABLE + rest);
    JoinConcat([STEPS], TABLE[1..] + rest);
    assert [STEPS] + (TABLE[1..] + rest) == TABLE + rest;
    JoinConcat(TABLE[1..4], [PLAN_SECTION] + rest);
    assert TABLE[1..4] + ([PLAN_SECTION] + rest) == TABLE[1..] + rest;
    JoinConcat([PLAN_SECTION], rest);
    JoinOne(STEPS);
    JoinOne(PLAN_SECTION);
  }

  lemma {:induction false} JoinOne(line: string)
    ensures Join("\n", [line]) == line
  {}

  // ---------------------------------------------------------------- main result

  lemma {:induction false} SeenSection(seen: seq<string>)
    requires |seen| >= 8 && seen[..8] == HEAD + TABLE && forall i :: 8 <= i < |seen| ==> seen[i] == ""
    ensures var lines := seen + MARKERS; OneHeading(lines, 7) && SectionEnd(lines, 8) == |lines|
    ensures SectionOpen(seen)
  {
    hide EndsSection, SectionEnd, Open;
    var lines := seen + MARKERS;
    StepsHash();
    MarkerHeads();
    HeadingAlone();
    assert forall i :: 0 <= i < 8 ==> lines[i] == seen[..8][i];
    HashFree(lines[8..]);
    SectionBounds(lines, 8);
    forall k | 8 <= k < |lines| ensures lines[k] != PLAN_SECTION && !EndsSection(lines[k]) {
      assert lines[k] == lines[8..][k - 8];
    }
    assert seen[7] == PLAN_SECTION;
    forall k | 7 < k < |seen| ensures !EndsSection(seen[k]) { assert lines[k] == seen[k]; }
  }

  /** The section heading is none of the other lines. */
  lemma {:induction false} HeadingAlone()
    ensures forall i :: 0 <= i < 8 ==> ((HEAD + TABLE)[i] == PLAN_SECTION <==> i == 7)
  {
    var lines := HEAD + TABLE;
    assert lines[0][0] == '-' && lines[1][0] == 'o' && lines[2][0] == '-' && lines[3][1] == '#' && lines[3][2] == ' ';
    assert lines[4][0] == '|' && lines[5][0] == '|' && lines[6][0] == '|' && PLAN_SECTION[2] == '#';
  }

  lemma {:induction false} ExampleLoads(body: seq<string>)
    requires Lines(body)
    ensures LoadBase(PlanText(body), ChecksFor(body)).Ok?
    ensures LoadBase(PlanText(body), ChecksFor(body)).value.document == DOCUMENT
  {
    hide ReadAll, SplitLines, PlanGraphs, OneHeading, SectionEnd, Closes, Code, Open, Count, Index, FrontMatter,
      TableText, FrontClosed, TableClosed, LoadBase;
    var text := PlanText(body);
    var pre, piece := TextParts(body);
    TopRead(body);
    ViewPart();
    ReadAppend(Top(body), MARKERS);
    var seen := ReadAll(Top(body)).visible;
    GraphsConcat(ReadAll(Top(body)).blocks, Moved([], |Top(body)|));
    NoGraphs();
    SeenSection(seen);
    LinesUnbroken(text);
    SeenUnbroken(Top(body) + MARKERS);
    VisibleLines(seen + MARKERS);
    JoinConcat(seen, MARKERS);
    assert seen == HEAD + TABLE + seen[8..];
    TableFound(seen[8..]);
    TableKept(Join("\n", seen), "\n" + Join("\n", MARKERS));
    FrontFound(body);
    FrontKept(pre, piece);
    assert text == pre + piece;
    var section := (seen + MARKERS)[8..];
    assert Seen(text) == Join("\n", seen + MARKERS) && SplitLines(Seen(text)) == seen + MARKERS;
    assert PlanGraphs(ReadAll(SplitLines(text)).blocks) == [FencedBlock("plan-graph", body, 9)];
    assert TableText(Join("\n", seen)).Some? by { TableSome(Join("\n", seen)); }
    assert Admitted(ChecksFor(body), text, Seen(text), DOCUMENT);
    BaseOk(text, ChecksFor(body), 7, FencedBlock("plan-graph", body, 9), Loaded(DOCUMENT, WAVES, section));
  }

  lemma {:induction false} TableSome(visible: string)
    requires TableClosed(visible)
    ensures TableText(visible).Some?
  {
    hide Count, Index;
  }

  lemma {:induction false} ViewPart()
    ensures ReadAll(MARKERS) == Reading([], MARKERS, None, [], 0)
  {
    hide OpeningFence, ReadAll;
    MarkerHeads();
    NoFence(PLAN_START);
    NoFence(PLAN_END);
    PlainRead(MARKERS);
  }

  /** The plan has its markers in order, on lines of their own, and everything else in its place. */
  lemma {:induction false} ExamplePlaced(body: seq<string>)
    requires Lines(body)
    ensures var text := PlanText(body);
      && MarkersOrdered(text) && Placed(text) && Settled(text)
      && Piece(text) == PLAN_START + "\n" + PLAN_END
  {
    hide ReadAll, SplitLines, PlanGraphs, Closes, Code, Open, Count, Index, FrontMatter, FrontClosed, TableClosed,
      SectionOpen, NoBreaks;
    var text := PlanText(body);
    var pre, piece := TextParts(body);
    MarkerText();
    assert piece == (PLAN_START + "\n") + PLAN_END && EndsLine(PLAN_START + "\n");
    ViewPlace(pre, piece, PLAN_START + "\n", "");
    assert Pre(text) == pre && Post(text) == "" && Piece(text) == piece;
    TopRead(body);
    ViewPart();
    NoGraphs();
    var seen := ReadAll(Top(body)).visible;
    SeenSection(seen);
    assert seen == HEAD + TABLE + seen[8..];
    TableFound(seen[8..]);
    FrontFound(body);
  }

  /** Sync succeeds on the plan, whatever the lines of its graph are, and its checks keep what they should. */
  lemma {:induction false} SyncExample(body: seq<string>)
    requires Lines(body)
    ensures var text, c := PlanText(body), ChecksFor(body);
      && Validates(c.validate) && LoadBase(text, c).Ok? && LoadBase(text, c).value.document == DOCUMENT
      && MarkersOrdered(text) && SyncPlan(text, c) == PlanResult.Ok(Rewritten(text, LoadBase(text, c).value))
  {
    hide LoadBase, SyncPlan, SplitLines, ReadAll, Validates, Lines, PlanText, Placed, Settled, MarkersOrdered;
    var text, c := PlanText(body), ChecksFor(body);
    ChecksValidate();
    ExampleLoads(body);
    ExamplePlaced(body);
    MarkersSplit();
    ViewPart();
    DocumentClean();
    SyncSucceeds(text, c);
  }

  lemma {:induction false} DocumentClean()
    ensures CleanDocument(DOCUMENT)
  {
    assert Code("A-1") && Code("First") && Code("one");
    CodeBare("First");
    CodeBare("one");
  }
}

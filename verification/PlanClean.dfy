/** Plans whose sync succeeds: as long as no text of the document holds a line break or a marker, the derived
    view stands on its own. */
module PlanClean {
  import opened Text
  import opened TextLines
  import opened YamlWriter
  import opened PlanMarkdown
  import opened PlanSync
  import opened PlanParts
  import opened PlanRewrite

  // ---------------------------------------------------------------- clean documents

  /** Text on one line without a marker in it. */
  predicate Bare(s: string) { NoBreaks(s) && Count(s, PLAN_START) == 0 && Count(s, PLAN_END) == 0 }

  /** Ids hold neither line breaks nor angle brackets, as their pattern demands. */
  predicate Code(s: string) { forall i :: 0 <= i < |s| ==> s[i] != '<' && !IsBreak(s[i]) }

  predicate BareOption(o: Option<string>) { o.Some? ==> Bare(o.value) }

  predicate CleanTask(t: Task) {
    && Code(t.id) && (forall i :: 0 <= i < |t.dependsOn| ==> Code(t.dependsOn[i]))
    && Bare(t.title) && Bare(t.phase) && BareOption(t.jira) && BareOption(t.kontor)
  }

  /** Some character that is neither a space nor a backtick. */
  predicate Shows(s: string) { exists i :: 0 <= i < |s| && s[i] != '`' && !IsSpace(s[i]) }

  predicate CleanDocument(d: Document) {
    && (forall i :: 0 <= i < |d.tasks| ==> CleanTask(d.tasks[i]))
    && BareOption(d.epicJira) && BareOption(d.epicKontor)
    && (d.epicJira.Some? && d.epicJira.value != "" ==> Shows(d.epicJira.value))
  }

  // ---------------------------------------------------------------- lines without markers

  lemma {:induction false} CodeBare(s: string)
    requires Code(s)
    ensures Bare(s)
  {
    CountNone(s, PLAN_START);
    CountNone(s, PLAN_END);
  }

  /** Two texts with a middle dot between them. */
  lemma {:induction false} Dotted(x: string, y: string)
    requires Bare(x) && Bare(y)
    ensures Bare(x + " \U{B7} " + y)
  {
    var whole := x + " \U{B7} " + y;
    assert whole == (x + [' ']) + ['\U{B7}'] + ([' '] + y);
    assert forall i :: 0 <= i < |whole| ==>
      (i < |x| ==> whole[i] == x[i]) && (i >= |x| + 3 ==> whole[i] == y[i - |x| - 3]);
    DottedCount(x, y, PLAN_START);
    DottedCount(x, y, PLAN_END);
  }

  lemma {:induction false} DottedCount(x: string, y: string, p: string)
    requires p == PLAN_START || p == PLAN_END
    ensures Count((x + [' ']) + ['\U{B7}'] + ([' '] + y), p) == Count(x, p) + Count(y, p)
  {
    CountAcross(x + [' '], '\U{B7}', [' '] + y, p);
    CountTail(x, ' ', p);
    CountLead(' ', y, p);
  }

  lemma {:induction false} NatCode(n: nat)
    ensures Code(NatText(n))
  {}

  lemma {:induction false} JoinCode(separator: string, parts: seq<string>)
    requires Code(separator) && forall i :: 0 <= i < |parts| ==> Code(parts[i])
    ensures Code(Join(separator, parts))
    decreases |parts|
  {
    if |parts| > 1 { JoinCode(separator, parts[1..]); }
  }

  // ---------------------------------------------------------------- lines that close no fence

  const TEXT_FENCE := Fence('`', 3, "text")

  lemma {:induction false} StripShows(s: string, j: nat)
    requires j < |s| && !IsSpace(s[j])
    ensures Strip(s) != ""
  {
    RStripShows(s, j);
    LStripShows(RStrip(s), j);
  }

  lemma {:induction false} RStripShows(s: string, j: nat)
    requires j < |s| && !IsSpace(s[j])
    ensures j < |RStrip(s)| && RStrip(s)[j] == s[j]
    decreases |s|
  {
    if IsSpace(s[|s| - 1]) { RStripShows(s[..|s| - 1], j); }
  }

  lemma {:induction false} LStripShows(s: string, j: nat)
    requires j < |s| && !IsSpace(s[j])
    ensures LStrip(s) != ""
    decreases |s|
  {
    if IsSpace(s[0]) { LStripShows(s[1..], j - 1); }
  }

  lemma {:induction false} BlankIsSpace()
    ensures IsSpace(' ')
  {}

  /** A line that shows anything but backticks closes no fence. */
  lemma {:induction false} ShowsOpen(info: string, line: string, k: nat)
    requires k < |line| && line[k] != '`' && !IsSpace(line[k])
    ensures !Closes(Fence('`', 3, info), line)
  {
    hide Strip, LeadingBlanks, RunLength, IsSpace;
    assert IsSpace(' ') by { BlankIsSpace(); }
    var blanks := LeadingBlanks(line);
    var rest := line[blanks..];
    assert rest[k - blanks] == line[k];
    var run := RunLength(rest, '`');
    assert rest[run..][k - blanks - run] == line[k];
    StripShows(rest[run..], k - blanks - run);
  }

  /** A line of the view between its fences. */
  ghost predicate Inner(line: string) { Bare(line) && !Closes(TEXT_FENCE, line) }

  ghost predicate AllInner(lines: seq<string>) { forall i :: 0 <= i < |lines| ==> Inner(lines[i]) }

  // ---------------------------------------------------------------- the lines of the view

  lemma {:induction false} CodeInner(line: string, k: nat)
    requires Code(line) && k < |line| && line[k] != '`' && !IsSpace(line[k])
    ensures Inner(line)
  {
    CodeBare(line);
    ShowsOpen("text", line, k);
  }

  lemma {:induction false} WaveIdsCode(tasks: seq<Task>, waves: map<string, nat>, wave: nat)
    requires forall i :: 0 <= i < |tasks| ==> CleanTask(tasks[i])
    ensures forall i :: 0 <= i < |WaveIds(tasks, waves, wave)| ==> Code(WaveIds(tasks, waves, wave)[i])
    decreases |tasks|
  {
    if tasks != [] { WaveIdsCode(tasks[1..], waves, wave); }
  }

  lemma {:induction false} CodeConcat(a: string, b: string)
    requires Code(a) && Code(b)
    ensures Code(a + b)
  {}

  lemma {:induction false} WaveLine(wave: nat, ids: seq<string>)
    requires forall i :: 0 <= i < |ids| ==> Code(ids[i])
    ensures Inner("wave " + NatText(wave) + "   " + Join("  ", ids) + "   (" + NatText(|ids|) + " nodes)")
  {
    hide NatText, Join, Inner;
    NatCode(wave);
    NatCode(|ids|);
    JoinCode("  ", ids);
    assert Code("wave ") && Code("   ") && Code("   (") && Code(" nodes)");
    hide Code;
    CodeConcat("wave ", NatText(wave));
    CodeConcat("wave " + NatText(wave), "   ");
    CodeConcat("wave " + NatText(wave) + "   ", Join("  ", ids));
    CodeConcat("wave " + NatText(wave) + "   " + Join("  ", ids), "   (");
    CodeConcat("wave " + NatText(wave) + "   " + Join("  ", ids) + "   (", NatText(|ids|));
    CodeConcat("wave " + NatText(wave) + "   " + Join("  ", ids) + "   (" + NatText(|ids|), " nodes)");
    CodeInner("wave " + NatText(wave) + "   " + Join("  ", ids) + "   (" + NatText(|ids|) + " nodes)", 0);
  }

  lemma {:induction false} WaveLinesInner(tasks: seq<Task>, waves: map<string, nat>, wave: nat, last: nat)
    requires forall i :: 0 <= i < |tasks| ==> CleanTask(tasks[i])
    ensures AllInner(WaveLines(tasks, waves, wave, last))
    decreases last + 1 - wave
  {
    hide Inner, NatText, Join, WaveIds, CleanTask, Code;
    if wave <= last {
      WaveLinesInner(tasks, waves, wave + 1, last);
      WaveIdsCode(tasks, waves, wave);
      WaveLine(wave, WaveIds(tasks, waves, wave));
    }
  }

  ghost predicate CodeEdges(edges: seq<Edge>) {
    forall i :: 0 <= i < |edges| ==> Code(edges[i].from) && Code(edges[i].to)
  }

  lemma {:induction false} InsertCode(e: Edge, s: seq<Edge>)
    requires CodeEdges(s) && Code(e.from) && Code(e.to)
    ensures CodeEdges(InsertEdge(e, s))
    decreases |s|
  {
    hide Code, EdgeLeq;
    if s != [] { InsertCode(e, s[1..]); }
  }

  lemma {:induction false} EdgesOfCode(id: string, deps: seq<string>, rest: seq<Edge>)
    requires Code(id) && CodeEdges(rest) && forall i :: 0 <= i < |deps| ==> Code(deps[i])
    ensures CodeEdges(EdgesOf(id, deps, rest))
    decreases |deps|
  {
    hide Code;
    if deps != [] {
      EdgesOfCode(id, deps[1..], rest);
      InsertCode(Edge(deps[0], id), EdgesOf(id, deps[1..], rest));
    }
  }

  lemma {:induction false} EdgesCode(tasks: seq<Task>)
    requires forall i :: 0 <= i < |tasks| ==> CleanTask(tasks[i])
    ensures CodeEdges(SortedEdges(tasks))
    decreases |tasks|
  {
    hide Code, Bare;
    if tasks != [] {
      EdgesCode(tasks[1..]);
      EdgesOfCode(tasks[0].id, tasks[0].dependsOn, SortedEdges(tasks[1..]));
    }
  }

  lemma {:induction false} EdgeLinesInner(edges: seq<Edge>)
    requires CodeEdges(edges)
    ensures AllInner(EdgeLines(edges))
  {
    hide Inner;
    var lines := EdgeLines(edges);
    forall i | 0 <= i < |lines| ensures Inner(lines[i]) {
      var e := edges[i];
      assert lines[i] == "  " + e.from + " -> " + e.to && lines[i][|e.from| + 3] == '-';
      CodeInner(lines[i], |e.from| + 3);
    }
  }

  lemma {:induction false} BoundBare(binding: string, kontor: Option<string>)
    requires Bare(binding) && BareOption(kontor)
    ensures Bare(Bound(binding, kontor))
  {
    hide Bare;
    if kontor.Some? && kontor.value != "" {
      Dotted(binding, kontor.value);
      assert binding + " \U{B7} " + kontor.value == binding + (" \U{B7} " + kontor.value);
    } else {
      assert binding + "" == binding;
    }
  }

  lemma {:induction false} EpicInner(d: Document)
    requires CleanDocument(d)
    ensures Inner(Bound(OrElse(d.epicJira, "unbound epic"), d.epicKontor))
  {
    hide Bare, Closes;
    var first := OrElse(d.epicJira, "unbound epic");
    CodeBare("unbound epic");
    BoundBare(first, d.epicKontor);
    var line := Bound(first, d.epicKontor);
    assert Shows(first) by { assert "unbound epic"[0] == 'u'; }
    var i :| 0 <= i < |first| && first[i] != '`' && !IsSpace(first[i]);
    assert line[i] == first[i];
    ShowsOpen("text", line, i);
  }

  lemma {:induction false} TaskInner(t: Task, wave: nat)
    requires CleanTask(t)
    ensures Inner("  " + t.id + " \U{B7} " + Bound(OrElse(t.jira, "unbound"), t.kontor) + " \U{B7} " + t.phase +
      " \U{B7} wave " + NatText(wave) + " \U{B7} " + t.title)
  {
    hide Bare, Closes, NatText, Bound;
    var lead, binding := "  " + t.id, Bound(OrElse(t.jira, "unbound"), t.kontor);
    CodeBare(lead);
    CodeBare("unbound");
    BoundBare(OrElse(t.jira, "unbound"), t.kontor);
    Dotted(lead, binding);
    var a := lead + " \U{B7} " + binding;
    Dotted(a, t.phase);
    var b := a + " \U{B7} " + t.phase;
    var middle := "wave " + NatText(wave);
    NatCode(wave);
    CodeBare(middle);
    Dotted(b, middle);
    var c := b + " \U{B7} " + middle;
    Dotted(c, t.title);
    var line := c + " \U{B7} " + t.title;
    assert line == "  " + t.id + " \U{B7} " + binding + " \U{B7} " + t.phase +
      " \U{B7} wave " + NatText(wave) + " \U{B7} " + t.title;
    assert line[|lead| + 1] == '\U{B7}';
    ShowsOpen("text", line, |lead| + 1);
  }

  lemma {:induction false} TaskLinesInner(tasks: seq<Task>, waves: map<string, nat>)
    requires forall i :: 0 <= i < |tasks| ==> CleanTask(tasks[i])
    ensures AllInner(TaskLines(tasks, waves))
  {
    hide Inner, NatText, Bound, OrElse, CleanTask;
    var lines := TaskLines(tasks, waves);
    forall i | 0 <= i < |lines| ensures Inner(lines[i]) {
      TaskInner(tasks[i], if tasks[i].id in waves then waves[tasks[i].id] else 0);
    }
  }

  lemma {:induction false} SortedClean(tasks: seq<Task>)
    requires forall i :: 0 <= i < |tasks| ==> CleanTask(tasks[i])
    ensures forall i :: 0 <= i < |SortTasks(tasks)| ==> CleanTask(SortTasks(tasks)[i])
  {
    hide CleanTask;
    var sorted := SortTasks(tasks);
    forall i | 0 <= i < |sorted| ensures CleanTask(sorted[i]) {
      assert sorted[i] in multiset(sorted) && sorted[i] in multiset(tasks);
    }
  }

  const OPENING := "```text"
  const CLOSING := "```"

  /** What stands between the fences of the view. */
  function InnerLines(d: Document, waves: map<string, nat>): seq<string> {
    var tasks := SortTasks(d.tasks);
    var edges := EdgeLines(SortedEdges(tasks));
    WaveLines(tasks, waves, 0, MaxWave(tasks, waves)) + ["", "Dependencies (prerequisite -> dependent):"] +
    (if edges == [] then ["  none"] else edges) +
    ["", Bound(OrElse(d.epicJira, "unbound epic"), d.epicKontor)] + TaskLines(tasks, waves)
  }

  function Around(inner: seq<string>): seq<string> {
    [PLAN_START, ""] + ([OPENING] + inner + [CLOSING]) + ["", NOTICE, "", PLAN_END]
  }

  lemma {:induction false} ViewLines(d: Document, waves: map<string, nat>)
    ensures [PLAN_START] + ViewBody(d, waves) == Around(InnerLines(d, waves))
  {
    hide SortTasks, EdgeLines, SortedEdges, WaveLines, MaxWave, TaskLines, Bound, OrElse;
  }

  lemma {:induction false} EmptyInner()
    ensures Inner("")
  {
    CodeBare("");
  }

  lemma {:induction false} TitleInner()
    ensures Inner("Dependencies (prerequisite -> dependent):")
  {
    hide Inner;
    CodeInner("Dependencies (prerequisite -> dependent):", 0);
  }

  lemma {:induction false} NoneInner()
    ensures Inner("  none")
  {
    hide Inner;
    CodeInner("  none", 2);
  }

  lemma {:induction false} ViewInner(d: Document, waves: map<string, nat>)
    requires CleanDocument(d)
    ensures AllInner(InnerLines(d, waves))
  {
    hide Inner, SortTasks, EdgeLines, SortedEdges, WaveLines, MaxWave, TaskLines, Bound, OrElse, CleanTask, CodeEdges;
    var tasks := SortTasks(d.tasks);
    SortedClean(d.tasks);
    WaveLinesInner(tasks, waves, 0, MaxWave(tasks, waves));
    EdgesCode(tasks);
    EdgeLinesInner(SortedEdges(tasks));
    EpicInner(d);
    TaskLinesInner(tasks, waves);
    EmptyInner();
    TitleInner();
    NoneInner();
  }

  // ---------------------------------------------------------------- reading the view

  lemma {:induction false} Opens(info: string)
    requires Trimmed(info) && info[0] != '`'
    ensures OpeningFence("```" + info) == Some(Fence('`', 3, info))
  {
    hide Strip;
    MarksOf(info);
    StripTrimmed(info);
  }

  lemma {:induction false} Ends(info: string)
    ensures Closes(Fence('`', 3, info), CLOSING)
  {
    hide Strip;
    MarksOf("");
    assert CLOSING == "```" + "";
    EmptyStrip();
  }

  lemma {:induction false} EmptyStrip()
    ensures Strip("") == ""
  {}

  /** Three backticks and a text that does not start with one. */
  lemma {:induction false} MarksOf(info: string)
    requires info == "" || info[0] != '`'
    ensures LeadingBlanks("```" + info) == 0 && RunLength("```" + info, '`') == 3 && ("```" + info)[3..] == info
  {
    var line := "```" + info;
    assert line[1..] == "``" + info && ("``" + info)[1..] == "`" + info && ("`" + info)[1..] == info;
    assert RunLength(info, '`') == 0;
  }

  lemma {:induction false} OpenRead(opening: string, fence: Fence, inner: seq<string>)
    requires OpeningFence(opening) == Some(fence) && forall i :: 0 <= i < |inner| ==> !Closes(fence, inner[i])
    ensures var r := ReadAll([opening] + inner);
      && r.open == Some(fence) && r.blocks == [] && r.body == inner && r.start == 1
      && forall i :: 0 <= i < |r.visible| ==> r.visible[i] == ""
    decreases |inner|
  {
    hide OpeningFence, Closes, ReadAll;
    if inner == [] {
      NothingRead();
      ReadLast([], opening);
      assert [opening] + inner == [] + [opening];
    } else {
      var front, line := inner[..|inner| - 1], inner[|inner| - 1];
      OpenRead(opening, fence, front);
      ReadLast([opening] + front, line);
      assert [opening] + front + [line] == [opening] + inner;
      assert !Closes(fence, line);
    }
  }

  lemma {:induction false} NothingRead()
    ensures ReadAll([]) == START
  {}

  /** A fenced block on its own: one block, nothing visible. */
  lemma {:induction false} FencedRead(info: string, inner: seq<string>)
    requires Trimmed(info) && info[0] != '`'
    requires forall i :: 0 <= i < |inner| ==> !Closes(Fence('`', 3, info), inner[i])
    ensures var r := ReadAll(["```" + info] + inner + [CLOSING]);
      && r.open.None? && r.blocks == [FencedBlock(info, inner, 1)]
      && forall i :: 0 <= i < |r.visible| ==> r.visible[i] == ""
  {
    hide OpeningFence, Closes, ReadAll, Trimmed;
    Opens(info);
    OpenRead("```" + info, Fence('`', 3, info), inner);
    Ends(info);
    ReadLast(["```" + info] + inner, CLOSING);
  }

  /** Lines of which none opens a fence are all visible. */
  lemma {:induction false} PlainRead(lines: seq<string>)
    requires forall i :: 0 <= i < |lines| ==> OpeningFence(lines[i]).None?
    ensures ReadAll(lines) == Reading([], lines, None, [], 0)
    decreases |lines|
  {
    hide OpeningFence;
    if lines != [] {
      PlainRead(lines[..|lines| - 1]);
      assert lines == lines[..|lines| - 1] + [lines[|lines| - 1]];
    }
  }

  lemma {:induction false} NoFence(line: string)
    requires line == "" || (line[0] != ' ' && line[0] != '`' && line[0] != '~')
    ensures OpeningFence(line).None?
  {
    if line != "" { assert LeadingBlanks(line) == 0 && line[0..] == line; }
  }

  lemma {:induction false} HashFree(lines: seq<string>)
    requires forall i :: 0 <= i < |lines| ==> lines[i] == "" || lines[i][0] != '#'
    ensures Quiet(lines)
  {
    forall i | 0 <= i < |lines| ensures lines[i] != PLAN_SECTION && !EndsSection(lines[i]) {
      assert PLAN_SECTION[0] == '#';
      assert RunLength(lines[i], '#') == 0;
    }
  }

  lemma {:induction false} AroundContained(inner: seq<string>)
    requires AllInner(inner)
    ensures SelfContained(Around(inner))
  {
    hide OpeningFence, Closes, Bare, ReadAll, PlanGraphs, EndsSection;
    var head, fenced, tail := [PLAN_START, ""], [OPENING] + inner + [CLOSING], ["", NOTICE, "", PLAN_END];
    assert OPENING == "```" + "text";
    FencedRead("text", inner);
    TextGraph(ReadAll(fenced).blocks);
    SameLength(fenced);
    assert PLAN_START[0] == '<' && PLAN_END[0] == '<' && NOTICE[0] == 'S';
    NoFence(PLAN_START);
    NoFence(PLAN_END);
    NoFence(NOTICE);
    NoFence("");
    PlainRead(head);
    PlainRead(tail);
    ReadThree(head, fenced, tail);
    NoGraphs();
    assert Moved([], 2) == [] && Moved([], 2 + |fenced|) == [];
    var seen := ReadAll(Around(inner)).visible;
    assert seen == head + ReadAll(fenced).visible + tail;
    forall i | 0 <= i < |seen| ensures seen[i] == "" || seen[i][0] != '#' {
      if i < 2 { assert seen[i] == head[i]; } else if i >= 2 + |fenced| { assert seen[i] == tail[i - 2 - |fenced|]; }
    }
    HashFree(seen);
  }

  lemma {:induction false} TextGraph(blocks: seq<FencedBlock>)
    requires |blocks| == 1 && blocks[0].info == "text"
    ensures PlanGraphs(blocks) == []
  {
    assert "text"[0] != "plan-graph"[0];
    assert PlanGraphs(blocks[1..]) == [];
  }

  lemma {:induction false} NoGraphs()
    ensures PlanGraphs([]) == []
  {}

  // ---------------------------------------------------------------- markers of the view

  lemma {:induction false} TotalBare(lines: seq<string>, p: string)
    requires p == PLAN_START || p == PLAN_END
    requires forall i :: 0 <= i < |lines| ==> Bare(lines[i])
    ensures Total(lines, p) == 0
    decreases |lines|
  {
    hide Count, NoBreaks;
    if lines != [] { TotalBare(lines[1..], p); }
  }

  /** A text two characters longer than the pattern that differs from it at each of the three places. */
  lemma {:induction false} CountDiffers(s: string, p: string, k: nat)
    requires k < |p| && |s| == |p| + 2 && s[k] != p[k] && s[1] != p[0] && s[2] != p[0]
    ensures Count(s, p) == 0
  {
    assert s[..|p|][k] == s[k];
    CountLead(s[1], s[2..], p);
    CountLead(s[2], s[3..], p);
    assert s[1..] == [s[1]] + s[2..] && s[2..] == [s[2]] + s[3..];
    CountShort(s[3..], p);
  }

  lemma {:induction false} MarkersApart()
    ensures Count(PLAN_START, PLAN_END) == 0 && Count(PLAN_END, PLAN_START) == 0
  {
    hide Count;
    CountShort(PLAN_END, PLAN_START);
    assert PLAN_START[24] == 's' && PLAN_END[24] == 'e';
    CountDiffers(PLAN_START, PLAN_END, 24);
  }

  lemma {:induction false} NoticeCode()
    ensures Code(NOTICE)
  {
    var a, b, c := "Structural waves only; ", "external fences, gates ", "and capacity still govern admission.";
    assert Code(a);
    assert Code(b);
    assert Code(c);
    hide Code;
    CodeConcat(a, b);
    CodeConcat(a + b, c);
  }

  lemma {:induction false} FixedBare()
    ensures Bare("") && Bare(OPENING) && Bare(CLOSING) && Bare(NOTICE)
  {
    CodeBare("");
    CodeBare(OPENING);
    CodeBare(CLOSING);
    NoticeCode();
    CodeBare(NOTICE);
  }

  lemma {:induction false} AroundOnce(inner: seq<string>)
    requires AllInner(inner)
    ensures Total(Around(inner), PLAN_START) == 1 == Total(Around(inner), PLAN_END)
    ensures forall i :: 0 <= i < |Around(inner)| ==> NoBreaks(Around(inner)[i])
  {
    hide Count, Total, Closes, NoBreaks;
    FixedBare();
    MarkersApart();
    MarkerText();
    CountSelf(PLAN_START);
    CountSelf(PLAN_END);
    var most := ["", OPENING] + inner + [CLOSING, "", NOTICE, ""];
    assert Around(inner) == [PLAN_START] + most + [PLAN_END];
    TotalBare(most, PLAN_START);
    TotalBare(most, PLAN_END);
    Ends3(PLAN_START, most, PLAN_END, PLAN_START);
    Ends3(PLAN_START, most, PLAN_END, PLAN_END);
  }

  lemma {:induction false} Ends3(first: string, most: seq<string>, last: string, p: string)
    requires p != ""
    ensures Total([first] + most + [last], p) == Count(first, p) + Total(most, p) + Count(last, p)
  {
    TotalConcat([first] + most, [last], p);
    TotalConcat([first], most, p);
  }

  // ---------------------------------------------------------------- main results

  /** The view of a clean document holds each marker once and is self-contained. */
  lemma {:induction false} CleanView(d: Document, waves: map<string, nat>)
    requires CleanDocument(d)
    ensures MarkersOnce(DerivedView(d, waves)) && SelfContained(SplitLines(DerivedView(d, waves)))
  {
    hide CleanDocument, InnerLines, ViewBody, Count, SplitLines, SelfContained, NoBreaks, Around, AllInner;
    var inner := InnerLines(d, waves);
    ViewInner(d, waves);
    ViewLines(d, waves);
    AroundOnce(inner);
    AroundContained(inner);
    VisibleLines(Around(inner));
    AroundLast(inner);
    MarkerText();
    CountLines(DerivedView(d, waves), PLAN_START);
    CountLines(DerivedView(d, waves), PLAN_END);
  }

  lemma {:induction false} AroundLast(inner: seq<string>)
    ensures Dropped(Around(inner)) == Around(inner)
  {}

  lemma {:induction false} JoinTotal(lines: seq<string>, p: string)
    requires p != "" && '\n' !in p
    ensures Count(Join("\n", lines), p) == Total(lines, p)
    decreases |lines|
  {
    hide Count;
    if lines == [] {
      CountShort("", p);
    } else if |lines| == 1 {
      assert Total(lines, p) == Count(lines[0], p) + Total([], p);
    } else {
      JoinTotal(lines[1..], p);
      assert Join("\n", lines) == lines[0] + ['\n'] + Join("\n", lines[1..]);
      CountAcross(lines[0], '\n', Join("\n", lines[1..]), p);
    }
  }

  lemma {:induction false} TotalPart(lines: seq<string>, p: string, k: nat)
    requires p != "" && k < |lines|
    ensures Total(lines, p) >= Count(lines[k], p)
    decreases k
  {
    if k > 0 { TotalPart(lines[1..], p, k - 1); }
  }

  lemma {:induction false} TitleCounts(tasks: seq<Task>, waves: map<string, nat>, j: nat, marker: string)
    requires j < |tasks| && (marker == PLAN_START || marker == PLAN_END)
    ensures |TaskLines(tasks, waves)| == |tasks|
    ensures Count(TaskLines(tasks, waves)[j], marker) >= Count(tasks[j].title, marker)
  {
    hide Count, Bound, OrElse, NatText;
    var t, line := tasks[j], TaskLines(tasks, waves)[j];
    var lead := line[..|line| - |t.title| - 3];
    assert line == (lead + [' ']) + ['\U{B7}'] + ([' '] + t.title);
    DottedCount(lead, t.title, marker);
  }

  /** `_single_line` of a value: neither empty nor padded, and no control character. */
  predicate SingleLine(s: string) { s != "" && Strip(s) == s && forall i :: 0 <= i < |s| ==> s[i] >= ' ' }

  lemma {:induction false} StartSingle()
    ensures SingleLine(PLAN_START)
  {
    hide Strip;
    StripTrimmed(PLAN_START);
  }

  lemma {:induction false} EndSingle()
    ensures SingleLine(PLAN_END)
  {
    hide Strip;
    StripTrimmed(PLAN_END);
  }

  lemma {:induction false} ViewTotal(d: Document, waves: map<string, nat>, marker: string)
    requires marker == PLAN_START || marker == PLAN_END
    ensures Count(DerivedView(d, waves), marker) > Total(InnerLines(d, waves), marker)
  {
    hide Count, Total, InnerLines, ViewBody;
    var inner := InnerLines(d, waves);
    ViewLines(d, waves);
    assert '\n' !in marker by { MarkerText(); }
    JoinTotal(Around(inner), marker);
    var head, tail := [PLAN_START, "", OPENING], [CLOSING, "", NOTICE, "", PLAN_END];
    assert Around(inner) == head + inner + tail;
    TotalConcat(head + inner, tail, marker);
    TotalConcat(head, inner, marker);
    if marker == PLAN_START { TotalHolds(head, marker, 0); } else { TotalHolds(tail, marker, 4); }
  }

  /** A title that holds a marker gives a view that holds it more than once. */
  lemma {:induction false} MarkedView(d: Document, waves: map<string, nat>, i: nat, marker: string)
    requires marker == PLAN_START || marker == PLAN_END
    requires i < |d.tasks| && Count(d.tasks[i].title, marker) > 0
    ensures Count(DerivedView(d, waves), marker) > 1
  {
    hide Count, Total, TaskLines, SortTasks, WaveLines, EdgeLines, SortedEdges, Bound, OrElse, MaxWave;
    var tasks, inner := SortTasks(d.tasks), InnerLines(d, waves);
    var lines := TaskLines(tasks, waves);
    assert d.tasks[i] in multiset(d.tasks) && d.tasks[i] in multiset(tasks);
    var j :| 0 <= j < |tasks| && tasks[j] == d.tasks[i];
    TitleCounts(tasks, waves, j, marker);
    TotalPart(lines, marker, j);
    var before := inner[..|inner| - |lines|];
    assert inner == before + lines;
    TotalConcat(before, lines, marker);
    ViewTotal(d, waves, marker);
  }

  /** Sync refuses every plan in which a title holds a marker. The check of titles admits the markers. */
  lemma {:induction false} MarkedTitle(text: string, c: Checks, i: nat, marker: string)
    requires LoadBase(text, c).Ok? && (marker == PLAN_START || marker == PLAN_END)
    requires i < |LoadBase(text, c).value.document.tasks|
    requires Count(LoadBase(text, c).value.document.tasks[i].title, marker) > 0
    ensures SyncPlan(text, c).Err? && SingleLine(marker)
  {
    hide LoadBase, LoadPlan, DerivedView, ViewStart, ViewEnd, Count, SingleLine;
    StartSingle();
    EndSingle();
    var plan := LoadBase(text, c).value;
    MarkedView(plan.document, plan.waves, i, marker);
    if MarkersOrdered(text) {
      CountWithin(Pre(text), ViewOf(plan), Post(text), marker);
      SyncStep(text, c, plan, Rewritten(text, plan));
    }
  }

  /** On a plan with a clean document, in which front matter and task table end before the view, sync succeeds
      exactly when the markers are bounded by line breaks and stand outside fences in the section, and the graph does
      not stand between them. The text between the markers closes the fences it opens. */
  lemma {:induction false} SyncSucceeds(text: string, c: Checks)
    requires MarkersOrdered(text) && LoadBase(text, c).Ok? && ReadAll(SplitLines(Piece(text))).open.None?
    requires CleanDocument(LoadBase(text, c).value.document) && Settled(text)
    ensures SyncPlan(text, c).Ok? <==> Placed(text)
    ensures SyncPlan(text, c).Ok? ==> SyncPlan(text, c).value == Rewritten(text, LoadBase(text, c).value)
  {
    hide LoadBase, SyncPlan, DerivedView, MarkersOnce, ViewStart, ViewEnd, SplitLines, ReadAll, PlanGraphs, Quiet,
      CleanDocument, Settled, Placed, StillAdmitted;
    CleanView(LoadBase(text, c).value.document, LoadBase(text, c).value.waves);
    if Placed(text) { SettledAdmits(text, c); }
    SyncExactly(text, c);
  }
}

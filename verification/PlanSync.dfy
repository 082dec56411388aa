/** The derived view of a plan and its synchronisation: sync rewrites only the text between the two
    markers, and a plan passes the full check exactly when sync leaves it alone. */
module PlanSync {
  import opened Lists
  import opened Text
  import opened PlanGraph
  import opened PlanMarkdown
  import opened TextLines
  import opened YamlWriter

  datatype Task = Task(id: string, title: string, phase: string, jira: Option<string>, kontor: Option<string>,
    dependsOn: seq<string>)

  datatype Document = Document(epicJira: Option<string>, epicKontor: Option<string>, tasks: seq<Task>)

  const PLAN_SECTION := "### 2.5 Dependency Graph and Waves"
  const PLAN_START := "<!-- plan-graph:derived:start -->"
  const PLAN_END := "<!-- plan-graph:derived:end -->"

  const NOTICE := "Structural waves only; " + "external fences, gates " + "and capacity still govern admission."

  // ---------------------------------------------------------------- the derived view

  function Ids(tasks: seq<Task>): (r: seq<string>)
    ensures |r| == |tasks| && forall i :: 0 <= i < |r| ==> r[i] == tasks[i].id
  {
    seq(|tasks|, i requires 0 <= i < |tasks| => tasks[i].id)
  }

  /** The dependency relation of a document, as the graph loop reads it. */
  function GraphOf(d: Document): TaskGraph {
    TaskGraph(Ids(d.tasks), DependenciesOf(d.tasks))
  }

  function DependenciesOf(tasks: seq<Task>): map<string, seq<string>> {
    if tasks == [] then map[] else DependenciesOf(tasks[1..])[tasks[0].id := tasks[0].dependsOn]
  }

  function InsertTask(t: Task, s: seq<Task>): (r: seq<Task>)
    ensures multiset(r) == multiset(s) + multiset{t}
  {
    if s == [] then [t]
    else if Leq(t.id, s[0].id) then [t] + s
    else
      assert s == [s[0]] + s[1..];
      [s[0]] + InsertTask(t, s[1..])
  }

  /** `sorted(tasks, key=id)`. */
  function SortTasks(s: seq<Task>): (r: seq<Task>)
    ensures multiset(r) == multiset(s)
  {
    if s == [] then []
    else
      assert s == [s[0]] + s[1..];
      InsertTask(s[0], SortTasks(s[1..]))
  }

  /** The ids on the line of one wave. */
  function WaveIds(tasks: seq<Task>, waves: map<string, nat>, wave: nat): seq<string> {
    if tasks == [] then []
    else
      (if tasks[0].id in waves && waves[tasks[0].id] == wave then [tasks[0].id] else []) +
      WaveIds(tasks[1..], waves, wave)
  }

  function MaxWave(tasks: seq<Task>, waves: map<string, nat>): nat {
    if tasks == [] then 0
    else
      var rest := MaxWave(tasks[1..], waves);
      if tasks[0].id in waves && waves[tasks[0].id] > rest then waves[tasks[0].id] else rest
  }

  function WaveLines(tasks: seq<Task>, waves: map<string, nat>, wave: nat, last: nat): seq<string>
    decreases last + 1 - wave
  {
    if wave > last then []
    else
      var ids := WaveIds(tasks, waves, wave);
      ["wave " + NatText(wave) + "   " + Join("  ", ids) + "   (" + NatText(|ids|) + " nodes)"] +
      WaveLines(tasks, waves, wave + 1, last)
  }

  datatype Edge = Edge(from: string, to: string)

  predicate EdgeLeq(a: Edge, b: Edge) {
    if a.from == b.from then Leq(a.to, b.to) else Leq(a.from, b.from)
  }

  function InsertEdge(e: Edge, s: seq<Edge>): seq<Edge> {
    if s == [] then [e] else if EdgeLeq(e, s[0]) then [e] + s else [s[0]] + InsertEdge(e, s[1..])
  }

  function EdgesOf(id: string, deps: seq<string>, rest: seq<Edge>): seq<Edge> {
    if deps == [] then rest else InsertEdge(Edge(deps[0], id), EdgesOf(id, deps[1..], rest))
  }

  function SortedEdges(tasks: seq<Task>): seq<Edge> {
    if tasks == [] then [] else EdgesOf(tasks[0].id, tasks[0].dependsOn, SortedEdges(tasks[1..]))
  }

  function EdgeLines(edges: seq<Edge>): seq<string> {
    seq(|edges|, i requires 0 <= i < |edges| => "  " + edges[i].from + " -> " + edges[i].to)
  }

  function OrElse(o: Option<string>, otherwise: string): string {
    if o.Some? && o.value != "" then o.value else otherwise
  }

  function Bound(binding: string, kontor: Option<string>): string {
    binding + (if kontor.Some? && kontor.value != "" then " \U{B7} " + kontor.value else "")
  }

  function TaskLines(tasks: seq<Task>, waves: map<string, nat>): seq<string> {
    seq(|tasks|, i requires 0 <= i < |tasks| =>
      var t := tasks[i];
      "  " + t.id + " \U{B7} " + Bound(OrElse(t.jira, "unbound"), t.kontor) + " \U{B7} " + t.phase +
      " \U{B7} wave " + NatText(if t.id in waves then waves[t.id] else 0) + " \U{B7} " + t.title)
  }

  /** The lines after the start marker. */
  function ViewBody(d: Document, waves: map<string, nat>): seq<string> {
    var tasks := SortTasks(d.tasks);
    var edges := EdgeLines(SortedEdges(tasks));
    ["", "```text"] + WaveLines(tasks, waves, 0, MaxWave(tasks, waves)) +
    ["", "Dependencies (prerequisite -> dependent):"] + (if edges == [] then ["  none"] else edges) +
    ["", Bound(OrElse(d.epicJira, "unbound epic"), d.epicKontor)] + TaskLines(tasks, waves) +
    ["```", "", NOTICE, "", PLAN_END]
  }

  function DerivedView(d: Document, waves: map<string, nat>): string {
    Join("\n", [PLAN_START] + ViewBody(d, waves))
  }

  // ---------------------------------------------------------------- every task in one wave line

  lemma {:induction false} WaveIdsMembers(tasks: seq<Task>, waves: map<string, nat>, wave: nat, id: string)
    ensures id in WaveIds(tasks, waves, wave) <==> id in Ids(tasks) && id in waves && waves[id] == wave
    decreases |tasks|
  {
    if tasks != [] {
      WaveIdsMembers(tasks[1..], waves, wave, id);
      assert Ids(tasks) == [tasks[0].id] + Ids(tasks[1..]);
    }
  }

  lemma {:induction false} WaveIdsDistinct(tasks: seq<Task>, waves: map<string, nat>, wave: nat)
    requires Distinct(Ids(tasks))
    ensures Distinct(WaveIds(tasks, waves, wave))
    decreases |tasks|
  {
    if tasks != [] {
      var ids, rest := Ids(tasks), Ids(tasks[1..]);
      assert forall i :: 0 <= i < |rest| ==> rest[i] == ids[i + 1];
      WaveIdsDistinct(tasks[1..], waves, wave);
      WaveIdsMembers(tasks[1..], waves, wave, tasks[0].id);
    }
  }

  lemma {:induction false} MaxWaveBounds(tasks: seq<Task>, waves: map<string, nat>)
    ensures forall i :: 0 <= i < |tasks| && tasks[i].id in waves ==> waves[tasks[i].id] <= MaxWave(tasks, waves)
    ensures MaxWave(tasks, waves) > 0 ==>
              exists i :: 0 <= i < |tasks| && tasks[i].id in waves && waves[tasks[i].id] == MaxWave(tasks, waves)
    decreases |tasks|
  {
    if tasks != [] {
      MaxWaveBounds(tasks[1..], waves);
      assert forall i :: 0 <= i < |tasks[1..]| ==> tasks[1..][i] == tasks[i + 1];
    }
  }

  /** Below a task of some wave there is a task of every lower wave. */
  lemma {:induction false} LowerWave(g: TaskGraph, waves: map<string, nat>, k: string, wave: nat) returns (low: string)
    requires KnownDependencies(g) && WaveRule(g, waves) && k in g.ids && wave <= waves[k]
    ensures low in g.ids && waves[low] == wave
    decreases waves[k]
  {
    if waves[k] == wave {
      low := k;
    } else {
      assert WaveStep(g, waves, k);
      var d :| DependsOn(g, k, d) && d in waves && waves[d] + 1 == waves[k];
      low := LowerWave(g, waves, d, wave);
    }
  }

  lemma {:induction false} IdsCons(t: Task, s: seq<Task>)
    ensures Ids([t] + s) == [t.id] + Ids(s)
  {}

  lemma {:induction false} InsertTaskIds(t: Task, s: seq<Task>)
    ensures multiset(Ids(InsertTask(t, s))) == multiset(Ids(s)) + multiset{t.id}
    decreases |s|
  {
    hide Ids, Leq;
    if s == [] {
      IdsCons(t, []);
      assert InsertTask(t, s) == [t] + s;
    } else if Leq(t.id, s[0].id) {
      IdsCons(t, s);
    } else {
      InsertTaskIds(t, s[1..]);
      IdsCons(s[0], s[1..]);
      assert s == [s[0]] + s[1..];
      IdsCons(s[0], InsertTask(t, s[1..]));
    }
  }

  lemma {:induction false} SortTasksCount(tasks: seq<Task>)
    ensures multiset(Ids(SortTasks(tasks))) == multiset(Ids(tasks))
    decreases |tasks|
  {
    hide Ids, InsertTask;
    if tasks != [] {
      SortTasksCount(tasks[1..]);
      InsertTaskIds(tasks[0], SortTasks(tasks[1..]));
      assert tasks == [tasks[0]] + tasks[1..];
      IdsCons(tasks[0], tasks[1..]);
    }
  }

  lemma {:induction false} SortTasksIds(tasks: seq<Task>)
    ensures forall id :: id in Ids(SortTasks(tasks)) <==> id in Ids(tasks)
    ensures Distinct(Ids(tasks)) ==> Distinct(Ids(SortTasks(tasks)))
  {
    hide Ids, SortTasks, Distinct;
    SortTasksCount(tasks);
    forall id ensures id in Ids(SortTasks(tasks)) <==> id in Ids(tasks) {
      assert id in multiset(Ids(SortTasks(tasks))) <==> id in multiset(Ids(tasks));
    }
    if Distinct(Ids(tasks)) {
      DistinctCounts(Ids(tasks));
      CountsDistinct(Ids(SortTasks(tasks)));
    }
  }

  ghost predicate Partitioned(d: Document, waves: map<string, nat>) {
    var tasks := SortTasks(d.tasks);
    && (forall id, w: nat :: id in WaveIds(tasks, waves, w) <==> id in Ids(d.tasks) && id in waves && waves[id] == w)
    && (forall id :: id in Ids(d.tasks) ==>
          id in waves && waves[id] <= MaxWave(tasks, waves) && IsLongest(GraphOf(d), id, waves[id]))
    && (forall w: nat :: Distinct(WaveIds(tasks, waves, w)))
    && (forall w: nat :: w <= MaxWave(tasks, waves) ==> WaveIds(tasks, waves, w) != [])
  }

  /** On an accepted graph the wave lines list every task once, on the line of its longest chain, and no
      line from wave 0 to the last is empty. */
  lemma {:induction false} WaveLinesPartition(d: Document, waves: map<string, nat>)
    requires d.tasks != [] && Distinct(Ids(d.tasks))
    requires KnownDependencies(GraphOf(d)) && WaveRule(GraphOf(d), waves)
    ensures Partitioned(d, waves)
  {
    hide SortTasks, Ids, WaveIds, MaxWave, IsLongest, WaveStep, KnownDependencies, Distinct;
    var tasks := SortTasks(d.tasks);
    SortTasksIds(d.tasks);
    forall id, w: nat ensures id in WaveIds(tasks, waves, w) <==> id in Ids(d.tasks) && id in waves && waves[id] == w {
      WaveIdsMembers(tasks, waves, w, id);
    }
    forall w: nat ensures Distinct(WaveIds(tasks, waves, w)) { WaveIdsDistinct(tasks, waves, w); }
    forall id | id in Ids(d.tasks)
      ensures id in waves && waves[id] <= MaxWave(tasks, waves) && IsLongest(GraphOf(d), id, waves[id])
    {
      BelowMax(tasks, waves, id);
      WavesLongest(GraphOf(d), waves, id);
    }
    forall w: nat | w <= MaxWave(tasks, waves) ensures WaveIds(tasks, waves, w) != [] {
      var top := TopTask(d, waves);
      var low := LowerWave(GraphOf(d), waves, top, w);
      WaveIdsMembers(tasks, waves, w, low);
    }
  }

  lemma {:induction false} BelowMax(tasks: seq<Task>, waves: map<string, nat>, id: string)
    requires id in Ids(tasks) && id in waves
    ensures waves[id] <= MaxWave(tasks, waves)
  {
    hide MaxWave;
    MaxWaveBounds(tasks, waves);
    var i :| 0 <= i < |Ids(tasks)| && Ids(tasks)[i] == id;
    assert tasks[i].id == id;
  }

  lemma {:induction false} TopTask(d: Document, waves: map<string, nat>) returns (top: string)
    requires d.tasks != [] && WaveRule(GraphOf(d), waves)
    ensures top in GraphOf(d).ids && waves[top] >= MaxWave(SortTasks(d.tasks), waves)
  {
    var tasks := SortTasks(d.tasks);
    SortTasksIds(d.tasks);
    MaxWaveBounds(tasks, waves);
    if MaxWave(tasks, waves) > 0 {
      var i :| 0 <= i < |tasks| && tasks[i].id in waves && waves[tasks[i].id] == MaxWave(tasks, waves);
      assert Ids(tasks)[i] == tasks[i].id;
      top := tasks[i].id;
    } else {
      assert Ids(d.tasks)[0] == d.tasks[0].id;
      top := d.tasks[0].id;
    }
  }

  // ---------------------------------------------------------------- loading and syncing

  datatype PlanError =
    | UnclosedFence | SectionHeading | PlanGraphFences | OutsideSection | NotJson | NotAdmitted | GraphRefused
    | MarkerCount | StaleView | ViewOutsideSection | ReversedMarkers

  datatype PlanResult<+T> = Ok(value: T) | Err(error: PlanError) {
    predicate IsFailure() { Err? }
    function PropagateFailure<U>(): PlanResult<U> requires Err? { Err(error) }
    function Extract(): T requires Ok? { value }
  }

  /** The checks that are not modelled here: JSON, whether the text of the front matter and that of the task table
      fit the document, and the graph. */
  datatype Checks = Checks(
    decode: string -> Option<Document>,
    admits: (string, string, Document) -> bool,
    validate: Document -> Option<map<string, nat>>)

  // ---------------------------------------------------------------- front matter and task table

  const STEPS := "## 2. Implementation Steps"

  /** A line of three dashes; a carriage return may end it, but not the text. */
  predicate IsRule(lines: seq<string>, i: nat)
    requires i < |lines|
  {
    lines[i] == "---" || (lines[i] == "---\r" && i + 1 < |lines|)
  }

  /** The first such line from `i` on. */
  function RuleFrom(lines: seq<string>, i: nat): (r: Option<nat>)
    ensures r.Some? ==> i <= r.value < |lines| && IsRule(lines, r.value)
    decreases |lines| - i
  {
    if i >= |lines| then None else if IsRule(lines, i) then Some(i) else RuleFrom(lines, i + 1)
  }

  /** What stands between the first line, a rule, and the next rule after at least one more line. */
  function FrontMatter(text: string): Option<string> {
    var lines := SplitOn(text, '\n');
    if |lines| == 1 || !IsRule(lines, 0) then None
    else
      match RuleFrom(lines, 2)
      case None => None
      case Some(end) =>
        var body := Join("\n", lines[1..end]);
        Some(if body != "" && body[|body| - 1] == '\r' then body[..|body| - 1] else body)
  }

  /** What is visible between the heading of the steps and the next mention of the section. */
  function TableText(visible: string): Option<string> {
    if Count(visible, STEPS) == 0 then None
    else
      var rest := visible[Index(visible, STEPS) + |STEPS|..];
      Some(if Count(rest, PLAN_SECTION) == 0 then rest else rest[..Index(rest, PLAN_SECTION)])
  }

  predicate Admitted(c: Checks, text: string, visible: string, document: Document) {
    FrontMatter(text).Some? && TableText(visible).Some? &&
    c.admits(FrontMatter(text).value, TableText(visible).value, document)
  }

  /** The graph check as it is: at least one task, distinct ids, and the waves that `PlanWaves` accepts. */
  ghost predicate Validates(validate: Document -> Option<map<string, nat>>) {
    forall d :: validate(d).Some? ==>
      d.tasks != [] && Checked(GraphOf(d)) && WavesFit(GraphOf(d), validate(d).value)
  }

  datatype Loaded = Loaded(document: Document, waves: map<string, nat>, section: seq<string>)

  /** The places of the section heading among the visible lines. */
  function HeadingsFrom(lines: seq<string>, i: nat): seq<nat>
    decreases |lines| - i
  {
    if i >= |lines| then []
    else (if lines[i] == PLAN_SECTION then [i] else []) + HeadingsFrom(lines, i + 1)
  }

  /** One to three hashes and a blank. */
  predicate EndsSection(line: string) {
    var n := RunLength(line, '#');
    1 <= n <= 3 && n < |line| && line[n] == ' '
  }

  function SectionEnd(lines: seq<string>, i: nat): (end: nat)
    requires i <= |lines|
    ensures i <= end <= |lines|
    decreases |lines| - i
  {
    if i == |lines| || EndsSection(lines[i]) then i else SectionEnd(lines, i + 1)
  }

  function PlanGraphs(blocks: seq<FencedBlock>): seq<FencedBlock> {
    if blocks == [] then []
    else (if blocks[0].info == "plan-graph" then [blocks[0]] else []) + PlanGraphs(blocks[1..])
  }

  /** Everything the loader checks before it looks at the derived view. */
  function LoadBase(text: string, c: Checks): PlanResult<Loaded> {
    var parts := ReadAll(SplitLines(text));
    if parts.open.Some? then Err(UnclosedFence)
    else
      var visible := Join("\n", parts.visible);
      var lines := SplitLines(visible);
      var headings := HeadingsFrom(lines, 0);
      if |headings| != 1 || headings[0] >= |lines| then Err(SectionHeading)
      else
        var start, end := headings[0] + 1, SectionEnd(lines, headings[0] + 1);
        var graphs := PlanGraphs(parts.blocks);
        if |graphs| != 1 then Err(PlanGraphFences)
        else if !(start < graphs[0].line < end + 1) then Err(OutsideSection)
        else
          match c.decode(Join("\n", graphs[0].body))
          case None => Err(NotJson)
          case Some(document) =>
            if !Admitted(c, text, visible, document) then Err(NotAdmitted)
            else
              match c.validate(document)
              case None => Err(GraphRefused)
              case Some(waves) => Ok(Loaded(document, waves, lines[start..end]))
  }

  predicate MarkersOnce(text: string) { Count(text, PLAN_START) == 1 && Count(text, PLAN_END) == 1 }

  function ViewStart(text: string): (i: nat)
    requires MarkersOnce(text)
    ensures i <= |text|
  {
    Index(text, PLAN_START)
  }

  function ViewEnd(text: string): (i: nat)
    requires MarkersOnce(text)
    ensures |PLAN_END| <= i <= |text|
  {
    Index(text, PLAN_END) + |PLAN_END|
  }

  /** A slice that is empty when its bounds are reversed. */
  function Slice(text: string, i: nat, j: nat): string
    requires i <= |text| && j <= |text|
  {
    if i < j then text[i..j] else ""
  }

  function LoadPlan(text: string, c: Checks, checkDerived: bool): PlanResult<Loaded> {
    var plan :- LoadBase(text, c);
    if !checkDerived then Ok(plan)
    else if !MarkersOnce(text) then Err(MarkerCount)
    else if Slice(text, ViewStart(text), ViewEnd(text)) != DerivedView(plan.document, plan.waves) then Err(StaleView)
    else if PLAN_START !in plan.section || PLAN_END !in plan.section then Err(ViewOutsideSection)
    else Ok(plan)
  }

  function SyncPlan(text: string, c: Checks): PlanResult<string> {
    var plan :- LoadPlan(text, c, false);
    if !MarkersOnce(text) then Err(MarkerCount)
    else if ViewStart(text) >= ViewEnd(text) then Err(ReversedMarkers)
    else
      var updated := text[..ViewStart(text)] + DerivedView(plan.document, plan.waves) + text[ViewEnd(text)..];
      var checked :- LoadPlan(updated, c, true);
      Ok(updated)
  }

  lemma {:induction false} LoadedWaves(text: string, c: Checks, checkDerived: bool)
    requires LoadPlan(text, c, checkDerived).Ok?
    ensures var plan := LoadPlan(text, c, checkDerived).value; c.validate(plan.document) == Some(plan.waves)
  {
    hide DerivedView, Count, Index, SplitLines, ReadAll, PlanGraphs, SectionEnd, HeadingsFrom;
  }

  lemma {:induction false} ViewNotEmpty(d: Document, waves: map<string, nat>)
    ensures DerivedView(d, waves) != ""
  {
    hide ViewBody;
    JoinFirst("\n", PLAN_START, ViewBody(d, waves));
  }

  lemma {:induction false} JoinFirst(separator: string, first: string, rest: seq<string>)
    ensures first <= Join(separator, [first] + rest)
  {
    assert ([first] + rest)[1..] == rest;
  }

  /** A plan passes the full check exactly when sync returns it unchanged. */
  lemma {:induction false} SyncFixpoint(text: string, c: Checks)
    ensures LoadPlan(text, c, true).Ok? <==> SyncPlan(text, c) == Ok(text)
  {
    hide LoadBase, DerivedView, Count, Index;
    var base := LoadBase(text, c);
    if LoadPlan(text, c, true).Ok? {
      ViewNotEmpty(base.value.document, base.value.waves);
      var i, j := ViewStart(text), ViewEnd(text);
      assert i < j && text[..i] + text[i..j] + text[j..] == text;
    }
  }

  /** What sync returns passes the full check, equals the input outside the markers, and syncs to itself. */
  lemma {:induction false} SyncResult(text: string, c: Checks)
    requires SyncPlan(text, c).Ok?
    ensures var updated := SyncPlan(text, c).value;
      && LoadPlan(updated, c, true).Ok?
      && SyncPlan(updated, c) == Ok(updated)
      && MarkersOnce(text) && ViewStart(text) < ViewEnd(text)
      && text[..ViewStart(text)] <= updated
      && |text[ViewEnd(text)..]| <= |updated| && updated[|updated| - |text[ViewEnd(text)..]|..] == text[ViewEnd(text)..]
  {
    hide LoadBase, DerivedView, Count, Index;
    SyncFixpoint(SyncPlan(text, c).value, c);
  }
}

/** What the derived view of a plan says, line by line: each wave, each dependency and each task of the graph. */
module PlanView {
  import opened Lists
  import opened Text
  import opened PlanGraph
  import opened PlanSync
  import opened YamlWriter

  // ---------------------------------------------------------------- the picture of a graph

  /** The line of a wave: its number, the tasks whose longest chain has that many dependencies, by id, and how many
      they are. */
  ghost predicate WaveShown(d: Document, wave: nat, line: string) {
    exists ids: seq<string> ::
      && line == "wave " + NatText(wave) + "   " + Join("  ", ids) + "   (" + NatText(|ids|) + " nodes)"
      && ids != [] && IsSorted(ids) && Distinct(ids)
      && forall id :: id in ids <==> id in Ids(d.tasks) && IsLongest(GraphOf(d), id, wave)
  }

  /** One line for each wave from 0 on, up to the last one a task has. */
  ghost predicate WavesShown(d: Document, lines: seq<string>) {
    && (forall w: nat :: w < |lines| ==> WaveShown(d, w, lines[w]))
    && forall id, w: nat :: id in Ids(d.tasks) && IsLongest(GraphOf(d), id, w) ==> w < |lines|
  }

  /** By the prerequisite, then by the dependent, and none twice. */
  predicate EdgesInOrder(edges: seq<Edge>) {
    forall i, j :: 0 <= i < j < |edges| ==> Precedes(edges[i], edges[j])
  }

  predicate Precedes(a: Edge, b: Edge) {
    a != b && Leq(a.from, b.from) && (a.from == b.from ==> Leq(a.to, b.to))
  }

  /** One line for each dependency of the graph, or a line that says there is none. */
  ghost predicate EdgesShown(d: Document, lines: seq<string>) {
    exists edges: seq<Edge> ::
      && EdgesInOrder(edges) && (forall e :: e in edges <==> DependsOn(GraphOf(d), e.to, e.from))
      && if edges == [] then lines == ["  none"]
         else
           |lines| == |edges| &&
           forall i :: 0 <= i < |edges| ==> lines[i] == "  " + edges[i].from + " -> " + edges[i].to
  }

  /** The tracker key, or that there is none, and then the local id if there is one. */
  predicate Names(text: string, jira: Option<string>, kontor: Option<string>, unbound: string) {
    var key := jira.Some? && jira.value != "";
    var bound := kontor.Some? && kontor.value != "";
    && (key && bound ==> text == jira.value + " \U{B7} " + kontor.value)
    && (key && !bound ==> text == jira.value)
    && (!key && bound ==> text == unbound + " \U{B7} " + kontor.value)
    && (!key && !bound ==> text == unbound)
  }

  ghost predicate TaskShown(d: Document, t: Task, line: string) {
    exists wave: nat, binding ::
      && IsLongest(GraphOf(d), t.id, wave) && Names(binding, t.jira, t.kontor, "unbound")
      && line == "  " + t.id + " \U{B7} " + binding + " \U{B7} " + t.phase + " \U{B7} wave " + NatText(wave) +
                 " \U{B7} " +
                 t.title
  }

  /** One line for each task, by id. */
  ghost predicate TasksShown(d: Document, lines: seq<string>) {
    exists tasks: seq<Task> ::
      && multiset(tasks) == multiset(d.tasks) && IsSorted(Ids(tasks)) && |lines| == |tasks|
      && forall i :: 0 <= i < |tasks| ==> TaskShown(d, tasks[i], lines[i])
  }

  /** The view of a document, from marker to marker. */
  ghost predicate Pictured(d: Document, view: string) {
    exists waves, edges, epic, tasks ::
      && WavesShown(d, waves) && EdgesShown(d, edges) && TasksShown(d, tasks)
      && Names(epic, d.epicJira, d.epicKontor, "unbound epic")
      && view == Join("\n", Picture(waves, edges, epic, tasks))
  }

  function Picture(waves: seq<string>, edges: seq<string>, epic: string, tasks: seq<string>): seq<string> {
    ["<!-- plan-graph:derived:start -->", "", "```text"] + waves +
    ["", "Dependencies (prerequisite -> dependent):"] + edges + ["", epic] + tasks +
    ["```", "", NOTICE, "", "<!-- plan-graph:derived:end -->"]
  }

  // ---------------------------------------------------------------- the order of the tasks

  lemma {:induction false} InsertTaskSorted(t: Task, s: seq<Task>)
    requires IsSorted(Ids(s))
    ensures IsSorted(Ids(InsertTask(t, s)))
    decreases |s|
  {
    hide Leq;
    var r := InsertTask(t, s);
    if s == [] {
    } else if Leq(t.id, s[0].id) {
      IdsCons(t, s);
      forall i | 0 <= i < |s| ensures Leq(t.id, Ids(s)[i]) {
        if i > 0 { LeqTransitive(t.id, s[0].id, s[i].id); }
      }
    } else {
      LeqTotal(t.id, s[0].id);
      var rest := InsertTask(t, s[1..]);
      assert forall i :: 0 <= i < |s[1..]| ==> Ids(s[1..])[i] == Ids(s)[i + 1];
      InsertTaskSorted(t, s[1..]);
      IdsCons(s[0], rest);
      assert r == [s[0]] + rest;
      forall i | 0 <= i < |rest| ensures Leq(s[0].id, Ids(rest)[i]) {
        assert rest[i] in multiset(rest);
        if rest[i] != t {
          assert rest[i] in s[1..];
          var j :| 0 <= j < |s[1..]| && s[1..][j] == rest[i];
          assert Leq(Ids(s)[0], Ids(s)[j + 1]);
        }
      }
    }
  }

  lemma {:induction false} SortTasksSorted(tasks: seq<Task>)
    ensures IsSorted(Ids(SortTasks(tasks)))
    decreases |tasks|
  {
    if tasks != [] {
      SortTasksSorted(tasks[1..]);
      InsertTaskSorted(tasks[0], SortTasks(tasks[1..]));
    }
  }

  lemma {:induction false} WaveIdsSorted(tasks: seq<Task>, waves: map<string, nat>, wave: nat)
    requires IsSorted(Ids(tasks))
    ensures IsSorted(WaveIds(tasks, waves, wave))
    decreases |tasks|
  {
    if tasks != [] {
      hide Leq;
      var ids, rest := Ids(tasks), Ids(tasks[1..]);
      assert forall i :: 0 <= i < |rest| ==> rest[i] == ids[i + 1];
      WaveIdsSorted(tasks[1..], waves, wave);
      var more := WaveIds(tasks[1..], waves, wave);
      forall i | 0 <= i < |more| ensures Leq(ids[0], more[i]) {
        WaveIdsMembers(tasks[1..], waves, wave, more[i]);
        var j :| 0 <= j < |rest| && rest[j] == more[i];
        assert ids[j + 1] == more[i];
      }
    }
  }

  // ---------------------------------------------------------------- the lines of the waves

  lemma {:induction false} WaveLineAt(tasks: seq<Task>, waves: map<string, nat>, wave: nat, last: nat, i: nat)
    requires wave <= last + 1
    ensures |WaveLines(tasks, waves, wave, last)| == last + 1 - wave
    ensures var ids := WaveIds(tasks, waves, wave + i);
      i < last + 1 - wave ==>
        WaveLines(tasks, waves, wave, last)[i] ==
        "wave " + NatText(wave + i) + "   " + Join("  ", ids) + "   (" + NatText(|ids|) + " nodes)"
    decreases last + 1 - wave
  {
    hide WaveIds, NatText, Join;
    if wave <= last {
      WaveLineAt(tasks, waves, wave + 1, last, if i > 0 then i - 1 else 0);
    }
  }

  lemma {:induction false} LongestUnique(g: TaskGraph, k: string, m: nat, n: nat)
    requires IsLongest(g, k, m) && IsLongest(g, k, n)
    ensures m == n
  {
    var c :| ChainFrom(g, c, k) && |c| == m + 1;
    var e :| ChainFrom(g, e, k) && |e| == n + 1;
  }

  lemma {:induction false} WaveIsLongest(d: Document, waves: map<string, nat>, id: string, w: nat)
    requires Partitioned(d, waves)
    ensures id in WaveIds(SortTasks(d.tasks), waves, w) <==> id in Ids(d.tasks) && IsLongest(GraphOf(d), id, w)
  {
    hide IsLongest, SortTasks, Ids, WaveIds, MaxWave, Distinct, GraphOf;
    if id in Ids(d.tasks) && IsLongest(GraphOf(d), id, w) { LongestUnique(GraphOf(d), id, w, waves[id]); }
  }

  lemma {:induction false} WavePictured(d: Document, waves: map<string, nat>, w: nat)
    requires Partitioned(d, waves) && w <= MaxWave(SortTasks(d.tasks), waves)
    ensures var tasks := SortTasks(d.tasks);
      var lines := WaveLines(tasks, waves, 0, MaxWave(tasks, waves));
      w < |lines| && WaveShown(d, w, lines[w])
  {
    hide IsLongest, SortTasks, Ids, WaveIds, MaxWave, WaveLines, Distinct, Join, NatText, GraphOf, Partitioned,
        IsSorted;
    var tasks := SortTasks(d.tasks);
    var ids := WaveIds(tasks, waves, w);
    WaveLineAt(tasks, waves, 0, MaxWave(tasks, waves), w);
    SortTasksSorted(d.tasks);
    WaveIdsSorted(tasks, waves, w);
    forall id ensures id in ids <==> id in Ids(d.tasks) && IsLongest(GraphOf(d), id, w) {
      WaveIsLongest(d, waves, id, w);
    }
    WaveLineFull(d, waves, w);
  }

  lemma {:induction false} WaveLineFull(d: Document, waves: map<string, nat>, w: nat)
    requires Partitioned(d, waves) && w <= MaxWave(SortTasks(d.tasks), waves)
    ensures Distinct(WaveIds(SortTasks(d.tasks), waves, w)) && WaveIds(SortTasks(d.tasks), waves, w) != []
  {
    hide IsLongest, SortTasks, Ids, WaveIds, MaxWave, Distinct, GraphOf;
  }

  lemma {:induction false} WavesPictured(d: Document, waves: map<string, nat>)
    requires Partitioned(d, waves)
    ensures var tasks := SortTasks(d.tasks); WavesShown(d, WaveLines(tasks, waves, 0, MaxWave(tasks, waves)))
  {
    hide IsLongest, SortTasks, Ids, WaveIds, MaxWave, WaveLines, Distinct, GraphOf, WaveShown;
    var tasks := SortTasks(d.tasks);
    var last := MaxWave(tasks, waves);
    var lines := WaveLines(tasks, waves, 0, last);
    WaveLineAt(tasks, waves, 0, last, 0);
    forall w: nat | w < |lines| ensures WaveShown(d, w, lines[w]) { WavePictured(d, waves, w); }
    forall id, w: nat | id in Ids(d.tasks) && IsLongest(GraphOf(d), id, w) ensures w < |lines| {
      LongestUnique(GraphOf(d), id, w, waves[id]);
    }
  }

  // ---------------------------------------------------------------- the lines of the dependencies

  lemma {:induction false} InsertEdgeMembers(e: Edge, s: seq<Edge>)
    ensures forall x :: x in InsertEdge(e, s) <==> x == e || x in s
    decreases |s|
  {
    hide EdgeLeq;
    if s != [] && !EdgeLeq(e, s[0]) {
      InsertEdgeMembers(e, s[1..]);
      assert s == [s[0]] + s[1..];
    }
  }

  lemma {:induction false} EdgesCons(e: Edge, s: seq<Edge>)
    ensures EdgesInOrder([e] + s) <==> EdgesInOrder(s) && forall x :: x in s ==> Precedes(e, x)
  {
    hide Precedes;
    var all := [e] + s;
    if EdgesInOrder(all) {
      forall i, j | 0 <= i < j < |s| ensures Precedes(s[i], s[j]) { assert Precedes(all[i + 1], all[j + 1]); }
      forall x | x in s ensures Precedes(e, x) {
        var i :| 0 <= i < |s| && s[i] == x;
        assert Precedes(all[0], all[i + 1]);
      }
    }
  }

  lemma {:induction false} InsertEdgeOrder(e: Edge, s: seq<Edge>)
    requires EdgesInOrder(s) && e !in s
    ensures EdgesInOrder(InsertEdge(e, s))
    decreases |s|
  {
    hide EdgesInOrder, Precedes, EdgeLeq;
    if s == [] {
      EdgesCons(e, []);
      assert [e] + [] == [e];
      NoEdges();
    } else {
      var head, tail := s[0], s[1..];
      assert s == [head] + tail;
      EdgesCons(head, tail);
      if EdgeLeq(e, head) {
        forall x | x in s ensures Precedes(e, x) { EdgeBefore(e, head, x); }
        EdgesCons(e, s);
      } else {
        InsertEdgeOrder(e, tail);
        InsertEdgeMembers(e, tail);
        EdgeTotal(e, head);
        EdgesCons(head, InsertEdge(e, tail));
      }
    }
  }

  lemma {:induction false} NoEdges()
    ensures EdgesInOrder([])
  {}

  lemma {:induction false} EdgeTotal(a: Edge, b: Edge)
    requires !EdgeLeq(a, b)
    ensures Precedes(b, a)
  {
    hide Leq;
    LeqTotal(a.from, b.from);
    LeqTotal(a.to, b.to);
    LeqTotal(a.from, a.from);
    LeqTotal(a.to, a.to);
  }

  lemma {:induction false} EdgeBefore(e: Edge, head: Edge, x: Edge)
    requires EdgeLeq(e, head) && (x == head || Precedes(head, x)) && e != x
    ensures Precedes(e, x)
  {
    hide Leq;
    LeqTotal(e.from, e.from);
    if x != head {
      LeqTotal(head.from, head.from);
      if e.from == head.from && e.from == x.from {
        LeqTransitive(e.to, head.to, x.to);
      } else if e.from == x.from {
        LeqAntisymmetric(e.from, head.from);
      } else if e.from != head.from {
        LeqTransitive(e.from, head.from, x.from);
      }
    }
  }

  /** The dependencies of one task join those of the others. */
  lemma {:induction false} EdgesOfFacts(id: string, deps: seq<string>, rest: seq<Edge>)
    ensures forall e: Edge :: e in EdgesOf(id, deps, rest) <==> (e.to == id && e.from in deps) || e in rest
    ensures Distinct(deps) && EdgesInOrder(rest) && (forall e :: e in rest ==> e.to != id) ==>
              EdgesInOrder(EdgesOf(id, deps, rest))
    decreases |deps|
  {
    if deps != [] {
      hide EdgesInOrder;
      EdgesOfFacts(id, deps[1..], rest);
      var e, edges := Edge(deps[0], id), EdgesOf(id, deps[1..], rest);
      InsertEdgeMembers(e, edges);
      assert deps == [deps[0]] + deps[1..];
      DistinctCons(deps[0], deps[1..]);
      if EdgesInOrder(edges) && e !in edges { InsertEdgeOrder(e, edges); }
    }
  }

  /** Distinct ids, each with distinct dependencies. */
  predicate Clear(tasks: seq<Task>) {
    Distinct(Ids(tasks)) && forall i :: 0 <= i < |tasks| ==> Distinct(tasks[i].dependsOn)
  }

  ghost predicate EdgeOf(tasks: seq<Task>, e: Edge) {
    exists i :: 0 <= i < |tasks| && tasks[i].id == e.to && e.from in tasks[i].dependsOn
  }

  lemma {:induction false} SortedEdgesFacts(tasks: seq<Task>)
    requires Clear(tasks)
    ensures EdgesInOrder(SortedEdges(tasks)) && forall e :: e in SortedEdges(tasks) <==> EdgeOf(tasks, e)
    decreases |tasks|
  {
    if tasks != [] {
      var t, more := tasks[0], tasks[1..];
      ClearTail(tasks);
      SortedEdgesFacts(more);
      var rest := SortedEdges(more);
      hide EdgesInOrder, Distinct, Ids;
      forall e | e in rest ensures e.to != t.id {
        var i :| 0 <= i < |more| && more[i].id == e.to && e.from in more[i].dependsOn;
        assert more[i].id != t.id;
      }
      EdgesOfFacts(t.id, t.dependsOn, rest);
      forall e ensures e in SortedEdges(tasks) <==> EdgeOf(tasks, e) { EdgeOfHead(tasks, e); }
    }
  }

  lemma {:induction false} ClearTail(tasks: seq<Task>)
    requires tasks != [] && Clear(tasks)
    ensures Clear(tasks[1..]) && Distinct(tasks[0].dependsOn)
    ensures forall i :: 0 <= i < |tasks[1..]| ==> tasks[1..][i].id != tasks[0].id
  {
    var ids, rest := Ids(tasks), Ids(tasks[1..]);
    assert forall i :: 0 <= i < |rest| ==> rest[i] == ids[i + 1];
    assert forall i :: 0 <= i < |rest| ==> tasks[1..][i].id == ids[i + 1];
  }

  lemma {:induction false} EdgeOfHead(tasks: seq<Task>, e: Edge)
    requires tasks != []
    ensures EdgeOf(tasks, e) <==> (e.to == tasks[0].id && e.from in tasks[0].dependsOn) || EdgeOf(tasks[1..], e)
  {
    if EdgeOf(tasks, e) {
      var i :| 0 <= i < |tasks| && tasks[i].id == e.to && e.from in tasks[i].dependsOn;
      if i > 0 { assert tasks[1..][i - 1] == tasks[i]; }
    }
    if EdgeOf(tasks[1..], e) {
      var i :| 0 <= i < |tasks[1..]| && tasks[1..][i].id == e.to && e.from in tasks[1..][i].dependsOn;
      assert tasks[i + 1] == tasks[1..][i];
    }
  }

  lemma {:induction false} DependenciesAt(tasks: seq<Task>, i: nat)
    requires Distinct(Ids(tasks)) && i < |tasks|
    ensures tasks[i].id in DependenciesOf(tasks) && DependenciesOf(tasks)[tasks[i].id] == tasks[i].dependsOn
    decreases |tasks|
  {
    var ids, rest := Ids(tasks), Ids(tasks[1..]);
    assert forall j :: 0 <= j < |rest| ==> rest[j] == ids[j + 1];
    if i > 0 { DependenciesAt(tasks[1..], i - 1); assert ids[i] != ids[0]; }
  }

  lemma {:induction false} DependenciesKeys(tasks: seq<Task>, id: string)
    requires id in DependenciesOf(tasks)
    ensures exists i :: 0 <= i < |tasks| && tasks[i].id == id
    decreases |tasks|
  {
    if tasks[0].id != id {
      DependenciesKeys(tasks[1..], id);
      var i :| 0 <= i < |tasks[1..]| && tasks[1..][i].id == id;
      assert tasks[i + 1].id == id;
    }
  }

  lemma {:induction false} EdgeIsDependency(d: Document, e: Edge)
    requires Distinct(Ids(d.tasks))
    ensures EdgeOf(d.tasks, e) <==> DependsOn(GraphOf(d), e.to, e.from)
  {
    if EdgeOf(d.tasks, e) {
      var i :| 0 <= i < |d.tasks| && d.tasks[i].id == e.to && e.from in d.tasks[i].dependsOn;
      DependenciesAt(d.tasks, i);
    }
    if DependsOn(GraphOf(d), e.to, e.from) {
      DependenciesKeys(d.tasks, e.to);
      var i :| 0 <= i < |d.tasks| && d.tasks[i].id == e.to;
      DependenciesAt(d.tasks, i);
    }
  }

  lemma {:induction false} EdgeOfSorted(tasks: seq<Task>, e: Edge)
    ensures EdgeOf(SortTasks(tasks), e) <==> EdgeOf(tasks, e)
  {
    var sorted := SortTasks(tasks);
    if EdgeOf(sorted, e) {
      var i :| 0 <= i < |sorted| && sorted[i].id == e.to && e.from in sorted[i].dependsOn;
      assert sorted[i] in multiset(tasks);
    }
    if EdgeOf(tasks, e) {
      var i :| 0 <= i < |tasks| && tasks[i].id == e.to && e.from in tasks[i].dependsOn;
      assert tasks[i] in multiset(sorted);
    }
  }

  lemma {:induction false} ClearDocument(d: Document)
    requires Checked(GraphOf(d))
    ensures Clear(d.tasks) && Clear(SortTasks(d.tasks))
  {
    var sorted := SortTasks(d.tasks);
    hide Distinct;
    forall i | 0 <= i < |d.tasks| ensures Distinct(d.tasks[i].dependsOn) { DependenciesAt(d.tasks, i); }
    SortTasksIds(d.tasks);
    forall i | 0 <= i < |sorted| ensures Distinct(sorted[i].dependsOn) {
      assert sorted[i] in multiset(d.tasks);
      var j :| 0 <= j < |d.tasks| && d.tasks[j] == sorted[i];
    }
  }

  lemma {:induction false} EdgesPictured(d: Document)
    requires Checked(GraphOf(d))
    ensures var lines := EdgeLines(SortedEdges(SortTasks(d.tasks)));
      EdgesShown(d, if lines == [] then ["  none"] else lines)
  {
    hide Clear, SortTasks, SortedEdges, EdgesInOrder, EdgeOf, GraphOf, Ids, Distinct, DependsOn;
    ClearDocument(d);
    var edges := SortedEdges(SortTasks(d.tasks));
    SortedEdgesFacts(SortTasks(d.tasks));
    forall e ensures e in edges <==> DependsOn(GraphOf(d), e.to, e.from) {
      EdgeOfSorted(d.tasks, e);
      DistinctDocument(d);
      EdgeIsDependency(d, e);
    }
    if edges == [] { assert EdgeLines(edges) == []; }
  }

  lemma {:induction false} DistinctDocument(d: Document)
    requires Checked(GraphOf(d))
    ensures Distinct(Ids(d.tasks))
  {}

  // ---------------------------------------------------------------- the lines of the tasks

  lemma {:induction false} NamesBound(jira: Option<string>, kontor: Option<string>, unbound: string)
    ensures Names(Bound(OrElse(jira, unbound), kontor), jira, kontor, unbound)
  {
    var base := OrElse(jira, unbound);
    assert base + "" == base;
    assert kontor.Some? ==> base + " \U{B7} " + kontor.value == base + (" \U{B7} " + kontor.value);
  }

  lemma {:induction false} TasksPictured(d: Document, waves: map<string, nat>)
    requires Partitioned(d, waves)
    ensures TasksShown(d, TaskLines(SortTasks(d.tasks), waves))
  {
    hide SortTasks, MaxWave, WaveIds, IsLongest, GraphOf, Names, Bound, OrElse, NatText, Distinct;
    var tasks := SortTasks(d.tasks);
    var lines := TaskLines(tasks, waves);
    SortTasksSorted(d.tasks);
    SortTasksIds(d.tasks);
    forall i | 0 <= i < |tasks| ensures TaskShown(d, tasks[i], lines[i]) {
      var t := tasks[i];
      assert Ids(tasks)[i] == t.id;
      assert t.id in Ids(d.tasks);
      NamesBound(t.jira, t.kontor, "unbound");
      assert IsLongest(GraphOf(d), t.id, waves[t.id]);
    }
  }

  // ---------------------------------------------------------------- the whole view

  lemma {:induction false} PicturedBy(d: Document, waves: seq<string>, edges: seq<string>, epic: string,
        tasks: seq<string>)
    requires WavesShown(d, waves) && EdgesShown(d, edges) && TasksShown(d, tasks)
    requires Names(epic, d.epicJira, d.epicKontor, "unbound epic")
    ensures Pictured(d, Join("\n", Picture(waves, edges, epic, tasks)))
  {
    hide WavesShown, EdgesShown, TasksShown, Names, Join, Picture;
  }

  lemma {:induction false} ViewIsPicture(d: Document, waves: map<string, nat>)
    ensures var tasks := SortTasks(d.tasks);
      var edges := EdgeLines(SortedEdges(tasks));
      DerivedView(d, waves) ==
      Join("\n", Picture(WaveLines(tasks, waves, 0, MaxWave(tasks, waves)), if edges == [] then ["  none"] else edges,
                         Bound(OrElse(d.epicJira, "unbound epic"), d.epicKontor), TaskLines(tasks, waves)))
  {
    hide WaveLines, MaxWave, SortTasks, EdgeLines, SortedEdges, TaskLines, Bound, OrElse, Join;
    var tasks := SortTasks(d.tasks);
    var edges := EdgeLines(SortedEdges(tasks));
    assert [PLAN_START] + ViewBody(d, waves) ==
           Picture(WaveLines(tasks, waves, 0, MaxWave(tasks, waves)), if edges == [] then ["  none"] else edges,
                   Bound(OrElse(d.epicJira, "unbound epic"), d.epicKontor), TaskLines(tasks, waves));
  }

  /** The view of an accepted document pictures it. */
  lemma {:induction false} ViewPictures(d: Document, waves: map<string, nat>)
    requires d.tasks != [] && Checked(GraphOf(d)) && WavesFit(GraphOf(d), waves)
    ensures Pictured(d, DerivedView(d, waves))
  {
    hide WavesShown, EdgesShown, TasksShown, Names, Pictured, Picture, DerivedView, WaveLines, MaxWave, SortTasks;
    hide EdgeLines, SortedEdges, TaskLines, Bound, OrElse, Join, Partitioned, GraphOf, Ids;
    DistinctDocument(d);
    WaveLinesPartition(d, waves);
    WavesPictured(d, waves);
    EdgesPictured(d);
    TasksPictured(d, waves);
    NamesBound(d.epicJira, d.epicKontor, "unbound epic");
    ViewIsPicture(d, waves);
    var tasks := SortTasks(d.tasks);
    var edges := EdgeLines(SortedEdges(tasks));
    PicturedBy(d, WaveLines(tasks, waves, 0, MaxWave(tasks, waves)), if edges == [] then ["  none"] else edges,
      Bound(OrElse(d.epicJira, "unbound epic"), d.epicKontor), TaskLines(tasks, waves));
  }

  /** The view that is derived for a plan that loads pictures the graph it holds. */
  lemma {:induction false} LoadedPictures(text: string, c: Checks, checkDerived: bool)
    requires Validates(c.validate) && LoadPlan(text, c, checkDerived).Ok?
    ensures var plan := LoadPlan(text, c, checkDerived).value;
      Pictured(plan.document, DerivedView(plan.document, plan.waves))
  {
    hide LoadPlan, Pictured, DerivedView, GraphOf, Checked, WavesFit;
    LoadedWaves(text, c, checkDerived);
    var plan := LoadPlan(text, c, checkDerived).value;
    ViewPictures(plan.document, plan.waves);
  }

  /** A plan that passes the full check shows the graph it holds, and so does every plan that sync returns. */
  lemma {:induction false} CheckedShows(text: string, c: Checks)
    requires Validates(c.validate)
    ensures LoadPlan(text, c, true).Ok? ==>
              MarkersOnce(text) && ViewStart(text) <= ViewEnd(text) &&
              Pictured(LoadPlan(text, c, true).value.document, text[ViewStart(text)..ViewEnd(text)])
    ensures SyncPlan(text, c).Ok? ==>
              var updated := SyncPlan(text, c).value;
              MarkersOnce(updated) && ViewStart(updated) <= ViewEnd(updated) && LoadPlan(updated, c, true).Ok? &&
              Pictured(LoadPlan(updated, c, true).value.document, updated[ViewStart(updated)..ViewEnd(updated)])
  {
    hide Pictured, DerivedView, LoadBase, ViewStart, ViewEnd, MarkersOnce, GraphOf, Validates;
    if LoadPlan(text, c, true).Ok? { Shows(text, c); }
    if SyncPlan(text, c).Ok? {
      SyncResult(text, c);
      Shows(SyncPlan(text, c).value, c);
    }
  }

  lemma {:induction false} Shows(text: string, c: Checks)
    requires Validates(c.validate) && LoadPlan(text, c, true).Ok?
    ensures MarkersOnce(text) && ViewStart(text) <= ViewEnd(text)
    ensures Pictured(LoadPlan(text, c, true).value.document, text[ViewStart(text)..ViewEnd(text)])
  {
    hide Pictured, LoadBase, ViewStart, ViewEnd, MarkersOnce, GraphOf, Checked, WavesFit, ViewBody, Join;
    var plan := LoadPlan(text, c, true).value;
    LoadedPictures(text, c, true);
    ViewNotEmpty(plan.document, plan.waves);
  }
}

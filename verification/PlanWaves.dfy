/** Kahn's loop over a growing queue, proved against the chains and cycles of `PlanGraph`. */
module PlanWaves {
  import opened Lists
  import opened Text
  import opened PlanGraph

  // ---------------------------------------------------------------- children and counters

  ghost predicate ChildrenOf(g: TaskGraph, children: map<string, seq<string>>) {
    && (forall d :: d in g.ids <==> d in children)
    && (forall d :: d in children ==> Distinct(children[d]))
    && (forall d, k :: d in children ==> (k in children[d] <==> DependsOn(g, k, d)))
  }

  /** The same, counting only the first `i` tasks and the first `j` dependencies of the next one. */
  ghost predicate ChildrenSoFar(g: TaskGraph, children: map<string, seq<string>>, i: nat, j: nat)
    requires Checked(g) && i <= |g.ids| && (i < |g.ids| ==> j <= |g.deps[g.ids[i]]|)
  {
    && (forall d :: d in g.ids <==> d in children)
    && (forall d :: d in children ==> Distinct(children[d]))
    && (forall d, k :: d in children ==>
          (k in children[d] <==> (k in g.ids[..i] && DependsOn(g, k, d)) ||
                                 (i < |g.ids| && k == g.ids[i] && d in g.deps[k][..j])))
  }

  method CountDependencies(g: TaskGraph)
    returns (children: map<string, seq<string>>, remaining: map<string, int>, bad: Option<Refusal>)
    requires Checked(g)
    ensures bad.None? ==> KnownDependencies(g) && ChildrenOf(g, children)
    ensures bad.None? ==> remaining.Keys == g.deps.Keys && forall k :: k in remaining ==> remaining[k] == |g.deps[k]|
    ensures bad.Some? ==> bad.value.UnknownDependency? && DependsOn(g, bad.value.task, bad.value.dependency) &&
                          bad.value.dependency !in g.ids
  {
    hide ChildrenSoFar, KnownUpTo, Distinct;
    children := map k | k in g.ids :: [];
    remaining := map[];
    AtStart(g, children);
    for i := 0 to |g.ids|
      invariant ChildrenSoFar(g, children, i, 0)
      invariant forall k :: k in remaining <==> k in g.ids[..i]
      invariant forall k :: k in remaining ==> k in g.deps && remaining[k] == |g.deps[k]|
      invariant KnownUpTo(g, i)
    {
      var key := g.ids[i];
      remaining := remaining[key := |g.deps[key]|];
      children, bad := CountRow(g, children, i);
      if bad.Some? { return; }
      assert g.ids[..i + 1] == g.ids[..i] + [key];
    }
    bad := None;
    AllCounted(g, children);
    assert g.ids[..|g.ids|] == g.ids;
  }

  lemma {:induction false} AtStart(g: TaskGraph, children: map<string, seq<string>>)
    requires Checked(g) && children == map k | k in g.ids :: []
    ensures ChildrenSoFar(g, children, 0, 0) && KnownUpTo(g, 0)
  {}

  ghost predicate KnownUpTo(g: TaskGraph, i: nat)
    requires i <= |g.ids|
  {
    forall k, d :: k in g.ids[..i] && DependsOn(g, k, d) ==> d in g.ids
  }

  lemma {:induction false} AllCounted(g: TaskGraph, children: map<string, seq<string>>)
    requires Checked(g) && ChildrenSoFar(g, children, |g.ids|, 0) && KnownUpTo(g, |g.ids|)
    ensures ChildrenOf(g, children) && KnownDependencies(g)
  {
    assert g.ids[..|g.ids|] == g.ids;
  }

  /** The dependencies of one task: each gets it as a child. */
  method CountRow(g: TaskGraph, start: map<string, seq<string>>, i: nat)
    returns (children: map<string, seq<string>>, bad: Option<Refusal>)
    requires Checked(g) && i < |g.ids| && ChildrenSoFar(g, start, i, 0) && KnownUpTo(g, i)
    ensures bad.None? ==> ChildrenSoFar(g, children, i + 1, 0) && KnownUpTo(g, i + 1)
    ensures bad.Some? ==> bad.value.UnknownDependency? && DependsOn(g, bad.value.task, bad.value.dependency) &&
                          bad.value.dependency !in g.ids
  {
    children := start;
    var key := g.ids[i];
    var deps := g.deps[key];
    for j := 0 to |deps|
      invariant ChildrenSoFar(g, children, i, j)
      invariant forall m :: 0 <= m < j ==> deps[m] in g.ids
    {
      if deps[j] !in g.ids { return children, Some(UnknownDependency(key, deps[j])); }
      ChildStep(g, children, i, j);
      children := children[deps[j] := children[deps[j]] + [key]];
    }
    bad := None;
    RowDone(g, children, i);
  }

  lemma {:induction false} ChildStep(g: TaskGraph, children: map<string, seq<string>>, i: nat, j: nat)
    requires Checked(g) && i < |g.ids| && j < |g.deps[g.ids[i]]| && ChildrenSoFar(g, children, i, j)
    requires g.deps[g.ids[i]][j] in g.ids
    ensures var d := g.deps[g.ids[i]][j];
      d in children && ChildrenSoFar(g, children[d := children[d] + [g.ids[i]]], i, j + 1)
  {
    var key, deps := g.ids[i], g.deps[g.ids[i]];
    var d := deps[j];
    assert key !in g.ids[..i];
    assert d !in deps[..j];
    assert key !in children[d];
    assert deps[..j + 1] == deps[..j] + [d];
    var next := children[d := children[d] + [key]];
    forall e, k | e in next
      ensures k in next[e] <==> (k in g.ids[..i] && DependsOn(g, k, e)) || (k == key && e in deps[..j + 1])
    {
      assert k in children[e] <==> (k in g.ids[..i] && DependsOn(g, k, e)) || (k == key && e in deps[..j]);
    }
  }

  lemma {:induction false} RowDone(g: TaskGraph, children: map<string, seq<string>>, i: nat)
    requires Checked(g) && i < |g.ids| && ChildrenSoFar(g, children, i, |g.deps[g.ids[i]]|)
    ensures ChildrenSoFar(g, children, i + 1, 0)
  {
    var key, deps := g.ids[i], g.deps[g.ids[i]];
    assert deps[..|deps|] == deps;
    assert g.ids[..i + 1] == g.ids[..i] + [key];
    forall d, k | d in children
      ensures k in children[d] <==> k in g.ids[..i + 1] && DependsOn(g, k, d)
    {
      assert k in children[d] <==> (k in g.ids[..i] && DependsOn(g, k, d)) || (k == key && d in deps);
    }
  }

  // ---------------------------------------------------------------- the state of the loop

  function Need(g: TaskGraph, k: string): set<string>
    requires k in g.deps
  {
    Elements(g.deps[k])
  }

  /** What has been counted off for task `k`: the tasks done, and the current one if `k` is among the
      children already visited. */
  function Seen(done: set<string>, key: string, visited: set<string>, k: string): set<string> {
    if k in visited then done + {key} else done
  }

  ghost predicate PartialWave(g: TaskGraph, waves: map<string, nat>, k: string, seen: set<string>)
    requires k in g.deps
  {
    && (k in waves <==> Need(g, k) == {} || Need(g, k) * seen != {})
    && (forall d :: d in Need(g, k) && d in seen ==> k in waves && d in waves && waves[d] < waves[k])
    && (k in waves && waves[k] > 0 ==>
      exists d :: d in Need(g, k) && d in seen && d in waves && waves[d] + 1 == waves[k])
  }

  datatype State = State(queue: seq<string>, waves: map<string, nat>, remaining: map<string, int>)

  ghost predicate Counted(g: TaskGraph, st: State, done: set<string>, key: string, visited: set<string>)
    requires Checked(g)
  {
    && st.remaining.Keys == g.deps.Keys
    && (forall k :: k in g.deps ==> st.remaining[k] == |Need(g, k) - Seen(done, key, visited, k)|)
    && (forall k :: k in st.queue <==> k in g.deps && st.remaining[k] == 0)
  }

  ghost predicate Waved(g: TaskGraph, st: State, done: set<string>, key: string, visited: set<string>)
    requires Checked(g)
  {
    && (forall k :: k in st.waves ==> k in g.deps)
    && (forall k :: k in g.deps ==> PartialWave(g, st.waves, k, Seen(done, key, visited, k)))
  }

  ghost predicate Queued(g: TaskGraph, st: State, done: set<string>) {
    Distinct(st.queue) && Topological(g, st.queue) && forall x :: x in done ==> x in st.queue
  }

  /** One child of the key being processed. */
  function Visit(st: State, key: string, child: string): State
    requires key in st.waves && child in st.remaining
  {
    var before := if child in st.waves then st.waves[child] else 0;
    var wave := if before > st.waves[key] + 1 then before else st.waves[key] + 1;
    var left := st.remaining[child] - 1;
    State(if left == 0 then st.queue + [child] else st.queue,
          st.waves[child := wave], st.remaining[child := left])
  }

  lemma {:induction false} MinusOne(need: set<string>, seen: set<string>, key: string)
    requires key in need && key !in seen
    ensures |need - (seen + {key})| == |need - seen| - 1
  {
    assert need - seen == (need - (seen + {key})) + {key};
  }

  lemma {:induction false} VisitCounted(g: TaskGraph, st: State, done: set<string>, key: string, visited: set<string>,
        child: string)
    requires Checked(g) && Counted(g, st, done, key, visited) && key in st.waves && key !in done
    requires DependsOn(g, child, key) && child !in visited
    ensures child !in st.queue && Counted(g, Visit(st, key, child), done, key, visited + {child})
  {
    hide Distinct;
    VisitRemaining(g, st, done, key, visited, child);
    hide Need, Seen;
  }

  lemma {:induction false} VisitRemaining(g: TaskGraph, st: State, done: set<string>, key: string,
        visited: set<string>, child: string)
    requires Checked(g) && Counted(g, st, done, key, visited) && key in st.waves && key !in done
    requires DependsOn(g, child, key) && child !in visited
    ensures st.remaining[child] > 0
    ensures forall k :: k in g.deps ==>
              k in st.remaining &&
                Visit(st, key, child).remaining[k] == |Need(g, k) - Seen(done, key, visited + {child}, k)|
  {
    hide Distinct;
    MinusOne(Need(g, child), done, key);
    assert key in Need(g, child) - done;
    var next := Visit(st, key, child);
    forall k | k in g.deps ensures next.remaining[k] == |Need(g, k) - Seen(done, key, visited + {child}, k)| {
      assert st.remaining[k] == |Need(g, k) - Seen(done, key, visited, k)|;
    }
  }

  lemma {:induction false} VisitWaved(g: TaskGraph, st: State, done: set<string>, key: string, visited: set<string>,
        child: string)
    requires Checked(g) && Waved(g, st, done, key, visited) && Queued(g, st, done)
    requires key in st.queue && key in st.waves && child !in st.queue && child in st.remaining
    requires DependsOn(g, child, key) && child !in visited
    ensures Waved(g, Visit(st, key, child), done, key, visited + {child})
  {
    var next := Visit(st, key, child);
    forall k | k in g.deps ensures PartialWave(g, next.waves, k, Seen(done, key, visited + {child}, k)) {
      assert PartialWave(g, st.waves, k, Seen(done, key, visited, k));
      if k == child { VisitChild(g, st, done, key, child); } else { VisitOther(g, st, done, key, visited, child, k); }
    }
  }

  lemma {:induction false} VisitChild(g: TaskGraph, st: State, done: set<string>, key: string, child: string)
    requires child in g.deps && PartialWave(g, st.waves, child, done) && Queued(g, st, done)
    requires key in st.queue && key in st.waves && child !in st.queue && child in st.remaining && key in Need(g, child)
    ensures PartialWave(g, Visit(st, key, child).waves, child, done + {key})
  {
    var next := Visit(st, key, child).waves;
    assert key in Need(g, child) * (done + {key});
    assert forall d :: d in done + {key} ==>
      d != child && (d in st.waves <==> d in next) && (d in st.waves ==> st.waves[d] == next[d]);
    if next[child] == st.waves[key] + 1 {
      assert key in Need(g, child) && key in done + {key} && next[key] + 1 == next[child];
    }
  }

  lemma {:induction false} VisitOther(g: TaskGraph, st: State, done: set<string>, key: string, visited: set<string>,
        child: string, k: string)
    requires k in g.deps && k != child && PartialWave(g, st.waves, k, Seen(done, key, visited, k)) &&
      Queued(g, st, done)
    requires key in st.queue && key in st.waves && child !in st.queue && child in st.remaining
    ensures PartialWave(g, Visit(st, key, child).waves, k, Seen(done, key, visited, k))
  {
    var next, seen := Visit(st, key, child).waves, Seen(done, key, visited, k);
    assert forall d :: d in seen ==>
      d != child && (d in st.waves <==> d in next) && (d in st.waves ==> st.waves[d] == next[d]);
  }

  lemma {:induction false} TopologicalSnoc(g: TaskGraph, q: seq<string>, child: string)
    requires Topological(g, q) && Distinct(q) && child !in q && forall d :: DependsOn(g, child, d) ==> d in q
    ensures Topological(g, q + [child]) && Distinct(q + [child])
  {
    var all := q + [child];
    forall j, d | 0 <= j < |all| && DependsOn(g, all[j], d) ensures d in all[..j] {
      if j < |q| { assert all[..j] == q[..j] && DependsOn(g, q[j], d); } else { assert all[..j] == q; }
    }
  }

  lemma {:induction false} NoneLeft(need: set<string>, done: set<string>, key: string)
    requires key in need && key !in done && |need - done| == 1
    ensures need <= done + {key}
  {
    MinusOne(need, done, key);
    assert need - (done + {key}) == {};
  }

  lemma {:induction false} ReadyChild(g: TaskGraph, st: State, done: set<string>, key: string, visited: set<string>,
        child: string)
    requires Checked(g) && Counted(g, st, done, key, visited) && Queued(g, st, done) && key in st.queue && key !in done
    requires DependsOn(g, child, key) && child !in visited && child in st.remaining && st.remaining[child] == 1
    ensures forall d :: DependsOn(g, child, d) ==> d in st.queue
  {
    hide Topological, Checked, Distinct;
    assert st.remaining[child] == |Need(g, child) - Seen(done, key, visited, child)|;
    NoneLeft(Need(g, child), done, key);
    forall d | DependsOn(g, child, d) ensures d in st.queue { assert d in Need(g, child); }
  }

  lemma {:induction false} VisitQueued(g: TaskGraph, st: State, done: set<string>, key: string, visited: set<string>,
        child: string)
    requires Checked(g) && Counted(g, st, done, key, visited) && Queued(g, st, done)
    requires key in st.queue && key in st.waves && child !in st.queue && key !in done && child in st.remaining
    requires DependsOn(g, child, key) && child !in visited
    ensures Queued(g, Visit(st, key, child), done)
  {
    hide Counted;
    if st.remaining[child] == 1 {
      ReadyChild(g, st, done, key, visited, child);
      TopologicalSnoc(g, st.queue, child);
    }
  }

  lemma {:induction false} VisitStep(g: TaskGraph, st: State, done: set<string>, key: string, visited: set<string>,
        child: string)
    requires Checked(g) && Counted(g, st, done, key, visited) && Waved(g, st, done, key, visited) && Queued(g, st, done)
    requires key in st.queue && key in st.waves && key !in done && DependsOn(g, child, key) && child !in visited
    ensures child in st.remaining
    ensures var next := Visit(st, key, child);
      Counted(g, next, done, key, visited + {child}) && Waved(g, next, done, key, visited + {child}) &&
      Queued(g, next, done) && st.queue <= next.queue && key in next.waves
  {
    hide Waved, Queued, Topological;
    VisitCounted(g, st, done, key, visited, child);
    VisitWaved(g, st, done, key, visited, child);
    VisitQueued(g, st, done, key, visited, child);
  }

  lemma {:induction false} SeenAll(g: TaskGraph, done: set<string>, key: string, visited: set<string>, k: string)
    requires k in g.deps && (k in visited <==> DependsOn(g, k, key))
    ensures Need(g, k) - Seen(done, key, visited, k) == Need(g, k) - (done + {key})
    ensures Need(g, k) * Seen(done, key, visited, k) == Need(g, k) * (done + {key})
  {}

  lemma {:induction false} PartialSame(g: TaskGraph, waves: map<string, nat>, k: string, a: set<string>, b: set<string>)
    requires k in g.deps && PartialWave(g, waves, k, a) && Need(g, k) * a == Need(g, k) * b
    ensures PartialWave(g, waves, k, b)
  {
    assert forall d :: d in Need(g, k) ==> (d in a <==> d in Need(g, k) * a) && (d in b <==> d in Need(g, k) * b);
  }

  /** Once every child is visited, the key itself counts as done. */
  lemma {:induction false} TaskDone(g: TaskGraph, st: State, done: set<string>, key: string, visited: set<string>)
    requires Checked(g) && Counted(g, st, done, key, visited) && Waved(g, st, done, key, visited)
    requires forall k :: k in visited <==> DependsOn(g, k, key)
    ensures Counted(g, st, done + {key}, "", {}) && Waved(g, st, done + {key}, "", {})
  {
    hide PartialWave, Need, DependsOn;
    forall k | k in g.deps
      ensures st.remaining[k] == |Need(g, k) - Seen(done + {key}, "", {}, k)|
      ensures PartialWave(g, st.waves, k, Seen(done + {key}, "", {}, k))
    {
      SeenAll(g, done, key, visited, k);
      PartialSame(g, st.waves, k, Seen(done, key, visited, k), done + {key});
    }
  }

  // ---------------------------------------------------------------- the loop

  /** The tasks whose counter is still positive, in order. */
  function LeftOver(ids: seq<string>, remaining: map<string, int>): (r: seq<string>)
    requires forall i :: 0 <= i < |ids| ==> ids[i] in remaining
    ensures forall x :: x in r <==> x in ids && remaining[x] != 0
  {
    if ids == [] then []
    else
      assert ids == [ids[0]] + ids[1..];
      (if remaining[ids[0]] != 0 then [ids[0]] else []) + LeftOver(ids[1..], remaining)
  }

  lemma {:induction false} LeftOverDistinct(ids: seq<string>, remaining: map<string, int>)
    requires Distinct(ids) && forall i :: 0 <= i < |ids| ==> ids[i] in remaining
    ensures Distinct(LeftOver(ids, remaining))
    decreases |ids|
  {
    if ids != [] {
      assert forall i, j :: 0 <= i < j < |ids[1..]| ==> ids[1..][i] == ids[i + 1] && ids[1..][j] == ids[j + 1];
      LeftOverDistinct(ids[1..], remaining);
      assert ids[0] !in ids[1..];
    }
  }

  /** Each child of one task, in sorted order. */
  method VisitChildren(g: TaskGraph, children: seq<string>, key: string, start: State, ghost done: set<string>)
    returns (st: State)
    requires Checked(g) && Distinct(children) && forall k :: k in children <==> DependsOn(g, k, key)
    requires Counted(g, start, done, key, {}) && Waved(g, start, done, key, {}) && Queued(g, start, done)
    requires key in start.queue && key in start.waves && key !in done
    ensures start.queue <= st.queue
    ensures Counted(g, st, done + {key}, "", {}) && Waved(g, st, done + {key}, "", {}) && Queued(g, st, done + {key})
  {
    st := start;
    var sorted := Sort(children);
    SortFacts(children);
    hide Counted, Waved, Queued, Checked, Sort;
    assert Elements(sorted[..0]) == {};
    for j := 0 to |sorted|
      invariant Counted(g, st, done, key, Elements(sorted[..j])) && Waved(g, st, done, key, Elements(sorted[..j]))
      invariant Queued(g, st, done) && start.queue <= st.queue && key in st.waves
    {
      ghost var visited := Elements(sorted[..j]);
      var child := sorted[j];
      assert child in children;
      SetSnoc(sorted, j);
      VisitStep(g, st, done, key, visited, child);
      st := Visit(st, key, child);
    }
    assert sorted[..|sorted|] == sorted;
    TaskDone(g, st, done, key, Elements(sorted));
    QueuedMore(g, st, done, key);
  }

  lemma {:induction false} SetSnoc(s: seq<string>, j: nat)
    requires j < |s| && Distinct(s)
    ensures s[j] !in Elements(s[..j]) && Elements(s[..j]) + {s[j]} == Elements(s[..j + 1])
  {
    assert s[..j + 1] == s[..j] + [s[j]];
  }

  lemma {:induction false} QueuedMore(g: TaskGraph, st: State, done: set<string>, key: string)
    requires Queued(g, st, done) && key in st.queue
    ensures Queued(g, st, done + {key})
  {}

  method ValidateWaves(g: TaskGraph) returns (r: Validation)
    requires Checked(g)
    // Some dependency is unknown, or the waves are the longest chains, or a cycle blocks exactly these tasks.
    ensures r.Refused? && r.refusal.UnknownDependency? <==> !KnownDependencies(g)
    ensures r.Waves? ==> WavesFit(g, r.waves)
    ensures r.Waves? ==> forall k :: k in g.ids ==> IsLongest(g, k, r.waves[k])
    ensures r.Refused? && r.refusal.Cycle? ==>
              Cyclic(g) && IsSorted(r.refusal.blocked) && Distinct(r.refusal.blocked) &&
              forall k :: k in r.refusal.blocked <==> k in g.ids && Blocked(g, k)
  {
    var children, remaining, bad := CountDependencies(g);
    if bad.Some? { return Refused(bad.value); }
    var waves: map<string, nat> := map k | k in remaining && remaining[k] == 0 :: 0;
    var st := State(Sort(SeqOf(g.ids, remaining)), waves, remaining);
    StartState(g, remaining, waves);
    st := RunQueue(g, children, st);
    LeftOverDistinct(g.ids, st.remaining);
    SortFacts(LeftOver(g.ids, st.remaining));
    var blocked := Sort(LeftOver(g.ids, st.remaining));
    hide Counted, Waved, Queued, Cyclic, Blocked, IsLongest, WaveRule, IsSorted, Distinct;
    if blocked != [] {
      StuckEnd(g, st);
      CycleEnd(g, st, blocked);
      return Refused(Cycle(blocked));
    }
    forall k | k in g.ids ensures st.remaining[k] == 0 { assert k !in blocked; }
    WholeEnd(g, st);
    return Waves(st.waves);
  }

  /** Every task is done in turn, while the queue grows behind them. */
  method RunQueue(g: TaskGraph, children: map<string, seq<string>>, start: State) returns (st: State)
    requires Checked(g) && ChildrenOf(g, children)
    requires Counted(g, start, {}, "", {}) && Waved(g, start, {}, "", {}) && Queued(g, start, {})
    ensures Counted(g, st, Elements(st.queue), "", {}) && Waved(g, st, Elements(st.queue), "", {}) &&
      Queued(g, st, Elements(st.queue))
    ensures forall k :: k in g.ids ==> k in st.remaining
  {
    st := start;
    var i := 0;
    assert Elements(st.queue[..0]) == {};
    while i < |st.queue|
      invariant i <= |st.queue|
      invariant Counted(g, st, Elements(st.queue[..i]), "", {}) && Waved(g, st, Elements(st.queue[..i]), "", {})
      invariant Queued(g, st, Elements(st.queue[..i]))
      decreases |g.ids| - i
    {
      var key := st.queue[i];
      ghost var done, before := Elements(st.queue[..i]), st;
      QueueFits(g, st, done, i);
      KeyReady(g, st, done, i);
      st := VisitChildren(g, children[key], key, st, done);
      NextDone(before.queue, st.queue, i);
      i := i + 1;
    }
    assert st.queue[..i] == st.queue;
  }

  lemma {:induction false} NextDone(before: seq<string>, after: seq<string>, i: nat)
    requires before <= after && i < |before|
    ensures Elements(before[..i]) + {before[i]} == Elements(after[..i + 1])
  {
    assert after[..i + 1] == before[..i] + [before[i]];
  }

  /** The tasks that wait for nothing. */
  function SeqOf(ids: seq<string>, remaining: map<string, int>): (r: seq<string>)
    requires forall i :: 0 <= i < |ids| ==> ids[i] in remaining
    ensures forall x :: x in r <==> x in ids && remaining[x] == 0
  {
    if ids == [] then []
    else
      assert ids == [ids[0]] + ids[1..];
      (if remaining[ids[0]] == 0 then [ids[0]] else []) + SeqOf(ids[1..], remaining)
  }

  lemma {:induction false} SeqOfDistinct(ids: seq<string>, remaining: map<string, int>)
    requires Distinct(ids) && forall i :: 0 <= i < |ids| ==> ids[i] in remaining
    ensures Distinct(SeqOf(ids, remaining))
    decreases |ids|
  {
    if ids != [] {
      assert forall i, j :: 0 <= i < j < |ids[1..]| ==> ids[1..][i] == ids[i + 1] && ids[1..][j] == ids[j + 1];
      SeqOfDistinct(ids[1..], remaining);
      assert ids[0] !in ids[1..];
    }
  }

  lemma {:induction false} DistinctSize(s: seq<string>)
    requires Distinct(s)
    ensures |Elements(s)| == |s|
    decreases |s|
  {
    if s != [] {
      var front := s[..|s| - 1];
      DistinctSize(front);
      assert Elements(s) == Elements(front) + {s[|s| - 1]};
    } else {
      assert Elements(s) == {};
    }
  }

  lemma {:induction false} StartTask(g: TaskGraph, remaining: map<string, int>, waves: map<string, nat>, k: string)
    requires k in g.deps && Distinct(g.deps[k]) && remaining.Keys == g.deps.Keys && remaining[k] == |g.deps[k]|
    requires forall x :: x in waves <==> x in remaining && remaining[x] == 0
    requires forall x :: x in waves ==> waves[x] == 0
    ensures remaining[k] == |Need(g, k) - {}| && PartialWave(g, waves, k, {})
  {
    DistinctSize(g.deps[k]);
    assert Need(g, k) - {} == Need(g, k);
    assert Need(g, k) * {} == {};
  }

  lemma {:induction false} StartState(g: TaskGraph, remaining: map<string, int>, waves: map<string, nat>)
    requires Checked(g) && remaining.Keys == g.deps.Keys
    requires forall k :: k in remaining ==> remaining[k] == |g.deps[k]|
    requires forall i :: 0 <= i < |g.ids| ==> g.ids[i] in remaining
    requires waves == map k | k in remaining && remaining[k] == 0 :: 0
    ensures var st := State(Sort(SeqOf(g.ids, remaining)), waves, remaining);
      Counted(g, st, {}, "", {}) && Waved(g, st, {}, "", {}) && Queued(g, st, {})
  {
    StartQueue(g, remaining);
    forall k | k in g.deps ensures remaining[k] == |Need(g, k) - {}| && PartialWave(g, waves, k, {}) {
      StartTask(g, remaining, waves, k);
    }
    var st := State(Sort(SeqOf(g.ids, remaining)), waves, remaining);
  }

  lemma {:induction false} StartQueue(g: TaskGraph, remaining: map<string, int>)
    requires Checked(g) && remaining.Keys == g.deps.Keys
    requires forall k :: k in remaining ==> remaining[k] == |g.deps[k]|
    requires forall i :: 0 <= i < |g.ids| ==> g.ids[i] in remaining
    ensures var q := Sort(SeqOf(g.ids, remaining));
      Distinct(q) && Topological(g, q) && (forall k :: k in q <==> k in remaining && remaining[k] == 0) &&
      forall k :: k in g.deps ==> Distinct(g.deps[k])
  {
    SeqOfDistinct(g.ids, remaining);
    SortFacts(SeqOf(g.ids, remaining));
  }

  lemma {:induction false} QueueFits(g: TaskGraph, st: State, done: set<string>, i: nat)
    requires Checked(g) && Queued(g, st, done) && Counted(g, st, done, "", {}) && i < |st.queue|
    ensures i < |g.ids|
  {
    PathFits(st.queue, g.ids);
  }

  lemma {:induction false} KeyReady(g: TaskGraph, st: State, done: set<string>, i: nat)
    requires Checked(g) && Queued(g, st, done) && Counted(g, st, done, "", {}) && Waved(g, st, done, "", {})
    requires i < |st.queue| && done == Elements(st.queue[..i])
    ensures var key := st.queue[i];
      key in st.waves && key !in done && key in g.ids &&
      Counted(g, st, done, key, {}) && Waved(g, st, done, key, {})
  {
    var key := st.queue[i];
    assert Need(g, key) - done == {};
    assert PartialWave(g, st.waves, key, Seen(done, "", {}, key));
    if Need(g, key) != {} {
      var d :| d in Need(g, key);
      assert d in Need(g, key) * done;
    }
    forall k | k in g.deps ensures PartialWave(g, st.waves, k, Seen(done, key, {}, k)) {
      assert PartialWave(g, st.waves, k, Seen(done, "", {}, k));
    }
    forall k | k in g.deps ensures st.remaining[k] == |Need(g, k) - Seen(done, key, {}, k)| {
      assert Seen(done, key, {}, k) == Seen(done, "", {}, k);
    }
  }

  lemma {:induction false} StuckEnd(g: TaskGraph, st: State)
    requires Checked(g) && KnownDependencies(g) && Counted(g, st, Elements(st.queue), "", {})
    ensures Stuck(g, st.queue)
  {
    forall k | k in g.ids && k !in st.queue
      ensures exists d :: DependsOn(g, k, d) && d in g.ids && d !in st.queue
    {
      assert st.remaining[k] == |Need(g, k) - Seen(Elements(st.queue), "", {}, k)|;
      assert Need(g, k) - Elements(st.queue) != {};
      var d :| d in Need(g, k) - Elements(st.queue);
      assert DependsOn(g, k, d);
    }
  }

  lemma {:induction false} CycleEnd(g: TaskGraph, st: State, blocked: seq<string>)
    requires Checked(g) && Stuck(g, st.queue) && Queued(g, st, Elements(st.queue)) &&
      Counted(g, st, Elements(st.queue), "", {})
    requires blocked != [] && forall k :: k in blocked <==> k in g.ids && st.remaining[k] != 0
    ensures Cyclic(g) && forall k :: k in blocked <==> k in g.ids && Blocked(g, k)
  {
    hide OnCycle, Stuck, Topological, Blocked;
    forall k ensures k in blocked <==> k in g.ids && Blocked(g, k) {
      if k in blocked { StuckBlocked(g, st.queue, k); }
      else if k in g.ids { OrderedNotBlocked(g, st.queue, k); }
    }
    assert blocked[0] in blocked;
    BlockedCyclic(g, blocked[0]);
  }

  lemma {:induction false} BlockedCyclic(g: TaskGraph, k: string)
    requires Blocked(g, k)
    ensures Cyclic(g)
  {
    hide OnCycle;
  }

  lemma {:induction false} WholeEnd(g: TaskGraph, st: State)
    requires Checked(g) && KnownDependencies(g)
    requires Queued(g, st, Elements(st.queue)) && Counted(g, st, Elements(st.queue), "", {}) &&
      Waved(g, st, Elements(st.queue), "", {})
    requires forall k :: k in g.ids ==> st.remaining[k] == 0
    ensures !Cyclic(g) && st.waves.Keys == g.deps.Keys && WaveRule(g, st.waves)
    ensures forall k :: k in g.ids ==> IsLongest(g, k, st.waves[k])
  {
    EndWaves(g, st);
    hide OnCycle, IsLongest, WaveRule, Topological, Counted, Waved, Checked, Distinct;
    forall k | k in g.ids ensures IsLongest(g, k, st.waves[k]) { WavesLongest(g, st.waves, k); }
    EndAcyclic(g, st);
  }

  lemma {:induction false} EndAcyclic(g: TaskGraph, st: State)
    requires Queued(g, st, Elements(st.queue)) && forall k :: k in g.ids ==> k in st.queue
    ensures !Cyclic(g)
  {
    forall k ensures !OnCycle(g, k) {
      if k in g.ids { OrderedNotOnCycle(g, st.queue, k); }
    }
  }

  lemma {:induction false} EndWave(g: TaskGraph, st: State, k: string)
    requires Checked(g) && KnownDependencies(g) && Waved(g, st, Elements(st.queue), "", {})
    requires (forall k :: k in g.ids ==> k in st.queue) && k in g.ids
    ensures k in st.waves && WaveStep(g, st.waves, k)
  {
    hide PartialWave, WaveStep;
    assert PartialWave(g, st.waves, k, Seen(Elements(st.queue), "", {}, k));
    FullWave(g, st, k);
  }

  lemma {:induction false} EndKeys(g: TaskGraph, st: State)
    requires Checked(g) && Waved(g, st, Elements(st.queue), "", {}) && forall k :: k in g.ids ==> k in st.waves
    ensures st.waves.Keys == g.deps.Keys
  {
    hide PartialWave, Distinct, Elements;
    forall k ensures k in st.waves <==> k in g.deps { assert k in g.ids <==> k in g.deps; }
  }

  lemma {:induction false} EndWaves(g: TaskGraph, st: State)
    requires Checked(g) && KnownDependencies(g)
    requires Counted(g, st, Elements(st.queue), "", {}) && Waved(g, st, Elements(st.queue), "", {})
    requires forall k :: k in g.ids ==> st.remaining[k] == 0
    ensures st.waves.Keys == g.deps.Keys && WaveRule(g, st.waves) && forall k :: k in g.ids ==> k in st.queue
  {
    forall k | k in g.ids ensures k in st.waves && WaveStep(g, st.waves, k) { EndWave(g, st, k); }
    EndKeys(g, st);
  }

  lemma {:induction false} FullWave(g: TaskGraph, st: State, k: string)
    requires k in g.deps && PartialWave(g, st.waves, k, Elements(st.queue))
    requires forall d :: DependsOn(g, k, d) ==> d in st.queue
    ensures k in st.waves && WaveStep(g, st.waves, k)
  {
    assert forall d :: DependsOn(g, k, d) <==> d in Need(g, k);
    if Need(g, k) != {} {
      var d :| d in Need(g, k);
      assert d in Need(g, k) * Elements(st.queue);
    }
  }
}

/** The plan graph: the growing-queue loop that gives every task its wave or refuses a cycle. */
module PlanGraph {
  import opened Lists

  /** Task ids in the order the plan lists them, and what each depends on. */
  datatype TaskGraph = TaskGraph(ids: seq<string>, deps: map<string, seq<string>>)

  /** What the checks before the loop establish: distinct ids, each with distinct dependencies, none on itself. */
  ghost predicate Checked(g: TaskGraph) {
    && Distinct(g.ids)
    && (forall k :: k in g.ids <==> k in g.deps)
    && (forall k :: k in g.deps ==> Distinct(g.deps[k]) && k !in g.deps[k])
  }

  datatype Refusal = UnknownDependency(task: string, dependency: string) | Cycle(blocked: seq<string>)

  datatype Validation = Waves(waves: map<string, nat>) | Refused(refusal: Refusal)

  // ---------------------------------------------------------------- chains, cycles and waves

  /** What an accepted graph is given: a wave for each task, by the step rule, and no unknown dependency. */
  ghost predicate WavesFit(g: TaskGraph, waves: map<string, nat>) {
    KnownDependencies(g) && !Cyclic(g) && waves.Keys == g.deps.Keys && WaveRule(g, waves)
  }

  ghost predicate DependsOn(g: TaskGraph, a: string, b: string) { a in g.deps && b in g.deps[a] }

  /** Tasks of which each depends on the next. */
  ghost predicate IsChain(g: TaskGraph, c: seq<string>) {
    |c| > 0 && (forall i :: 0 <= i < |c| ==> c[i] in g.ids) &&
    forall i :: 0 <= i < |c| - 1 ==> DependsOn(g, c[i], c[i + 1])
  }

  ghost predicate ChainFrom(g: TaskGraph, c: seq<string>, k: string) { IsChain(g, c) && c[0] == k }

  ghost predicate OnCycle(g: TaskGraph, k: string) {
    exists c :: ChainFrom(g, c, k) && |c| > 1 && c[|c| - 1] == k
  }

  ghost predicate Cyclic(g: TaskGraph) { exists k :: OnCycle(g, k) }

  /** On a cycle, or depending on one directly or through others. */
  ghost predicate Blocked(g: TaskGraph, k: string) {
    exists c :: ChainFrom(g, c, k) && OnCycle(g, c[|c| - 1])
  }

  /** The longest chain from `k` has `n` dependencies in it. */
  ghost predicate IsLongest(g: TaskGraph, k: string, n: nat) {
    (exists c :: ChainFrom(g, c, k) && |c| == n + 1) && forall c :: ChainFrom(g, c, k) ==> |c| <= n + 1
  }

  ghost predicate KnownDependencies(g: TaskGraph) {
    forall k, d :: DependsOn(g, k, d) ==> d in g.ids
  }

  lemma {:induction false} ChainSnoc(g: TaskGraph, c: seq<string>, d: string)
    requires IsChain(g, c) && d in g.ids && DependsOn(g, c[|c| - 1], d)
    ensures ChainFrom(g, c + [d], c[0])
  {
    var all := c + [d];
    forall i | 0 <= i < |all| - 1 ensures DependsOn(g, all[i], all[i + 1]) {
      if i < |c| - 1 { assert DependsOn(g, c[i], c[i + 1]); }
    }
  }

  // ---------------------------------------------------------------- what a topological order shows

  /** Every dependency of a task in `q` comes earlier in `q`. */
  ghost predicate Topological(g: TaskGraph, q: seq<string>) {
    forall j, d :: 0 <= j < |q| && DependsOn(g, q[j], d) ==> d in q[..j]
  }

  /** A chain from a place in such an order goes strictly down it. */
  lemma {:induction false} ChainDescends(g: TaskGraph, q: seq<string>, c: seq<string>, j: nat) returns (last: nat)
    requires Topological(g, q) && j < |q| && ChainFrom(g, c, q[j])
    ensures last < |q| && q[last] == c[|c| - 1] && last <= j && (|c| > 1 ==> last < j)
    decreases |c|
  {
    if |c| == 1 {
      last := j;
    } else {
      assert c[1] in q[..j];
      var m :| 0 <= m < j && q[m] == c[1];
      last := ChainDescends(g, q, c[1..], m);
    }
  }

  lemma {:induction false} OrderedNotOnCycle(g: TaskGraph, q: seq<string>, k: string)
    requires Topological(g, q) && Distinct(q) && k in q
    ensures !OnCycle(g, k)
  {
    forall c | ChainFrom(g, c, k) && |c| > 1 ensures c[|c| - 1] != k {
      var j :| 0 <= j < |q| && q[j] == k;
      var last := ChainDescends(g, q, c, j);
    }
  }

  lemma {:induction false} OrderedNotBlocked(g: TaskGraph, q: seq<string>, k: string)
    requires Topological(g, q) && Distinct(q) && k in q
    ensures !Blocked(g, k)
  {
    forall c | ChainFrom(g, c, k) ensures !OnCycle(g, c[|c| - 1]) {
      var j :| 0 <= j < |q| && q[j] == k;
      var last := ChainDescends(g, q, c, j);
      OrderedNotOnCycle(g, q, c[|c| - 1]);
    }
  }

  // ---------------------------------------------------------------- what a stuck remainder shows

  /** Every task outside `q` still waits for one outside `q`. */
  ghost predicate Stuck(g: TaskGraph, q: seq<string>) {
    forall k :: k in g.ids && k !in q ==> exists d :: DependsOn(g, k, d) && d in g.ids && d !in q
  }

  lemma {:induction false} CycleBack(g: TaskGraph, path: seq<string>, m: nat)
    requires IsChain(g, path) && m < |path| && DependsOn(g, path[|path| - 1], path[m])
    ensures OnCycle(g, path[m])
  {
    ChainSnoc(g, path[m..], path[m]);
    var c := path[m..] + [path[m]];
    assert ChainFrom(g, c, path[m]) && c[|c| - 1] == path[m];
  }

  lemma {:induction false} BlockedBy(g: TaskGraph, path: seq<string>, m: nat)
    requires IsChain(g, path) && m < |path| && OnCycle(g, path[m])
    ensures Blocked(g, path[0])
  {
    hide OnCycle;
    var c := path[0..m + 1];
    assert ChainFrom(g, c, path[0]) && c[|c| - 1] == path[m];
  }

  lemma {:induction false} StuckNext(g: TaskGraph, q: seq<string>, path: seq<string>) returns (d: string)
    requires Stuck(g, q) && IsChain(g, path) && forall i :: 0 <= i < |path| ==> path[i] !in q
    ensures d in g.ids && d !in q && DependsOn(g, path[|path| - 1], d)
    ensures IsChain(g, path + [d])
  {
    var last := path[|path| - 1];
    assert last in g.ids && last !in q;
    d :| DependsOn(g, last, d) && d in g.ids && d !in q;
    hide DependsOn, Stuck, IsChain;
    ChainSnoc(g, path, d);
  }

  lemma {:induction false} ChainFits(g: TaskGraph, path: seq<string>)
    requires IsChain(g, path) && Distinct(path)
    ensures |path| <= |g.ids|
  {
    PathFits(path, g.ids);
  }

  /** Following such dependencies runs into a task seen before: the walk started at a blocked task. */
  lemma {:induction false} WalkBlocked(g: TaskGraph, q: seq<string>, path: seq<string>)
    requires Stuck(g, q) && path != [] && IsChain(g, path) && Distinct(path)
    requires forall i :: 0 <= i < |path| ==> path[i] !in q
    ensures Blocked(g, path[0])
    decreases |g.ids| - |path|
  {
    hide Blocked, OnCycle, IsChain, Stuck, DependsOn;
    ChainFits(g, path);
    var d := StuckNext(g, q, path);
    if d in path {
      var m :| 0 <= m < |path| && path[m] == d;
      CycleBack(g, path, m);
      BlockedBy(g, path, m);
    } else {
      ChainFits(g, path + [d]);
      WalkBlocked(g, q, path + [d]);
    }
  }

  lemma {:induction false} PathFits(path: seq<string>, ids: seq<string>)
    requires Distinct(path) && forall i :: 0 <= i < |path| ==> path[i] in ids
    ensures |path| <= |ids|
    decreases |path|
  {
    if path != [] {
      var x := path[|path| - 1];
      var m :| 0 <= m < |ids| && ids[m] == x;
      var rest := ids[..m] + ids[m + 1..];
      forall i | 0 <= i < |path| - 1 ensures path[i] in rest {
        var n :| 0 <= n < |ids| && ids[n] == path[i];
        if n < m { assert rest[n] == path[i]; } else { assert rest[n - 1] == path[i]; }
      }
      PathFits(path[..|path| - 1], rest);
    }
  }

  lemma {:induction false} StuckBlocked(g: TaskGraph, q: seq<string>, k: string)
    requires Stuck(g, q) && k in g.ids && k !in q
    ensures Blocked(g, k)
  {
    hide Blocked;
    assert IsChain(g, [k]);
    WalkBlocked(g, q, [k]);
  }

  // ---------------------------------------------------------------- waves

  /** The wave of `k` is one more than the highest wave it depends on, or 0. */
  ghost predicate WaveStep(g: TaskGraph, waves: map<string, nat>, k: string) {
    k in waves && (forall d :: DependsOn(g, k, d) ==> d in waves && waves[d] < waves[k]) &&
    (waves[k] > 0 ==> exists d :: DependsOn(g, k, d) && d in waves && waves[d] + 1 == waves[k])
  }

  ghost predicate WaveRule(g: TaskGraph, waves: map<string, nat>) {
    (forall k :: k in g.ids ==> k in waves) && forall k :: k in g.ids ==> WaveStep(g, waves, k)
  }

  lemma {:induction false} WaveBounds(g: TaskGraph, waves: map<string, nat>, c: seq<string>)
    requires IsChain(g, c) && WaveRule(g, waves)
    ensures |c| <= waves[c[0]] + 1
    decreases |c|
  {
    if |c| > 1 {
      WaveBounds(g, waves, c[1..]);
    }
  }

  lemma {:induction false} WaveChain(g: TaskGraph, waves: map<string, nat>, k: string) returns (c: seq<string>)
    requires k in g.ids && KnownDependencies(g) && WaveRule(g, waves)
    ensures ChainFrom(g, c, k) && |c| == waves[k] + 1
    decreases waves[k]
  {
    if waves[k] == 0 {
      c := [k];
    } else {
      var d :| DependsOn(g, k, d) && d in waves && waves[d] + 1 == waves[k];
      c := WaveChain(g, waves, d);
      c := [k] + c;
    }
  }

  /** Waves that satisfy the local rule are the lengths of the longest chains. */
  lemma {:induction false} WavesLongest(g: TaskGraph, waves: map<string, nat>, k: string)
    requires k in g.ids && KnownDependencies(g) && WaveRule(g, waves)
    ensures IsLongest(g, k, waves[k])
  {
    var c := WaveChain(g, waves, k);
    forall c | ChainFrom(g, c, k) ensures |c| <= waves[k] + 1 { WaveBounds(g, waves, c); }
  }
}

/** Sets closed under the edges of a finite graph, and the worklist that grows them. */
module Closures {
  import opened Lists

  type Graph = map<string, set<string>>

  /** Every edge leads to a node of the graph. */
  predicate Total(g: Graph) { forall x :: x in g ==> g[x] <= g.Keys }

  /** A path of edges from a seed that enters no node to avoid. */
  predicate Path(g: Graph, avoid: set<string>, seeds: set<string>, p: seq<string>) {
    && p != [] && p[0] in seeds
    && (forall k :: 0 <= k < |p| ==> p[k] in g && p[k] !in avoid)
    && (forall k :: 0 < k < |p| ==> Edge(g, p[k - 1], p[k]))
  }

  predicate Edge(g: Graph, x: string, y: string) { x in g && y in g[x] }

  ghost predicate Reach(g: Graph, avoid: set<string>, seeds: set<string>, x: string) {
    exists p :: Path(g, avoid, seeds, p) && p[|p| - 1] == x
  }

  /** The nodes seen already, and those the seeds reach without passing through a seen one. */
  ghost function Grown(g: Graph, seen: set<string>, seeds: set<string>): set<string> {
    seen + set x | x in g.Keys && Reach(g, seen, seeds, x)
  }

  ghost function Closure(g: Graph, seeds: set<string>): set<string> { Grown(g, {}, seeds) }

  predicate Closed(g: Graph, s: set<string>) { forall x :: x in s && x in g ==> g[x] <= s }

  lemma {:induction false} ReachSeed(g: Graph, avoid: set<string>, seeds: set<string>, x: string)
    requires x in seeds && x in g && x !in avoid
    ensures Reach(g, avoid, seeds, x)
  {
    assert Path(g, avoid, seeds, [x]) && [x][|[x]| - 1] == x;
  }

  lemma {:induction false} ReachStep(g: Graph, avoid: set<string>, seeds: set<string>, x: string, y: string)
    requires Reach(g, avoid, seeds, x) && Edge(g, x, y) && y in g && y !in avoid
    ensures Reach(g, avoid, seeds, y)
  {
    var p :| Path(g, avoid, seeds, p) && p[|p| - 1] == x;
    var q := p + [y];
    assert q[|q| - 1] == y && q[0] == p[0];
    forall k | 0 < k < |q| ensures Edge(g, q[k - 1], q[k]) { assert k < |p| ==> q[k] == p[k]; }
  }

  /** A set that holds the seeds and the successors of its own unavoided nodes holds every path. */
  lemma {:induction false} PathInside(g: Graph, avoid: set<string>, seeds: set<string>, s: set<string>, p: seq<string>)
    requires Path(g, avoid, seeds, p) && seeds <= s
    requires forall x :: x in s && x !in avoid && x in g ==> g[x] <= s
    ensures p[|p| - 1] in s
    decreases |p|
  {
    if |p| > 1 {
      var q := p[..|p| - 1];
      PathInside(g, avoid, seeds, s, q);
      assert Edge(g, p[|p| - 2], p[|p| - 1]);
    }
  }

  lemma {:induction false} ReachInside(g: Graph, avoid: set<string>, seeds: set<string>, s: set<string>)
    requires seeds <= s && forall x :: x in s && x !in avoid && x in g ==> g[x] <= s
    ensures forall x :: Reach(g, avoid, seeds, x) ==> x in s
  {
    forall x | Reach(g, avoid, seeds, x) ensures x in s {
      var p :| Path(g, avoid, seeds, p) && p[|p| - 1] == x;
      PathInside(g, avoid, seeds, s, p);
    }
  }

  /** What grew holds the seeds and every successor of what is new. */
  lemma {:induction false} GrownExpanded(g: Graph, seen: set<string>, seeds: set<string>)
    requires Total(g) && seeds <= g.Keys
    ensures seen + seeds <= Grown(g, seen, seeds)
    ensures forall x :: x in Grown(g, seen, seeds) && x !in seen ==> x in g && g[x] <= Grown(g, seen, seeds)
  {
    forall x | x in seeds && x !in seen ensures Reach(g, seen, seeds, x) { ReachSeed(g, seen, seeds, x); }
    forall x, y | Reach(g, seen, seeds, x) && Edge(g, x, y) && y !in seen ensures Reach(g, seen, seeds, y) {
      ReachStep(g, seen, seeds, x, y);
    }
    forall x | x in Grown(g, seen, seeds) && x !in seen ensures x in g && g[x] <= Grown(g, seen, seeds) {
      assert forall y :: y in g[x] ==> Edge(g, x, y);
    }
  }

  /** The closure is the least closed set with the seeds in it. */
  lemma {:induction false} ClosureLeast(g: Graph, seeds: set<string>)
    requires Total(g) && seeds <= g.Keys
    ensures seeds <= Closure(g, seeds) && Closed(g, Closure(g, seeds))
    ensures forall t :: seeds <= t && Closed(g, t) ==> Closure(g, seeds) <= t
  {
    GrownExpanded(g, {}, seeds);
    forall t | seeds <= t && Closed(g, t) ensures Closure(g, seeds) <= t { ReachInside(g, {}, seeds, t); }
  }

  lemma {:induction false} GrownInside(g: Graph, seen: set<string>, seeds: set<string>, t: set<string>)
    requires seeds <= t && Closed(g, t)
    ensures Grown(g, seen, seeds) <= seen + t
  {
    ReachInside(g, seen, seeds, t);
  }

  /** A set as a list, in some order. */
  method ListOf(s: set<string>) returns (list: seq<string>)
    ensures (forall x :: x in list <==> x in s) && Distinct(list)
  {
    list := [];
    var rest := s;
    while rest != {}
      invariant rest <= s && Distinct(list) && forall x :: x in list <==> x in s && x !in rest
      decreases |rest|
    {
      var x :| x in rest;
      list := list + [x];
      rest := rest - {x};
    }
  }

  lemma {:induction false} Shrinks(g: Graph, selected: set<string>, x: string)
    requires x in g && x !in selected
    ensures |g.Keys - (selected + {x})| < |g.Keys - selected|
  {
    assert g.Keys - (selected + {x}) == g.Keys - selected - {x};
  }

  ghost predicate Growing(g: Graph, seen: set<string>, seeds: set<string>, selected: set<string>, stack: seq<string>) {
    && (forall x :: x in stack ==> x in g && (x in seen || Reach(g, seen, seeds, x)))
    && seen <= selected <= Grown(g, seen, seeds)
    && (forall x :: x in seeds ==> x in selected || x in stack)
    && (forall x, y :: x in selected && x !in seen && Edge(g, x, y) ==> y in selected || y in stack)
  }

  lemma {:induction false} GrowingDone(g: Graph, seen: set<string>, seeds: set<string>, selected: set<string>)
    requires Growing(g, seen, seeds, selected, [])
    ensures selected == Grown(g, seen, seeds)
  {
    hide Reach;
    forall x | x in selected && x !in seen && x in g ensures g[x] <= selected {
      forall y | y in g[x] ensures y in selected { assert Edge(g, x, y); }
    }
    ReachInside(g, seen, seeds, selected);
  }

  lemma {:induction false} GrowingStep(g: Graph, seen: set<string>, seeds: set<string>, selected: set<string>,
        stack: seq<string>, x: string, more: seq<string>)
    requires Total(g) && Growing(g, seen, seeds, selected, stack + [x]) && x !in selected
    requires x in g && forall y :: y in more <==> y in g[x]
    ensures Growing(g, seen, seeds, selected + {x}, stack + more)
  {
    assert x in stack + [x];
    hide Reach;
    forall y | y in more && y !in seen ensures Reach(g, seen, seeds, y) {
      assert Edge(g, x, y);
      ReachStep(g, seen, seeds, x, y);
    }
    forall u, y | u in selected + {x} && u !in seen && Edge(g, u, y) ensures y in selected + {x} || y in stack + more {
      if u != x { assert y in selected || y in stack + [x]; }
    }
    assert forall y :: y in stack ==> y in stack + [x];
    forall y | y in seeds ensures y in selected + {x} || y in stack + more { assert y in selected || y in stack + [x]; }
  }
}

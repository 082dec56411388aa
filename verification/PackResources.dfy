/** Collecting the resources of a pack: every file its documents link to, directly or not. */
module PackResources {
  import opened Text
  import opened Closures

  /** The repository as the collector sees it. `documents` holds, by source path, the link targets of each
      readable text document, in order; `files` the paths, from the root, of the files there are; `resolve`
      the path from the root that a link of a source leads to, if it stays inside; `place` a file's source. */
  datatype World = World(
    documents: map<string, seq<string>>,
    files: set<string>,
    resolve: (string, string) -> Option<string>,
    place: string -> string)

  datatype LinkError = LeavesRepository(resource: string, target: string)
    | DoesNotExist(resource: string, target: string)

  /** What a link means: nothing to collect, a fault, or a file. */
  datatype Link = Nothing | Outside | Missing | To(resource: string)

  predicate External(target: string) {
    || StartsWith(target, "http://") || StartsWith(target, "https://") || StartsWith(target, "mailto:")
    || StartsWith(target, "skill://") || StartsWith(target, "#")
    || exists i :: 0 <= i <= |target| && StartsWith(target[i..], "{{")
  }

  /** Text with braces for a value to come. */
  predicate Templated(target: string, before: string, after: string) { target == before + "{{" + after }

  /** Which targets lead out of the repository's files: four schemes, a fragment alone, and templates. */
  lemma {:induction false} ExternalForms(target: string)
    ensures External(target) <==>
            || (exists rest :: target == "http://" + rest) || (exists rest :: target == "https://" + rest)
            || (exists rest :: target == "mailto:" + rest) || (exists rest :: target == "skill://" + rest)
            || (target != "" && target[0] == '#') || exists before, after :: Templated(target, before, after)
  {
    StartForm(target, "http://");
    StartForm(target, "https://");
    StartForm(target, "mailto:");
    StartForm(target, "skill://");
    assert target != "" ==> target[..1] == [target[0]];
    assert StartsWith(target, "#") <==> target != "" && target[0] == '#';
    if i :| 0 <= i <= |target| && StartsWith(target[i..], "{{") {
      assert target == target[..i] + "{{" + target[i + 2..];
      assert Templated(target, target[..i], target[i + 2..]);
    }
    if before, after :| Templated(target, before, after) {
      assert target[|before|..] == "{{" + after && ("{{" + after)[..2] == "{{";
    }
  }

  /** The target before its fragment. */
  function RawPath(target: string): (path: string)
    ensures path <= target && '#' !in path && (|path| < |target| ==> target[|path|] == '#')
  {
    if target == "" || target[0] == '#' then "" else [target[0]] + RawPath(target[1..])
  }

  function LinkOf(w: World, source: string, target: string): Link {
    if External(target) || RawPath(target) == "" then Nothing
    else
      match w.resolve(source, RawPath(target))
      case None => Outside
      case Some(resource) => if resource in w.files then To(resource) else Missing
  }

  function LinksOf(w: World, source: string): seq<string> { if source in w.documents then w.documents[source] else [] }

  predicate Faulty(w: World, source: string, target: string) {
    target in LinksOf(w, source) && (LinkOf(w, source, target).Outside? || LinkOf(w, source, target).Missing?)
  }

  predicate LinksTo(w: World, source: string, resource: string) {
    exists t :: t in LinksOf(w, source) && LinkOf(w, source, t) == To(resource)
  }

  /** What a target with a fragment or none means: nothing if it leads out or has no path; otherwise it leaves the
      repository, leads to no file, or to one. */
  lemma {:induction false} LinkForms(w: World, source: string, path: string, fragment: string)
    requires '#' !in path && (fragment == "" || fragment[0] == '#')
    ensures var link := LinkOf(w, source, path + fragment);
      if External(path + fragment) || path == "" then link == Nothing
      else if w.resolve(source, path).None? then link == Outside
      else if w.resolve(source, path).value in w.files then link == To(w.resolve(source, path).value)
      else link == Missing
  {
    hide External;
    RawOf(path, fragment);
  }

  lemma {:induction false} RawOf(path: string, fragment: string)
    requires '#' !in path && (fragment == "" || fragment[0] == '#')
    ensures RawPath(path + fragment) == path
    decreases |path|
  {
    if path == "" {
      assert path + fragment == fragment;
    } else {
      assert (path + fragment)[1..] == path[1..] + fragment;
      RawOf(path[1..], fragment);
    }
  }

  /** A document links to the files its own targets lead to; what is no document links to nothing. */
  lemma {:induction false} LinksOfDocument(w: World, source: string, resource: string)
    ensures LinksTo(w, source, resource) <==>
            source in w.documents && exists t :: t in w.documents[source] && LinkOf(w, source, t) == To(resource)
    ensures forall t :: Faulty(w, source, t) <==>
            source in w.documents && t in w.documents[source] && LinkOf(w, source, t) in {Outside, Missing}
  {}

  /** The source of a resource: the one it was listed with, or its place in the repository. */
  function SourceOf(w: World, initial: map<string, string>, resource: string): string {
    if resource in initial then initial[resource] else w.place(resource)
  }

  /** Which resource links to which. */
  function LinkGraph(w: World, initial: map<string, string>): (g: Graph)
    ensures Total(g) && initial.Keys <= g.Keys && w.files <= g.Keys
    ensures forall x, y :: Edge(g, x, y) <==> x in g && LinksTo(w, SourceOf(w, initial, x), y)
  {
    map x | x in initial.Keys + w.files :: (set y | y in w.files && LinksTo(w, SourceOf(w, initial, x), y))
  }

  ghost function Linked(w: World, initial: map<string, string>): set<string> {
    Closure(LinkGraph(w, initial), initial.Keys)
  }

  /** The resources so far are linked ones, each with its source. */
  ghost predicate Collected(w: World, initial: map<string, string>, resources: map<string, string>) {
    && initial.Keys <= resources.Keys <= Linked(w, initial)
    && forall x :: x in resources ==> resources[x] == SourceOf(w, initial, x)
  }

  /** The first links of a source are faultless and their files are resources. */
  predicate Followed(w: World, source: string, n: nat, keys: set<string>) {
    n <= |LinksOf(w, source)| && forall k :: 0 <= k < n ==> Fine(LinkOf(w, source, LinksOf(w, source)[k]), keys)
  }

  predicate Fine(link: Link, keys: set<string>) { link.Nothing? || (link.To? && link.resource in keys) }

  predicate Done(w: World, source: string, keys: set<string>) { Followed(w, source, |LinksOf(w, source)|, keys) }

  ghost predicate Explained(w: World, initial: map<string, string>, e: LinkError) {
    e.resource in Linked(w, initial) &&
    var source := SourceOf(w, initial, e.resource);
    e.target in LinksOf(w, source) &&
    match e
    case LeavesRepository(_, t) => LinkOf(w, source, t).Outside?
    case DoesNotExist(_, t) => LinkOf(w, source, t).Missing?
  }

  lemma {:induction false} LinkedStep(w: World, initial: map<string, string>, x: string, t: string)
    requires x in Linked(w, initial) && t in LinksOf(w, SourceOf(w, initial, x)) &&
      LinkOf(w, SourceOf(w, initial, x), t).To?
    ensures var y := LinkOf(w, SourceOf(w, initial, x), t).resource; y in Linked(w, initial) && y in w.files
  {
    var g, y := LinkGraph(w, initial), LinkOf(w, SourceOf(w, initial, x), t).resource;
    ClosureLeast(g, initial.Keys);
    assert LinksTo(w, SourceOf(w, initial, x), y);
    assert Edge(g, x, y);
  }

  ghost predicate LinkClosed(w: World, initial: map<string, string>, s: set<string>) {
    forall x, y ::
      x in s && (x in initial || x in w.files) && y in w.files && LinksTo(w, SourceOf(w, initial, x), y) ==> y in s
  }

  /** The linked resources are the least set with the listed ones that every link stays in. */
  lemma {:induction false} LinkedLeast(w: World, initial: map<string, string>)
    ensures initial.Keys <= Linked(w, initial) <= initial.Keys + w.files && LinkClosed(w, initial, Linked(w, initial))
    ensures forall s :: initial.Keys <= s && LinkClosed(w, initial, s) ==> Linked(w, initial) <= s
  {
    var g := LinkGraph(w, initial);
    ClosureLeast(g, initial.Keys);
    hide Closure, LinksTo, SourceOf;
    var all := Closure(g, initial.Keys);
    forall x, y | x in all && x in g && y in w.files && LinksTo(w, SourceOf(w, initial, x), y) ensures y in all {
      assert Edge(g, x, y);
    }
    assert Closed(g, g.Keys);
    forall s | initial.Keys <= s && LinkClosed(w, initial, s) ensures Linked(w, initial) <= s {
      forall x, y | x in s && x in g && y in g[x] ensures y in s { assert Edge(g, x, y); }
      assert Closed(g, s);
    }
  }

  lemma {:induction false} DoneFollows(w: World, source: string, keys: set<string>)
    requires Done(w, source, keys)
    ensures forall y :: LinksTo(w, source, y) ==> y in keys
    ensures forall t :: !Faulty(w, source, t)
  {
    hide LinkOf, LinksOf;
  }

  /** Resources whose every link is followed are all the linked ones, and none of them has a faulty link. */
  lemma {:induction false} AllFollowed(w: World, initial: map<string, string>, resources: map<string, string>)
    requires Collected(w, initial, resources) && forall x :: x in resources ==> Done(w, resources[x], resources.Keys)
    ensures resources.Keys == Linked(w, initial)
    ensures forall x, t :: x in Linked(w, initial) ==> !Faulty(w, SourceOf(w, initial, x), t)
  {
    hide Done, LinksTo, Faulty, SourceOf, Closure;
    var g := LinkGraph(w, initial);
    ClosureLeast(g, initial.Keys);
    forall x | x in resources ensures (x in g ==> g[x] <= resources.Keys) && forall t :: !Faulty(w, resources[x], t) {
      DoneFollows(w, resources[x], resources.Keys);
      assert x in g ==> forall y :: y in g[x] ==> Edge(g, x, y);
    }
    assert Closed(g, resources.Keys);
  }

  class Resources {
    var entries: map<string, string>

    constructor (initial: map<string, string>)
      ensures entries == initial
    {
      entries := initial;
    }

    /** Follows the links of one resource: a file not yet listed is added and put on the queue. */
    method FollowLinks(w: World, resource: string, waiting: seq<string>, ghost initial: map<string, string>)
      returns (queue: seq<string>, error: Option<LinkError>)
      requires resource in entries && Collected(w, initial, entries) && forall x :: x in waiting ==> x in entries
      modifies this
      ensures Collected(w, initial, entries) && old(entries).Keys <= entries.Keys <= old(entries).Keys + w.files
      ensures forall x :: x in waiting ==> x in queue
      ensures forall x :: x in queue ==> x in entries
      ensures forall x :: x in entries && x !in old(entries) ==> x in queue
      ensures |queue| == |waiting| ==> entries == old(entries) && queue == waiting
      ensures |queue| > |waiting| ==> old(entries).Keys < entries.Keys
      ensures error.None? ==> |queue| >= |waiting| && Done(w, entries[resource], entries.Keys)
      ensures error.Some? ==> Explained(w, initial, error.value)
    {
      hide Linked, LinkOf, LinksOf, SourceOf;
      var source := entries[resource];
      var links := LinksOf(w, source);
      queue := waiting;
      for i := 0 to |links|
        invariant Collected(w, initial, entries) && old(entries).Keys <= entries.Keys <= old(entries).Keys + w.files
        invariant resource in entries && entries[resource] == source
        invariant forall x :: x in waiting ==> x in queue
        invariant forall x :: x in queue ==> x in entries
        invariant forall x :: x in entries && x !in old(entries) ==> x in queue
        invariant |queue| >= |waiting|
        invariant |queue| == |waiting| ==> entries == old(entries) && queue == waiting
        invariant |queue| > |waiting| ==> old(entries).Keys < entries.Keys
        invariant Followed(w, source, i, entries.Keys)
      {
        var target := links[i];
        assert target in links;
        var link := LinkOf(w, source, target);
        if link.Outside? { return queue, Some(LeavesRepository(resource, target)); }
        if link.Missing? { return queue, Some(DoesNotExist(resource, target)); }
        if link.To? {
          LinkedStep(w, initial, resource, target);
          if link.resource !in entries {
            NewSource(w, initial, entries, link.resource);
            entries := entries[link.resource := w.place(link.resource)];
            queue := queue + [link.resource];
          }
        }
      }
      error := None;
    }

    /** Adds every linked file, or stops at the first faulty link met. */
    method Collect(w: World) returns (error: Option<LinkError>)
      modifies this
      ensures Collected(w, old(entries), entries)
      ensures error.None? ==> entries.Keys == Linked(w, old(entries))
      ensures error.None? <==>
        forall x, t :: x in Linked(w, old(entries)) ==> !Faulty(w, SourceOf(w, old(entries), x), t)
      ensures error.Some? ==> Explained(w, old(entries), error.value)
    {
      hide LinkGraph, Linked, LinkOf, LinksOf, Done, Explained, SourceOf, Faulty, Collected;
      ghost var initial := entries;
      ghost var universe := entries.Keys + w.files;
      StartCollected(w, initial);
      var queue := ListOf(entries.Keys);
      while queue != []
        invariant Collected(w, initial, entries) && entries.Keys <= universe
        invariant forall x :: x in queue ==> x in entries
        invariant forall x :: x in entries && x !in queue ==> Done(w, entries[x], entries.Keys)
        decreases |universe - entries.Keys|, |queue|
      {
        ghost var before, was := entries, queue;
        var resource, rest := queue[|queue| - 1], queue[..|queue| - 1];
        Popped(was);
        queue, error := FollowLinks(w, resource, rest, initial);
        if error.Some? {
          ExplainedFaulty(w, initial, error.value);
          return;
        }
        StillAll(w, initial, before, entries, was, queue, resource);
        if |queue| > |rest| { Fewer(universe, before.Keys, entries.Keys); }
      }
      AllFollowed(w, initial, entries);
      error := None;
    }
  }

  lemma {:induction false} NewSource(w: World, initial: map<string, string>, resources: map<string, string>,
        resource: string)
    requires Collected(w, initial, resources) && resource !in resources
    ensures SourceOf(w, initial, resource) == w.place(resource)
  {}

  lemma {:induction false} StartCollected(w: World, initial: map<string, string>)
    ensures Collected(w, initial, initial)
  {
    ClosureLeast(LinkGraph(w, initial), initial.Keys);
  }

  lemma {:induction false} ExplainedFaulty(w: World, initial: map<string, string>, e: LinkError)
    requires Explained(w, initial, e)
    ensures e.resource in Linked(w, initial) && Faulty(w, SourceOf(w, initial, e.resource), e.target)
  {
    hide LinkOf, LinksOf, SourceOf, Linked;
  }

  /** Following one resource's links leaves every resource not on the queue followed. */
  lemma {:induction false} StillAll(w: World, initial: map<string, string>, before: map<string, string>,
        now: map<string, string>, was: seq<string>, queue: seq<string>, resource: string)
    requires Collected(w, initial, before) && Collected(w, initial, now) && before.Keys <= now.Keys
    requires resource in now && Done(w, now[resource], now.Keys)
    requires forall x :: x in before && x !in was ==> Done(w, before[x], before.Keys)
    requires forall x :: x in now && x !in before ==> x in queue
    requires forall x :: x in was ==> x == resource || x in queue
    ensures forall x :: x in now && x !in queue ==> Done(w, now[x], now.Keys)
  {
    forall x | x in now && x !in queue && x != resource ensures Done(w, now[x], now.Keys) {
    }
  }

  lemma {:induction false} Popped(queue: seq<string>)
    requires queue != []
    ensures forall x :: x in queue <==> x in queue[..|queue| - 1] || x == queue[|queue| - 1]
  {
    assert queue == queue[..|queue| - 1] + [queue[|queue| - 1]];
  }

  lemma {:induction false} Fewer(universe: set<string>, before: set<string>, now: set<string>)
    requires before < now <= universe
    ensures |universe - now| < |universe - before|
  {
    Smaller(universe - now, universe - before);
  }

  lemma {:induction false} Smaller(a: set<string>, b: set<string>)
    requires a < b
    ensures |a| < |b|
  {
    assert b == a + (b - a) && b - a != {};
  }
}
